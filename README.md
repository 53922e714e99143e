# WebhookDemo session core in Dafny

This project models the session logic of the WebhookDemo server (`app.js`).
A browser opens `GET /stream`, which creates a session with a random id and
keeps the response open as a `text/event-stream`. The first event is `start`
and carries `{uuid}`. A GET or POST request to `/hook/<uuid>...` is then
captured:

- it gets the next hook number;
- it is appended to the session's hook list;
- it is relayed to the open stream as a `hook` event.

The caller gets `{}`. `POST /control/<uuid>` answers `{}` as well. A URL that
names no live session gets a 404 with an empty body. When the stream closes,
the session's listener is removed and the session leaves the process-wide
session list.

Modules, one per concern of the source:

- `JsValues` (js_values.dfy): the `event`/`id` arguments of `send` with
  JavaScript truthiness and template-literal text. It also holds parsed JSON
  values, and the decimal printing of the id counter with its inverse.
- `Strings` (strings.dfy): `url.split('/')` and its inverse `join`.
- `EventStream` (event_stream.dfy): the frames the data listener writes. It
  also holds a decoder that follows the event-stream parsing rules of the
  WHATWG HTML Living Standard, section 9.2.6. The decoder is used to prove
  that a client reads back exactly the events that were sent.
- `Webhook` (webhook.dfy): the `Session` class and the session list. The
  session list is a `Registry` class with a `seq` of sessions. Both are
  imperative, with `modifies` frames. The pure functions `FirstIndex`,
  `Lookup` and `RemoveFirst` specify `find` and `close`.
- `Routes` (routes.dfy): `checkSession`, the stream, hook and control
  routes, and the scenarios that tie them together.

Hook and control replies are always status 200 with `{}` (app.js:125-127,
151-153). An unknown or malformed session URL gets status 404 with an empty
body (app.js:186, 192).

Foreign parts become parameters:

- `crypto.randomUUID` becomes a `uuid` argument that no live session has.
- `JSON.stringify` becomes an arbitrary function `enc: Json -> string`. Where
  a proof needs it, `enc` is assumed never to print a raw line terminator,
  which is true of `JSON.stringify`.
- The parsed request (`req.url`, `req.originalUrl`, `req.method`,
  `req.headers`, `req.body`) is a `Request` value.
- `res.write` appends to the session's `written` sequence.
- The `EventEmitter` becomes the flag `listenerBound`.

## Model

| member | source | states |
|---|---|---|
| `JsValues.Decimal` | app.js:82 | the auto id is printed as decimal digits, at least one and with no leading zero |
| `JsValues.Truthy` | app.js:79-85 | the falsy values of a `send` argument are exactly `undefined`, `""` and `0` |
| `JsValues.DecimalRoundTrip` | app.js:82-83 | reading the printed counter back gives the counter, so distinct counter values give distinct ids |
| `JsValues.DecimalInjective` | app.js:82-83 | two counter values printed alike are equal |
| `JsValues.Text` | app.js:79-87 | the text `${v}` of a truthy `id` or `event` is non-empty; an integer prints as its decimal digits, with a minus sign when negative (JavaScript does so below 10^21 in magnitude) |
| `Strings.Split` | app.js:183 | `split('/')` gives at least one part and no part contains the separator |
| `Strings.SplitLength` | app.js:183-184 | there is one more part than there are slashes, so the "fewer than 3 parts" test means "fewer than 2 slashes" |
| `Strings.JoinSplit` | app.js:183 | joining the parts with '/' gives the URL back |
| `Strings.SplitJoin` | app.js:183 | splitting a join of slash-free parts gives the parts back |
| `Strings.SplitAfterPrefix` | app.js:183 | a slash-free prefix before a slash becomes the first part |
| `EventStream.FrameWrites` | app.js:79-88 | a frame is two `res.write` calls, or three when the event is truthy; the first is the `id: ` line, the last the `data: ` line closed by the blank line |
| `EventStream.WritesAppend` | app.js:78-90 | each frame appends its writes after everything written before |
| `EventStream.FrameRoundTrip` | app.js:78-90 | one frame decodes to one event: id = the `id:` text, type = the event when truthy else "message", data = the serialised payload |
| `EventStream.StreamRoundTrip` | app.js:78-90 | the whole output of any sequence of well-formed frames decodes to exactly one event per frame, in order |
| `Webhook.FirstIndex` | app.js:157-164 | the position found is the first in list order whose uuid matches; there is none exactly when no session matches |
| `Webhook.Lookup` | app.js:157-164 | `find` returns null exactly when no session has the id, otherwise the listed session with that id that comes first in the list |
| `Webhook.LookupAfterCreate` | app.js:52-57 | a session appended with a fresh id is found by that id; every other id finds what it found before |
| `Webhook.CreateKeepsDistinct` | app.js:55-56 | appending a session with a fresh id keeps the live ids distinct |
| `Webhook.RemoveFirst` | app.js:109-114 | `close` takes out exactly the first matching entry and keeps the others in order; with no match the list is unchanged |
| `Webhook.LookupAfterRemove` | app.js:104-115 | with distinct ids, a closed id is no longer found |
| `Webhook.LookupOtherAfterRemove` | app.js:104-115 | closing one id leaves what `find` returns for every other id unchanged |
| `Webhook.RemoveKeepsDistinct` | app.js:109-114 | removal keeps the live ids distinct |
| `Webhook.RemoveIdempotent` | app.js:109-114 | with distinct ids, closing the same id again is a no-op |
| `Webhook.StartPayload` | app.js:174-176 | the `start` payload is an object whose only key is `uuid`, holding the session id |
| `Webhook.HookPayload` | app.js:135-141 | the `hook` payload has the keys `hookId`, `body`, `headers`, `method`, `originalUrl` in that order, and a client reads exactly the captured record back from it |
| `Webhook.Session.constructor` | app.js:46-57 | a new session has hook counter 0, an empty hook list, no listener and no output |
| `Webhook.Session.Init` | app.js:59-98 | binds the listener to a fresh response whose id counter starts at 0; the hook state is unchanged |
| `Webhook.Session.Send` | app.js:78-102 | with a listener: one frame is written, using the truthy explicit id with the counter unchanged, or else the counter, which then moves on by 1; `event:` appears only for a truthy event. Without a listener nothing changes |
| `Webhook.Session.Close` | app.js:104-115 | the listener is removed and the session list becomes the list without the first entry with this uuid |
| `Webhook.Session.HookRequest` | app.js:131-155 | the counter goes up by 1, the record numbered with the new counter is appended, a `hook` frame with the next auto id is sent when a listener is bound, and the reply is 200 `{}` |
| `Webhook.Session.ControlRequest` | app.js:117-129 | the reply is 200 `{}` and nothing changes |
| `Webhook.Registry.constructor` | app.js:47 | the session list starts empty |
| `Webhook.Registry.Create` | app.js:52-57 | the new session with the given fresh uuid is appended at the end, the ids stay distinct, and `find(uuid)` returns it |
| `Webhook.Registry.Find` | app.js:157-164 | the linear scan returns the first session in list order whose uuid matches, or null; the list is not changed |
| `Webhook.Registry.Remove` | app.js:109-114 | the splice loop leaves the list without its first matching entry, and the uuid is no longer found |
| `Routes.UrlSessionId` | app.js:183-189 | part 2 of the split URL exists exactly when the URL has at least two slashes, and it holds no slash |
| `Routes.Resolve` | app.js:182-197 | a URL resolves to a listed session whose uuid is part 2 of the split URL; it resolves to null exactly when there is no part 2 or no session has that id |
| `Routes.UrlSessionIdOfRoute` | app.js:183-189 | in `/route/rest` the id is the part of rest before its first slash |
| `Routes.QueryDoesNotResolve` | app.js:183-193 | a query string glued to the id stays in the looked-up id, so such a URL resolves to no session when no live id contains '?' |
| `Routes.ResolvesOwnId` | app.js:182-197 | with distinct ids, `/route/<uuid>` resolves to the session with that uuid |
| `Routes.CheckSession` | app.js:182-197 | the result is the session whose uuid is exactly part 2 of the URL; otherwise null, with the 404 empty-body reply |
| `Routes.OpenStream` | app.js:170-180 | the new session is appended to the list and bound, and its output is exactly the frame `id: 0`, `event: start`, `data: <{uuid}>`; the counter is then 1 |
| `Routes.HookRoute` | app.js:208-224 | an unresolved URL gets 404 and an empty body; otherwise the named session captures the call and the reply is 200 `{}`; no other session changes |
| `Routes.ControlRoute` | app.js:199-206 | 404 with an empty body for an unresolved URL, otherwise 200 `{}` |
| `Routes.StartAndTwoHooksDecode` | app.js:146 | a stream carrying `start` and two hook frames decodes to `start` with id 0, then `hook` with ids 1 and 2 |
| `Routes.StreamThenTwoHooks` | app.js:131-180 | after the stream opens, two hook calls are numbered 1 and 2 and logged in order, both get `{}`, and the client receives `start` (id 0) and then the two `hook` events (ids 1, 2) |
| `Routes.HookAfterClose` | app.js:92-115 | after close, a hook call to the closed id gets 404, and a later `send` on the session writes nothing |
| `Routes.SessionsAreIndependent` | app.js:208-215 | a hook call to one session leaves another session's stream and hook list untouched |

## Left out

- Express set-up, the CORS middleware, static file serving and the HTTP
  listener (app.js:18-44, 226-235) are framework plumbing. Routes are modelled
  as CheckSession followed by the handler.
- The commented-out `/serverConfig` block is not modelled.
- Socket options, response headers and the HTTP-version test in `init`
  (app.js:67-77) are transport configuration.
- The `req.on('close')` wiring and the async handlers are not modelled. A
  disconnect is an explicit call to `Session.Close`, and each handler runs to
  completion.
- `crypto.randomUUID` is not modelled. `Create` requires a uuid that no live
  session has. Reuse of a closed session's uuid is therefore not excluded.
- `JSON.stringify` and the body parser are not modelled. `enc` is an
  arbitrary function, and bodies and headers are opaque `Json` values with
  integer numbers only.
- `console.log` output is not modelled.
- EventEmitter internals are not modelled. A session has at most one bound
  listener.
- JsValues.Text: prints every integer as plain decimal digits. JavaScript
  prints integers of magnitude 10^21 or more in exponent form (`1e+21`), so
  `Num` stands for integers below 10^21 in magnitude. Such values could only
  reach `Text` as an explicit `id` or `event` passed to `send`, and no caller
  in app.js passes one.
- Webhook.Session.Send: the stream-id counter `sseCounter` is an unbounded
  natural. In JavaScript it is a double, and `id += 1` (app.js:83) stops
  changing at 2^53. The stream ids are therefore distinct only below 2^53 in
  the source.
- Webhook.Session.HookRequest: the hook counter `hookId` is an unbounded
  natural. In JavaScript `++this.hookId` (app.js:136) stops changing at
  2^53. Gap-free hook numbering therefore holds only below 2^53 in the
  source.
- Webhook.Session.Init: requires that no listener is bound. The source calls
  `init` once, on a fresh session. A second call would register a second
  listener, and the model does not represent that.
- The `event` and `id` arguments of `send` are undefined, a string or an
  integer. `null`, `false`, `NaN`, floats and objects are not modelled.
- Node's `removeListener` throws when `close` runs before `init`. This is not
  modelled; the source only reaches `close` after `init`.
- The decoder omits parts of section 9.2.6 of the WHATWG HTML Living Standard
  that the server never produces:
  - a byte-order mark;
  - the reconnection time set by `retry`;
  - a CR split across network chunks;
  - the event's origin.
- Webhook.Session.HookRequest: says nothing about the frame's exact text
  beyond what `Send` and `WritesAppend` give. The client-side reading is
  proved in `StreamRoundTrip`.
