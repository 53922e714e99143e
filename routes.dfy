/** The request handlers around the sessions: opening an event stream
    (`GET /stream`), resolving the session a URL names (`checkSession`), and
    the hook and control routes built on it. Each route is a call to
    CheckSession followed by the session's handler. */
module Routes {
  import opened JsValues
  import opened EventStream
  import Strings
  import opened Webhook

  /** The session id a request URL names: part 2 of `url.split('/')`, or
      nothing when the URL splits into fewer than three parts. */
  function UrlSessionId(url: string): (r: Option<string>)
    ensures r.Some? <==> Strings.Count(url, '/') >= 2
    ensures r.Some? ==> '/' !in r.value
  {
    var parts := Strings.Split(url, '/');
    Strings.SplitLength(url, '/');
    if |parts| < 3 then None else Some(parts[2])
  }

  /** The session `checkSession` resolves a URL to, or null. */
  function Resolve(sessions: seq<Session>, url: string): (r: Session?)
    ensures r != null ==> r in sessions && UrlSessionId(url) == Some(r.uuid)
    ensures r == null <==>
      UrlSessionId(url).None? || forall i :: 0 <= i < |sessions| ==> sessions[i].uuid != UrlSessionId(url).value
  {
    match UrlSessionId(url)
    case None => null
    case Some(id) => Lookup(sessions, id)
  }

  /** For a URL `/route/rest`, the id is the part of rest before its first
      slash: `/hook/abc/more` names abc. */
  lemma {:induction false} UrlSessionIdOfRoute(route: string, rest: string)
    requires '/' !in route
    ensures UrlSessionId("/" + route + "/" + rest) == Some(Strings.Split(rest, '/')[0])
  {
    var url := "/" + route + "/" + rest;
    assert url == "" + ['/'] + (route + ['/'] + rest);
    Strings.SplitAfterPrefix("", route + ['/'] + rest, '/');
    Strings.SplitAfterPrefix(route, rest, '/');
  }

  /** A query string glued to the id becomes part of the id, so when no
      live id holds a '?' such a URL names no session. */
  lemma QueryDoesNotResolve(sessions: seq<Session>, route: string, id: string, query: string)
    requires '/' !in route && '/' !in id && '/' !in query
    requires forall i :: 0 <= i < |sessions| ==> '?' !in sessions[i].uuid
    ensures UrlSessionId("/" + route + "/" + id + "?" + query) == Some(id + "?" + query)
    ensures Resolve(sessions, "/" + route + "/" + id + "?" + query) == null
  {
    var rest := id + "?" + query;
    assert "/" + route + "/" + id + "?" + query == "/" + route + "/" + rest;
    assert '/' !in rest;
    assert Strings.IndexOf(rest, '/') == |rest|;
    UrlSessionIdOfRoute(route, rest);
    assert rest[|id|] == '?';
  }

  /** `checkSession`: the session whose id is exactly part 2 of the URL.
      When there is none, the 404 reply with an empty body is returned
      beside null. */
  method CheckSession(registry: Registry, url: string) returns (s: Session?, rejection: Option<Reply>)
    ensures s == Resolve(registry.sessions, url)
    ensures s != null ==> s in registry.sessions && UrlSessionId(url) == Some(s.uuid)
    ensures s == null <==> rejection == Some(NotFoundReply)
    ensures s != null ==> rejection == None
  {
    var parts := Strings.Split(url, '/');
    if |parts| < 3 {
      return null, Some(NotFoundReply);
    }
    s := registry.Find(parts[2]);
    if s == null {
      return null, Some(NotFoundReply);
    }
    rejection := None;
  }

  /** `GET /stream`: creates a session with the given fresh id, binds its
      listener and sends the `start` event carrying `{uuid}` as frame 0. */
  method OpenStream(registry: Registry, uuid: string, enc: Json -> string) returns (s: Session)
    requires registry.Valid() && FirstIndex(registry.sessions, uuid).None?
    modifies registry
    ensures registry.Valid() && fresh(s) && s.Valid()
    ensures registry.sessions == old(registry.sessions) + [s]
    ensures s.uuid == uuid && s.listenerBound && s.hookId == 0 && s.hookList == []
    ensures s.frames == [Frame("0", Str("start"), enc(StartPayload(uuid)))] && s.sseCounter == 1
    ensures s.written == ["id: 0\n", "event: start\n", "data: " + enc(StartPayload(uuid)) + "\n\n"]
  {
    s := registry.Create(uuid);
    s.Init();
    s.Send(StartPayload(s.uuid), Str("start"), Undefined, enc);
    assert Decimal(0) == "0";
    assert Truthy(Str("start")) && Text(Str("start")) == "start";
    assert "id: " + "0" + "\n" == "id: 0\n";
    assert "event: " + "start" + "\n" == "event: start\n";
  }

  /** The hook routes (GET and POST under `/hook/`): a URL naming no live session gets 404 and an
      empty body and changes nothing; otherwise the named session captures
      the call and the reply is 200 with `{}`. No other session changes. */
  method HookRoute(registry: Registry, req: Request, enc: Json -> string) returns (reply: Reply)
    requires forall s :: s in registry.sessions ==> s.Valid()
    modifies registry.sessions
    ensures forall s :: s in registry.sessions ==> s.Valid()
    ensures var t := Resolve(registry.sessions, req.url);
      && (t == null ==> reply == NotFoundReply)
      && (t != null ==>
          && reply == EmptyObjectReply
          && t.hookId == old(t.hookId) + 1
          && t.hookList == old(t.hookList) + [HookRecord(t.hookId, req.body, req.headers, req.httpMethod, req.originalUrl)]
          && t.listenerBound == old(t.listenerBound)
          && (old(t.listenerBound) ==>
                && t.frames == old(t.frames) + [Frame(Decimal(old(t.sseCounter)), Str("hook"), enc(HookPayload(t.hookList[|t.hookList| - 1])))]
                && t.sseCounter == old(t.sseCounter) + 1)
          && (!old(t.listenerBound) ==> t.written == old(t.written)))
    ensures forall s :: s in registry.sessions && s != Resolve(registry.sessions, req.url) ==> unchanged(s)
  {
    var s, rejection := CheckSession(registry, req.url);
    if s == null {
      return rejection.value;
    }
    reply := s.HookRequest(req, enc);
  }

  /** The control route (POST under `/control/`): 404 with an empty body for a URL naming no live
      session, otherwise 200 with `{}`; nothing changes either way. */
  method ControlRoute(registry: Registry, req: Request) returns (reply: Reply)
    ensures Resolve(registry.sessions, req.url) == null ==> reply == NotFoundReply
    ensures Resolve(registry.sessions, req.url) != null ==> reply == EmptyObjectReply
  {
    var s, rejection := CheckSession(registry, req.url);
    if s == null {
      return rejection.value;
    }
    reply := s.ControlRequest(req);
  }

  /** A serialiser that never emits a raw line terminator, as JSON.stringify
      does not. */
  ghost predicate SingleLineEncoder(enc: Json -> string) {
    forall j :: OneLine(enc(j))
  }

  /** The frames of a stream that saw `start` and two hook calls. */
  function StartAndTwoHooks(uuid: string, r1: HookRecord, r2: HookRecord, enc: Json -> string): seq<Frame> {
    [Frame("0", Str("start"), enc(StartPayload(uuid))),
     Frame("1", Str("hook"), enc(HookPayload(r1))),
     Frame("2", Str("hook"), enc(HookPayload(r2)))]
  }

  /** A client decodes such a stream as `start` with id 0, then the two
      `hook` events with ids 1 and 2. */
  lemma StartAndTwoHooksDecode(uuid: string, r1: HookRecord, r2: HookRecord, enc: Json -> string)
    requires SingleLineEncoder(enc)
    ensures Parse(Concat(Writes(StartAndTwoHooks(uuid, r1, r2, enc))), Initial())
         == [Event("0", "start", enc(StartPayload(uuid))),
             Event("1", "hook", enc(HookPayload(r1))),
             Event("2", "hook", enc(HookPayload(r2)))]
  {
    var frames := StartAndTwoHooks(uuid, r1, r2, enc);
    assert Decimal(0) == "0" && Decimal(1) == "1" && Decimal(2) == "2";
    assert Truthy(Str("start")) && Text(Str("start")) == "start";
    assert Truthy(Str("hook")) && Text(Str("hook")) == "hook";
    forall i | 0 <= i < |frames| ensures WellFormed(frames[i]) {
      assert OneLine(frames[i].data);
      assert OneLine(Text(frames[i].event));
    }
    StreamRoundTrip(frames, "");
    assert frames[1..][1..][1..] == [];
    assert Events(frames[1..][1..][1..]) == [];
    assert Events(frames[1..][1..]) == [EventOf(frames[2])];
    assert Events(frames[1..]) == [EventOf(frames[1]), EventOf(frames[2])];
  }

  /** A stream is opened and two hook calls reach its session: they are
      numbered 1 and 2 and logged in arrival order, both are answered 200
      with `{}`, and the client decodes `start` with id 0 followed by the two
      `hook` events with ids 1 and 2. */
  method StreamThenTwoHooks(uuid: string, req1: Request, req2: Request, enc: Json -> string)
    returns (received: seq<Event>, replies: seq<Reply>, log: seq<HookRecord>)
    requires '/' !in uuid && SingleLineEncoder(enc)
    requires req1.url == "/hook/" + uuid && req2.url == "/hook/" + uuid
    ensures log == [HookRecord(1, req1.body, req1.headers, req1.httpMethod, req1.originalUrl),
                    HookRecord(2, req2.body, req2.headers, req2.httpMethod, req2.originalUrl)]
    ensures replies == [EmptyObjectReply, EmptyObjectReply]
    ensures received == [Event("0", "start", enc(StartPayload(uuid))),
                         Event("1", "hook", enc(HookPayload(log[0]))),
                         Event("2", "hook", enc(HookPayload(log[1])))]
  {
    var registry := new Registry();
    var s := OpenStream(registry, uuid, enc);
    ResolvesOwnId(registry.sessions, s, "hook");
    assert "/" + "hook" + "/" + uuid == req1.url == req2.url;
    var reply1 := HookRoute(registry, req1, enc);
    assert s.hookList == [HookRecord(1, req1.body, req1.headers, req1.httpMethod, req1.originalUrl)];
    assert s.sseCounter == 2 && s.listenerBound;
    var reply2 := HookRoute(registry, req2, enc);
    replies := [reply1, reply2];
    log := s.hookList;
    assert s.frames == StartAndTwoHooks(uuid, log[0], log[1], enc);
    StartAndTwoHooksDecode(uuid, log[0], log[1], enc);
    received := Parse(Concat(s.written), Initial());
  }

  /** In a list with distinct ids, `/route/<id>` resolves to the session
      with that id. */
  lemma ResolvesOwnId(sessions: seq<Session>, s: Session, route: string)
    requires DistinctUuids(sessions) && s in sessions
    requires '/' !in route && '/' !in s.uuid
    ensures Resolve(sessions, "/" + route + "/" + s.uuid) == s
  {
    assert Strings.IndexOf(s.uuid, '/') == |s.uuid|;
    UrlSessionIdOfRoute(route, s.uuid);
    var k :| 0 <= k < |sessions| && sessions[k] == s;
  }

  /** After the stream closes, a hook call to its id gets 404 with an empty
      body and nothing more is written to the closed stream. */
  method HookAfterClose(uuid: string, req: Request, enc: Json -> string)
    returns (reply: Reply, written: seq<string>)
    requires '/' !in uuid && req.url == "/hook/" + uuid
    ensures reply == NotFoundReply
    ensures written == ["id: 0\n", "event: start\n", "data: " + enc(StartPayload(uuid)) + "\n\n"]
  {
    var registry := new Registry();
    var s := OpenStream(registry, uuid, enc);
    s.Close(registry);
    LookupAfterRemove([s], uuid);
    assert Strings.IndexOf(uuid, '/') == |uuid|;
    UrlSessionIdOfRoute("hook", uuid);
    assert "/" + "hook" + "/" + uuid == req.url;
    reply := HookRoute(registry, req, enc);
    s.Send(StartPayload(uuid), Str("start"), Undefined, enc);
    written := s.written;
  }

  /** Two streams are open and a hook call names the first: the second
      stream still carries only its own `start` event and no hook record. */
  method SessionsAreIndependent(uuid1: string, uuid2: string, req: Request, enc: Json -> string)
    returns (written2: seq<string>, log2: seq<HookRecord>, log1: seq<HookRecord>)
    requires uuid1 != uuid2 && '/' !in uuid1 && req.url == "/hook/" + uuid1
    ensures written2 == ["id: 0\n", "event: start\n", "data: " + enc(StartPayload(uuid2)) + "\n\n"]
    ensures log2 == []
    ensures log1 == [HookRecord(1, req.body, req.headers, req.httpMethod, req.originalUrl)]
  {
    var registry := new Registry();
    var s1 := OpenStream(registry, uuid1, enc);
    var s2 := OpenStream(registry, uuid2, enc);
    assert registry.sessions == [s1, s2];
    ResolvesOwnId(registry.sessions, s1, "hook");
    assert s2 in registry.sessions && s2 != s1;
    assert "/" + "hook" + "/" + uuid1 == req.url;
    var reply := HookRoute(registry, req, enc);
    written2, log2, log1 := s2.written, s2.hookList, s1.hookList;
  }
}
