/** The server's sessions: the process-wide session list (create, find,
    close), each session's captured hook requests, and the per-connection
    event-stream listener that turns `send` calls into frames on the open
    response. */
module Webhook {
  import opened JsValues
  import opened EventStream

  /** A captured hook call (`requestObj`): its number in the session and
      what the request carried. */
  datatype HookRecord = HookRecord(hookId: nat, body: Json, headers: Json, httpMethod: string, originalUrl: string)

  /** What the handlers read of an inbound request. */
  datatype Request = Request(url: string, originalUrl: string, httpMethod: string, headers: Json, body: Json)

  /** An HTTP reply: status code and body text. */
  datatype Reply = Reply(status: nat, body: string)

  /** The keys of an object's members, in order. */
  function Keys(members: seq<(string, Json)>): seq<string> {
    if members == [] then [] else [members[0].0] + Keys(members[1..])
  }

  /** Property access `obj[key]`: the value of the member with that key. */
  function Get(members: seq<(string, Json)>, key: string): Option<Json> {
    if members == [] then None
    else if members[0].0 == key then Some(members[0].1)
    else Get(members[1..], key)
  }

  /** How a client reads a hook event's payload back into a record; None
      when a field is missing or has the wrong type. */
  function RecordOf(j: Json): Option<HookRecord> {
    if !j.JObj? then None
    else match (Get(j.members, "hookId"), Get(j.members, "body"), Get(j.members, "headers"),
                Get(j.members, "method"), Get(j.members, "originalUrl"))
      case (Some(JNum(n)), Some(b), Some(h), Some(JStr(m)), Some(JStr(u))) =>
        if n >= 0 then Some(HookRecord(n, b, h, m, u)) else None
      case _ => None
  }

  /** The payload of the `start` event: `{uuid}`, an object whose one
      property is the session id. */
  function StartPayload(uuid: string): (j: Json)
    ensures j.JObj? && Keys(j.members) == ["uuid"]
    ensures Get(j.members, "uuid") == Some(JStr(uuid))
  {
    JObj([("uuid", JStr(uuid))])
  }

  /** The payload of a `hook` event: the record, field by field, with the
      keys in the order `requestObj` declares them; a client reads exactly
      the record back from it. */
  function HookPayload(r: HookRecord): (j: Json)
    ensures j.JObj? && Keys(j.members) == ["hookId", "body", "headers", "method", "originalUrl"]
    ensures RecordOf(j) == Some(r)
  {
    var ms := [("hookId", JNum(r.hookId)), ("body", r.body), ("headers", r.headers),
               ("method", JStr(r.httpMethod)), ("originalUrl", JStr(r.originalUrl))];
    assert Keys(ms[4..]) == ["originalUrl"];
    assert Keys(ms[3..]) == ["method", "originalUrl"];
    assert Keys(ms[2..]) == ["headers", "method", "originalUrl"];
    assert Keys(ms[1..]) == ["body", "headers", "method", "originalUrl"];
    assert Get(ms[4..], "originalUrl") == Some(JStr(r.originalUrl));
    assert Get(ms[3..], "originalUrl") == Get(ms[4..], "originalUrl");
    assert Get(ms[2..], "originalUrl") == Get(ms[3..], "originalUrl");
    assert Get(ms[1..], "originalUrl") == Get(ms[2..], "originalUrl");
    assert Get(ms, "originalUrl") == Get(ms[1..], "originalUrl");
    assert Get(ms[3..], "method") == Some(JStr(r.httpMethod));
    assert Get(ms[2..], "method") == Get(ms[3..], "method");
    assert Get(ms[1..], "method") == Get(ms[2..], "method");
    assert Get(ms, "method") == Get(ms[1..], "method");
    assert Get(ms[2..], "headers") == Some(r.headers);
    assert Get(ms[1..], "headers") == Get(ms[2..], "headers");
    assert Get(ms, "headers") == Get(ms[1..], "headers");
    assert Get(ms[1..], "body") == Some(r.body);
    assert Get(ms, "body") == Get(ms[1..], "body");
    assert Get(ms, "hookId") == Some(JNum(r.hookId));
    JObj(ms)
  }

  /** The reply of hook and control requests: status 200 and `{}`. */
  const EmptyObjectReply := Reply(200, "{}")

  /** The reply when the URL names no live session: 404 and no body. */
  const NotFoundReply := Reply(404, "")

  // ----- The session list, as values -----

  /** Whether no two sessions in the list share an id. */
  predicate DistinctUuids(list: seq<Session>) {
    forall i, j :: 0 <= i < j < |list| ==> list[i].uuid != list[j].uuid
  }

  /** The position of the first session whose id is uuid, if any. */
  function FirstIndex(list: seq<Session>, uuid: string): (r: Option<nat>)
    ensures r.None? <==> forall j :: 0 <= j < |list| ==> list[j].uuid != uuid
    ensures r.Some? ==> r.value < |list| && list[r.value].uuid == uuid
    ensures r.Some? ==> forall j :: 0 <= j < r.value ==> list[j].uuid != uuid
  {
    if list == [] then None
    else if list[0].uuid == uuid then Some(0)
    else match FirstIndex(list[1..], uuid)
      case None => None
      case Some(i) => Some(i + 1)
  }

  /** What `Session.find` returns: the first session with that id, or null. */
  function Lookup(list: seq<Session>, uuid: string): (r: Session?)
    ensures r == null <==> forall j :: 0 <= j < |list| ==> list[j].uuid != uuid
    ensures r != null ==> r in list && r.uuid == uuid
    ensures r != null ==>
      exists i :: 0 <= i < |list| && list[i] == r && forall j :: 0 <= j < i ==> list[j].uuid != uuid
  {
    match FirstIndex(list, uuid)
    case None => null
    case Some(i) => list[i]
  }

  /** The list after `close`: the first session with that id taken out, the
      list unchanged when there is none. */
  function RemoveFirst(list: seq<Session>, uuid: string): (r: seq<Session>)
    ensures FirstIndex(list, uuid).None? ==> r == list
    ensures FirstIndex(list, uuid).Some? ==>
      var i := FirstIndex(list, uuid).value;
      && |r| == |list| - 1
      && list[i].uuid == uuid
      && (forall k :: 0 <= k < i ==> r[k] == list[k])
      && (forall k :: i <= k < |list| - 1 ==> r[k] == list[k + 1])
  {
    match FirstIndex(list, uuid)
    case None => list
    case Some(i) => list[..i] + list[i + 1..]
  }

  // ----- Lemmas about the list -----

  /** A session appended with a fresh id is found by its id, and every other
      id finds what it found before. */
  lemma LookupAfterCreate(list: seq<Session>, s: Session, uuid: string)
    requires FirstIndex(list, s.uuid).None?
    ensures Lookup(list + [s], s.uuid) == s
    ensures uuid != s.uuid ==> Lookup(list + [s], uuid) == Lookup(list, uuid)
  {
    var l := list + [s];
    assert l[|list|] == s;
    match FirstIndex(list, uuid)
    case None =>
    case Some(i) =>
      assert l[i] == list[i];
  }

  /** Appending a session with a fresh id keeps the ids distinct. */
  lemma CreateKeepsDistinct(list: seq<Session>, s: Session)
    requires DistinctUuids(list) && FirstIndex(list, s.uuid).None?
    ensures DistinctUuids(list + [s])
  {
    var l := list + [s];
    forall i, j | 0 <= i < j < |l| ensures l[i].uuid != l[j].uuid {
      if j == |list| {
        assert l[i] == list[i];
      } else {
        assert l[i] == list[i] && l[j] == list[j];
      }
    }
  }

  /** Removing one id leaves every other id's lookup unchanged. */
  lemma LookupOtherAfterRemove(list: seq<Session>, uuid: string, other: string)
    requires other != uuid
    ensures Lookup(RemoveFirst(list, uuid), other) == Lookup(list, other)
  {
    match FirstIndex(list, uuid)
    case None =>
    case Some(i) =>
      var l := RemoveFirst(list, uuid);
      assert |l| == |list| - 1;
      assert forall k :: 0 <= k < i ==> l[k] == list[k];
      assert forall k :: i <= k < |l| ==> l[k] == list[k + 1];
      match FirstIndex(list, other)
      case None =>
        assert forall k :: 0 <= k < |l| ==> l[k].uuid != other;
      case Some(m) =>
        assert m != i;
        if m < i {
          assert l[m] == list[m];
          assert FirstIndex(l, other) == Some(m);
        } else {
          assert l[m - 1] == list[m];
          assert forall k :: 0 <= k < m - 1 ==> l[k].uuid != other;
          assert FirstIndex(l, other) == Some(m - 1);
        }
  }

  /** With distinct ids, a closed id is no longer found. */
  lemma LookupAfterRemove(list: seq<Session>, uuid: string)
    requires DistinctUuids(list)
    ensures Lookup(RemoveFirst(list, uuid), uuid) == null
  {
    match FirstIndex(list, uuid)
    case None =>
    case Some(i) =>
      var l := RemoveFirst(list, uuid);
      forall k | 0 <= k < |l| ensures l[k].uuid != uuid {
        if k < i {
          assert l[k] == list[k];
        } else {
          assert l[k] == list[k + 1];
        }
      }
  }

  /** Removal keeps the ids distinct. */
  lemma RemoveKeepsDistinct(list: seq<Session>, uuid: string)
    requires DistinctUuids(list)
    ensures DistinctUuids(RemoveFirst(list, uuid))
  {
    match FirstIndex(list, uuid)
    case None =>
    case Some(i) =>
      var l := RemoveFirst(list, uuid);
      forall a, b | 0 <= a < b < |l| ensures l[a].uuid != l[b].uuid {
        var a' := if a < i then a else a + 1;
        var b' := if b < i then b else b + 1;
        assert l[a] == list[a'] && l[b] == list[b'];
      }
  }

  /** With distinct ids, closing the same id twice is the same as once. */
  lemma RemoveIdempotent(list: seq<Session>, uuid: string)
    requires DistinctUuids(list)
    ensures RemoveFirst(RemoveFirst(list, uuid), uuid) == RemoveFirst(list, uuid)
  {
    LookupAfterRemove(list, uuid);
  }

  // ----- Sessions -----

  /** One session: its id, its captured hook calls and the listener bound to
      its open event stream. `written` is what the listener has written to
      the stream response; the ghost `frames` records the frames behind it. */
  class Session {
    const uuid: string
    var hookId: nat
    var hookList: seq<HookRecord>
    var listenerBound: bool
    var sseCounter: nat
    var written: seq<string>
    ghost var frames: seq<Frame>

    /** Hook records are numbered 1, 2, ... in arrival order with no gap, the
        counter is the last number given, and the stream output is exactly
        the writes of the recorded frames. */
    ghost predicate Valid()
      reads this
    {
      && hookId == |hookList|
      && (forall i :: 0 <= i < |hookList| ==> hookList[i].hookId == i + 1)
      && written == Writes(frames)
    }

    /** A new session: no hook calls yet and no listener. */
    constructor (uuid: string)
      ensures Valid() && this.uuid == uuid
      ensures hookId == 0 && hookList == [] && !listenerBound
      ensures sseCounter == 0 && written == [] && frames == []
    {
      this.uuid := uuid;
      hookId := 0;
      hookList := [];
      listenerBound := false;
      sseCounter := 0;
      written := [];
      frames := [];
    }

    /** `init`: binds the data listener to a new stream response whose id
        counter starts at 0. */
    method Init()
      requires Valid() && !listenerBound
      modifies this
      ensures Valid() && listenerBound
      ensures sseCounter == 0 && written == [] && frames == []
      ensures hookId == old(hookId) && hookList == old(hookList)
    {
      sseCounter := 0;
      written := [];
      frames := [];
      listenerBound := true;
    }

    /** `send`: while the listener is bound, writes one frame whose id is
        the explicit id when that is truthy and otherwise the counter, which
        then moves on by one; the `event:` line appears only for a truthy
        event. Without a listener nothing happens. */
    method Send(data: Json, event: JsArg, id: JsArg, enc: Json -> string)
      requires Valid()
      modifies this
      ensures Valid()
      ensures hookId == old(hookId) && hookList == old(hookList) && listenerBound == old(listenerBound)
      ensures old(listenerBound) && Truthy(id) ==>
        && frames == old(frames) + [Frame(Text(id), event, enc(data))]
        && sseCounter == old(sseCounter)
      ensures old(listenerBound) && !Truthy(id) ==>
        && frames == old(frames) + [Frame(Decimal(old(sseCounter)), event, enc(data))]
        && sseCounter == old(sseCounter) + 1
      ensures old(listenerBound) ==> written == old(written) + FrameWrites(frames[|frames| - 1])
      ensures !old(listenerBound) ==>
        written == old(written) && frames == old(frames) && sseCounter == old(sseCounter)
    {
      if listenerBound {
        var idText: string;
        if Truthy(id) {
          idText := Text(id);
        } else {
          idText := Decimal(sseCounter);
          sseCounter := sseCounter + 1;
        }
        written := written + ["id: " + idText + "\n"];
        if Truthy(event) {
          written := written + ["event: " + Text(event) + "\n"];
        }
        written := written + ["data: " + enc(data) + "\n\n"];
        var f := Frame(idText, event, enc(data));
        WritesAppend(frames, f);
        frames := frames + [f];
      }
    }

    /** `close`: removes the listener and takes the first session with this
        id out of the session list. */
    method Close(registry: Registry)
      requires Valid() && registry.Valid()
      modifies this, registry
      ensures Valid() && registry.Valid() && !listenerBound
      ensures registry.sessions == RemoveFirst(old(registry.sessions), uuid)
      ensures hookId == old(hookId) && hookList == old(hookList)
      ensures written == old(written) && frames == old(frames) && sseCounter == old(sseCounter)
    {
      listenerBound := false;
      registry.Remove(uuid);
    }

    /** `hookRequest`: numbers the call with the next hook id, appends its
        record, sends it as a `hook` event and answers 200 with `{}`. */
    method HookRequest(req: Request, enc: Json -> string) returns (reply: Reply)
      requires Valid()
      modifies this
      ensures Valid() && reply == EmptyObjectReply
      ensures hookId == old(hookId) + 1
      ensures hookList == old(hookList) + [HookRecord(hookId, req.body, req.headers, req.httpMethod, req.originalUrl)]
      ensures listenerBound == old(listenerBound)
      ensures old(listenerBound) ==>
        && frames == old(frames) + [Frame(Decimal(old(sseCounter)), Str("hook"), enc(HookPayload(hookList[|hookList| - 1])))]
        && sseCounter == old(sseCounter) + 1
      ensures !old(listenerBound) ==>
        written == old(written) && frames == old(frames) && sseCounter == old(sseCounter)
    {
      hookId := hookId + 1;
      var record := HookRecord(hookId, req.body, req.headers, req.httpMethod, req.originalUrl);
      hookList := hookList + [record];
      Send(HookPayload(record), Str("hook"), Undefined, enc);
      reply := EmptyObjectReply;
    }

    /** `controlRequest`: answers 200 with `{}` and changes nothing. */
    method ControlRequest(req: Request) returns (reply: Reply)
      ensures reply == EmptyObjectReply
    {
      reply := EmptyObjectReply;
    }
  }

  // ----- The session list -----

  /** The process-wide list of live sessions (`Session.sessionList`). */
  class Registry {
    var sessions: seq<Session>

    /** The ids of live sessions are distinct. */
    ghost predicate Valid()
      reads this
    {
      DistinctUuids(sessions)
    }

    constructor ()
      ensures Valid() && sessions == []
    {
      sessions := [];
    }

    /** `new Session()`: a session with the given id, which no live session
        has, appended at the end of the list. */
    method Create(uuid: string) returns (s: Session)
      requires Valid() && FirstIndex(sessions, uuid).None?
      modifies this
      ensures Valid() && fresh(s) && s.Valid() && s.uuid == uuid
      ensures s.hookId == 0 && s.hookList == [] && !s.listenerBound
      ensures s.sseCounter == 0 && s.written == [] && s.frames == []
      ensures sessions == old(sessions) + [s]
      ensures Lookup(sessions, uuid) == s
    {
      s := new Session(uuid);
      CreateKeepsDistinct(sessions, s);
      LookupAfterCreate(sessions, s, uuid);
      sessions := sessions + [s];
    }

    /** `Session.find`: the first session in list order whose id is uuid,
        or null when there is none. */
    method Find(uuid: string) returns (r: Session?)
      ensures r == Lookup(sessions, uuid)
      ensures r != null ==> r in sessions && r.uuid == uuid
      ensures r == null <==> forall j :: 0 <= j < |sessions| ==> sessions[j].uuid != uuid
    {
      var i := 0;
      while i < |sessions|
        invariant 0 <= i <= |sessions|
        invariant forall j :: 0 <= j < i ==> sessions[j].uuid != uuid
      {
        if sessions[i].uuid == uuid {
          return sessions[i];
        }
        i := i + 1;
      }
      return null;
    }

    /** The splice loop of `close`: removes the first session whose id is
        uuid and stops. */
    method Remove(uuid: string)
      requires Valid()
      modifies this
      ensures Valid()
      ensures sessions == RemoveFirst(old(sessions), uuid)
      ensures Lookup(sessions, uuid) == null
    {
      RemoveKeepsDistinct(sessions, uuid);
      LookupAfterRemove(sessions, uuid);
      var i := 0;
      while i < |sessions|
        invariant 0 <= i <= |sessions|
        invariant sessions == old(sessions)
        invariant forall j :: 0 <= j < i ==> sessions[j].uuid != uuid
      {
        if sessions[i].uuid == uuid {
          sessions := sessions[..i] + sessions[i + 1..];
          break;
        }
        i := i + 1;
      }
    }
  }
}
