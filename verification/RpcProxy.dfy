/**
 The recording proxy: many handler threads, one list of raw transactions.

 A handler appends to the list one transaction at a time, taking the lock for each,
 so the list is a shared log whose every interleaving has to be accounted for.
 `Next` says what one thread may do next; a trace is any sequence of such moves.
*/
module RpcProxy {
  import opened Wrappers

  const SEND_RAW := "eth_sendRawTransaction"

  /** A parsed JSON value. */
  datatype Json =
    | JNull
    | JBool(b: bool)
    | JNumber(n: real)
    | JString(s: string)
    | JArray(items: seq<Json>)
    | JObject(members: map<string, Json>)

  /** Python's truth value of a parsed JSON value. */
  predicate Truthy(j: Json) {
    match j
    case JNull => false
    case JBool(b) => b
    case JNumber(n) => n != 0.0
    case JString(s) => s != ""
    case JArray(items) => items != []
    case JObject(members) => members != map[]
  }

  /**
   What the loop body does with one call of a batch: nothing, one recorded transaction, a
   TypeError (caught by the handler), or a KeyError (which the handler does not catch).
  */
  datatype Effect = Skip | Raw(raw: string) | RaisesTypeError | RaisesKeyError

  function EffectOf(call: Json): Effect {
    if !call.JObject? || "method" !in call.members || call.members["method"] != JString(SEND_RAW) then Skip
    else if "params" !in call.members || !Truthy(call.members["params"]) then Skip
    else
      match call.members["params"]
      case JArray(items) => if items[0].JString? then Raw(items[0].s) else Skip
      case JString(s) => Raw([s[0]])
      case JObject(_) => RaisesKeyError
      case _ => RaisesTypeError
  }

  /** How the recording of one body ends. */
  datatype Ending = Completed | Swallowed | Escaped

  datatype Extraction = Extraction(txs: seq<string>, ending: Ending)

  /**
   What json.loads makes of a request body: a value, a ValueError, or an error of another kind, as the
   RecursionError for a text nested too deeply.
  */
  datatype Body = Parsed(payload: Json) | Malformed | TooDeep

  function CallsOf(payload: Json): seq<Json> {
    if payload.JArray? then payload.items else [payload]
  }

  /** The transactions recorded for the calls of a body, up to the first call that raises. */
  function ExtractFrom(calls: seq<Json>): Extraction {
    if calls == [] then Extraction([], Completed)
    else
      match EffectOf(calls[0])
      case Skip => ExtractFrom(calls[1..])
      case Raw(raw) => var rest := ExtractFrom(calls[1..]); Extraction([raw] + rest.txs, rest.ending)
      case RaisesTypeError => Extraction([], Swallowed)
      case RaisesKeyError => Extraction([], Escaped)
  }

  function Extract(body: Body): Extraction {
    match body
    case Parsed(payload) => ExtractFrom(CallsOf(payload))
    case Malformed => Extraction([], Swallowed)
    case TooDeep => Extraction([], Escaped)
  }

  predicate SendsRaw(call: Json) {
    call.JObject? && "method" in call.members && call.members["method"] == JString("eth_sendRawTransaction")
    && "params" in call.members
  }

  /** A call to send a transaction whose params are a non-empty object: parameters by name. */
  predicate ByNameSend(call: Json) {
    SendsRaw(call) && call.members["params"].JObject? && call.members["params"].members != map[]
  }

  /** A call to send a transaction whose params are `true` or a number other than zero. */
  predicate ScalarSend(call: Json) {
    SendsRaw(call)
    && (call.members["params"] == JBool(true) || (call.members["params"].JNumber? && call.members["params"].n != 0.0))
  }

  lemma WhichCallsRaise(call: Json)
    ensures EffectOf(call).RaisesKeyError? <==> ByNameSend(call)
    ensures EffectOf(call).RaisesTypeError? <==> ScalarSend(call)
  {
  }

  /** A call asks for this text to be recorded: a send whose first param is a string, or whose params are one. */
  predicate Asks(call: Json, raw: string) {
    SendsRaw(call) &&
    match call.members["params"]
    case JArray(items) => items != [] && items[0] == JString(raw)
    case JString(s) => s != "" && raw == [s[0]]
    case _ => false
  }

  /** Nothing but a send is recorded, and of a send only its first param, when that is a string. */
  lemma WhatIsRecorded(call: Json, raw: string)
    ensures EffectOf(call) == Raw(raw) <==> Asks(call, raw)
  {
  }

  /** The calls of a body are handled one after another, until one raises. */
  lemma {:induction false} ExtractOfAppend(a: seq<Json>, b: seq<Json>)
    ensures var first, second := ExtractFrom(a), ExtractFrom(b);
            ExtractFrom(a + b) ==
            if first.ending == Completed then Extraction(first.txs + second.txs, second.ending) else first
  {
    hide EffectOf;
    if a == [] {
      assert a + b == b;
    } else {
      assert (a + b)[1..] == a[1..] + b;
      ExtractOfAppend(a[1..], b);
    }
  }

  /** What one call yields. */
  lemma ExtractOfOne(call: Json)
    ensures var e := ExtractFrom([call]);
            && (forall raw :: Asks(call, raw) ==> e == Extraction([raw], Completed))
            && (ByNameSend(call) ==> e == Extraction([], Escaped))
            && (ScalarSend(call) ==> e == Extraction([], Swallowed))
            && ((forall raw :: !Asks(call, raw)) && !ByNameSend(call) && !ScalarSend(call) ==>
                  e == Extraction([], Completed))
  {
    hide EffectOf, Asks, ByNameSend, ScalarSend;
    assert [call][1..] == [] && ExtractFrom([]) == Extraction([], Completed);
    WhichCallsRaise(call);
    if exists raw :: EffectOf(call) == Raw(raw) {
      var raw :| EffectOf(call) == Raw(raw);
      WhatIsRecorded(call, raw);
    }
    forall raw
      ensures EffectOf(call) == Raw(raw) <==> Asks(call, raw)
    {
      WhatIsRecorded(call, raw);
    }
  }

  /** A body without a send is passed on and leaves no trace in the capture. */
  lemma {:induction false} NoSendNoRecord(calls: seq<Json>)
    requires forall i :: 0 <= i < |calls| ==> !SendsRaw(calls[i])
    ensures ExtractFrom(calls) == Extraction([], Completed)
    ensures Extract(Parsed(JArray(calls))) == Extraction([], Completed)
  {
    hide SendsRaw;
    if calls != [] {
      NoSendNoRecord(calls[1..]);
      NotASend(calls[0]);
    }
  }

  lemma NotASend(call: Json)
    requires !SendsRaw(call)
    ensures EffectOf(call) == Skip
  {
  }

  /** A single call is a batch of one. */
  lemma SingleIsBatchOfOne(call: Json)
    requires !call.JArray?
    ensures Extract(Parsed(call)) == Extract(Parsed(JArray([call])))
  {
    hide ExtractFrom;
  }

  /** Position k is the first of a body at which recording raises, and what it raises is not caught. */
  predicate EscapesAt(calls: seq<Json>, k: nat) {
    && k < |calls| && ByNameSend(calls[k])
    && forall call :: call in calls[..k] ==> !ByNameSend(call) && !ScalarSend(call)
  }

  lemma {:induction false} CallsEscapeIff(calls: seq<Json>)
    ensures ExtractFrom(calls).ending == Escaped <==> exists k: nat :: EscapesAt(calls, k)
  {
    hide EffectOf, ByNameSend, ScalarSend;
    if calls != [] {
      var first, rest := calls[0], calls[1..];
      WhichCallsRaise(first);
      CallsEscapeIff(rest);
      if ByNameSend(first) {
        assert calls[..0] == [] && EscapesAt(calls, 0);
      } else if ScalarSend(first) {
        forall k: nat | 0 < k < |calls|
          ensures !EscapesAt(calls, k)
        {
          assert calls[..k][0] == first && first in calls[..k];
        }
      } else {
        forall k: nat | k < |rest|
          ensures EscapesAt(rest, k) <==> EscapesAt(calls, k + 1)
        {
          assert calls[..k + 1] == [first] + rest[..k];
        }
        if k: nat :| EscapesAt(rest, k) {
          assert EscapesAt(calls, k + 1);
        }
        if k: nat :| EscapesAt(calls, k) {
          assert EscapesAt(rest, k - 1);
        }
      }
    }
  }

  /**
   "Never let recording break the proxy" fails for a body exactly when parsing it raises something other
   than a ValueError, or when some call in it asks to send a transaction with by-name params and no
   earlier call raises.
  */
  lemma EscapesIff(body: Body)
    ensures Extract(body).ending == Escaped <==>
            body.TooDeep? || (body.Parsed? && exists k: nat :: EscapesAt(CallsOf(body.payload), k))
  {
    hide ExtractFrom, EscapesAt, CallsOf;
    if body.Parsed? {
      CallsEscapeIff(CallsOf(body.payload));
    }
  }

  /** By-name params, which section 4.2 of JSON-RPC 2.0 allows, leave the client without a reply. */
  lemma ByNameParamsEscape(tx: string)
    ensures var call := JObject(map["method" := JString(SEND_RAW), "params" := JObject(map["raw" := JString(tx)])]);
            Extract(Parsed(call)) == Extraction([], Escaped)
  {
    var params := JObject(map["raw" := JString(tx)]);
    var call := JObject(map["method" := JString(SEND_RAW), "params" := params]);
    assert "raw" in params.members && ByNameSend(call);
    WhichCallsRaise(call);
    hide EffectOf;
    assert ExtractFrom([call]) == Extraction([], Escaped);
  }

  function SendRawCall(tx: string): Json {
    JObject(map["method" := JString(SEND_RAW), "params" := JArray([JString(tx)])])
  }

  function SendRawCalls(txs: seq<string>): seq<Json> {
    seq(|txs|, i requires 0 <= i < |txs| => SendRawCall(txs[i]))
  }

  /** What a client packs into a batch of by-position calls is what is recorded, in order. */
  lemma {:induction false} BatchRoundTrip(txs: seq<string>)
    ensures ExtractFrom(SendRawCalls(txs)) == Extraction(txs, Completed)
    ensures Extract(Parsed(JArray(SendRawCalls(txs)))) == Extraction(txs, Completed)
  {
    if txs != [] {
      BatchRoundTrip(txs[1..]);
      assert SendRawCalls(txs)[1..] == SendRawCalls(txs[1..]);
      assert EffectOf(SendRawCall(txs[0])) == Raw(txs[0]);
    }
  }

  // ---------------------------------------------------------------- threads

  type ReqId = nat

  /** Where a request's handler is. `Recording(body, k)` has appended the first k of its transactions. */
  datatype Phase =
    | Forwarding(body: Body)
    | Recording(body: Body, k: nat)
    | Unreachable(body: Body)
    | Replied(body: Body)
    | Refused(body: Body)
    | Crashed(body: Body)

  /** One atomic move of one thread, or of the world it waits for. */
  datatype Event =
    | Arrive(r: ReqId, body: Body)
    | Answered(r: ReqId)
    | Failed(r: ReqId)
    | Record(r: ReqId)
    | Reply(r: ReqId)
    | Crash(r: ReqId)

  type Handlers = map<ReqId, Phase>

  datatype Moved = Moved(handlers: Handlers, appended: seq<string>)

  /** What an event does to the threads, and what it appends; None when the thread cannot make that move. */
  function Move(h: Handlers, e: Event): Option<Moved> {
    if e.Arrive? then
      if e.r in h then None else Some(Moved(h[e.r := Forwarding(e.body)], []))
    else if e.r !in h then None
    else
      match (e, h[e.r])
      case (Answered(r), Forwarding(b)) => Some(Moved(h[r := Recording(b, 0)], []))
      case (Failed(r), Forwarding(b)) => Some(Moved(h[r := Unreachable(b)], []))
      case (Record(r), Recording(b, k)) =>
        var txs := Extract(b).txs;
        if k < |txs| then Some(Moved(h[r := Recording(b, k + 1)], [txs[k]])) else None
      case (Reply(r), Recording(b, k)) =>
        if k == |Extract(b).txs| && Extract(b).ending != Escaped then Some(Moved(h[r := Replied(b)], [])) else None
      case (Reply(r), Unreachable(b)) => Some(Moved(h[r := Refused(b)], []))
      case (Crash(r), Recording(b, k)) =>
        if k == |Extract(b).txs| && Extract(b).ending == Escaped then Some(Moved(h[r := Crashed(b)], [])) else None
      case _ => None
  }

  lemma RecordMoves(h: Handlers, r: ReqId, body: Body, k: nat)
    requires r in h && h[r] == Recording(body, k) && k < |Extract(body).txs|
    ensures Move(h, Record(r)) == Some(Moved(h[r := Recording(body, k + 1)], [Extract(body).txs[k]]))
  {
  }

  lemma ArrivingMove(h: Handlers, r: ReqId, body: Body)
    requires r !in h
    ensures Move(h, Arrive(r, body)) == Some(Moved(h[r := Forwarding(body)], []))
  {
  }

  lemma ForwardingMoves(h: Handlers, r: ReqId, body: Body)
    requires r in h && h[r] == Forwarding(body)
    ensures Move(h, Answered(r)) == Some(Moved(h[r := Recording(body, 0)], []))
    ensures Move(h, Failed(r)) == Some(Moved(h[r := Unreachable(body)], []))
  {
  }

  datatype Entry = Entry(owner: ReqId, raw: string)

  /** The shared log, each entry with the request it came from, and the threads. */
  datatype Proxy = Proxy(log: seq<Entry>, handlers: Handlers)

  const Start: Proxy := Proxy([], map[])

  function Raws(log: seq<Entry>): (raws: seq<string>)
    ensures |raws| == |log|
  {
    seq(|log|, i requires 0 <= i < |log| => log[i].raw)
  }

  function Owned(r: ReqId, raws: seq<string>): (log: seq<Entry>)
    ensures |log| == |raws| && Raws(log) == raws
  {
    seq(|raws|, i requires 0 <= i < |raws| => Entry(r, raws[i]))
  }

  function Next(s: Proxy, e: Event): Option<Proxy> {
    var m := Move(s.handlers, e);
    if m.None? then None else Some(Proxy(s.log + Owned(e.r, m.value.appended), m.value.handlers))
  }

  /** The state a trace leads to, or None when some move in it is not possible. */
  function Run(s: Proxy, trace: seq<Event>): Option<Proxy> {
    if trace == [] then Some(s)
    else
      var before := Run(s, trace[..|trace| - 1]);
      if before.None? then None else Next(before.value, trace[|trace| - 1])
  }

  lemma {:induction false} RunOfAppend(s: Proxy, a: seq<Event>, b: seq<Event>)
    ensures Run(s, a + b) == if Run(s, a).None? then None else Run(Run(s, a).value, b)
  {
    if b == [] {
      assert a + b == a;
    } else {
      assert (a + b)[..|a + b| - 1] == a + b[..|b| - 1];
      RunOfAppend(s, a, b[..|b| - 1]);
    }
  }

  /** What a request has recorded when its thread is in this phase. */
  function Done(p: Phase): seq<string> {
    match p
    case Recording(b, k) => if k <= |Extract(b).txs| then Extract(b).txs[..k] else Extract(b).txs
    case Replied(b) => Extract(b).txs
    case Crashed(b) => Extract(b).txs
    case _ => []
  }

  /** What a request records in all: everything in its body if it was answered, nothing if it was not. */
  function Owed(p: Phase): seq<string> {
    if p.Unreachable? || p.Refused? then [] else Extract(p.body).txs
  }

  predicate Finished(p: Phase) {
    p.Replied? || p.Refused? || p.Crashed?
  }

  predicate Quiet(h: Handlers) {
    forall r :: r in h ==> Finished(h[r])
  }

  function Parts(h: Handlers): map<ReqId, seq<string>> {
    map r | r in h :: Done(h[r])
  }

  function FullParts(h: Handlers): map<ReqId, seq<string>> {
    map r | r in h :: Owed(h[r])
  }

  function DoneBy(h: Handlers, r: ReqId): seq<string> {
    if r in h then Done(h[r]) else []
  }

  /** The entries of one request, in log order. */
  function Project(log: seq<Entry>, r: ReqId): seq<string> {
    if log == [] then []
    else
      var last := log[|log| - 1];
      Project(log[..|log| - 1], r) + if last.owner == r then [last.raw] else []
  }

  lemma {:induction false} ProjectOfAppend(a: seq<Entry>, b: seq<Entry>, r: ReqId)
    ensures Project(a + b, r) == Project(a, r) + Project(b, r)
  {
    if b == [] {
      assert a + b == a;
    } else {
      assert (a + b)[..|a + b| - 1] == a + b[..|b| - 1];
      ProjectOfAppend(a, b[..|b| - 1], r);
    }
  }

  lemma {:induction false} NoneOwned(log: seq<Entry>, r: ReqId)
    ensures Project(log, r) == [] <==> forall i :: 0 <= i < |log| ==> log[i].owner != r
  {
    if log != [] {
      var front := log[..|log| - 1];
      NoneOwned(front, r);
      assert forall i :: 0 <= i < |front| ==> front[i] == log[i];
    }
  }

  /**
   A list is a shuffle of some parts when it is empty and so are they, or its last element is the
   last of one part and the rest is a shuffle of what remains.
  */
  ghost predicate IsShuffle(list: seq<string>, parts: map<ReqId, seq<string>>) {
    if list == [] then forall r :: r in parts ==> parts[r] == []
    else
      exists r :: r in parts && TakesLast(list, parts, r)
                  && IsShuffle(list[..|list| - 1], parts[r := parts[r][..|parts[r]| - 1]])
  }

  predicate TakesLast(list: seq<string>, parts: map<ReqId, seq<string>>, r: ReqId)
    requires r in parts
  {
    list != [] && parts[r] != [] && parts[r][|parts[r]| - 1] == list[|list| - 1]
  }

  /** An assignment of every element to a part under which each part gets its own elements, in order. */
  ghost predicate Labels(log: seq<Entry>, list: seq<string>, parts: map<ReqId, seq<string>>) {
    && Raws(log) == list
    && (forall i :: 0 <= i < |log| ==> log[i].owner in parts)
    && (forall r :: r in parts ==> Project(log, r) == parts[r])
  }

  /** A list is a shuffle of some parts exactly when its elements can be so assigned. */
  lemma {:induction false} ShuffleIff(list: seq<string>, parts: map<ReqId, seq<string>>)
    ensures IsShuffle(list, parts) <==> exists log :: Labels(log, list, parts)
  {
    hide Project, Labels, IsShuffle;
    if IsShuffle(list, parts) {
      var log := LabelShuffle(list, parts);
    }
    if log :| Labels(log, list, parts) {
      LabelledIsShuffle(log, list, parts);
    }
  }

  lemma {:induction false} LabelShuffle(list: seq<string>, parts: map<ReqId, seq<string>>) returns (log: seq<Entry>)
    requires IsShuffle(list, parts)
    ensures Labels(log, list, parts)
  {
    if list == [] {
      log := [];
    } else {
      var q :| q in parts && TakesLast(list, parts, q)
               && IsShuffle(list[..|list| - 1], parts[q := parts[q][..|parts[q]| - 1]]);
      var less := parts[q := parts[q][..|parts[q]| - 1]];
      var front := LabelShuffle(list[..|list| - 1], less);
      log := front + [Entry(q, list[|list| - 1])];
      assert log[..|log| - 1] == front;
      assert Raws(log) == list;
      assert parts[q] == less[q] + [list[|list| - 1]];
    }
  }

  lemma {:induction false} LabelledIsShuffle(log: seq<Entry>, list: seq<string>, parts: map<ReqId, seq<string>>)
    requires Labels(log, list, parts)
    ensures IsShuffle(list, parts)
    decreases |log|
  {
    if list == [] {
      assert log == [];
    } else {
      var front, last := log[..|log| - 1], log[|log| - 1];
      var q := last.owner;
      assert Project(log, q) == Project(front, q) + [last.raw];
      assert parts[q][..|parts[q]| - 1] == Project(front, q);
      assert Raws(front) == list[..|list| - 1];
      LabelledIsShuffle(front, list[..|list| - 1], parts[q := Project(front, q)]);
      assert TakesLast(list, parts, q);
    }
  }

  lemma ShuffleOneMore(list: seq<string>, parts: map<ReqId, seq<string>>, r: ReqId, x: string)
    requires IsShuffle(list, parts) && r in parts
    ensures IsShuffle(list + [x], parts[r := parts[r] + [x]])
  {
    var list', parts' := list + [x], parts[r := parts[r] + [x]];
    assert list'[..|list'| - 1] == list;
    assert parts'[r][..|parts'[r]| - 1] == parts[r];
    assert parts'[r := parts[r]] == parts;
    assert TakesLast(list', parts', r);
  }

  lemma {:induction false} ShuffleNewPart(list: seq<string>, parts: map<ReqId, seq<string>>, r: ReqId)
    requires IsShuffle(list, parts) && r !in parts
    ensures IsShuffle(list, parts[r := []])
  {
    if list != [] {
      var q :| q in parts && TakesLast(list, parts, q)
               && IsShuffle(list[..|list| - 1], parts[q := parts[q][..|parts[q]| - 1]]);
      var less := parts[q := parts[q][..|parts[q]| - 1]];
      ShuffleNewPart(list[..|list| - 1], less, r);
      assert parts[r := []][q := less[q]] == less[r := []];
      assert TakesLast(list, parts[r := []], q);
    }
  }

  /** The log is an order-preserving interleaving of what each request has recorded so far. */
  ghost predicate Consistent(s: Proxy) {
    && (forall r :: r in s.handlers && s.handlers[r].Recording? ==>
          s.handlers[r].k <= |Extract(s.handlers[r].body).txs|)
    && (forall r: ReqId :: Project(s.log, r) == DoneBy(s.handlers, r))
    && IsShuffle(Raws(s.log), Parts(s.handlers))
  }

  /** A move concerns one request only, and appends exactly what that request has then recorded in addition. */
  lemma MoveEffect(s: Proxy, e: Event)
    requires Consistent(s) && Move(s.handlers, e).Some?
    ensures var h, m := s.handlers, Move(s.handlers, e).value;
            && e.r in m.handlers && m.handlers == h[e.r := m.handlers[e.r]]
            && Done(m.handlers[e.r]) == DoneBy(h, e.r) + m.appended
            && (m.handlers[e.r].Recording? ==> m.handlers[e.r].k <= |Extract(m.handlers[e.r].body).txs|)
            && (if e.Record? then |m.appended| == 1 else m.appended == [])
            && (e.Arrive? <==> e.r !in h)
            && (e.r in h ==> !Finished(h[e.r]))
  {
    hide Extract, Project, IsShuffle;
  }

  lemma ProjectOwned(owner: ReqId, raws: seq<string>, r: ReqId)
    requires |raws| <= 1
    ensures Project(Owned(owner, raws), r) == if r == owner then raws else []
  {
    if |raws| == 1 {
      assert Owned(owner, raws)[..0] == [];
    }
  }

  lemma StepEffect(s: Proxy, e: Event)
    requires Consistent(s) && Next(s, e).Some?
    ensures var s', appended := Next(s, e).value, Move(s.handlers, e).value.appended;
            && s'.log == s.log + Owned(e.r, appended)
            && Raws(s'.log) == Raws(s.log) + appended
            && e.r in s'.handlers && s'.handlers == s.handlers[e.r := s'.handlers[e.r]]
            && Parts(s'.handlers) == Parts(s.handlers)[e.r := DoneBy(s.handlers, e.r) + appended]
  {
    hide Extract, IsShuffle, Move, Done, Project, Owned, Consistent;
    MoveEffect(s, e);
  }

  lemma StepKeepsConsistent(s: Proxy, e: Event)
    requires Consistent(s) && Next(s, e).Some?
    ensures Consistent(Next(s, e).value)
  {
    hide Extract, IsShuffle, Move, Done, Project, Owned;
    var s' := Next(s, e).value;
    var appended := Move(s.handlers, e).value.appended;
    MoveEffect(s, e);
    forall r: ReqId
      ensures Project(s'.log, r) == DoneBy(s'.handlers, r)
    {
      ProjectOfAppend(s.log, Owned(e.r, appended), r);
      ProjectOwned(e.r, appended, r);
      assert Project(s.log, r) == DoneBy(s.handlers, r);
    }
    StepEffect(s, e);
    var parts := Parts(s.handlers);
    hide Raws, Next;
    if e.Record? {
      assert DoneBy(s.handlers, e.r) == parts[e.r] && appended == [appended[0]];
      ShuffleOneMore(Raws(s.log), parts, e.r, appended[0]);
    } else if e.Arrive? {
      assert DoneBy(s.handlers, e.r) + appended == [] && Raws(s'.log) == Raws(s.log);
      ShuffleNewPart(Raws(s.log), parts, e.r);
    } else {
      assert DoneBy(s.handlers, e.r) + appended == parts[e.r] && Raws(s'.log) == Raws(s.log);
      assert parts[e.r := parts[e.r]] == parts;
    }
  }

  /** In every interleaving of handler threads the log is consistent at every moment. */
  lemma {:induction false} AlwaysConsistent(trace: seq<Event>)
    requires Run(Start, trace).Some?
    ensures Consistent(Run(Start, trace).value)
  {
    if trace == [] {
      assert Raws([]) == [];
      assert Consistent(Start);
    } else {
      AlwaysConsistent(trace[..|trace| - 1]);
      StepKeepsConsistent(Run(Start, trace[..|trace| - 1]).value, trace[|trace| - 1]);
    }
  }

  /** Once every thread is done, the log is a shuffle of everything in the answered bodies. */
  lemma QuietLogIsFullShuffle(trace: seq<Event>)
    requires Run(Start, trace).Some? && Quiet(Run(Start, trace).value.handlers)
    ensures var s := Run(Start, trace).value;
            IsShuffle(Raws(s.log), FullParts(s.handlers))
  {
    hide Extract, IsShuffle, Project, Run;
    AlwaysConsistent(trace);
    var h := Run(Start, trace).value.handlers;
    assert Parts(h) == FullParts(h);
  }

  /** A request that failed in transport never contributes, however the others are scheduled. */
  lemma UnansweredContributesNothing(trace: seq<Event>, r: ReqId)
    requires Run(Start, trace).Some?
    requires var h := Run(Start, trace).value.handlers; r in h ==> h[r].Unreachable? || h[r].Refused?
    ensures forall i :: 0 <= i < |Run(Start, trace).value.log| ==> Run(Start, trace).value.log[i].owner != r
  {
    AlwaysConsistent(trace);
    NoneOwned(Run(Start, trace).value.log, r);
  }

  /** Every snapshot is a prefix of every later one. */
  lemma {:induction false} SnapshotsGrow(s: Proxy, more: seq<Event>)
    requires Run(s, more).Some?
    ensures s.log <= Run(s, more).value.log
  {
    if more != [] {
      SnapshotsGrow(s, more[..|more| - 1]);
    }
  }

  lemma {:induction false} FinishedStays(s: Proxy, more: seq<Event>, r: ReqId)
    requires Run(s, more).Some?
    requires r in s.handlers && Finished(s.handlers[r])
    ensures var h := Run(s, more).value.handlers; r in h && h[r] == s.handlers[r]
  {
    hide Extract;
    if more != [] {
      FinishedStays(s, more[..|more| - 1], r);
    }
  }

  lemma RunOfOne(s: Proxy, e: Event)
    ensures Run(s, [e]) == Next(s, e)
  {
    assert [e][..0] == [];
    assert Run(s, []) == Some(s);
  }

  lemma OwnedShort(r: ReqId, raws: seq<string>)
    requires |raws| <= 1
    ensures Owned(r, raws) == if raws == [] then [] else [Entry(r, raws[0])]
  {
  }

  lemma RunOfSnoc(s: Proxy, t: seq<Event>, e: Event)
    requires Run(s, t).Some?
    ensures Run(s, t + [e]) == Next(Run(s, t).value, e)
  {
    hide Next;
    assert (t + [e])[..|t|] == t;
  }

  // ---------------------------------------------------------------- order between requests

  /** What a request may still record. */
  function Remaining(p: Phase): seq<string> {
    match p
    case Forwarding(b) => Extract(b).txs
    case Recording(b, k) => if k <= |Extract(b).txs| then Extract(b).txs[k..] else []
    case _ => []
  }

  /** All of a's entries stand before all of b's. */
  predicate AllBefore(log: seq<Entry>, a: ReqId, b: ReqId) {
    forall i, j :: 0 <= i < |log| && 0 <= j < |log| && log[i].owner == a && log[j].owner == b ==> i < j
  }

  /** Whatever happens next, nothing that has yet to arrive gets in front of anything of a's. */
  ghost predicate NeverOvertaken(s: Proxy, a: ReqId) {
    forall more: seq<Event>, b: ReqId ::
      b !in s.handlers && Run(s, more).Some? ==> AllBefore(Run(s, more).value.log, a, b)
  }

  lemma OrderedByOwner(early: seq<Entry>, log: seq<Entry>, a: ReqId, b: ReqId)
    requires early <= log
    requires Project(log, a) == Project(early, a) && Project(early, b) == []
    ensures AllBefore(log, a, b)
  {
    hide Project;
    var later := log[|early|..];
    assert log == early + later;
    ProjectOfAppend(early, later, a);
    NoneOwned(later, a);
    NoneOwned(early, b);
    forall i | |early| <= i < |log|
      ensures log[i].owner != a
    {
      assert log[i] == later[i - |early|];
    }
    forall j | 0 <= j < |early|
      ensures log[j].owner != b
    {
      assert log[j] == early[j];
    }
  }

  lemma MoveWhenNothingRemains(h: Handlers, e: Event, a: ReqId)
    requires a in h && Remaining(h[a]) == [] && Move(h, e).Some?
    ensures var h' := Move(h, e).value.handlers;
            a in h' && Remaining(h'[a]) == [] && (e.r == a ==> Move(h, e).value.appended == [])
  {
    hide Extract;
  }

  /** A request with nothing left to record records nothing more. */
  lemma {:induction false} NothingMore(s: Proxy, more: seq<Event>, a: ReqId)
    requires Run(s, more).Some?
    requires a in s.handlers && Remaining(s.handlers[a]) == []
    ensures var s' := Run(s, more).value;
            && s.log <= s'.log && Project(s'.log, a) == Project(s.log, a)
            && a in s'.handlers && Remaining(s'.handlers[a]) == []
  {
    hide Extract, Move, Remaining, Project, Owned;
    if more != [] {
      var front, e := more[..|more| - 1], more[|more| - 1];
      NothingMore(s, front, a);
      var mid := Run(s, front).value;
      var appended := Move(mid.handlers, e).value.appended;
      MoveWhenNothingRemains(mid.handlers, e, a);
      ProjectOfAppend(mid.log, Owned(e.r, appended), a);
      NoneOwned(Owned(e.r, appended), a);
      OwnedBy(e.r, appended);
    }
  }

  lemma OwnedBy(r: ReqId, raws: seq<string>)
    ensures forall i :: 0 <= i < |raws| ==> Owned(r, raws)[i].owner == r
    ensures raws == [] ==> Owned(r, raws) == []
  {
  }

  lemma OwnedWhen(trace: seq<Event>, r: ReqId)
    requires Run(Start, trace).Some?
    ensures var s := Run(Start, trace).value; Project(s.log, r) == DoneBy(s.handlers, r)
  {
    AlwaysConsistent(trace);
  }

  /** One more move, at the end of a schedule that starts in s. */
  lemma Extend(s: Proxy, t: seq<Event>, e: Event) returns (t': seq<Event>)
    requires Run(s, t).Some? && Move(Run(s, t).value.handlers, e).Some?
    requires |Move(Run(s, t).value.handlers, e).value.appended| <= 1
    ensures t' == t + [e] && Run(s, t').Some?
    ensures var now, next := Run(s, t).value, Run(s, t').value;
            var m := Move(now.handlers, e).value;
            && next.handlers == m.handlers
            && next.log == now.log + if m.appended == [] then [] else [Entry(e.r, m.appended[0])]
  {
    hide Move, Run, Owned;
    t' := t + [e];
    RunOfSnoc(s, t, e);
    OwnedShort(e.r, Move(Run(s, t).value.handlers, e).value.appended);
  }

  /**
   A request that still has something to record can be overtaken, at that very point, by any request
   that is yet to arrive and sends a transaction.
  */
  lemma Overtaken(s: Proxy, a: ReqId, b: ReqId, other: Body) returns (more: seq<Event>)
    requires a in s.handlers && s.handlers[a].Recording? && s.handlers[a].k < |Extract(s.handlers[a].body).txs|
    requires b !in s.handlers && |Extract(other).txs| > 0
    ensures Run(s, more).Some?
    ensures var s', p := Run(s, more).value, s.handlers[a];
            && s'.log == s.log + [Entry(b, Extract(other).txs[0]), Entry(a, Extract(p.body).txs[p.k])]
            && s'.handlers == s.handlers[b := Recording(other, 1)][a := Recording(p.body, p.k + 1)]
  {
    hide Extract, Run, Move;
    var h, p := s.handlers, s.handlers[a];
    RunOfNone(s);
    ArrivingMove(h, b, other);
    more := Extend(s, [], Arrive(b, other));
    var h1 := h[b := Forwarding(other)];
    ForwardingMoves(h1, b, other);
    more := Extend(s, more, Answered(b));
    var h2 := h1[b := Recording(other, 0)];
    RecordMoves(h2, b, other, 0);
    more := Extend(s, more, Record(b));
    var h3 := h2[b := Recording(other, 1)];
    RecordMoves(h3, a, p.body, p.k);
    more := Extend(s, more, Record(a));
    assert h3[a := Recording(p.body, p.k + 1)] == h[b := Recording(other, 1)][a := Recording(p.body, p.k + 1)];
  }

  lemma RunOfNone(s: Proxy)
    ensures Run(s, []) == Some(s)
  {
  }

  lemma {:induction false} FreshId(ids: set<ReqId>) returns (b: ReqId)
    ensures forall r :: r in ids ==> r < b
    decreases |ids|
  {
    if ids == {} {
      b := 0;
    } else {
      var r :| r in ids;
      var c := FreshId(ids - {r});
      b := if r < c then c else r + 1;
      assert forall q :: q in ids ==> q == r || q in ids - {r};
    }
  }

  lemma OvertakenWhileRecording(s: Proxy, a: ReqId)
    requires a in s.handlers && s.handlers[a].Recording? && Remaining(s.handlers[a]) != []
    ensures !NeverOvertaken(s, a)
  {
    hide Extract, Run;
    var b := FreshId(s.handlers.Keys);
    BatchRoundTrip(["0x00"]);
    var more := Overtaken(s, a, b, Parsed(JArray(SendRawCalls(["0x00"]))));
    var log := Run(s, more).value.log;
    assert log[|s.log|].owner == b && log[|s.log| + 1].owner == a;
    assert !AllBefore(log, a, b);
  }

  /**
   When order is settled: a request can no longer be overtaken by one yet to arrive exactly when it has
   nothing left to record. The reply is what tells the client so.
  */
  lemma OrderSettledIff(trace: seq<Event>, a: ReqId)
    requires Run(Start, trace).Some? && a in Run(Start, trace).value.handlers
    ensures var s := Run(Start, trace).value;
            NeverOvertaken(s, a) <==> Remaining(s.handlers[a]) == []
  {
    hide Extract, Run, Remaining, AllBefore, Project, Next;
    var s := Run(Start, trace).value;
    if Remaining(s.handlers[a]) == [] {
      forall more: seq<Event>, b: ReqId | b !in s.handlers && Run(s, more).Some?
        ensures AllBefore(Run(s, more).value.log, a, b)
      {
        NothingMore(s, more, a);
        OwnedWhen(trace, b);
        OrderedByOwner(s.log, Run(s, more).value.log, a, b);
      }
    } else {
      OvertakenAtAll(s, a);
    }
  }

  lemma OvertakenAtAll(s: Proxy, a: ReqId)
    requires a in s.handlers && Remaining(s.handlers[a]) != []
    ensures !NeverOvertaken(s, a)
  {
    hide Extract, Run, AllBefore;
    var p := s.handlers[a];
    if p.Recording? {
      OvertakenWhileRecording(s, a);
    } else {
      RunOfNone(s);
      ForwardingMoves(s.handlers, a, p.body);
      var t := Extend(s, [], Answered(a));
      var s1 := Run(s, t).value;
      OvertakenWhileRecording(s1, a);
      var more: seq<Event>, b: ReqId :|
        b !in s1.handlers && Run(s1, more).Some? && !AllBefore(Run(s1, more).value.log, a, b);
      RunOfAppend(s, t, more);
      assert !AllBefore(Run(s, t + more).value.log, a, b);
    }
  }

  /**
   Real-time order: when request a was answered before request b arrived, all that was recorded
   for a stands before all that was recorded for b.
  */
  lemma RealTimeOrder(before: seq<Event>, a: ReqId, between: seq<Event>, b: ReqId, body: Body, after: seq<Event>)
    requires Run(Start, before + [Reply(a)] + between + [Arrive(b, body)] + after).Some?
    ensures AllBefore(Run(Start, before + [Reply(a)] + between + [Arrive(b, body)] + after).value.log, a, b)
  {
    hide *;
    var t1 := before + [Reply(a)];
    var t2 := t1 + between;
    var rest := [Arrive(b, body)] + after;
    assert t2 + [Arrive(b, body)] + after == t2 + rest;
    RunOfAppend(Start, t2, rest);
    RunOfAppend(Start, t1, between);
    RunOfAppend(Start, before, [Reply(a)]);
    var s2 := Run(Start, t2).value;
    RunOfAppend(s2, [Arrive(b, body)], after);
    AfterReply(Run(Start, before).value, a);
    BeforeArrival(s2, b, body);
    FinishedStays(Run(Start, t1).value, between, a);
    FinishedOwesNothing(s2.handlers[a]);
    OrderSettledIff(t2, a);
    OvertakenBy(s2, a, rest, b);
  }

  lemma OvertakenBy(s: Proxy, a: ReqId, more: seq<Event>, b: ReqId)
    requires NeverOvertaken(s, a) && b !in s.handlers && Run(s, more).Some?
    ensures AllBefore(Run(s, more).value.log, a, b)
  {
    hide AllBefore, Run;
  }

  lemma FinishedOwesNothing(p: Phase)
    requires Finished(p)
    ensures Remaining(p) == []
  {
  }

  lemma AfterReply(s: Proxy, a: ReqId)
    requires Run(s, [Reply(a)]).Some?
    ensures var h := Run(s, [Reply(a)]).value.handlers; a in h && Finished(h[a])
  {
    hide Extract;
    RunOfOne(s, Reply(a));
  }

  lemma BeforeArrival(s: Proxy, b: ReqId, body: Body)
    requires Run(s, [Arrive(b, body)]).Some?
    ensures b !in s.handlers
  {
    hide Extract;
    RunOfOne(s, Arrive(b, body));
  }

  /** Some entry of another request stands between two of a's. */
  predicate Split(log: seq<Entry>, a: ReqId, b: ReqId) {
    exists i, j, k :: 0 <= i < j < k < |log| && log[i].owner == a && log[j].owner == b && log[k].owner == a
  }

  /** In this interleaving a request with body `other` gets in between the transactions of one with body `batch`. */
  ghost predicate SplitIn(trace: seq<Event>, batch: Body, other: Body) {
    && Run(Start, trace).Some?
    && var s := Run(Start, trace).value;
       exists a: ReqId, b: ReqId | a in s.handlers && b in s.handlers ::
         a != b && s.handlers[a].body == batch && s.handlers[b].body == other && Split(s.log, a, b)
  }

  /** The lock is taken per transaction: a request can be split by another exactly when it sends at least two. */
  lemma SplitIff(batch: Body, other: Body)
    ensures (exists trace :: SplitIn(trace, batch, other)) <==>
            |Extract(batch).txs| >= 2 && |Extract(other).txs| >= 1
  {
    hide Extract, Run, Split;
    if |Extract(batch).txs| >= 2 && |Extract(other).txs| >= 1 {
      CanSplit(batch, other);
    }
    if trace :| SplitIn(trace, batch, other) {
      SplitNeedsTwo(trace, batch, other);
    }
  }

  lemma CanSplit(batch: Body, other: Body)
    requires |Extract(batch).txs| >= 2 && |Extract(other).txs| >= 1
    ensures exists trace :: SplitIn(trace, batch, other)
  {
    hide Extract, Run, Move, Split;
    RunOfNone(Start);
    ArrivingMove(map[], 0, batch);
    var t := Extend(Start, [], Arrive(0, batch));
    ForwardingMoves(map[0 := Forwarding(batch)], 0, batch);
    t := Extend(Start, t, Answered(0));
    var h := map[0 := Recording(batch, 0)];
    assert Run(Start, t).value.handlers == h;
    RecordMoves(h, 0, batch, 0);
    t := Extend(Start, t, Record(0));
    var s := Run(Start, t).value;
    assert s.handlers == map[0 := Recording(batch, 1)] && s.log == [Entry(0, Extract(batch).txs[0])];
    var more := Overtaken(s, 0, 1, other);
    RunOfAppend(Start, t, more);
    var end := Run(s, more).value;
    SplitOfThree(s.log[0], end.log[1], end.log[2]);
    assert end.log == [s.log[0], end.log[1], end.log[2]];
    assert SplitIn(t + more, batch, other);
  }

  lemma SplitOfThree(x: Entry, y: Entry, z: Entry)
    requires x.owner == z.owner
    ensures Split([x, y, z], x.owner, y.owner)
  {
    var log := [x, y, z];
    assert log[0].owner == x.owner && log[1].owner == y.owner && log[2].owner == x.owner;
  }

  lemma SplitNeedsTwo(trace: seq<Event>, batch: Body, other: Body)
    requires SplitIn(trace, batch, other)
    ensures |Extract(batch).txs| >= 2 && |Extract(other).txs| >= 1
  {
    hide Extract, Run, Project, Split, Done;
    var s := Run(Start, trace).value;
    var a: ReqId, b: ReqId :|
      a in s.handlers && b in s.handlers && a != b && s.handlers[a].body == batch && s.handlers[b].body == other
      && Split(s.log, a, b);
    OwnedWhen(trace, a);
    OwnedWhen(trace, b);
    DoneBound(s.handlers[a]);
    DoneBound(s.handlers[b]);
    SplitHasTwo(s.log, a, b);
  }

  lemma SplitHasTwo(log: seq<Entry>, a: ReqId, b: ReqId)
    requires Split(log, a, b)
    ensures |Project(log, a)| >= 2 && |Project(log, b)| >= 1
  {
    hide Project;
    var i, j, k :| 0 <= i < j < k < |log| && log[i].owner == a && log[j].owner == b && log[k].owner == a;
    var early, late := log[..j], log[j..];
    assert log == early + late && early[i].owner == a && late[k - j].owner == a;
    ProjectOfAppend(early, late, a);
    NoneOwned(early, a);
    NoneOwned(late, a);
    NoneOwned(log, b);
  }

  lemma DoneBound(p: Phase)
    ensures |Done(p)| <= |Extract(p.body).txs|
  {
    hide Extract;
  }

  // ---------------------------------------------------------------- a client that waits for each reply

  /** The requests of a trace, in order of arrival. */
  function Arrivals(trace: seq<Event>): seq<ReqId> {
    if trace == [] then []
    else
      var last := trace[|trace| - 1];
      Arrivals(trace[..|trace| - 1]) + if last.Arrive? then [last.r] else []
  }

  /** No request arrives while another is being handled. */
  ghost predicate OneAtATime(trace: seq<Event>) {
    trace == [] ||
    var front := trace[..|trace| - 1];
    && OneAtATime(front)
    && (trace[|trace| - 1].Arrive? ==> Run(Start, front).Some? && Quiet(Run(Start, front).value.handlers))
  }

  function Concat(ids: seq<ReqId>, parts: map<ReqId, seq<string>>): seq<string> {
    if ids == [] then []
    else
      var last := ids[|ids| - 1];
      Concat(ids[..|ids| - 1], parts) + if last in parts then parts[last] else []
  }

  lemma {:induction false} ConcatLocal(ids: seq<ReqId>, parts: map<ReqId, seq<string>>, r: ReqId, part: seq<string>)
    requires r !in ids
    ensures Concat(ids, parts[r := part]) == Concat(ids, parts)
  {
    if ids != [] {
      assert ids[|ids| - 1] in ids && forall q :: q in ids[..|ids| - 1] ==> q in ids;
      ConcatLocal(ids[..|ids| - 1], parts, r, part);
    }
  }

  /** Arrivals are the known requests, without repetition, and only the last one can be unfinished. */
  ghost predicate Serial(s: Proxy, ids: seq<ReqId>) {
    && (forall r :: r in ids <==> r in s.handlers)
    && (forall i, j :: 0 <= i < j < |ids| ==> ids[i] != ids[j])
    && (forall r :: r in s.handlers && !Finished(s.handlers[r]) ==> r == ids[|ids| - 1])
    && Raws(s.log) == Concat(ids, Parts(s.handlers))
  }

  lemma SerialStep(s: Proxy, ids: seq<ReqId>, e: Event)
    requires Serial(s, ids) && Consistent(s) && Next(s, e).Some?
    requires e.Arrive? ==> Quiet(s.handlers)
    ensures Serial(Next(s, e).value, if e.Arrive? then ids + [e.r] else ids)
  {
    hide Extract, IsShuffle, Move, Done, Project, Owned, Consistent, Concat;
    var s' := Next(s, e).value;
    var appended := Move(s.handlers, e).value.appended;
    MoveEffect(s, e);
    var parts := Parts(s.handlers);
    var mine := DoneBy(s.handlers, e.r) + appended;
    StepEffect(s, e);
    hide Raws, Next;
    if e.Arrive? {
      ConcatOfLast(ids + [e.r], parts, e.r, mine);
    } else {
      assert e.r in ids && e.r == ids[|ids| - 1];
      ConcatOfLast(ids, parts, e.r, mine);
      ConcatOfLast(ids, parts, e.r, parts[e.r]);
      assert parts[e.r := parts[e.r]] == parts;
    }
  }

  lemma ConcatOfLast(ids: seq<ReqId>, parts: map<ReqId, seq<string>>, r: ReqId, part: seq<string>)
    requires ids != [] && ids[|ids| - 1] == r && r !in ids[..|ids| - 1]
    ensures Concat(ids, parts[r := part]) == Concat(ids[..|ids| - 1], parts) + part
  {
    ConcatLocal(ids[..|ids| - 1], parts, r, part);
  }

  lemma {:induction false} AlwaysSerial(trace: seq<Event>)
    requires Run(Start, trace).Some? && OneAtATime(trace)
    ensures Serial(Run(Start, trace).value, Arrivals(trace))
  {
    if trace == [] {
      assert Raws([]) == [];
    } else {
      var front := trace[..|trace| - 1];
      AlwaysSerial(front);
      AlwaysConsistent(front);
      SerialStep(Run(Start, front).value, Arrivals(front), trace[|trace| - 1]);
      var last := trace[|trace| - 1];
      assert Arrivals(trace) == if last.Arrive? then Arrivals(front) + [last.r] else Arrivals(front);
    }
  }

  /** For a client that waits for each reply, the capture is everything it got answered, in submission order. */
  lemma SerialClientCapture(trace: seq<Event>)
    requires Run(Start, trace).Some? && OneAtATime(trace) && Quiet(Run(Start, trace).value.handlers)
    ensures var s := Run(Start, trace).value;
            Raws(s.log) == Concat(Arrivals(trace), FullParts(s.handlers))
  {
    hide Extract, Run, Concat, OneAtATime, Arrivals;
    AlwaysSerial(trace);
    var h := Run(Start, trace).value.handlers;
    assert Parts(h) == FullParts(h);
  }

  // ---------------------------------------------------------------- the handler as written

  lemma ExtractOfNoValue()
    ensures Extract(Malformed) == Extraction([], Swallowed)
    ensures Extract(TooDeep) == Extraction([], Escaped)
  {
  }

  lemma ExtractOfPayload(payload: Json)
    ensures Extract(Parsed(payload)) == ExtractFrom(CallsOf(payload))
  {
  }

  lemma ExtractFromEnd(calls: seq<Json>)
    ensures ExtractFrom(calls[|calls|..]) == Extraction([], Completed)
  {
  }

  lemma ExtractFromStep(calls: seq<Json>, i: nat)
    requires i < |calls|
    ensures var now, later := ExtractFrom(calls[i..]), ExtractFrom(calls[i + 1..]);
            match EffectOf(calls[i])
            case Skip => now == later
            case Raw(raw) => now == Extraction([raw] + later.txs, later.ending)
            case RaisesTypeError => now == Extraction([], Swallowed)
            case RaisesKeyError => now == Extraction([], Escaped)
  {
    hide EffectOf;
    assert calls[i..][0] == calls[i] && calls[i..][1..] == calls[i + 1..];
  }

  lemma EndingMoves(h: Handlers, r: ReqId, body: Body)
    requires r in h && h[r] in {Unreachable(body), Recording(body, |Extract(body).txs|)}
    ensures h[r].Unreachable? ==> Move(h, Reply(r)) == Some(Moved(h[r := Refused(body)], []))
    ensures h[r].Recording? ==>
              if Extract(body).ending == Escaped then Move(h, Crash(r)) == Some(Moved(h[r := Crashed(body)], []))
              else Move(h, Reply(r)) == Some(Moved(h[r := Replied(body)], []))
  {
    hide Extract;
  }

  /** The response a client gets; None when the connection is torn. */
  datatype Response = Forwarded | BadGateway

  /** `_Recorder` and the server's threads. The trace is kept only to say what has happened. */
  class Server {
    var rawTxs: seq<string>
    var handlers: Handlers
    ghost var trace: seq<Event>
    ghost var log: seq<Entry>

    ghost predicate Valid()
      reads this
    {
      Run(Start, trace) == Some(Proxy(log, handlers)) && rawTxs == Raws(log)
    }

    constructor ()
      ensures Valid() && trace == []
    {
      rawTxs, handlers, trace, log := [], map[], [], [];
    }

    /** One atomic move; an append happens under the lock. */
    method Take(e: Event)
      requires Valid() && Move(handlers, e).Some?
      modifies this
      ensures Valid() && trace == old(trace) + [e]
      ensures handlers == Move(old(handlers), e).value.handlers
      ensures log == old(log) + Owned(e.r, Move(old(handlers), e).value.appended)
    {
      hide Move;
      var m := Move(handlers, e).value;
      assert (trace + [e])[..|trace|] == trace;
      assert Raws(log + Owned(e.r, m.appended)) == Raws(log) + m.appended;
      rawTxs, handlers := rawTxs + m.appended, m.handlers;
      trace, log := trace + [e], log + Owned(e.r, m.appended);
    }

    lemma ValidIsConsistent()
      requires Valid()
      ensures Consistent(Proxy(log, handlers))
    {
      AlwaysConsistent(trace);
    }

    lemma MineIsDone(me: ReqId)
      requires Valid()
      ensures Project(log, me) == DoneBy(handlers, me)
    {
      AlwaysConsistent(trace);
    }

    /** Any number of moves by any other threads. */
    method OtherThreads(me: ReqId)
      requires Valid()
      modifies this
      ensures Valid() && old(trace) <= trace
      ensures (me in handlers) == (me in old(handlers))
      ensures me in handlers ==> handlers[me] == old(handlers[me])
      ensures Project(log, me) == old(Project(log, me))
      ensures forall i :: |old(trace)| <= i < |trace| ==> trace[i].r != me
    {
      hide Move, Project, Owned, Consistent;
      var schedule: seq<Event> := *;
      for i := 0 to |schedule|
        invariant Valid() && old(trace) <= trace
        invariant (me in handlers) == (me in old(handlers))
        invariant me in handlers ==> handlers[me] == old(handlers[me])
        invariant Project(log, me) == old(Project(log, me))
        invariant forall i :: |old(trace)| <= i < |trace| ==> trace[i].r != me
      {
        var e := schedule[i];
        if e.r != me && Move(handlers, e).Some? {
          ghost var appended := Move(handlers, e).value.appended;
          ValidIsConsistent();
          MoveEffect(Proxy(log, handlers), e);
          ProjectOwned(e.r, appended, me);
          ProjectOfAppend(log, Owned(e.r, appended), me);
          Take(e);
        }
      }
    }

    /** `snapshot`. */
    method Snapshot() returns (copy: seq<string>)
      requires Valid()
      ensures copy == rawTxs
    {
      copy := rawTxs;
    }

    /** `_extract_raw_txs`, with other threads running before every record. */
    method ExtractRawTxs(me: ReqId, payload: Json) returns (ending: Ending)
      requires Valid() && me in handlers && handlers[me] == Recording(Parsed(payload), 0)
      modifies this
      ensures Valid() && old(trace) <= trace
      ensures me in handlers && handlers[me] == Recording(Parsed(payload), |Extract(Parsed(payload)).txs|)
      ensures ending == Extract(Parsed(payload)).ending
    {
      hide Extract, ExtractFrom, EffectOf, CallsOf, Move, Project, Valid;
      var calls := CallsOf(payload);
      ghost var all := ExtractFrom(calls);
      ExtractOfPayload(payload);
      var i := 0;
      assert calls[0..] == calls && all.txs[0..] == all.txs;
      ghost var n := 0;
      while i < |calls|
        invariant i <= |calls| && n <= |all.txs|
        invariant Valid() && old(trace) <= trace
        invariant me in handlers && handlers[me] == Recording(Parsed(payload), n)
        invariant all.txs[n..] == ExtractFrom(calls[i..]).txs
        invariant all.ending == ExtractFrom(calls[i..]).ending
      {
        var call := calls[i];
        ExtractFromStep(calls, i);
        match EffectOf(call) {
          case Skip =>
          case RaisesTypeError => return Swallowed;
          case RaisesKeyError => return Escaped;
          case Raw(raw) =>
            assert all.txs[n..][0] == raw == all.txs[n];
            OtherThreads(me);
            RecordMoves(handlers, me, Parsed(payload), n);
            Take(Record(me));
            assert all.txs[n + 1..] == all.txs[n..][1..];
            n := n + 1;
        }
        i := i + 1;
      }
      ExtractFromEnd(calls);
      return Completed;
    }

    /** The handler's try block: parse the body and record what it sends. */
    method RecordBody(me: ReqId, body: Body) returns (ending: Ending)
      requires Valid() && me in handlers && handlers[me] == Recording(body, 0)
      modifies this
      ensures Valid() && old(trace) <= trace
      ensures me in handlers && handlers[me] == Recording(body, |Extract(body).txs|)
      ensures ending == Extract(body).ending
    {
      hide Extract, Move, Valid;
      ExtractOfNoValue();
      match body {
        case Malformed => return Swallowed;
        case TooDeep => return Escaped;
        case Parsed(payload) => ending := ExtractRawTxs(me, payload);
      }
    }

    /** `do_POST`: forward, record what was broadcast, and only then reply. */
    method DoPost(me: ReqId, body: Body, reachable: bool) returns (reply: Option<Response>)
      requires Valid() && me !in handlers
      modifies this
      ensures Valid() && old(trace) + [Arrive(me, body)] <= trace
      ensures me in handlers
      ensures |trace| > 0 && (reply.Some? <==> trace[|trace| - 1] == Reply(me))
      ensures Project(log, me) == if reachable then Extract(body).txs else []
      ensures reply == if !reachable then Some(BadGateway)
                       else if Extract(body).ending == Escaped then None
                       else Some(Forwarded)
      ensures handlers[me] == if !reachable then Refused(body)
                              else if Extract(body).ending == Escaped then Crashed(body)
                              else Replied(body)
    {
      hide Extract, Project, Move, Valid;
      ArrivingMove(handlers, me, body);
      Take(Arrive(me, body));
      OtherThreads(me);
      ForwardingMoves(handlers, me, body);
      if !reachable {
        Take(Failed(me));
        OtherThreads(me);
        EndingMoves(handlers, me, body);
        Take(Reply(me));
        MineIsDone(me);
        return Some(BadGateway);
      }
      Take(Answered(me));
      OtherThreads(me);
      var ending := RecordBody(me, body);
      OtherThreads(me);
      EndingMoves(handlers, me, body);
      if ending == Escaped {
        Take(Crash(me));
        MineIsDone(me);
        return None;
      }
      Take(Reply(me));
      MineIsDone(me);
      return Some(Forwarded);
    }
  }
}
