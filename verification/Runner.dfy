/**
 Replaying one fixture against an Engine API endpoint.

 `DriveChain` is the driver as written: a loop with early returns over a mutable
 engine. Its specification is a plan, a fixed list of steps that depends on the
 fixture alone, executed up to the first step whose answer is a failure.
 */
module Runner {
  import opened Wrappers
  import opened Numerals
  import opened Wire

  /** What the engine may answer: payload statuses of the Engine API. */
  datatype Status = VALID | INVALID | SYNCING | ACCEPTED | INVALID_BLOCK_HASH

  /** The answer to one call. Each call looks only at the parts it understands. */
  datatype Answer =
    | Replied(status: Status, payloadId: Option<nat>, built: Payload)
    | RpcError

  /** All the answers an engine will give, by position of the call. */
  type Script = nat -> Answer

  datatype BuildAttributes = NoBuild | Direct(attrs: Attributes) | ViaBuildoor(goAttrs: GoAttributes)

  /** A call that reaches the execution client. A version is None where buildoor picks it. */
  datatype Call =
    | SendRaw(raw: string)
    | ForkchoiceUpdated(head: HexBytes, attributes: BuildAttributes, fcuVersion: Option<nat>)
    | GetPayload(id: nat, getVersion: Option<nat>)
    | NewPayload(payload: EnginePayload)

  datatype Builder = DirectEngine(getPayloadVersion: nat) | Buildoor

  datatype Fixture = Fixture(genesisHash: HexBytes, payloads: seq<EnginePayload>)

  /** One line of a diff: the field, what the fixture has, what was built. */
  datatype Mismatch = Mismatch(field: string, expected: FieldValue, got: FieldValue)

  datatype BlockResult = BlockResult(number: nat, matched: bool, mismatches: seq<Mismatch>)

  datatype FixtureResult = FixtureResult(testId: string, blocks: seq<BlockResult>, error: Option<string>) {
    predicate Passed() {
      error.None? && forall i :: 0 <= i < |blocks| ==> blocks[i].matched
    }
  }

  /** A driver either returns a result or lets an exception out. */
  datatype Outcome = Returned(result: FixtureResult) | Raised

  // ---------------------------------------------------------------- comparing payloads

  const GAS_LIMIT := "gas_limit"
  const EXTRA_DATA := "extra_data"
  const BLOCK_HASH := "block_hash"

  /** The fields a builder chooses for itself. */
  predicate BuilderPicked(field: string) {
    field == GAS_LIMIT || field == EXTRA_DATA || field == BLOCK_HASH
  }

  /** `getattr(payload, field, None)`. */
  function Attr(p: Payload, field: string): FieldValue {
    if field == "number" then Number(p.number)
    else if field == "parent_hash" then Bytes(p.parentHash)
    else if field == BLOCK_HASH then Bytes(p.blockHash)
    else if field == "timestamp" then Number(p.timestamp)
    else if field == "prev_randao" then Bytes(p.prevRandao)
    else if field == "fee_recipient" then Bytes(p.feeRecipient)
    else if field == "transactions" then Transactions(p.transactions)
    else if field == "withdrawals" then if p.withdrawals.Some? then Withdrawals(p.withdrawals.value) else Absent
    else if field == "slot_number" then if p.slotNumber.Some? then Number(p.slotNumber.value) else Absent
    else if field == GAS_LIMIT then Number(p.gasLimit)
    else if field == EXTRA_DATA then Bytes(p.extraData)
    else if field in p.others then p.others[field]
    else Absent
  }

  predicate Differs(built: Payload, expected: Payload, field: string) {
    !BuilderPicked(field) && Attr(built, field) != Attr(expected, field)
  }

  function MismatchOf(built: Payload, expected: Payload, field: string): Mismatch {
    Mismatch(field, Attr(expected, field), Attr(built, field))
  }

  /** The fields of `fields` that differ, in the model's order. */
  function Mismatches(built: Payload, expected: Payload, fields: seq<string>): (m: seq<Mismatch>)
    ensures forall x :: x in m <==>
              x.field in fields && Differs(built, expected, x.field) && x == MismatchOf(built, expected, x.field)
  {
    if fields == [] then []
    else
      var front := fields[..|fields| - 1];
      var f := fields[|fields| - 1];
      assert fields == front + [f];
      Mismatches(built, expected, front) + if Differs(built, expected, f) then [MismatchOf(built, expected, f)] else []
  }

  method DiffPayload(built: Payload, expected: Payload, fields: seq<string>) returns (mismatches: seq<Mismatch>)
    ensures mismatches == Mismatches(built, expected, fields)
  {
    mismatches := [];
    for i := 0 to |fields|
      invariant mismatches == Mismatches(built, expected, fields[..i])
    {
      var field := fields[i];
      assert fields[..i + 1][..i] == fields[..i];
      if BuilderPicked(field) {
        continue;
      }
      var bv := Attr(built, field);
      var ev := Attr(expected, field);
      if bv != ev {
        mismatches := mismatches + [Mismatch(field, ev, bv)];
      }
    }
    assert fields[..|fields|] == fields;
  }

  /** The field names of a payload model that has every field the harness reads. */
  predicate CoversModel(fields: seq<string>, p: Payload) {
    && "number" in fields && "parent_hash" in fields && "timestamp" in fields && "prev_randao" in fields
    && "fee_recipient" in fields && "transactions" in fields && "withdrawals" in fields && "slot_number" in fields
    && forall f :: f in p.others ==> f in fields && !ReadByName(f)
  }

  /** The fields the harness reads by name; a payload's other fields are called something else. */
  predicate ReadByName(f: string) {
    || f == "number" || f == "parent_hash" || f == "block_hash" || f == "timestamp" || f == "prev_randao"
    || f == "fee_recipient" || f == "transactions" || f == "withdrawals" || f == "slot_number"
    || f == "gas_limit" || f == "extra_data"
  }

  lemma AttrOfOther(p: Payload, f: string)
    requires f in p.others && !ReadByName(f)
    ensures Attr(p, f) == p.others[f] && !BuilderPicked(f)
  {
  }

  /** No mismatch means the payloads are equal once the three picked fields are overwritten, and conversely. */
  lemma MatchedIffEqualUpToPicked(built: Payload, expected: Payload, fields: seq<string>)
    requires CoversModel(fields, built) && CoversModel(fields, expected)
    requires built.others.Keys == expected.others.Keys
    ensures Mismatches(built, expected, fields) == [] <==>
            built.(gasLimit := expected.gasLimit, extraData := expected.extraData, blockHash := expected.blockHash)
            == expected
  {
    var m := Mismatches(built, expected, fields);
    if m == [] {
      forall f | f in fields
        ensures !Differs(built, expected, f)
      {
        assert MismatchOf(built, expected, f) !in m;
      }
      EqualWhenNoneDiffers(built, expected, fields);
    } else {
      assert m[0] in m && Differs(built, expected, m[0].field);
    }
  }

  lemma EqualWhenNoneDiffers(built: Payload, expected: Payload, fields: seq<string>)
    requires CoversModel(fields, built) && CoversModel(fields, expected)
    requires built.others.Keys == expected.others.Keys
    requires forall f :: f in fields ==> !Differs(built, expected, f)
    ensures built.(gasLimit := expected.gasLimit, extraData := expected.extraData, blockHash := expected.blockHash)
            == expected
  {
    assert !Differs(built, expected, "number") && !Differs(built, expected, "parent_hash")
           && !Differs(built, expected, "timestamp") && !Differs(built, expected, "prev_randao")
           && !Differs(built, expected, "fee_recipient") && !Differs(built, expected, "transactions")
           && !Differs(built, expected, "withdrawals") && !Differs(built, expected, "slot_number");
    forall f | f in built.others
      ensures built.others[f] == expected.others[f]
    {
      AttrOfOther(built, f);
      AttrOfOther(expected, f);
      assert !Differs(built, expected, f);
    }
    assert built.others == expected.others;
  }

  // ---------------------------------------------------------------- the engine

  function Moved(head: HexBytes, call: Call, answer: Answer): HexBytes {
    if call.ForkchoiceUpdated? && answer.Replied? && answer.status == VALID then call.head else head
  }

  /** An execution client: it answers as it likes, and moves its head only on a VALID forkchoiceUpdated. */
  class Engine {
    const script: Script
    var log: seq<Call>
    var head: HexBytes

    constructor (script: Script, head: HexBytes)
      ensures this.script == script && this.head == head && log == []
    {
      this.script, this.head, this.log := script, head, [];
    }

    method Perform(call: Call) returns (answer: Answer)
      modifies this
      ensures answer == script(|old(log)|)
      ensures log == old(log) + [call]
      ensures head == Moved(old(head), call, answer)
    {
      answer := script(|log|);
      head := Moved(head, call, answer);
      log := log + [call];
    }
  }

  // ---------------------------------------------------------------- the plan

  /** One step of a replay. `Refused` is a build request simbuild turns down before calling the engine. */
  datatype Step =
    | Bootstrap(head: HexBytes, version: nat)
    | Submit(raw: string)
    | StartBuild(idx: nat, parent: HexBytes, attributes: BuildAttributes, fcuVersion: Option<nat>)
    | Refused
    | Fetch(expected: Payload, getVersion: Option<nat>)
    | Import(idx: nat, payload: EnginePayload)
    | Advance(idx: nat, head: HexBytes, version: nat)

  function Submits(raws: seq<string>): seq<Step> {
    seq(|raws|, i requires 0 <= i < |raws| => Submit(raws[i]))
  }

  /** Asking for a block: runner.py's own calls, or the calls buildoor makes for POST /build. */
  function BuildSteps(p: EnginePayload, idx: nat, builder: Builder): seq<Step> {
    match builder
    case DirectEngine(getVersion) =>
      [StartBuild(idx, p.expected.parentHash, Direct(PayloadAttributes(p)), Some(p.fcuVersion)),
       Fetch(p.expected, Some(getVersion))]
    case Buildoor =>
      var request := RequestBody(p);
      var decoded := Decoded(request);
      if decoded.Err? then [Refused]
      else [StartBuild(idx, FromHexText(request.parentHash), ViaBuildoor(decoded.value), None),
            Fetch(p.expected, None)]
  }

  /** Everything done for one fixture entry; an entry marked invalid is skipped. */
  function Segment(p: EnginePayload, idx: nat, builder: Builder): seq<Step> {
    if !p.valid then []
    else Submits(p.expected.transactions) + BuildSteps(p, idx, builder)
         + [Import(idx, p), Advance(idx, p.expected.blockHash, p.fcuVersion)]
  }

  /** The plan for the first n entries. */
  function PlanTo(fx: Fixture, builder: Builder, n: nat): seq<Step>
    requires n <= |fx.payloads| && fx.payloads != []
  {
    if n == 0 then [Bootstrap(fx.genesisHash, fx.payloads[0].fcuVersion)]
    else PlanTo(fx, builder, n - 1) + Segment(fx.payloads[n - 1], n - 1, builder)
  }

  function Plan(fx: Fixture, builder: Builder): seq<Step>
    requires fx.payloads != []
  {
    PlanTo(fx, builder, |fx.payloads|)
  }

  predicate Fails(step: Step, answer: Answer) {
    match step
    case Refused => true
    case Submit(_) => answer.RpcError?
    case Fetch(_, _) => answer.RpcError?
    case StartBuild(_, _, _, _) => answer.RpcError? || answer.status != VALID || answer.payloadId.None?
    case _ => answer.RpcError? || answer.status != VALID
  }

  /** The id the previous call returned. */
  function IdBefore(script: Script, n: nat): nat {
    if n > 0 && script(n - 1).Replied? && script(n - 1).payloadId.Some? then script(n - 1).payloadId.value else 0
  }

  /** The call a step makes when it is the n-th step; a refused request makes none. */
  function CallOf(step: Step, script: Script, n: nat): Option<Call> {
    match step
    case Bootstrap(head, v) => Some(ForkchoiceUpdated(head, NoBuild, Some(v)))
    case Submit(raw) => Some(SendRaw(raw))
    case StartBuild(_, parent, attrs, v) => Some(ForkchoiceUpdated(parent, attrs, v))
    case Refused => None
    case Fetch(_, v) => Some(GetPayload(IdBefore(script, n), v))
    case Import(_, p) => Some(NewPayload(p))
    case Advance(_, head, v) => Some(ForkchoiceUpdated(head, NoBuild, Some(v)))
  }

  /** How many steps succeed before the first failure, counting from step n on. */
  function StopFrom(plan: seq<Step>, script: Script, n: nat): (stop: nat)
    requires n <= |plan|
    ensures n <= stop <= |plan|
    ensures forall k :: n <= k < stop ==> !Fails(plan[k], script(k))
    ensures stop < |plan| ==> Fails(plan[stop], script(stop))
    decreases |plan| - n
  {
    if n == |plan| || Fails(plan[n], script(n)) then n else StopFrom(plan, script, n + 1)
  }

  function Stop(plan: seq<Step>, script: Script): (stop: nat)
    ensures stop <= |plan|
  {
    StopFrom(plan, script, 0)
  }

  lemma {:induction false} StopFromIs(plan: seq<Step>, script: Script, n: nat, stop: nat)
    requires n <= stop <= |plan|
    requires forall k :: n <= k < stop ==> !Fails(plan[k], script(k))
    requires stop < |plan| ==> Fails(plan[stop], script(stop))
    ensures StopFrom(plan, script, n) == stop
    decreases stop - n
  {
    if n < stop {
      StopFromIs(plan, script, n + 1, stop);
    }
  }

  /** The calls of the first n steps. */
  function Calls(plan: seq<Step>, script: Script, n: nat): seq<Call>
    requires n <= |plan|
  {
    if n == 0 then []
    else
      var call := CallOf(plan[n - 1], script, n - 1);
      Calls(plan, script, n - 1) + if call.Some? then [call.value] else []
  }

  /** The blocks compared by the first n steps. */
  function Blocks(plan: seq<Step>, script: Script, fields: seq<string>, n: nat): seq<BlockResult>
    requires n <= |plan|
  {
    if n == 0 then []
    else
      Blocks(plan, script, fields, n - 1) + NewBlocks(plan[n - 1], script(n - 1), fields)
  }

  /** A fetched payload is compared at once. */
  function NewBlocks(step: Step, answer: Answer, fields: seq<string>): seq<BlockResult> {
    if step.Fetch? && answer.Replied? then [Compared(answer.built, step.expected, fields)] else []
  }

  function Compared(built: Payload, expected: Payload, fields: seq<string>): BlockResult {
    var m := Mismatches(built, expected, fields);
    BlockResult(expected.number, m == [], m)
  }

  lemma ComparedIs(built: Payload, expected: Payload, fields: seq<string>)
    ensures var m := Mismatches(built, expected, fields);
            Compared(built, expected, fields) == BlockResult(expected.number, m == [], m)
  {
  }

  /** The head after the first n steps. */
  function HeadAfter(plan: seq<Step>, script: Script, start: HexBytes, n: nat): HexBytes
    requires n <= |plan|
  {
    if n == 0 then start
    else
      var head := HeadAfter(plan, script, start, n - 1);
      var call := CallOf(plan[n - 1], script, n - 1);
      if call.Some? then Moved(head, call.value, script(n - 1)) else head
  }

  function StatusName(s: Status): string {
    match s
    case VALID => "VALID"
    case INVALID => "INVALID"
    case SYNCING => "SYNCING"
    case ACCEPTED => "ACCEPTED"
    case INVALID_BLOCK_HASH => "INVALID_BLOCK_HASH"
  }

  function BlockError(what: string, idx: nat, rest: string): string {
    what + " (block " + Dec(idx) + ") " + rest
  }

  /** The error a failing step reports, or None when it surfaces as an exception. */
  function ErrorOf(step: Step, answer: Answer): Option<string> {
    if step.Refused? || answer.RpcError? then None
    else
      var notValid := "not VALID: " + StatusName(answer.status);
      match step
      case Bootstrap(_, _) => Some("bootstrap forkchoiceUpdated " + notValid)
      case StartBuild(idx, _, attrs, _) =>
        if attrs.ViaBuildoor? then None
        else if answer.status != VALID then Some(BlockError("fcu", idx, notValid))
        else Some(BlockError("fcu", idx, "returned no payloadId"))
      case Import(idx, _) => Some(BlockError("newPayload", idx, notValid))
      case Advance(idx, _, _) => Some(BlockError("fcu advance", idx, notValid))
      case _ => None
  }

  /** How a replay ends: at the first failing step, or after the last one. */
  function Conclusion(fx: Fixture, testId: string, builder: Builder, fields: seq<string>, script: Script): Outcome {
    if fx.payloads == [] then Raised
    else
      var plan := Plan(fx, builder);
      var stop := Stop(plan, script);
      var blocks := Blocks(plan, script, fields, stop);
      if stop == |plan| then Returned(FixtureResult(testId, blocks, None))
      else if ErrorOf(plan[stop], script(stop)).Some? then
        Returned(FixtureResult(testId, blocks, ErrorOf(plan[stop], script(stop))))
      else Raised
  }

  /** The calls a whole replay makes: those of the steps that succeed, and of the one that fails. */
  function AllCalls(fx: Fixture, builder: Builder, script: Script): seq<Call> {
    if fx.payloads == [] then []
    else var plan := Plan(fx, builder); Calls(plan, script, Min(Stop(plan, script) + 1, |plan|))
  }

  function FinalHead(fx: Fixture, builder: Builder, script: Script, start: HexBytes): HexBytes {
    if fx.payloads == [] then start
    else var plan := Plan(fx, builder); HeadAfter(plan, script, start, Min(Stop(plan, script) + 1, |plan|))
  }

  // ---------------------------------------------------------------- the driver

  /** After n successful steps the engine, the script and the results so far agree with the plan. */
  ghost predicate OnPlan(engine: Engine, start: HexBytes, plan: seq<Step>, fields: seq<string>,
                         blocks: seq<BlockResult>, n: nat)
    reads engine
  {
    && n <= |plan|
    && |engine.log| == n
    && engine.log == Calls(plan, engine.script, n)
    && engine.head == HeadAfter(plan, engine.script, start, n)
    && blocks == Blocks(plan, engine.script, fields, n)
    && forall k :: 0 <= k < n ==> !Fails(plan[k], engine.script(k))
  }

  lemma {:induction false} PlanGrows(fx: Fixture, builder: Builder, m: nat, n: nat)
    requires fx.payloads != [] && m <= n <= |fx.payloads|
    ensures PlanTo(fx, builder, m) <= PlanTo(fx, builder, n)
    decreases n
  {
    hide Segment;
    if m < n {
      PlanGrows(fx, builder, m, n - 1);
    }
  }

  /** The steps of entry k stand in the plan right after those of the entries before it. */
  lemma SegmentInPlan(fx: Fixture, builder: Builder, k: nat)
    requires fx.payloads != [] && k < |fx.payloads|
    ensures PlanTo(fx, builder, k + 1) == PlanTo(fx, builder, k) + Segment(fx.payloads[k], k, builder)
    ensures PlanTo(fx, builder, k) + Segment(fx.payloads[k], k, builder) <= Plan(fx, builder)
  {
    hide Segment;
    PlanGrows(fx, builder, k + 1, |fx.payloads|);
  }

  /** Where the steps of a valid entry stand in the plan. */
  lemma PlaceSegment(fx: Fixture, builder: Builder, idx: nat)
    requires fx.payloads != [] && idx < |fx.payloads| && fx.payloads[idx].valid
    ensures var p := fx.payloads[idx];
            var plan := Plan(fx, builder);
            var n := |PlanTo(fx, builder, idx)|;
            var t := |p.expected.transactions|;
            var b := |BuildSteps(p, idx, builder)|;
            && n + t + b + 2 == |PlanTo(fx, builder, idx + 1)| <= |plan|
            && StepsFollow(plan, n, Submits(p.expected.transactions))
            && StepsFollow(plan, n + t, BuildSteps(p, idx, builder))
            && StepsFollow(plan, n + t + b, [Import(idx, p), Advance(idx, p.expected.blockHash, p.fcuVersion)])
  {
    hide PlanTo, Plan, BuildSteps, StepsFollow;
    SegmentInPlan(fx, builder, idx);
    var p := fx.payloads[idx];
    var plan, front := Plan(fx, builder), PlanTo(fx, builder, idx);
    var submits, steps := Submits(p.expected.transactions), BuildSteps(p, idx, builder);
    var ends := [Import(idx, p), Advance(idx, p.expected.blockHash, p.fcuVersion)];
    hide Submits;
    assert front + Segment(p, idx, builder) == front + submits + steps + ends;
    hide Segment;
    Follows(front, submits, steps + ends, plan);
    Follows(front + submits, steps, ends, plan);
    Follows(front + submits + steps, ends, [], plan);
  }

  lemma Follows(front: seq<Step>, part: seq<Step>, back: seq<Step>, plan: seq<Step>)
    requires front + part + back <= plan
    ensures StepsFollow(plan, |front|, part)
  {
    var all := front + part + back;
    forall j | 0 <= j < |part|
      ensures plan[|front| + j] == part[j]
    {
      assert plan[|front| + j] == all[|front| + j];
    }
  }

  lemma LogLength(engine: Engine, start: HexBytes, plan: seq<Step>, fields: seq<string>, blocks: seq<BlockResult>,
                  n: nat)
    requires OnPlan(engine, start, plan, fields, blocks, n)
    ensures n <= |plan| && |engine.log| == n
  {
  }

  /** The parts of a valid entry's segment. */
  lemma SegmentParts(p: EnginePayload, idx: nat, builder: Builder)
    requires p.valid
    ensures var segment, steps := Segment(p, idx, builder), BuildSteps(p, idx, builder);
            var t, b := |p.expected.transactions|, |steps|;
            && |segment| == t + b + 2
            && (forall j :: 0 <= j < t ==> segment[j] == Submit(p.expected.transactions[j]))
            && segment[t..t + b] == steps
            && segment[t + b..t + b + 2] == [Import(idx, p), Advance(idx, p.expected.blockHash, p.fcuVersion)]
  {
    hide BuildSteps;
  }

  /** The engine has seen exactly the calls up to and including the failing step. */
  ghost predicate Stopped(engine: Engine, start: HexBytes, plan: seq<Step>, fields: seq<string>, blocks: seq<BlockResult>)
    reads engine
  {
    var stop := Stop(plan, engine.script);
    var n := Min(stop + 1, |plan|);
    && engine.log == Calls(plan, engine.script, n)
    && engine.head == HeadAfter(plan, engine.script, start, n)
    && blocks == Blocks(plan, engine.script, fields, stop)
  }

  /** Stopped, with the error the plan reports there (None for an exception). */
  ghost predicate StoppedWith(engine: Engine, error: Option<string>, start: HexBytes, plan: seq<Step>,
                              fields: seq<string>, blocks: seq<BlockResult>)
    reads engine
  {
    var stop := Stop(plan, engine.script);
    && Stopped(engine, start, plan, fields, blocks)
    && stop < |plan|
    && ErrorOf(plan[stop], engine.script(stop)) == error
  }

  /** Making the call of the next step either keeps the engine on the plan or stops it there. */
  method Take(engine: Engine, call: Call, ghost start: HexBytes, ghost plan: seq<Step>, ghost fields: seq<string>,
              ghost blocks: seq<BlockResult>)
    returns (answer: Answer)
    requires OnPlan(engine, start, plan, fields, blocks, |engine.log|)
    requires |engine.log| < |plan| && CallOf(plan[|engine.log|], engine.script, |engine.log|) == Some(call)
    modifies engine
    ensures var n := |old(engine.log)|;
            && answer == engine.script(n)
            && |engine.log| == n + 1
            && (!Fails(plan[n], answer) ==>
                  OnPlan(engine, start, plan, fields,
                         if plan[n].Fetch? then blocks + [Compared(answer.built, plan[n].expected, fields)] else blocks,
                         n + 1))
            && (Fails(plan[n], answer) ==>
                  StoppedWith(engine, ErrorOf(plan[n], answer), start, plan, fields, blocks))
  {
    hide Moved, Compared, ErrorOf;
    ghost var n := |engine.log|;
    assert blocks + [] == blocks;
    answer := engine.Perform(call);
    if Fails(plan[n], answer) {
      StopFromIs(plan, engine.script, 0, n);
    }
  }

  /** simbuild turned the request down: no call is made, and the replay ends with an exception. */
  lemma RefusedStops(engine: Engine, start: HexBytes, plan: seq<Step>, fields: seq<string>, blocks: seq<BlockResult>)
    requires OnPlan(engine, start, plan, fields, blocks, |engine.log|)
    requires |engine.log| < |plan| && plan[|engine.log|] == Refused
    ensures StoppedWith(engine, None, start, plan, fields, blocks)
  {
    StopFromIs(plan, engine.script, 0, |engine.log|);
  }

  /** `_submit_mempool`: send each transaction; the first error stops the replay. */
  method SubmitMempool(engine: Engine, raws: seq<string>, ghost start: HexBytes, ghost plan: seq<Step>,
                       ghost fields: seq<string>, ghost blocks: seq<BlockResult>)
    returns (ok: bool)
    requires OnPlan(engine, start, plan, fields, blocks, |engine.log|)
    requires StepsFollow(plan, |engine.log|, Submits(raws))
    modifies engine
    ensures ok ==> |engine.log| == |old(engine.log)| + |raws|
                   && OnPlan(engine, start, plan, fields, blocks, |engine.log|)
    ensures !ok ==> StoppedWith(engine, None, start, plan, fields, blocks)
  {
    hide OnPlan, StoppedWith, Stopped, Stop, Calls, HeadAfter, Blocks, Compared, Mismatches;
    ghost var n := |engine.log|;
    for i := 0 to |raws|
      invariant |engine.log| == n + i
      invariant OnPlan(engine, start, plan, fields, blocks, |engine.log|)
    {
      assert plan[n + i] == Submits(raws)[i];
      var answer := Take(engine, SendRaw(raws[i]), start, plan, fields, blocks);
      if answer.RpcError? {
        return false;
      }
    }
    return true;
  }

  /** What asking for a block gives: a payload, an error to report, or a raised exception. */
  datatype BuildReply = Built(payload: Payload) | BuildFailed(error: string) | BuildRaised

  /** A build either leaves the engine on the plan with one more block compared, or stops it with the plan's own error. */
  ghost predicate BuildEnds(engine: Engine, reply: BuildReply, p: EnginePayload, start: HexBytes, plan: seq<Step>,
                            fields: seq<string>, blocks: seq<BlockResult>, n: nat)
    reads engine
  {
    match reply
    case Built(built) =>
      && |engine.log| == n
      && OnPlan(engine, start, plan, fields, blocks + [Compared(built, p.expected, fields)], n)
    case _ =>
      StoppedWith(engine, if reply.BuildFailed? then Some(reply.error) else None, start, plan, fields, blocks)
  }

  ghost predicate StepsFollow(plan: seq<Step>, n: nat, steps: seq<Step>) {
    n + |steps| <= |plan| && forall j :: 0 <= j < |steps| ==> plan[n + j] == steps[j]
  }

  lemma BuildoorSteps(p: EnginePayload, idx: nat, plan: seq<Step>, n: nat)
    requires StepsFollow(plan, n, BuildSteps(p, idx, Buildoor))
    ensures match Decoded(RequestBody(p))
            case Err(_) => n < |plan| && plan[n] == Refused
            case Ok(attrs) =>
              && n + 1 < |plan| && |BuildSteps(p, idx, Buildoor)| == 2
              && plan[n] == StartBuild(idx, FromHexText(RequestBody(p).parentHash), ViaBuildoor(attrs), None)
              && plan[n + 1] == Fetch(p.expected, None)
  {
    hide Decoded, RequestBody, FromHexText;
    var steps := BuildSteps(p, idx, Buildoor);
    assert plan[n + 0] == steps[0];
    if Decoded(RequestBody(p)).Ok? {
      assert plan[n + 1] == steps[1];
    }
  }

  /** `request_build`: POST /build, answered by simbuild's engine calls. */
  method RequestBuild(engine: Engine, p: EnginePayload, ghost idx: nat, ghost start: HexBytes, ghost plan: seq<Step>,
                      ghost fields: seq<string>, ghost blocks: seq<BlockResult>)
    returns (reply: BuildReply)
    requires OnPlan(engine, start, plan, fields, blocks, |engine.log|)
    requires StepsFollow(plan, |engine.log|, BuildSteps(p, idx, Buildoor))
    modifies engine
    ensures BuildEnds(engine, reply, p, start, plan, fields, blocks,
                      |old(engine.log)| + |BuildSteps(p, idx, Buildoor)|)
  {
    hide StepsFollow, BuildSteps, Decoded, RequestBody, FromHexText, PayloadAttributes, StatusName, BlockError;
    hide OnPlan, StoppedWith, Stopped, Stop, Calls, HeadAfter, Blocks, Compared, Mismatches;
    ghost var n := |engine.log|;
    BuildoorSteps(p, idx, plan, n);
    var request := RequestBody(p);
    var attrs := ToAttributes(request);
    if attrs.Err? {
      RefusedStops(engine, start, plan, fields, blocks);
      return BuildRaised;
    }
    var parent := FromHexText(request.parentHash);
    var started := Take(engine, ForkchoiceUpdated(parent, ViaBuildoor(attrs.value), None), start, plan, fields, blocks);
    if started.RpcError? || started.status != VALID || started.payloadId.None? {
      return BuildRaised;
    }
    var fetched := Take(engine, GetPayload(started.payloadId.value, None), start, plan, fields, blocks);
    if fetched.RpcError? {
      return BuildRaised;
    }
    return Built(fetched.built);
  }

  /** The driver's own build: forkchoiceUpdated with attributes, then getPayload. */
  method BuildDirectly(engine: Engine, p: EnginePayload, idx: nat, getVersion: nat, ghost start: HexBytes,
                       ghost plan: seq<Step>, ghost fields: seq<string>, ghost blocks: seq<BlockResult>)
    returns (reply: BuildReply)
    requires OnPlan(engine, start, plan, fields, blocks, |engine.log|)
    requires StepsFollow(plan, |engine.log|, BuildSteps(p, idx, DirectEngine(getVersion)))
    modifies engine
    ensures BuildEnds(engine, reply, p, start, plan, fields, blocks,
                      |old(engine.log)| + |BuildSteps(p, idx, DirectEngine(getVersion))|)
  {
    hide OnPlan, StoppedWith, Stopped, Stop, Calls, HeadAfter, Blocks, Compared, Mismatches;
    hide StatusName, BlockError;
    ghost var n := |engine.log|;
    ghost var steps := BuildSteps(p, idx, DirectEngine(getVersion));
    assert plan[n] == plan[n + 0] == steps[0] && plan[n + 1] == steps[1];
    var attrs := PayloadAttributes(p);
    var fcu := Take(engine, ForkchoiceUpdated(p.expected.parentHash, Direct(attrs), Some(p.fcuVersion)),
                    start, plan, fields, blocks);
    if fcu.RpcError? {
      return BuildRaised;
    }
    if fcu.status != VALID {
      return BuildFailed(BlockError("fcu", idx, "not VALID: " + StatusName(fcu.status)));
    }
    if fcu.payloadId.None? {
      return BuildFailed(BlockError("fcu", idx, "returned no payloadId"));
    }
    var fetched := Take(engine, GetPayload(fcu.payloadId.value, Some(getVersion)), start, plan, fields, blocks);
    if fetched.RpcError? {
      return BuildRaised;
    }
    return Built(fetched.built);
  }

  /** How a part of the driver ends: it goes on, reports an error, or raises. */
  datatype Fate = Goes | Reports(error: string) | Raises

  /** A replay that has dealt with the first k entries, or has ended on the way. */
  ghost predicate Drove(engine: Engine, fate: Fate, fx: Fixture, builder: Builder, fields: seq<string>,
                        start: HexBytes, blocks: seq<BlockResult>, k: nat)
    requires fx.payloads != [] && k <= |fx.payloads|
    reads engine
  {
    if fate.Goes? then OnPlan(engine, start, Plan(fx, builder), fields, blocks, |PlanTo(fx, builder, k)|)
    else
      StoppedWith(engine, if fate.Reports? then Some(fate.error) else None, start, Plan(fx, builder), fields, blocks)
  }

  /** Advance along the expected block, whatever was built: newPayload, then forkchoiceUpdated to it. */
  method AdvanceChain(engine: Engine, p: EnginePayload, idx: nat, ghost start: HexBytes, ghost plan: seq<Step>,
                      ghost fields: seq<string>, ghost blocks: seq<BlockResult>)
    returns (fate: Fate)
    requires OnPlan(engine, start, plan, fields, blocks, |engine.log|)
    requires StepsFollow(plan, |engine.log|, [Import(idx, p), Advance(idx, p.expected.blockHash, p.fcuVersion)])
    modifies engine
    ensures fate.Goes? ==> |engine.log| == |old(engine.log)| + 2
                           && OnPlan(engine, start, plan, fields, blocks, |engine.log|)
    ensures !fate.Goes? ==>
              StoppedWith(engine, if fate.Reports? then Some(fate.error) else None, start, plan, fields, blocks)
  {
    hide OnPlan, StoppedWith, Stopped, Stop, Calls, HeadAfter, Blocks, Compared, Mismatches, StatusName, BlockError;
    ghost var n := |engine.log|;
    ghost var steps := [Import(idx, p), Advance(idx, p.expected.blockHash, p.fcuVersion)];
    assert plan[n + 0] == steps[0] && plan[n + 1] == steps[1];
    var imported := Take(engine, NewPayload(p), start, plan, fields, blocks);
    if imported.RpcError? {
      return Raises;
    }
    if imported.status != VALID {
      return Reports(BlockError("newPayload", idx, "not VALID: " + StatusName(imported.status)));
    }
    var advance := Take(engine, ForkchoiceUpdated(p.expected.blockHash, NoBuild, Some(p.fcuVersion)),
                        start, plan, fields, blocks);
    if advance.RpcError? {
      return Raises;
    }
    if advance.status != VALID {
      return Reports(BlockError("fcu advance", idx, "not VALID: " + StatusName(advance.status)));
    }
    return Goes;
  }

  /** One turn of the driver's loop, for an entry that is valid. */
  method DriveEntry(fx: Fixture, idx: nat, engine: Engine, builder: Builder, fields: seq<string>,
                    blocks: seq<BlockResult>, ghost start: HexBytes)
    returns (fate: Fate, blocks': seq<BlockResult>)
    requires idx < |fx.payloads| && fx.payloads[idx].valid
    requires Drove(engine, Goes, fx, builder, fields, start, blocks, idx)
    modifies engine
    ensures Drove(engine, fate, fx, builder, fields, start, blocks', idx + 1)
  {
    hide OnPlan, PlanTo, Plan, Segment, Submits, BuildSteps, StepsFollow, Stopped, StoppedWith, Compared, Mismatches;
    var p := fx.payloads[idx];
    var expected := p.expected;
    ghost var plan := Plan(fx, builder);
    PlaceSegment(fx, builder, idx);
    LogLength(engine, start, plan, fields, blocks, |PlanTo(fx, builder, idx)|);
    var sent := SubmitMempool(engine, expected.transactions, start, plan, fields, blocks);
    if !sent {
      return Raises, blocks;
    }
    var reply: BuildReply;
    match builder {
      case Buildoor =>
        reply := RequestBuild(engine, p, idx, start, plan, fields, blocks);
      case DirectEngine(getVersion) =>
        reply := BuildDirectly(engine, p, idx, getVersion, start, plan, fields, blocks);
    }
    match reply {
      case BuildFailed(error) => return Reports(error), blocks;
      case BuildRaised => return Raises, blocks;
      case Built(built) =>
        var mismatches := DiffPayload(built, expected, fields);
        blocks' := blocks + [BlockResult(expected.number, mismatches == [], mismatches)];
        ComparedIs(built, expected, fields);
        fate := AdvanceChain(engine, p, idx, start, plan, fields, blocks');
    }
  }

  /** Make the genesis block the canonical head. */
  method BootstrapChain(fx: Fixture, engine: Engine, builder: Builder, ghost fields: seq<string>)
    returns (fate: Fate)
    requires engine.log == [] && fx.payloads != []
    modifies engine
    ensures Drove(engine, fate, fx, builder, fields, old(engine.head), [], 0)
  {
    hide Segment, Compared, Mismatches, StatusName;
    ghost var plan := Plan(fx, builder);
    PlanGrows(fx, builder, 0, |fx.payloads|);
    assert plan[0] == PlanTo(fx, builder, 0)[0];
    var bootstrap := Take(engine, ForkchoiceUpdated(fx.genesisHash, NoBuild, Some(fx.payloads[0].fcuVersion)),
                          engine.head, plan, fields, []);
    if bootstrap.RpcError? {
      return Raises;
    }
    if bootstrap.status != VALID {
      return Reports("bootstrap forkchoiceUpdated " + ("not VALID: " + StatusName(bootstrap.status)));
    }
    return Goes;
  }

  /** The driver's contract: outcome, calls and head are those of the plan run to its first failure. */
  ghost predicate Ends(fx: Fixture, testId: string, engine: Engine, builder: Builder, fields: seq<string>,
                       start: HexBytes, outcome: Outcome)
    reads engine
  {
    && outcome == Conclusion(fx, testId, builder, fields, engine.script)
    && engine.log == AllCalls(fx, builder, engine.script)
    && engine.head == FinalHead(fx, builder, engine.script, start)
  }

  lemma SkipsEntry(engine: Engine, fx: Fixture, builder: Builder, fields: seq<string>, start: HexBytes,
                   blocks: seq<BlockResult>, k: nat)
    requires k < |fx.payloads| && !fx.payloads[k].valid && Drove(engine, Goes, fx, builder, fields, start, blocks, k)
    ensures Drove(engine, Goes, fx, builder, fields, start, blocks, k + 1)
  {
    hide OnPlan;
  }

  lemma StaysEnded(engine: Engine, fate: Fate, fx: Fixture, builder: Builder, fields: seq<string>, start: HexBytes,
                   blocks: seq<BlockResult>, k: nat)
    requires k <= |fx.payloads| && fx.payloads != []
    requires !fate.Goes? && Drove(engine, fate, fx, builder, fields, start, blocks, k)
    ensures Drove(engine, fate, fx, builder, fields, start, blocks, |fx.payloads|)
  {
    hide StoppedWith;
  }

  /** How the driver returns, once it has dealt with all entries or has ended on the way. */
  function Returns(fate: Fate, testId: string, blocks: seq<BlockResult>): Outcome {
    match fate
    case Goes => Returned(FixtureResult(testId, blocks, None))
    case Reports(error) => Returned(FixtureResult(testId, blocks, Some(error)))
    case Raises => Raised
  }

  /** A fixture without payloads: reading its first one raises. */
  lemma EndsAtOnce(engine: Engine, fx: Fixture, testId: string, builder: Builder, fields: seq<string>)
    requires fx.payloads == [] && engine.log == []
    ensures Ends(fx, testId, engine, builder, fields, engine.head, Raised)
  {
  }

  /** Where a replay stops decides its outcome. */
  lemma EndsHere(engine: Engine, fate: Fate, fx: Fixture, testId: string, builder: Builder, fields: seq<string>,
                 start: HexBytes, blocks: seq<BlockResult>)
    requires fx.payloads != [] && Drove(engine, fate, fx, builder, fields, start, blocks, |fx.payloads|)
    ensures Ends(fx, testId, engine, builder, fields, start, Returns(fate, testId, blocks))
  {
    hide PlanTo, ErrorOf, Calls, HeadAfter, Blocks;
    if fate.Goes? {
      StopFromIs(Plan(fx, builder), engine.script, 0, |Plan(fx, builder)|);
    }
  }

  /** `_drive_chain`. */
  method DriveChain(fx: Fixture, testId: string, engine: Engine, builder: Builder, fields: seq<string>)
    returns (outcome: Outcome)
    requires engine.log == []
    modifies engine
    ensures outcome == Conclusion(fx, testId, builder, fields, engine.script)
    ensures engine.log == AllCalls(fx, builder, engine.script)
    ensures engine.head == FinalHead(fx, builder, engine.script, old(engine.head))
  {
    hide Drove, Conclusion, AllCalls, FinalHead;
    if fx.payloads == [] {
      EndsAtOnce(engine, fx, testId, builder, fields);
      return Raised;
    }
    ghost var start := engine.head;
    var blockResults: seq<BlockResult> := [];
    var fate := BootstrapChain(fx, engine, builder, fields);
    for idx := 0 to |fx.payloads|
      invariant Drove(engine, fate, fx, builder, fields, start, blockResults, idx)
    {
      if !fate.Goes? {
        StaysEnded(engine, fate, fx, builder, fields, start, blockResults, idx);
        break;
      }
      if !fx.payloads[idx].valid {
        SkipsEntry(engine, fx, builder, fields, start, blockResults, idx);
        continue;
      }
      fate, blockResults := DriveEntry(fx, idx, engine, builder, fields, blockResults, start);
    }
    EndsHere(engine, fate, fx, testId, builder, fields, start, blockResults);
    match fate {
      case Goes => return Returned(FixtureResult(testId, blockResults, None));
      case Reports(error) => return Returned(FixtureResult(testId, blockResults, Some(error)));
      case Raises => return Raised;
    }
  }
}
