/** What holds of every replay: lemmas about the plan that `Runner.DriveChain` is proved to follow. */
module Replay {
  import opened Wrappers
  import opened Numerals
  import opened Wire
  import opened Runner

  // ---------------------------------------------------------------- the builder has no say

  /** Answers that agree on everything but the payload a builder produced. */
  predicate SameButBuilt(a: Answer, b: Answer) {
    match a
    case RpcError => b.RpcError?
    case Replied(status, payloadId, _) => b.Replied? && b.status == status && b.payloadId == payloadId
  }

  function Numbers(blocks: seq<BlockResult>): seq<nat> {
    seq(|blocks|, i requires 0 <= i < |blocks| => blocks[i].number)
  }

  lemma {:induction false} SamePrefixes(plan: seq<Step>, s: Script, s': Script, fields: seq<string>,
                                        start: HexBytes, n: nat)
    requires n <= |plan|
    requires forall k: nat :: SameButBuilt(s(k), s'(k))
    ensures Calls(plan, s, n) == Calls(plan, s', n)
    ensures HeadAfter(plan, s, start, n) == HeadAfter(plan, s', start, n)
    ensures Numbers(Blocks(plan, s, fields, n)) == Numbers(Blocks(plan, s', fields, n))
  {
    hide CallOf, Moved, NewBlocks, SameButBuilt;
    if n > 0 {
      SamePrefixes(plan, s, s', fields, start, n - 1);
      SameStep(plan[n - 1], s, s', fields, n - 1);
      NumbersOfAppend(Blocks(plan, s, fields, n - 1), NewBlocks(plan[n - 1], s(n - 1), fields));
      NumbersOfAppend(Blocks(plan, s', fields, n - 1), NewBlocks(plan[n - 1], s'(n - 1), fields));
    }
  }

  lemma SameStep(step: Step, s: Script, s': Script, fields: seq<string>, n: nat)
    requires forall k: nat :: SameButBuilt(s(k), s'(k))
    ensures CallOf(step, s, n) == CallOf(step, s', n)
    ensures forall head, call :: Moved(head, call, s(n)) == Moved(head, call, s'(n))
    ensures Numbers(NewBlocks(step, s(n), fields)) == Numbers(NewBlocks(step, s'(n), fields))
  {
    hide Mismatches;
    assert SameButBuilt(s(n), s'(n)) && (n > 0 ==> SameButBuilt(s(n - 1), s'(n - 1)));
  }

  lemma NumbersOfAppend(a: seq<BlockResult>, b: seq<BlockResult>)
    ensures Numbers(a + b) == Numbers(a) + Numbers(b)
  {
  }

  /**
   Two replays of a fixture whose engines give the same statuses and payload ids make the same
   engine calls, end on the same head, fail alike and report the same block numbers, whatever
   the two builders built.
   */
  lemma BuilderNonInterference(fx: Fixture, testId: string, builder: Builder, fields: seq<string>,
                               s: Script, s': Script, start: HexBytes)
    requires forall k: nat :: SameButBuilt(s(k), s'(k))
    ensures AllCalls(fx, builder, s) == AllCalls(fx, builder, s')
    ensures FinalHead(fx, builder, s, start) == FinalHead(fx, builder, s', start)
    ensures var o, o' := Conclusion(fx, testId, builder, fields, s), Conclusion(fx, testId, builder, fields, s');
            && (o.Raised? <==> o'.Raised?)
            && (o.Returned? ==> o.result.error == o'.result.error
                                && Numbers(o.result.blocks) == Numbers(o'.result.blocks))
  {
    hide PlanTo, Mismatches, Calls, HeadAfter, Blocks, ErrorOf;
    if fx.payloads != [] {
      var plan := Plan(fx, builder);
      var stop := Stop(plan, s);
      forall k | 0 <= k < |plan|
        ensures Fails(plan[k], s(k)) <==> Fails(plan[k], s'(k))
      {
        assert SameButBuilt(s(k), s'(k));
      }
      hide Plan, Fails;
      StopFromIs(plan, s', 0, stop);
      SamePrefixes(plan, s, s', fields, start, stop);
      SamePrefixes(plan, s, s', fields, start, Min(stop + 1, |plan|));
      if stop < |plan| {
        SameErrors(plan[stop], s(stop), s'(stop));
      }
    }
  }

  lemma SameErrors(step: Step, a: Answer, b: Answer)
    requires SameButBuilt(a, b)
    ensures ErrorOf(step, a) == ErrorOf(step, b)
  {
  }

  // ---------------------------------------------------------------- the shape of a plan

  /** The numbers of the blocks fetched by some steps. */
  function Fetched(steps: seq<Step>): seq<nat> {
    if steps == [] then []
    else
      var last := steps[|steps| - 1];
      Fetched(steps[..|steps| - 1]) + if last.Fetch? then [last.expected.number] else []
  }

  /** The block last advanced to by some steps, or `genesis`. */
  function LastAdvanced(genesis: HexBytes, steps: seq<Step>): HexBytes {
    if steps == [] then genesis
    else
      var last := steps[|steps| - 1];
      if last.Advance? then last.head else LastAdvanced(genesis, steps[..|steps| - 1])
  }

  lemma {:induction false} FoldsOfAppend(genesis: HexBytes, a: seq<Step>, b: seq<Step>)
    ensures Fetched(a + b) == Fetched(a) + Fetched(b)
    ensures LastAdvanced(genesis, a + b) == LastAdvanced(LastAdvanced(genesis, a), b)
  {
    if b == [] {
      assert a + b == a;
    } else {
      var front := b[..|b| - 1];
      assert (a + b)[..|a + b| - 1] == a + front;
      FoldsOfAppend(genesis, a, front);
    }
  }

  lemma {:induction false} FoldsOfSubmits(genesis: HexBytes, steps: seq<Step>)
    requires forall i :: 0 <= i < |steps| ==> steps[i].Submit?
    ensures Fetched(steps) == [] && LastAdvanced(genesis, steps) == genesis
  {
    if steps != [] {
      FoldsOfSubmits(genesis, steps[..|steps| - 1]);
    }
  }

  /** The numbers of the valid entries among the first n. */
  function ValidNumbers(fx: Fixture, n: nat): seq<nat>
    requires n <= |fx.payloads|
  {
    if n == 0 then []
    else
      var p := fx.payloads[n - 1];
      ValidNumbers(fx, n - 1) + if p.valid then [p.expected.number] else []
  }

  /** The block the valid entries among the first n lead to. */
  function Tip(fx: Fixture, n: nat): HexBytes
    requires n <= |fx.payloads|
  {
    if n == 0 then fx.genesisHash
    else if fx.payloads[n - 1].valid then fx.payloads[n - 1].expected.blockHash
    else Tip(fx, n - 1)
  }

  /** Every valid entry builds on the one before it, the first on genesis. */
  predicate ParentLinked(fx: Fixture) {
    forall k :: 0 <= k < |fx.payloads| && fx.payloads[k].valid ==> fx.payloads[k].expected.parentHash == Tip(fx, k)
  }

  /** What must have happened before a step for it to stand where it does. */
  ghost predicate Placed(fx: Fixture, before: seq<Step>, step: Step) {
    match step
    case Bootstrap(head, _) => before == [] && head == fx.genesisHash
    case StartBuild(idx, parent, _, _) =>
      && before != [] && idx < |fx.payloads| && fx.payloads[idx].valid
      && parent == fx.payloads[idx].expected.parentHash
      && Reached(fx, before, idx)
    case Import(idx, p) =>
      && before != [] && idx < |fx.payloads| && p == fx.payloads[idx] && p.valid
      && Fetched(before) == ValidNumbers(fx, idx + 1)
    case Advance(idx, head, _) =>
      && before != [] && idx < |fx.payloads| && fx.payloads[idx].valid
      && head == fx.payloads[idx].expected.blockHash
      && Fetched(before) == ValidNumbers(fx, idx + 1)
    case _ => before != []
  }

  /** The steps deal with the first k entries and no more. */
  ghost predicate Reached(fx: Fixture, steps: seq<Step>, k: nat)
    requires k <= |fx.payloads|
  {
    Fetched(steps) == ValidNumbers(fx, k) && LastAdvanced(fx.genesisHash, steps) == Tip(fx, k)
  }

  /** No build request among these steps is turned down by simbuild. */
  predicate NoRefusal(steps: seq<Step>) {
    forall i :: 0 <= i < |steps| ==> !steps[i].Refused?
  }

  lemma {:induction false} PlanShape(fx: Fixture, builder: Builder, k: nat)
    requires fx.payloads != [] && k <= |fx.payloads|
    ensures var plan := PlanTo(fx, builder, k);
            && plan != []
            && (NoRefusal(plan) ==> Reached(fx, plan, k))
            && forall n: nat :: n < |plan| && NoRefusal(plan[..n]) ==> Placed(fx, plan[..n], plan[n])
  {
    hide Segment, Fetched, LastAdvanced, Tip, ValidNumbers, Placed;
    var plan := PlanTo(fx, builder, k);
    if k == 0 {
      BootstrapShape(fx, builder);
    } else {
      PlanShape(fx, builder, k - 1);
      var front := PlanTo(fx, builder, k - 1);
      var segment := Segment(fx.payloads[k - 1], k - 1, builder);
      hide PlanTo, Reached, NoRefusal;
      if NoRefusal(front) {
        SegmentShape(fx, builder, k - 1, front);
      }
      if NoRefusal(plan) {
        NoRefusalBefore(front, plan);
      }
      forall n: nat | n < |plan| && NoRefusal(plan[..n])
        ensures Placed(fx, plan[..n], plan[n])
      {
        if n < |front| {
          assert plan[..n] == front[..n];
        } else {
          assert plan[..n] == front + segment[..n - |front|];
          NoRefusalBefore(front, plan[..n]);
          assert plan[n] == segment[n - |front|];
        }
      }
    }
  }

  lemma NoRefusalBefore(front: seq<Step>, all: seq<Step>)
    requires front <= all && NoRefusal(all)
    ensures NoRefusal(front)
  {
    assert forall i :: 0 <= i < |front| ==> front[i] == all[i];
  }

  lemma BootstrapShape(fx: Fixture, builder: Builder)
    requires fx.payloads != []
    ensures var plan := PlanTo(fx, builder, 0);
            Reached(fx, plan, 0) && |plan| == 1 && Placed(fx, plan[..0], plan[0])
  {
    var plan := PlanTo(fx, builder, 0);
    FoldsOfSnoc(fx.genesisHash, [], plan[0]);
    assert [] + [plan[0]] == plan;
  }

  /** One entry's steps, after a plan that has dealt with the entries before it. */
  lemma SegmentShape(fx: Fixture, builder: Builder, k: nat, front: seq<Step>)
    requires k < |fx.payloads| && front != [] && NoRefusal(front) && Reached(fx, front, k)
    ensures var segment := Segment(fx.payloads[k], k, builder);
            && (NoRefusal(front + segment) ==> Reached(fx, front + segment, k + 1))
            && forall j: nat :: j < |segment| && NoRefusal(front + segment[..j]) ==>
                 Placed(fx, front + segment[..j], segment[j])
  {
    hide BuildSteps, Fetched, LastAdvanced;
    var p := fx.payloads[k];
    var segment := Segment(p, k, builder);
    if !p.valid {
      assert front + segment == front;
    } else {
      var submits := Submits(p.expected.transactions);
      var t := |submits|;
      BuildStepsShape(fx, k, builder);
      SegmentParts(p, k, builder);
      var steps := BuildSteps(p, k, builder);
      hide Segment;
      assert submits == segment[..t];
      forall j: nat | j <= t
        ensures Reached(fx, front + segment[..j], k)
      {
        FoldsOfAppend(fx.genesisHash, front, segment[..j]);
        FoldsOfSubmits(Tip(fx, k), segment[..j]);
      }
      assert segment[t] == steps[0];
      if steps == [Refused] {
        forall j: nat | t < j <= |segment|
          ensures !NoRefusal(front + segment[..j])
        {
          assert (front + segment[..j])[|front| + t] == Refused;
        }
        assert segment[..|segment|] == segment;
      } else {
        BuiltShape(fx, k, front, segment, t, steps);
      }
    }
  }

  /** The four steps after a valid entry's transactions. */
  lemma BuiltShape(fx: Fixture, k: nat, front: seq<Step>, segment: seq<Step>, t: nat, steps: seq<Step>)
    requires k < |fx.payloads| && fx.payloads[k].valid && front != []
    requires |segment| == t + 4 && |steps| == 2 && segment[t..t + 2] == steps
    requires var p := fx.payloads[k];
             && steps[0].StartBuild? && steps[0].idx == k && steps[0].parent == p.expected.parentHash
             && steps[1].Fetch? && steps[1].expected == p.expected
             && segment[t + 2..t + 4] == [Import(k, p), Advance(k, p.expected.blockHash, p.fcuVersion)]
    requires Reached(fx, front + segment[..t], k)
    ensures Reached(fx, front + segment, k + 1)
    ensures forall j: nat :: t <= j < t + 4 ==> Placed(fx, front + segment[..j], segment[j])
  {
    hide Fetched, LastAdvanced, Tip;
    var g := fx.genesisHash;
    assert segment[t] == steps[0] && segment[t + 1] == steps[1];
    assert segment[t + 2] == segment[t + 2..t + 4][0] && segment[t + 3] == segment[t + 2..t + 4][1];
    var a, b := front + segment[..t], front + segment[..t + 1];
    var c, d := front + segment[..t + 2], front + segment[..t + 3];
    assert b == a + [segment[t]] && c == b + [segment[t + 1]] && d == c + [segment[t + 2]];
    assert front + segment == d + [segment[t + 3]];
    FoldsOfSnoc(g, a, segment[t]);
    FoldsOfSnoc(g, b, segment[t + 1]);
    FoldsOfSnoc(g, c, segment[t + 2]);
    FoldsOfSnoc(g, d, segment[t + 3]);
    TipStep(fx, k);
  }

  lemma TipStep(fx: Fixture, k: nat)
    requires k < |fx.payloads| && fx.payloads[k].valid
    ensures Tip(fx, k + 1) == fx.payloads[k].expected.blockHash
  {
  }

  lemma FoldsOfSnoc(genesis: HexBytes, steps: seq<Step>, step: Step)
    ensures Fetched(steps + [step]) == Fetched(steps) + if step.Fetch? then [step.expected.number] else []
    ensures LastAdvanced(genesis, steps + [step])
         == if step.Advance? then step.head else LastAdvanced(genesis, steps)
  {
    var s := steps + [step];
    assert s[..|s| - 1] == steps;
  }

  lemma BuildStepsShape(fx: Fixture, k: nat, builder: Builder)
    requires k < |fx.payloads|
    ensures var p := fx.payloads[k];
            var steps := BuildSteps(p, k, builder);
            && (steps == [Refused] <==> builder.Buildoor? && !Fits(p))
            && (steps != [Refused] ==>
                && |steps| == 2
                && steps[0].StartBuild? && steps[0].idx == k && steps[0].parent == p.expected.parentHash
                && steps[1].Fetch? && steps[1].expected == p.expected)
  {
    var p := fx.payloads[k];
    PathEquivalence(p);
    ParentSurvives(p);
    hide Decoded, RequestBody, FromHexText, Fits;
  }

  // ---------------------------------------------------------------- every step waits for the one before

  /** The transactions some steps submit. */
  function Sent(steps: seq<Step>): seq<string> {
    if steps == [] then []
    else
      var last := steps[|steps| - 1];
      Sent(steps[..|steps| - 1]) + if last.Submit? then [last.raw] else []
  }

  lemma {:induction false} SentOfAppend(a: seq<Step>, b: seq<Step>)
    ensures Sent(a + b) == Sent(a) + Sent(b)
  {
    if b == [] {
      assert a + b == a;
    } else {
      assert (a + b)[..|a + b| - 1] == a + b[..|b| - 1];
      SentOfAppend(a, b[..|b| - 1]);
    }
  }

  lemma {:induction false} SentOfSubmits(raws: seq<string>)
    ensures Sent(Submits(raws)) == raws
  {
    if raws != [] {
      var front := raws[..|raws| - 1];
      SentOfSubmits(front);
      assert Submits(raws)[..|raws| - 1] == Submits(front);
    }
  }

  lemma {:induction false} NothingSent(steps: seq<Step>)
    requires forall i :: 0 <= i < |steps| ==> !steps[i].Submit?
    ensures Sent(steps) == []
  {
    if steps != [] {
      NothingSent(steps[..|steps| - 1]);
    }
  }

  /** The transactions of the valid entries among the first n. */
  function ValidTransactions(fx: Fixture, n: nat): seq<string>
    requires n <= |fx.payloads|
  {
    if n == 0 then []
    else
      var p := fx.payloads[n - 1];
      ValidTransactions(fx, n - 1) + if p.valid then p.expected.transactions else []
  }

  /** What comes right before a step, and which transactions have been sent by then. */
  ghost predicate InOrder(fx: Fixture, before: seq<Step>, step: Step) {
    match step
    case StartBuild(idx, _, _, _) =>
      idx < |fx.payloads| && Sent(before) == ValidTransactions(fx, idx + 1)
    case Fetch(expected, _) =>
      && before != [] && var last := before[|before| - 1];
      && last.StartBuild? && last.idx < |fx.payloads| && expected == fx.payloads[last.idx].expected
    case Import(idx, p) =>
      && before != [] && var last := before[|before| - 1];
      && idx < |fx.payloads| && p == fx.payloads[idx]
      && (last.Refused? || (last.Fetch? && last.expected == p.expected))
    case Advance(idx, head, _) =>
      && before != [] && var last := before[|before| - 1];
      && idx < |fx.payloads| && head == fx.payloads[idx].expected.blockHash
      && last == Import(idx, fx.payloads[idx])
    case _ => true
  }

  lemma {:induction false} OrderShape(fx: Fixture, builder: Builder, k: nat)
    requires fx.payloads != [] && k <= |fx.payloads|
    ensures var plan := PlanTo(fx, builder, k);
            && Sent(plan) == ValidTransactions(fx, k)
            && forall n: nat :: n < |plan| ==> InOrder(fx, plan[..n], plan[n])
  {
    hide Segment, InOrder;
    var plan := PlanTo(fx, builder, k);
    if k == 0 {
      assert InOrder(fx, [], plan[0]) && Sent(plan) == [] by {
        BootstrapInOrder(fx, builder);
      }
    } else {
      OrderShape(fx, builder, k - 1);
      var front, segment := PlanTo(fx, builder, k - 1), Segment(fx.payloads[k - 1], k - 1, builder);
      SegmentInOrder(fx, builder, k - 1, front);
      hide PlanTo, Sent, ValidTransactions;
      forall n: nat | n < |plan|
        ensures InOrder(fx, plan[..n], plan[n])
      {
        if n < |front| {
          assert plan[..n] == front[..n];
        } else {
          assert plan[..n] == front + segment[..n - |front|] && plan[n] == segment[n - |front|];
        }
      }
    }
  }

  lemma BootstrapInOrder(fx: Fixture, builder: Builder)
    requires fx.payloads != []
    ensures var plan := PlanTo(fx, builder, 0);
            |plan| == 1 && plan[..0] == [] && InOrder(fx, [], plan[0]) && Sent(plan) == []
  {
    var plan := PlanTo(fx, builder, 0);
    assert plan[..0] == [] && Sent([]) == [];
  }

  lemma SegmentInOrder(fx: Fixture, builder: Builder, k: nat, front: seq<Step>)
    requires k < |fx.payloads| && Sent(front) == ValidTransactions(fx, k)
    ensures var segment := Segment(fx.payloads[k], k, builder);
            && Sent(front + segment) == ValidTransactions(fx, k + 1)
            && forall j: nat :: j < |segment| ==> InOrder(fx, front + segment[..j], segment[j])
  {
    hide BuildSteps, Sent;
    var p := fx.payloads[k];
    var segment := Segment(p, k, builder);
    if !p.valid {
      assert front + segment == front;
    } else {
      var submits, steps := Submits(p.expected.transactions), BuildSteps(p, k, builder);
      var ends := [Import(k, p), Advance(k, p.expected.blockHash, p.fcuVersion)];
      var t, b := |submits|, |steps|;
      assert segment == submits + (steps + ends);
      BuildStepsShape(fx, k, builder);
      SentOfSubmits(p.expected.transactions);
      NothingSent(steps + ends);
      SentOfAppend(submits, steps + ends);
      SentOfAppend(front, segment);
      SentOfAppend(front, submits);
      hide Segment;
      forall j: nat | j < |segment|
        ensures InOrder(fx, front + segment[..j], segment[j])
      {
        if j == t {
          assert segment[..t] == submits;
        } else if j > t {
          var before := front + segment[..j];
          assert before[|before| - 1] == segment[j - 1];
        }
      }
    }
  }

  /**
   A step is taken only on the strength of the answers so far. A build starts once all transactions
   of its entry and of the valid ones before it are in; getPayload asks for the id the build's own
   reply gave; newPayload comes after the comparison with what was built; and the head is moved only
   to a block whose newPayload was just answered VALID.
  */
  lemma StepsWaitForAnswers(fx: Fixture, builder: Builder, s: Script, n: nat)
    requires fx.payloads != []
    requires n <= Stop(Plan(fx, builder), s) && n < |Plan(fx, builder)|
    ensures var plan := Plan(fx, builder);
            match plan[n]
            case StartBuild(idx, _, _, _) =>
              && idx < |fx.payloads| && Sent(plan[..n]) == ValidTransactions(fx, idx + 1)
              && forall k: nat :: k < n && plan[k].Submit? ==> s(k).Replied?
            case Fetch(expected, v) =>
              && n > 0 && plan[n - 1].StartBuild? && plan[n - 1].idx < |fx.payloads|
              && expected == fx.payloads[plan[n - 1].idx].expected
              && s(n - 1).Replied? && s(n - 1).status == VALID && s(n - 1).payloadId.Some?
              && CallOf(plan[n], s, n) == Some(GetPayload(s(n - 1).payloadId.value, v))
            case Import(idx, p) =>
              && n > 0 && plan[n - 1].Fetch? && plan[n - 1].expected == p.expected && s(n - 1).Replied?
            case Advance(idx, head, _) =>
              && n > 0 && idx < |fx.payloads| && head == fx.payloads[idx].expected.blockHash
              && CallOf(plan[n - 1], s, n - 1) == Some(NewPayload(fx.payloads[idx]))
              && s(n - 1).Replied? && s(n - 1).status == VALID
            case _ => true
  {
    hide PlanTo, Sent, ValidTransactions;
    OrderShape(fx, builder, |fx.payloads|);
    var plan := Plan(fx, builder);
    hide Plan;
    assert InOrder(fx, plan[..n], plan[n]);
    if n > 0 {
      assert !Fails(plan[n - 1], s(n - 1)) && plan[..n][n - 1] == plan[n - 1];
    }
    forall k: nat | k < n && plan[k].Submit?
      ensures s(k).Replied?
    {
      assert !Fails(plan[k], s(k));
    }
  }

  // ---------------------------------------------------------------- what every call carries

  /** `params[2]`, where the entry has it and its forkchoice version takes it. */
  predicate RootFor(p: EnginePayload, root: Option<HexBytes>) {
    if p.fcuVersion >= 3 && |p.rest| >= 2 then root == Some(p.rest[1]) else root == None
  }

  /** Attributes that ask for the block of this entry, in the form the builder takes them. */
  predicate AsksFor(p: EnginePayload, builder: Builder, attributes: BuildAttributes) {
    var e := p.expected;
    match attributes
    case NoBuild => false
    case Direct(a) =>
      && builder.DirectEngine?
      && a.timestamp == e.timestamp && a.prevRandao == e.prevRandao && a.feeRecipient == e.feeRecipient
      && a.withdrawals == e.withdrawals && a.slotNumber == e.slotNumber && RootFor(p, a.beaconRoot)
    case ViaBuildoor(g) =>
      && builder.Buildoor?
      && g.timestamp == e.timestamp && g.prevRandao == e.prevRandao && g.feeRecipient == e.feeRecipient
      && g.withdrawals == (if e.withdrawals.Some? then e.withdrawals.value else [])
      && g.slotNumber == (if e.slotNumber.Some? then e.slotNumber.value else 0)
      && g.targetGasLimit == 0 && RootFor(p, g.beaconRoot)
  }

  /** A call made on behalf of this entry, with its hashes, its versions and its attributes. */
  predicate MadeFor(p: EnginePayload, builder: Builder, call: Call) {
    match call
    case SendRaw(raw) => raw in p.expected.transactions
    case ForkchoiceUpdated(head, attributes, version) =>
      if attributes.NoBuild? then head == p.expected.blockHash && version == Some(p.fcuVersion)
      else
        && head == p.expected.parentHash && AsksFor(p, builder, attributes)
        && version == if builder.DirectEngine? then Some(p.fcuVersion) else None
    case GetPayload(_, version) =>
      version == if builder.DirectEngine? then Some(builder.getPayloadVersion) else None
    case NewPayload(q) => q == p
  }

  function FirstCall(fx: Fixture): Call
    requires fx.payloads != []
  {
    ForkchoiceUpdated(fx.genesisHash, NoBuild, Some(fx.payloads[0].fcuVersion))
  }

  ghost predicate Accounted(fx: Fixture, builder: Builder, call: Call)
    requires fx.payloads != []
  {
    || call == FirstCall(fx)
    || exists k: nat | k < |fx.payloads| :: fx.payloads[k].valid && MadeFor(fx.payloads[k], builder, call)
  }

  lemma BuildStepsCarry(p: EnginePayload, idx: nat, builder: Builder)
    ensures var steps := BuildSteps(p, idx, builder);
            steps == [Refused] ||
            (&& |steps| == 2 && steps[0].StartBuild? && steps[1].Fetch?
             && MadeFor(p, builder, ForkchoiceUpdated(steps[0].parent, steps[0].attributes, steps[0].fcuVersion))
             && forall id :: MadeFor(p, builder, GetPayload(id, steps[1].getVersion)))
  {
    hide Decoded, RequestBody, FromHexText, Fits;
    PathEquivalence(p);
    ParentSurvives(p);
  }

  lemma SegmentCarries(fx: Fixture, builder: Builder, k: nat, step: Step, s: Script, n: nat)
    requires fx.payloads != [] && k < |fx.payloads| && step in Segment(fx.payloads[k], k, builder)
    ensures CallOf(step, s, n).Some? ==> Accounted(fx, builder, CallOf(step, s, n).value)
  {
    hide BuildSteps, AsksFor;
    var p := fx.payloads[k];
    BuildStepsCarry(p, k, builder);
    if CallOf(step, s, n).Some? {
      assert p.valid && MadeFor(p, builder, CallOf(step, s, n).value);
    }
  }

  lemma {:induction false} PlanCarries(fx: Fixture, builder: Builder, k: nat, i: nat, s: Script, n: nat)
    requires fx.payloads != [] && k <= |fx.payloads| && i < |PlanTo(fx, builder, k)|
    ensures var call := CallOf(PlanTo(fx, builder, k)[i], s, n);
            && (call.Some? ==> Accounted(fx, builder, call.value))
            && (i == 0 ==> call == Some(FirstCall(fx)))
  {
    hide Segment, Accounted;
    if k == 0 {
      assert Accounted(fx, builder, FirstCall(fx)) by { FirstIsAccounted(fx, builder); }
    } else {
      var front := PlanTo(fx, builder, k - 1);
      PlanGrows(fx, builder, 0, k - 1);
      if i < |front| {
        PlanCarries(fx, builder, k - 1, i, s, n);
      } else {
        SegmentCarries(fx, builder, k - 1, PlanTo(fx, builder, k)[i], s, n);
      }
    }
  }

  lemma FirstIsAccounted(fx: Fixture, builder: Builder)
    requires fx.payloads != []
    ensures Accounted(fx, builder, FirstCall(fx))
  {
  }

  lemma {:induction false} CallsCarry(fx: Fixture, builder: Builder, s: Script, n: nat)
    requires fx.payloads != [] && n <= |Plan(fx, builder)|
    ensures var calls := Calls(Plan(fx, builder), s, n);
            && (n > 0 ==> calls != [] && calls[0] == FirstCall(fx))
            && forall call :: call in calls ==> Accounted(fx, builder, call)
  {
    hide PlanTo, CallOf, Accounted;
    if n > 0 {
      CallsCarry(fx, builder, s, n - 1);
      PlanCarries(fx, builder, |fx.payloads|, n - 1, s, n - 1);
    }
  }

  /**
   Every call of every replay is the bootstrap, which comes first, or made for a valid entry: with that
   entry's hashes, its forkchoice version and, in a build request, exactly its attributes.
  */
  lemma EveryCallIsTheFixtures(fx: Fixture, builder: Builder, s: Script)
    requires fx.payloads != []
    ensures var calls := AllCalls(fx, builder, s);
            && calls != [] && calls[0] == FirstCall(fx)
            && forall call :: call in calls ==> Accounted(fx, builder, call)
  {
    hide PlanTo, Accounted, Calls;
    var plan := Plan(fx, builder);
    PlanGrows(fx, builder, 0, |fx.payloads|);
    StartsWithBootstrap(fx, builder);
    hide Plan;
    CallsCarry(fx, builder, s, Min(Stop(plan, s) + 1, |plan|));
  }

  lemma StartsWithBootstrap(fx: Fixture, builder: Builder)
    requires fx.payloads != []
    ensures |PlanTo(fx, builder, 0)| == 1
  {
  }

  // ---------------------------------------------------------------- which failures are reported

  lemma StatusNames()
    ensures StatusName(VALID) == "VALID" && StatusName(INVALID) == "INVALID" && StatusName(SYNCING) == "SYNCING"
    ensures StatusName(ACCEPTED) == "ACCEPTED" && StatusName(INVALID_BLOCK_HASH) == "INVALID_BLOCK_HASH"
  {
  }

  function Reports(outcome: Outcome): Option<string> {
    if outcome.Returned? then outcome.result.error else None
  }

  /**
   How a replay that fails at a step ends. Only a status other than VALID, or a direct build without a
   payload id, is reported, and the text names the call, the entry and the status; an RPC error, a
   failed submission, fetch or buildoor build leaves as an exception.
  */
  lemma WhatIsReported(fx: Fixture, testId: string, builder: Builder, fields: seq<string>, s: Script)
    requires fx.payloads != [] && Stop(Plan(fx, builder), s) < |Plan(fx, builder)|
    ensures var stop := Stop(Plan(fx, builder), s);
            var answer, o := s(stop), Conclusion(fx, testId, builder, fields, s);
            match Plan(fx, builder)[stop]
            case Bootstrap(_, _) =>
              if answer.RpcError? then o.Raised?
              else Reports(o) == Some("bootstrap forkchoiceUpdated not VALID: " + StatusName(answer.status))
            case StartBuild(idx, _, _, _) =>
              if answer.RpcError? || builder.Buildoor? then o.Raised?
              else if answer.status == VALID then
                Reports(o) == Some("fcu (block " + Dec(idx) + ") returned no payloadId")
              else Reports(o) == Some("fcu (block " + Dec(idx) + ") not VALID: " + StatusName(answer.status))
            case Import(idx, _) =>
              if answer.RpcError? then o.Raised?
              else Reports(o) == Some("newPayload (block " + Dec(idx) + ") not VALID: " + StatusName(answer.status))
            case Advance(idx, _, _) =>
              if answer.RpcError? then o.Raised?
              else Reports(o) == Some("fcu advance (block " + Dec(idx) + ") not VALID: " + StatusName(answer.status))
            case _ => o.Raised?
  {
    hide PlanTo, Blocks, StatusName, Dec, ErrorOf;
    var plan := Plan(fx, builder);
    var stop := Stop(plan, s);
    BuildsGoThrough(fx, builder, |fx.payloads|, stop);
    hide Plan;
    assert Fails(plan[stop], s(stop));
    ErrorsSpelled(plan[stop], s(stop));
  }

  lemma {:induction false} BuildsGoThrough(fx: Fixture, builder: Builder, k: nat, i: nat)
    requires fx.payloads != [] && k <= |fx.payloads| && i < |PlanTo(fx, builder, k)|
    ensures var step := PlanTo(fx, builder, k)[i];
            step.StartBuild? ==> (step.attributes.ViaBuildoor? <==> builder.Buildoor?)
  {
    hide Decoded, RequestBody, FromHexText, PayloadAttributes;
    if k > 0 && i < |PlanTo(fx, builder, k - 1)| {
      BuildsGoThrough(fx, builder, k - 1, i);
    }
  }

  lemma NotValidText(front: string, name: string)
    ensures front + ") " + ("not VALID: " + name) == front + ") not VALID: " + name
  {
    assert ") " + "not VALID: " == ") not VALID: ";
  }

  lemma ErrorsSpelled(step: Step, answer: Answer)
    ensures answer.RpcError? || step.Refused? || step.Submit? || step.Fetch? ==> ErrorOf(step, answer).None?
    ensures step.StartBuild? && step.attributes.ViaBuildoor? ==> ErrorOf(step, answer).None?
    ensures answer.Replied? ==>
              var name := StatusName(answer.status);
              match step
              case Bootstrap(_, _) => ErrorOf(step, answer) == Some("bootstrap forkchoiceUpdated not VALID: " + name)
              case StartBuild(idx, _, attrs, _) =>
                !attrs.ViaBuildoor? ==>
                  if answer.status == VALID then
                    ErrorOf(step, answer) == Some("fcu (block " + Dec(idx) + ") returned no payloadId")
                  else ErrorOf(step, answer) == Some("fcu (block " + Dec(idx) + ") not VALID: " + name)
              case Import(idx, _) =>
                ErrorOf(step, answer) == Some("newPayload (block " + Dec(idx) + ") not VALID: " + name)
              case Advance(idx, _, _) =>
                ErrorOf(step, answer) == Some("fcu advance (block " + Dec(idx) + ") not VALID: " + name)
              case _ => true
  {
    hide Dec, StatusName;
    if answer.Replied? {
      var name := StatusName(answer.status);
      match step
      case Bootstrap(_, _) =>
        assert "bootstrap forkchoiceUpdated " + ("not VALID: " + name)
            == "bootstrap forkchoiceUpdated not VALID: " + name;
      case StartBuild(idx, _, _, _) =>
        assert "fcu" + " (block " == "fcu (block ";
        NotValidText("fcu (block " + Dec(idx), name);
        assert "fcu (block " + Dec(idx) + ") " + "returned no payloadId"
            == "fcu (block " + Dec(idx) + ") returned no payloadId";
      case Import(idx, _) =>
        assert "newPayload" + " (block " == "newPayload (block ";
        NotValidText("newPayload (block " + Dec(idx), name);
      case Advance(idx, _, _) =>
        assert "fcu advance" + " (block " == "fcu advance (block ";
        NotValidText("fcu advance (block " + Dec(idx), name);
      case _ =>
    }
  }

  // ---------------------------------------------------------------- the canonical chain

  /** The steps that succeed include no refused request. */
  lemma RanWithoutRefusal(plan: seq<Step>, s: Script, n: nat)
    requires n <= Stop(plan, s)
    ensures NoRefusal(plan[..n])
  {
    forall i | 0 <= i < n
      ensures !plan[..n][i].Refused?
    {
      assert !Fails(plan[i], s(i));
    }
  }

  lemma EmptyFolds(genesis: HexBytes)
    ensures Fetched([]) == [] && LastAdvanced(genesis, []) == genesis
  {
  }

  /** A step reached by a replay stands where the plan puts it. */
  lemma StepShape(fx: Fixture, builder: Builder, s: Script, n: nat)
    requires fx.payloads != []
    requires n <= Stop(Plan(fx, builder), s) && n < |Plan(fx, builder)|
    ensures Placed(fx, Plan(fx, builder)[..n], Plan(fx, builder)[n])
  {
    hide PlanTo, Placed;
    PlanShape(fx, builder, |fx.payloads|);
    RanWithoutRefusal(Plan(fx, builder), s, n);
  }

  /** After any number of successful steps the head is the block last advanced to, genesis at first. */
  lemma {:induction false} HeadIsLastAdvanced(fx: Fixture, builder: Builder, s: Script, start: HexBytes, n: nat)
    requires fx.payloads != [] && ParentLinked(fx)
    requires n <= Stop(Plan(fx, builder), s)
    ensures HeadAfter(Plan(fx, builder), s, start, n)
         == if n == 0 then start else LastAdvanced(fx.genesisHash, Plan(fx, builder)[..n])
  {
    hide Segment, PlanTo, Fetched, LastAdvanced, ValidNumbers;
    var plan := Plan(fx, builder);
    if n > 0 {
      HeadIsLastAdvanced(fx, builder, s, start, n - 1);
      StepShape(fx, builder, s, n - 1);
      hide Plan;
      assert plan[..n] == plan[..n - 1] + [plan[n - 1]];
      FoldsOfSnoc(fx.genesisHash, plan[..n - 1], plan[n - 1]);
      assert !Fails(plan[n - 1], s(n - 1));
      if n == 1 {
        EmptyFolds(fx.genesisHash);
      }
    }
  }

  /** Every build, by either builder, is asked for on top of the current head: the chain never reorganises. */
  lemma BuildsOnCurrentHead(fx: Fixture, builder: Builder, s: Script, start: HexBytes, n: nat)
    requires fx.payloads != [] && ParentLinked(fx)
    requires n <= Stop(Plan(fx, builder), s) && n < |Plan(fx, builder)| && Plan(fx, builder)[n].StartBuild?
    ensures Plan(fx, builder)[n].parent == HeadAfter(Plan(fx, builder), s, start, n)
  {
    hide Plan, Fetched, LastAdvanced, ValidNumbers, Tip, HeadAfter;
    HeadIsLastAdvanced(fx, builder, s, start, n);
    StepShape(fx, builder, s, n);
  }

  /**
   However a replay of a parent-linked fixture ends, the engine's head is the expected block it
   last advanced to, genesis if there is none yet, or untouched if the bootstrap failed.
   */
  lemma CanonicalChain(fx: Fixture, builder: Builder, s: Script, start: HexBytes)
    requires fx.payloads != [] && ParentLinked(fx)
    ensures var plan := Plan(fx, builder);
            var stop := Stop(plan, s);
            && FinalHead(fx, builder, s, start) ==
               (if stop == 0 then start else LastAdvanced(fx.genesisHash, plan[..stop]))
            && (stop == |plan| ==> FinalHead(fx, builder, s, start) == Tip(fx, |fx.payloads|))
  {
    hide PlanTo, Fetched, LastAdvanced, ValidNumbers, Tip;
    var plan := Plan(fx, builder);
    var stop := Stop(plan, s);
    HeadIsLastAdvanced(fx, builder, s, start, stop);
    PlanShape(fx, builder, |fx.payloads|);
    RanWithoutRefusal(plan, s, stop);
    if stop < |plan| {
      if plan[stop].StartBuild? {
        BuildsOnCurrentHead(fx, builder, s, start, stop);
      }
      StepShape(fx, builder, s, stop);
      hide Plan;
      assert Fails(plan[stop], s(stop));
    } else {
      assert plan[..stop] == plan;
    }
  }

  // ---------------------------------------------------------------- bookkeeping and verdict

  lemma {:induction false} BlocksAreFetched(plan: seq<Step>, s: Script, fields: seq<string>, n: nat)
    requires n <= Stop(plan, s)
    ensures Numbers(Blocks(plan, s, fields, n)) == Fetched(plan[..n])
  {
    if n > 0 {
      BlocksAreFetched(plan, s, fields, n - 1);
      assert plan[..n][..n - 1] == plan[..n - 1];
      assert !Fails(plan[n - 1], s(n - 1));
      hide Mismatches;
      NumbersOfAppend(Blocks(plan, s, fields, n - 1), NewBlocks(plan[n - 1], s(n - 1), fields));
    }
  }

  /** The block numbers a replay that stops at this step must report. */
  predicate Booked(fx: Fixture, plan: seq<Step>, stop: nat, numbers: seq<nat>) {
    if stop >= |plan| then numbers == ValidNumbers(fx, |fx.payloads|)
    else
      match plan[stop]
      case Bootstrap(_, _) => numbers == []
      case StartBuild(idx, _, _, _) => idx < |fx.payloads| && numbers == ValidNumbers(fx, idx)
      case Import(idx, p) =>
        idx < |fx.payloads| && numbers == ValidNumbers(fx, idx) + [fx.payloads[idx].expected.number]
      case Advance(idx, _, _) =>
        idx < |fx.payloads| && numbers == ValidNumbers(fx, idx) + [fx.payloads[idx].expected.number]
      case _ => false
  }

  lemma NumbersUpTo(fx: Fixture, step: Step)
    requires step.Import? || step.Advance? ==> step.idx < |fx.payloads| && fx.payloads[step.idx].valid
    ensures step.Import? || step.Advance? ==>
              ValidNumbers(fx, step.idx + 1) == ValidNumbers(fx, step.idx) + [fx.payloads[step.idx].expected.number]
  {
  }

  /**
   A replay without error reports one block per valid entry, in order. One that fails at an entry
   reports the valid entries before it, and that entry too exactly when it failed at newPayload or
   at the advance; a failed bootstrap reports none.
   */
  lemma ResultBookkeeping(fx: Fixture, testId: string, builder: Builder, fields: seq<string>, s: Script)
    requires fx.payloads != [] && Conclusion(fx, testId, builder, fields, s).Returned?
    ensures Booked(fx, Plan(fx, builder), Stop(Plan(fx, builder), s),
                   Numbers(Conclusion(fx, testId, builder, fields, s).result.blocks))
  {
    hide PlanTo, Fetched, LastAdvanced, ValidNumbers, Blocks, NoRefusal;
    var plan := Plan(fx, builder);
    var stop := Stop(plan, s);
    PlanShape(fx, builder, |fx.payloads|);
    RanWithoutRefusal(plan, s, stop);
    BlocksAreFetched(plan, s, fields, stop);
    if stop == |plan| {
      assert plan[..stop] == plan;
    } else {
      assert Placed(fx, plan[..stop], plan[stop]);
      NumbersUpTo(fx, plan[stop]);
      EmptyFolds(fx.genesisHash);
    }
  }

  /** Agreement on every field but the three a builder picks. */
  predicate Faithful(built: Payload, expected: Payload, fields: seq<string>) {
    forall f :: f in fields && f != "gas_limit" && f != "extra_data" && f != "block_hash" ==>
      Attr(built, f) == Attr(expected, f)
  }

  lemma MatchedIffFaithful(built: Payload, expected: Payload, fields: seq<string>)
    ensures Compared(built, expected, fields).matched <==> Faithful(built, expected, fields)
  {
    var m := Mismatches(built, expected, fields);
    hide Attr;
    if m == [] {
      forall f | f in fields && f != "gas_limit" && f != "extra_data" && f != "block_hash"
        ensures Attr(built, f) == Attr(expected, f)
      {
        assert MismatchOf(built, expected, f) !in m;
      }
    } else {
      assert m[0] in m;
    }
  }

  predicate AllMatched(blocks: seq<BlockResult>) {
    forall i :: 0 <= i < |blocks| ==> blocks[i].matched
  }

  lemma {:induction false} MatchedSoFar(plan: seq<Step>, s: Script, fields: seq<string>, n: nat)
    requires n <= Stop(plan, s)
    ensures AllMatched(Blocks(plan, s, fields, n)) <==>
            forall k: nat :: k < n && plan[k].Fetch? ==>
              s(k).Replied? && Faithful(s(k).built, plan[k].expected, fields)
  {
    hide Compared, Faithful;
    if n > 0 {
      MatchedSoFar(plan, s, fields, n - 1);
      var front, more := Blocks(plan, s, fields, n - 1), NewBlocks(plan[n - 1], s(n - 1), fields);
      assert !Fails(plan[n - 1], s(n - 1));
      if plan[n - 1].Fetch? {
        MatchedIffFaithful(s(n - 1).built, plan[n - 1].expected, fields);
        var b := Compared(s(n - 1).built, plan[n - 1].expected, fields);
        assert more == [b];
        assert (front + more)[|front|] == b;
        assert forall i :: 0 <= i < |front| ==> (front + more)[i] == front[i];
      } else {
        assert front + more == front;
      }
    }
  }

  /** A fixture passes exactly when every engine step succeeded and every built payload was faithful. */
  lemma Verdict(fx: Fixture, testId: string, builder: Builder, fields: seq<string>, s: Script)
    requires fx.payloads != [] && Conclusion(fx, testId, builder, fields, s).Returned?
    ensures var plan := Plan(fx, builder);
            Conclusion(fx, testId, builder, fields, s).result.Passed() <==>
            && Stop(plan, s) == |plan|
            && forall k: nat :: k < |plan| && plan[k].Fetch? ==>
                 s(k).Replied? && Faithful(s(k).built, plan[k].expected, fields)
  {
    var plan := Plan(fx, builder);
    var stop := Stop(plan, s);
    hide Plan, Faithful, Mismatches;
    MatchedSoFar(plan, s, fields, stop);
  }

  /** The built and expected payloads a replay compares are payloads of the model with these fields. */
  ghost predicate OfModel(fx: Fixture, builder: Builder, fields: seq<string>, s: Script)
    requires fx.payloads != []
  {
    forall k: nat :: k < Stop(Plan(fx, builder), s) && Plan(fx, builder)[k].Fetch? && s(k).Replied? ==>
      var expected := Plan(fx, builder)[k].expected;
      && CoversModel(fields, s(k).built) && CoversModel(fields, expected)
      && s(k).built.others.Keys == expected.others.Keys
  }

  lemma FaithfulIsEquality(built: Payload, expected: Payload, fields: seq<string>)
    requires CoversModel(fields, built) && CoversModel(fields, expected)
    requires built.others.Keys == expected.others.Keys
    ensures Faithful(built, expected, fields) <==>
            built.(gasLimit := expected.gasLimit, extraData := expected.extraData, blockHash := expected.blockHash)
            == expected
  {
    hide CoversModel, Faithful, Mismatches;
    MatchedIffFaithful(built, expected, fields);
    MatchedIffEqualUpToPicked(built, expected, fields);
    ComparedIs(built, expected, fields);
  }

  /**
   The same for payloads of the model: a fixture passes exactly when every step succeeded and every
   built payload is the expected one once its gas limit, extra data and block hash are overwritten.
  */
  lemma VerdictIsEquality(fx: Fixture, testId: string, builder: Builder, fields: seq<string>, s: Script)
    requires fx.payloads != [] && Conclusion(fx, testId, builder, fields, s).Returned?
    requires OfModel(fx, builder, fields, s)
    ensures var plan := Plan(fx, builder);
            Conclusion(fx, testId, builder, fields, s).result.Passed() <==>
            && Stop(plan, s) == |plan|
            && forall k: nat :: k < |plan| && plan[k].Fetch? ==>
                 s(k).Replied? &&
                 var built, expected := s(k).built, plan[k].expected;
                 built.(gasLimit := expected.gasLimit, extraData := expected.extraData, blockHash := expected.blockHash)
                 == expected
  {
    hide Plan, Faithful, Conclusion, CoversModel, FixtureResult.Passed;
    Verdict(fx, testId, builder, fields, s);
    var plan := Plan(fx, builder);
    if Stop(plan, s) == |plan| {
      forall k: nat | k < |plan| && plan[k].Fetch? && s(k).Replied?
        ensures var built, expected := s(k).built, plan[k].expected;
                Faithful(built, expected, fields) <==>
                built.(gasLimit := expected.gasLimit, extraData := expected.extraData, blockHash := expected.blockHash)
                == expected
      {
        FaithfulIsEquality(s(k).built, plan[k].expected, fields);
      }
    }
  }

  // ---------------------------------------------------------------- with and without buildoor

  /** What buildoor turns a step of the direct path into. */
  function ThroughBuildoor(step: Step): Step {
    match step
    case StartBuild(idx, parent, Direct(attrs), _) => StartBuild(idx, parent, ViaBuildoor(Normalised(attrs)), None)
    case Fetch(expected, _) => Fetch(expected, None)
    case _ => step
  }

  /** The call buildoor makes in place of one of the driver's own. */
  function CallThroughBuildoor(call: Call): Call {
    match call
    case ForkchoiceUpdated(head, Direct(attrs), _) => ForkchoiceUpdated(head, ViaBuildoor(Normalised(attrs)), None)
    case GetPayload(id, _) => GetPayload(id, None)
    case _ => call
  }

  function StepsThroughBuildoor(steps: seq<Step>): seq<Step> {
    seq(|steps|, i requires 0 <= i < |steps| => ThroughBuildoor(steps[i]))
  }

  function CallsThroughBuildoor(calls: seq<Call>): seq<Call> {
    seq(|calls|, i requires 0 <= i < |calls| => CallThroughBuildoor(calls[i]))
  }

  lemma RefusalOfAppend(a: seq<Step>, b: seq<Step>)
    ensures NoRefusal(a + b) <==> NoRefusal(a) && NoRefusal(b)
  {
    var all := a + b;
    assert forall i :: 0 <= i < |a| ==> all[i] == a[i];
    assert forall i :: 0 <= i < |b| ==> all[|a| + i] == b[i];
  }

  lemma RefusedIff(p: EnginePayload, idx: nat)
    ensures var steps := BuildSteps(p, idx, Buildoor);
            if Fits(p) then |steps| == 2 && !steps[0].Refused? && !steps[1].Refused? else steps == [Refused]
  {
    hide Decoded, RequestBody, FromHexText, Fits;
    PathEquivalence(p);
  }

  lemma SegmentRefusals(p: EnginePayload, idx: nat)
    ensures NoRefusal(Segment(p, idx, Buildoor)) <==> (p.valid ==> Fits(p))
  {
    hide BuildSteps, Fits;
    if p.valid {
      var submits, steps := Submits(p.expected.transactions), BuildSteps(p, idx, Buildoor);
      var ends := [Import(idx, p), Advance(idx, p.expected.blockHash, p.fcuVersion)];
      RefusedIff(p, idx);
      assert NoRefusal(submits) && NoRefusal(ends);
      assert NoRefusal(steps) <==> Fits(p) by {
        if !Fits(p) {
          assert steps[0].Refused?;
        }
      }
      hide Submits, NoRefusal;
      RefusalOfAppend(submits, steps);
      RefusalOfAppend(submits + steps, ends);
    }
  }

  lemma {:induction false} PlanRefusals(fx: Fixture, k: nat)
    requires fx.payloads != [] && k <= |fx.payloads|
    ensures NoRefusal(PlanTo(fx, Buildoor, k)) <==>
            forall j :: 0 <= j < k && fx.payloads[j].valid ==> Fits(fx.payloads[j])
  {
    hide Segment, Fits;
    if k > 0 {
      PlanRefusals(fx, k - 1);
      SegmentRefusals(fx.payloads[k - 1], k - 1);
      var front, segment := PlanTo(fx, Buildoor, k - 1), Segment(fx.payloads[k - 1], k - 1, Buildoor);
      hide PlanTo;
      assert PlanTo(fx, Buildoor, k) == front + segment;
      RefusalOfAppend(front, segment);
    }
  }

  /** Some engine answers let a replay of the fixture reach its end. */
  ghost predicate CanFinish(fx: Fixture, builder: Builder)
    requires fx.payloads != []
  {
    exists s: Script :: Stop(Plan(fx, builder), s) == |Plan(fx, builder)|
  }

  /** The script of an engine that always agrees. */
  function Agreeable(p: Payload): Script {
    (n: nat) => Replied(VALID, Some(0), p)
  }

  /** Only a refused request can stop a replay against an engine that always agrees. */
  lemma CanFinishIffNoRefusal(fx: Fixture, builder: Builder)
    requires fx.payloads != []
    ensures CanFinish(fx, builder) <==> NoRefusal(Plan(fx, builder))
  {
    hide Plan;
    var plan := Plan(fx, builder);
    if NoRefusal(plan) {
      var s := Agreeable(fx.payloads[0].expected);
      StopFromIs(plan, s, 0, |plan|);
      assert Stop(plan, s) == |plan|;
    }
    if s: Script :| Stop(plan, s) == |plan| {
      RanWithoutRefusal(plan, s, |plan|);
      assert plan[..|plan|] == plan;
    }
  }

  /**
   A replay through buildoor can reach its end exactly when every number of every valid entry is below
   2^64; otherwise no engine answers can save it.
  */
  lemma BuildoorFinishesIffAllFit(fx: Fixture)
    requires fx.payloads != []
    ensures CanFinish(fx, Buildoor) <==> AllFit(fx)
  {
    hide PlanTo, Fits, CanFinish;
    PlanRefusals(fx, |fx.payloads|);
    CanFinishIffNoRefusal(fx, Buildoor);
  }

  lemma {:induction false} DirectPlanRefusesNothing(fx: Fixture, v: nat, k: nat)
    requires fx.payloads != [] && k <= |fx.payloads|
    ensures NoRefusal(PlanTo(fx, DirectEngine(v), k))
  {
    if k > 0 {
      DirectPlanRefusesNothing(fx, v, k - 1);
    }
  }

  /** The direct path has no such bound: it can finish every fixture. */
  lemma DirectAlwaysCanFinish(fx: Fixture, v: nat)
    requires fx.payloads != []
    ensures CanFinish(fx, DirectEngine(v))
  {
    hide PlanTo, CanFinish;
    DirectPlanRefusesNothing(fx, v, |fx.payloads|);
    CanFinishIffNoRefusal(fx, DirectEngine(v));
  }

  lemma AppendThroughBuildoor(a: seq<Step>, b: seq<Step>)
    ensures StepsThroughBuildoor(a + b) == StepsThroughBuildoor(a) + StepsThroughBuildoor(b)
  {
    hide ThroughBuildoor;
  }

  lemma BuildStepsThroughBuildoor(p: EnginePayload, idx: nat, v: nat)
    requires Fits(p)
    ensures BuildSteps(p, idx, Buildoor) == StepsThroughBuildoor(BuildSteps(p, idx, DirectEngine(v)))
  {
    hide Decoded, RequestBody, FromHexText, PayloadAttributes, Normalised, Fits;
    PathEquivalence(p);
    ParentSurvives(p);
  }

  lemma SegmentThroughBuildoor(p: EnginePayload, idx: nat, v: nat)
    requires p.valid ==> Fits(p)
    ensures Segment(p, idx, Buildoor) == StepsThroughBuildoor(Segment(p, idx, DirectEngine(v)))
  {
    hide BuildSteps, Fits;
    if p.valid {
      BuildStepsThroughBuildoor(p, idx, v);
      var submits := Submits(p.expected.transactions);
      var ends := [Import(idx, p), Advance(idx, p.expected.blockHash, p.fcuVersion)];
      var direct := BuildSteps(p, idx, DirectEngine(v));
      assert submits == StepsThroughBuildoor(submits) && ends == StepsThroughBuildoor(ends);
      hide Submits, StepsThroughBuildoor;
      AppendThroughBuildoor(submits, direct);
      AppendThroughBuildoor(submits + direct, ends);
    }
  }

  lemma {:induction false} PlanThroughBuildoor(fx: Fixture, v: nat, k: nat)
    requires fx.payloads != [] && k <= |fx.payloads| && AllFit(fx)
    ensures PlanTo(fx, Buildoor, k) == StepsThroughBuildoor(PlanTo(fx, DirectEngine(v), k))
  {
    hide Segment, Fits;
    if k > 0 {
      PlanThroughBuildoor(fx, v, k - 1);
      SegmentThroughBuildoor(fx.payloads[k - 1], k - 1, v);
      AppendThroughBuildoor(PlanTo(fx, DirectEngine(v), k - 1), Segment(fx.payloads[k - 1], k - 1, DirectEngine(v)));
    }
  }

  lemma StepThroughBuildoor(step: Step, s: Script, fields: seq<string>, n: nat)
    requires step.StartBuild? ==> step.attributes.Direct?
    ensures Fails(ThroughBuildoor(step), s(n)) <==> Fails(step, s(n))
    ensures NewBlocks(ThroughBuildoor(step), s(n), fields) == NewBlocks(step, s(n), fields)
    ensures match CallOf(step, s, n)
            case None => CallOf(ThroughBuildoor(step), s, n).None?
            case Some(call) =>
              && CallOf(ThroughBuildoor(step), s, n) == Some(CallThroughBuildoor(call))
              && forall head :: Moved(head, CallThroughBuildoor(call), s(n)) == Moved(head, call, s(n))
  {
    hide Normalised, Compared;
  }

  predicate DirectOnly(plan: seq<Step>) {
    forall i :: 0 <= i < |plan| && plan[i].StartBuild? ==> plan[i].attributes.Direct?
  }

  lemma {:induction false} DirectPlanIsDirect(fx: Fixture, v: nat, k: nat)
    requires fx.payloads != [] && k <= |fx.payloads|
    ensures DirectOnly(PlanTo(fx, DirectEngine(v), k))
  {
    if k > 0 {
      DirectPlanIsDirect(fx, v, k - 1);
    }
  }

  lemma {:induction false} RunThroughBuildoor(plan: seq<Step>, s: Script, fields: seq<string>, start: HexBytes, n: nat)
    requires n <= |plan| && DirectOnly(plan)
    ensures var via := StepsThroughBuildoor(plan);
            && Calls(via, s, n) == CallsThroughBuildoor(Calls(plan, s, n))
            && HeadAfter(via, s, start, n) == HeadAfter(plan, s, start, n)
            && Blocks(via, s, fields, n) == Blocks(plan, s, fields, n)
  {
    hide ThroughBuildoor, CallThroughBuildoor, CallOf, Moved, NewBlocks;
    if n > 0 {
      RunThroughBuildoor(plan, s, fields, start, n - 1);
      StepThroughBuildoor(plan[n - 1], s, fields, n - 1);
      var call := CallOf(plan[n - 1], s, n - 1);
      var own := if call.Some? then [call.value] else [];
      assert CallsThroughBuildoor(Calls(plan, s, n - 1) + own)
          == CallsThroughBuildoor(Calls(plan, s, n - 1)) + CallsThroughBuildoor(own);
    }
  }

  /**
   Routing builds through buildoor replays the same run: for a fixture whose numbers fit in 64 bits
   and the same answers, the engine sees the same calls up to the form of the build requests, ends on
   the same head, and the same blocks are compared.
   */
  lemma BuildoorReplaysTheSameRun(fx: Fixture, v: nat, s: Script, fields: seq<string>, start: HexBytes)
    requires fx.payloads != [] && AllFit(fx)
    ensures AllCalls(fx, Buildoor, s) == CallsThroughBuildoor(AllCalls(fx, DirectEngine(v), s))
    ensures FinalHead(fx, Buildoor, s, start) == FinalHead(fx, DirectEngine(v), s, start)
    ensures var direct, via := Plan(fx, DirectEngine(v)), Plan(fx, Buildoor);
            && Stop(via, s) == Stop(direct, s)
            && Blocks(via, s, fields, Stop(via, s)) == Blocks(direct, s, fields, Stop(direct, s))
  {
    hide PlanTo, Fails, ThroughBuildoor, CallsThroughBuildoor, Calls, HeadAfter, Blocks, Fits;
    var direct := Plan(fx, DirectEngine(v));
    PlanThroughBuildoor(fx, v, |fx.payloads|);
    DirectPlanIsDirect(fx, v, |fx.payloads|);
    var via := Plan(fx, Buildoor);
    var stop := Stop(direct, s);
    hide Plan;
    forall k | 0 <= k < |direct|
      ensures Fails(via[k], s(k)) <==> Fails(direct[k], s(k))
    {
      StepThroughBuildoor(direct[k], s, fields, k);
    }
    StopFromIs(via, s, 0, stop);
    RunThroughBuildoor(direct, s, fields, start, stop);
    RunThroughBuildoor(direct, s, fields, start, Min(stop + 1, |direct|));
  }

  /** Every number of every valid entry fits in 64 bits. */
  predicate AllFit(fx: Fixture) {
    forall k :: 0 <= k < |fx.payloads| && fx.payloads[k].valid ==> Fits(fx.payloads[k])
  }
}
