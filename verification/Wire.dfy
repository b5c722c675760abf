/**
 The build-request codec: what buildoor_client.py writes, what simbuild's Go code
 reads back, and the attributes runner.py hands to the engine directly.
 */
module Wire {
  import opened Wrappers
  import opened Numerals

  const U64_LIMIT: nat := 0x1_0000_0000_0000_0000

  /** A fixed-size byte string, as its hex digits; Python's `str` puts `0x` in front of them. */
  datatype HexBytes = HexBytes(digits: string)

  datatype Withdrawal = Withdrawal(index: nat, validatorIndex: nat, address: HexBytes, amount: nat)

  /** What `getattr(payload, field, None)` yields. */
  datatype FieldValue =
    | Absent
    | Number(n: nat)
    | Bytes(bytes: HexBytes)
    | Transactions(raws: seq<string>)
    | Withdrawals(ws: seq<Withdrawal>)
    | Opaque(text: string)

  /** An execution payload: the fields the harness reads by name, and the others by field name. */
  datatype Payload = Payload(
    number: nat,
    parentHash: HexBytes,
    blockHash: HexBytes,
    timestamp: nat,
    prevRandao: HexBytes,
    feeRecipient: HexBytes,
    transactions: seq<string>,
    withdrawals: Option<seq<Withdrawal>>,
    slotNumber: Option<nat>,
    gasLimit: nat,
    extraData: HexBytes,
    others: map<string, FieldValue>)

  /** One fixture entry. `params` is `expected` followed by `rest`, so `params[2]` is `rest[1]`. */
  datatype EnginePayload = EnginePayload(
    expected: Payload,
    rest: seq<HexBytes>,
    valid: bool,
    fcuVersion: nat,
    newPayloadVersion: nat)

  /** Payload attributes as runner.py sends them. */
  datatype Attributes = Attributes(
    timestamp: nat,
    prevRandao: HexBytes,
    feeRecipient: HexBytes,
    withdrawals: Option<seq<Withdrawal>>,
    beaconRoot: Option<HexBytes>,
    slotNumber: Option<nat>)

  /** Payload attributes as the Go engine client holds them: every number below 2^64. */
  datatype GoAttributes = GoAttributes(
    timestamp: nat,
    prevRandao: HexBytes,
    feeRecipient: HexBytes,
    withdrawals: seq<Withdrawal>,
    beaconRoot: Option<HexBytes>,
    slotNumber: nat,
    targetGasLimit: nat)

  datatype WireWithdrawal = WireWithdrawal(index: string, validatorIndex: string, address: string, amount: string)

  /** The JSON body of POST /build: strings only. */
  datatype BuildRequest = BuildRequest(
    parentHash: string,
    timestamp: string,
    prevRandao: string,
    feeRecipient: string,
    beaconRoot: string,
    slotNumber: string,
    targetGasLimit: string,
    withdrawals: seq<WireWithdrawal>)

  /** The field an `invalid attrs` reply names. */
  datatype Field =
    | Timestamp
    | SlotNumber
    | TargetGasLimit
    | WithdrawalIndex(i: nat)
    | WithdrawalValidator(i: nat)
    | WithdrawalAmount(i: nat)

  /** `params[2]`, when the forkchoice version is 3 or more and there are that many params. */
  function BeaconRoot(p: EnginePayload): Option<HexBytes> {
    if p.fcuVersion >= 3 && |p.rest| >= 2 then Some(p.rest[1]) else None
  }

  /** runner.py: the attributes sent with a build-triggering forkchoiceUpdated. */
  function PayloadAttributes(p: EnginePayload): Attributes {
    Attributes(p.expected.timestamp, p.expected.prevRandao, p.expected.feeRecipient,
               p.expected.withdrawals, BeaconRoot(p), p.expected.slotNumber)
  }

  /** `_hex` on a value whose `str` is its 0x text. */
  function HexText(b: HexBytes): string {
    Ensure0x("0x" + b.digits)
  }

  function WithdrawalsOf(ws: Option<seq<Withdrawal>>): seq<Withdrawal> {
    if ws.Some? then ws.value else []
  }

  function WireOf(w: Withdrawal): WireWithdrawal {
    WireWithdrawal(Hex(w.index), Hex(w.validatorIndex), HexText(w.address), Hex(w.amount))
  }

  /** buildoor_client.py: the request body. */
  function RequestBody(p: EnginePayload): BuildRequest {
    var e := p.expected;
    var ws := WithdrawalsOf(e.withdrawals);
    BuildRequest(
      HexText(e.parentHash),
      Hex(e.timestamp),
      HexText(e.prevRandao),
      HexText(e.feeRecipient),
      if BeaconRoot(p).Some? then HexText(BeaconRoot(p).value) else "",
      if e.slotNumber.Some? then Hex(e.slotNumber.value) else "0x0",
      "0x0",
      seq(|ws|, i requires 0 <= i < |ws| => WireOf(ws[i])))
  }

  /** go-ethereum's HexToHash and HexToAddress on a text of the right length. */
  function FromHexText(s: string): HexBytes {
    HexBytes(if |s| >= 2 && (s[..2] == "0x" || s[..2] == "0X") then s[2..] else s)
  }

  /** A prefix of either form is dropped, and nothing else. */
  lemma HexTextReads(digits: string)
    ensures FromHexText("0x" + digits) == HexBytes(digits) && FromHexText("0X" + digits) == HexBytes(digits)
    ensures |digits| < 2 || digits[0] != '0' || digits[1] !in "xX" ==> FromHexText(digits) == HexBytes(digits)
  {
    assert ("0x" + digits)[..2] == "0x" && ("0x" + digits)[2..] == digits;
    assert ("0X" + digits)[..2] == "0X" && ("0X" + digits)[2..] == digits;
    if |digits| >= 2 {
      assert digits[..2] == [digits[0], digits[1]];
    }
  }

  /** strconv.ParseUint(s, 16, 64): a non-empty run of hex digits whose value fits in 64 bits. */
  function ParseUint64(s: string): Option<nat> {
    var v := Value(s, 16);
    if s != "" && v.Some? && v.value < U64_LIMIT then v else None
  }

  /** The digits parseHexU64 hands to strconv: a prefix is dropped only when something follows it. */
  function DigitsOf(s: string): string {
    if |s| > 2 && (s[..2] == "0x" || s[..2] == "0X") then s[2..] else s
  }

  /** What a numeric field's text denotes, or None when parseHexU64 reports an error. */
  function NumberOf(s: string): Option<nat> {
    if s == "" then Some(0) else ParseUint64(DigitsOf(s))
  }

  /** What parseHexU64 makes of no digits at all. */
  const EMPTY_NUMBER: Option<nat> := Some(0)

  method ParseHexU64(text: string) returns (r: Option<nat>)
    ensures r == NumberOf(text)
    ensures r.Some? ==> r.value < U64_LIMIT
  {
    var s := text;
    if s == "" {
      return EMPTY_NUMBER;
    }
    if |s| > 2 && (s[..2] == "0x" || s[..2] == "0X") {
      s := s[2..];
    }
    // After the length guard this cannot be.
    if s == "" {
      return EMPTY_NUMBER;
    }
    return ParseUint64(s);
  }

  /** Exactly which texts parseHexU64 accepts: in particular neither "0x" nor a 17-digit number. */
  lemma {:induction false} AcceptedTexts(s: string)
    ensures NumberOf(s).Some? <==>
            s == "" ||
            ((forall i :: 0 <= i < |DigitsOf(s)| ==> IsDigit(DigitsOf(s)[i], 16)) &&
             Value(DigitsOf(s), 16).Some? && Value(DigitsOf(s), 16).value < U64_LIMIT)
    ensures NumberOf("0x").None? && ParseUint64("").None?
  {
    ValueIsSomeIffDigits(DigitsOf(s), 16);
    ValueIsSomeIffDigits("0x", 16);
    assert DigitsOf("0x") == "0x" && !IsDigit("0x"[1], 16);
  }

  /** Python prints any natural; Go reads it back exactly when it fits in 64 bits. */
  lemma NumberFromHex(n: nat)
    ensures NumberOf(Hex(n)) == if n < 0x1_0000_0000_0000_0000 then Some(n) else None
  {
    PrintThenValue(n, 16);
    assert Hex(n)[..2] == "0x" && Hex(n)[2..] == Print(n, 16);
  }

  /** A request's numbers after parseHexU64, None where it reports an error. */
  datatype Numbers = Numbers(
    timestamp: Option<nat>, slotNumber: Option<nat>, targetGasLimit: Option<nat>, withdrawals: seq<WithdrawalNumbers>)

  datatype WithdrawalNumbers = WithdrawalNumbers(index: Option<nat>, validatorIndex: Option<nat>, amount: Option<nat>)

  function WithdrawalNumbersOf(w: WireWithdrawal): WithdrawalNumbers {
    WithdrawalNumbers(NumberOf(w.index), NumberOf(w.validatorIndex), NumberOf(w.amount))
  }

  function NumbersOf(r: BuildRequest): Numbers {
    Numbers(NumberOf(r.timestamp), NumberOf(r.slotNumber), NumberOf(r.targetGasLimit),
            seq(|r.withdrawals|, i requires 0 <= i < |r.withdrawals| => WithdrawalNumbersOf(r.withdrawals[i])))
  }

  /** The request has this field and its text is not a 64-bit number. */
  predicate Bad(n: Numbers, f: Field) {
    match f
    case Timestamp => n.timestamp.None?
    case SlotNumber => n.slotNumber.None?
    case TargetGasLimit => n.targetGasLimit.None?
    case WithdrawalIndex(i) => i < |n.withdrawals| && n.withdrawals[i].index.None?
    case WithdrawalValidator(i) => i < |n.withdrawals| && n.withdrawals[i].validatorIndex.None?
    case WithdrawalAmount(i) => i < |n.withdrawals| && n.withdrawals[i].amount.None?
  }

  /** The place of a field in reading order. */
  function Rank(f: Field): nat {
    match f
    case Timestamp => 0
    case SlotNumber => 1
    case TargetGasLimit => 2
    case WithdrawalIndex(i) => 3 * i + 3
    case WithdrawalValidator(i) => 3 * i + 4
    case WithdrawalAmount(i) => 3 * i + 5
  }

  function BadIn(w: WithdrawalNumbers, i: nat): Option<Field> {
    if w.index.None? then Some(WithdrawalIndex(i))
    else if w.validatorIndex.None? then Some(WithdrawalValidator(i))
    else if w.amount.None? then Some(WithdrawalAmount(i))
    else None
  }

  /** The first bad number among the first n withdrawals. */
  function FirstBadWithdrawal(ws: seq<WithdrawalNumbers>, n: nat): Option<Field>
    requires n <= |ws|
  {
    if n == 0 then None
    else
      var bad := FirstBadWithdrawal(ws, n - 1);
      if bad.Some? then bad else BadIn(ws[n - 1], n - 1)
  }

  function FirstBad(n: Numbers): Option<Field> {
    if n.timestamp.None? then Some(Timestamp)
    else if n.slotNumber.None? then Some(SlotNumber)
    else if n.targetGasLimit.None? then Some(TargetGasLimit)
    else FirstBadWithdrawal(n.withdrawals, |n.withdrawals|)
  }

  lemma {:induction false} FirstBadWithdrawalIsLeast(n: Numbers, k: nat)
    requires k <= |n.withdrawals|
    ensures var bad := FirstBadWithdrawal(n.withdrawals, k);
            if bad.Some? then
              Bad(n, bad.value) && 3 <= Rank(bad.value) < 3 * k + 3
              && forall f :: Bad(n, f) && 3 <= Rank(f) && f != bad.value ==> Rank(bad.value) < Rank(f)
            else forall f :: Bad(n, f) && 3 <= Rank(f) ==> 3 * k + 3 <= Rank(f)
  {
    if k > 0 {
      FirstBadWithdrawalIsLeast(n, k - 1);
    }
  }

  /** The reported field is bad and no bad field of the request is read before it; no report means none is bad. */
  lemma FirstBadIsLeast(n: Numbers)
    ensures var bad := FirstBad(n);
            if bad.Some? then Bad(n, bad.value) && forall f :: Bad(n, f) && f != bad.value ==> Rank(bad.value) < Rank(f)
            else forall f :: !Bad(n, f)
  {
    FirstBadWithdrawalIsLeast(n, |n.withdrawals|);
  }

  predicate Good(n: WithdrawalNumbers) {
    n.index.Some? && n.validatorIndex.Some? && n.amount.Some?
  }

  function GoWithdrawal(w: WireWithdrawal, n: WithdrawalNumbers): Withdrawal
    requires Good(n)
  {
    Withdrawal(n.index.value, n.validatorIndex.value, FromHexText(w.address), n.amount.value)
  }

  function GoWithdrawals(ws: seq<WireWithdrawal>, ns: seq<WithdrawalNumbers>): (r: seq<Withdrawal>)
    requires |ns| == |ws| && forall i :: 0 <= i < |ns| ==> Good(ns[i])
    ensures |r| == |ws| && forall i :: 0 <= i < |ws| ==> r[i] == GoWithdrawal(ws[i], ns[i])
  {
    seq(|ws|, i requires 0 <= i < |ws| => GoWithdrawal(ws[i], ns[i]))
  }

  lemma {:induction false} FirstBadWithdrawalSticks(ws: seq<WithdrawalNumbers>, m: nat, n: nat)
    requires m <= n <= |ws|
    ensures FirstBadWithdrawal(ws, m).Some? ==> FirstBadWithdrawal(ws, n) == FirstBadWithdrawal(ws, m)
    decreases n
  {
    if m < n {
      FirstBadWithdrawalSticks(ws, m, n - 1);
    }
  }

  lemma {:induction false} NoneBadAt(ws: seq<WithdrawalNumbers>, n: nat)
    requires n <= |ws|
    ensures FirstBadWithdrawal(ws, n).None? <==>
            forall i :: 0 <= i < n ==> Good(ws[i])
  {
    if n > 0 {
      NoneBadAt(ws, n - 1);
    }
  }

  /** What toAttributes makes of a request: its first bad field in reading order, or the attributes. */
  function Decoded(r: BuildRequest): Result<GoAttributes, Field> {
    var n := NumbersOf(r);
    var bad := FirstBad(n);
    if bad.Some? then Err(bad.value)
    else
      NoneBadAt(n.withdrawals, |n.withdrawals|);
      Ok(GoAttributes(
           n.timestamp.value,
           FromHexText(r.prevRandao),
           FromHexText(r.feeRecipient),
           GoWithdrawals(r.withdrawals, n.withdrawals),
           if r.beaconRoot != "" then Some(FromHexText(r.beaconRoot)) else None,
           n.slotNumber.value,
           n.targetGasLimit.value))
  }

  /** cmd_simbuild.go: read the numbers one by one and stop at the first that does not parse. */
  method ToAttributes(r: BuildRequest) returns (res: Result<GoAttributes, Field>)
    ensures res == Decoded(r)
  {
    ghost var n := NumbersOf(r);
    hide NumberOf, FromHexText;
    var ts := ParseHexU64(r.timestamp);
    if ts.None? {
      return Err(Timestamp);
    }
    var slot := ParseHexU64(r.slotNumber);
    if slot.None? {
      return Err(SlotNumber);
    }
    var target := ParseHexU64(r.targetGasLimit);
    if target.None? {
      return Err(TargetGasLimit);
    }
    var withdrawals: seq<Withdrawal> := [];
    for i := 0 to |r.withdrawals|
      invariant |withdrawals| == i
      invariant FirstBadWithdrawal(n.withdrawals, i).None?
      invariant forall j :: 0 <= j < i ==>
                  Good(n.withdrawals[j]) && withdrawals[j] == GoWithdrawal(r.withdrawals[j], n.withdrawals[j])
    {
      var w := r.withdrawals[i];
      assert n.withdrawals[i] == WithdrawalNumbersOf(w);
      FirstBadWithdrawalSticks(n.withdrawals, i + 1, |n.withdrawals|);
      var idx := ParseHexU64(w.index);
      if idx.None? {
        return Err(WithdrawalIndex(i));
      }
      var val := ParseHexU64(w.validatorIndex);
      if val.None? {
        return Err(WithdrawalValidator(i));
      }
      var amt := ParseHexU64(w.amount);
      if amt.None? {
        return Err(WithdrawalAmount(i));
      }
      withdrawals := withdrawals + [Withdrawal(idx.value, val.value, FromHexText(w.address), amt.value)];
    }
    var root := None;
    if r.beaconRoot != "" {
      root := Some(FromHexText(r.beaconRoot));
    }
    NoneBadAt(n.withdrawals, |n.withdrawals|);
    assert withdrawals == GoWithdrawals(r.withdrawals, n.withdrawals);
    res := Ok(GoAttributes(ts.value, FromHexText(r.prevRandao), FromHexText(r.feeRecipient),
                           withdrawals, root, slot.value, target.value));
  }

  /** The Go form of runner.py's attributes: an absent slot is 0, absent withdrawals are empty. */
  function Normalised(a: Attributes): GoAttributes {
    GoAttributes(a.timestamp, a.prevRandao, a.feeRecipient, WithdrawalsOf(a.withdrawals), a.beaconRoot,
                 if a.slotNumber.Some? then a.slotNumber.value else 0, 0)
  }

  /** Every number in the payload's attributes fits in 64 bits. */
  predicate Fits(p: EnginePayload) {
    var ws := WithdrawalsOf(p.expected.withdrawals);
    && p.expected.timestamp < U64_LIMIT
    && (p.expected.slotNumber.Some? ==> p.expected.slotNumber.value < U64_LIMIT)
    && forall i :: 0 <= i < |ws| ==>
         ws[i].index < U64_LIMIT && ws[i].validatorIndex < U64_LIMIT && ws[i].amount < U64_LIMIT
  }

  function Fit(n: nat): Option<nat> {
    if n < U64_LIMIT then Some(n) else None
  }

  function FitWithdrawal(w: Withdrawal): WithdrawalNumbers {
    WithdrawalNumbers(Fit(w.index), Fit(w.validatorIndex), Fit(w.amount))
  }

  /** The numbers simbuild reads out of a request are the payload's own, where they fit. */
  lemma NumbersSurvive(p: EnginePayload)
    ensures var ws := WithdrawalsOf(p.expected.withdrawals);
            NumbersOf(RequestBody(p)) ==
            Numbers(Fit(p.expected.timestamp),
                    if p.expected.slotNumber.Some? then Fit(p.expected.slotNumber.value) else Some(0),
                    Some(0),
                    seq(|ws|, i requires 0 <= i < |ws| => FitWithdrawal(ws[i])))
  {
    var ws := WithdrawalsOf(p.expected.withdrawals);
    NumberFromHex(p.expected.timestamp);
    NumberFromHex(0);
    assert Hex(0) == "0x0";
    if p.expected.slotNumber.Some? {
      NumberFromHex(p.expected.slotNumber.value);
    }
    forall i | 0 <= i < |ws|
      ensures NumbersOf(RequestBody(p)).withdrawals[i] == FitWithdrawal(ws[i])
    {
      NumberFromHex(ws[i].index);
      NumberFromHex(ws[i].validatorIndex);
      NumberFromHex(ws[i].amount);
    }
  }

  lemma GoReadsPythonText(b: HexBytes)
    ensures HexText(b) == "0x" + b.digits && FromHexText(HexText(b)) == b
  {
    assert ("0x" + b.digits)[..2] == "0x" && ("0x" + b.digits)[2..] == b.digits;
  }

  /** The request decodes exactly when every number fits, and then to the direct path's attributes. */
  lemma PathEquivalence(p: EnginePayload)
    ensures Decoded(RequestBody(p)).Ok? <==> Fits(p)
    ensures Fits(p) ==> Decoded(RequestBody(p)) == Ok(Normalised(PayloadAttributes(p)))
  {
    hide NumberOf, FromHexText, HexText, Hex, NumbersOf, FirstBadWithdrawal;
    var r := RequestBody(p);
    var n := NumbersOf(r);
    var ws := WithdrawalsOf(p.expected.withdrawals);
    NumbersSurvive(p);
    NoneBadAt(n.withdrawals, |ws|);
    assert forall i :: 0 <= i < |ws| ==> n.withdrawals[i] == FitWithdrawal(ws[i]);
    if Fits(p) {
      GoReadsPythonText(p.expected.prevRandao);
      GoReadsPythonText(p.expected.feeRecipient);
      if BeaconRoot(p).Some? {
        GoReadsPythonText(BeaconRoot(p).value);
      }
      forall i | 0 <= i < |ws|
        ensures GoWithdrawal(r.withdrawals[i], n.withdrawals[i]) == ws[i]
      {
        GoReadsPythonText(ws[i].address);
      }
      assert Decoded(r).value.withdrawals == ws;
    }
  }

  /** The request names the parent the direct path would build on. */
  lemma ParentSurvives(p: EnginePayload)
    ensures FromHexText(RequestBody(p).parentHash) == p.expected.parentHash
  {
    GoReadsPythonText(p.expected.parentHash);
  }
}
