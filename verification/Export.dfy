/** From the captured transactions to the rows of the CSV file. */
module Export {
  import opened Wrappers
  import opened Numerals
  import opened RpcProxy

  /** A CSV row. `info` stands for the columns copied from the node's answer. */
  datatype Row<Info> = Row(seqNo: nat, txHash: string, raw: string, info: Info)

  predicate IsSpace(c: char) {
    c == ' ' || c == '\t' || c == '\n' || c == '\r' || c == '\U{000B}' || c == '\U{000C}'
  }

  /** `bytes.fromhex`: pairs of hex digits, with blanks allowed between pairs; None is a ValueError. */
  function FromHex(s: string): Option<seq<nat>> {
    if s == "" then Some([])
    else if IsSpace(s[0]) then FromHex(s[1..])
    else if |s| == 1 || !IsDigit(s[0], 16) || !IsDigit(s[1], 16) then None
    else
      var rest := FromHex(s[2..]);
      if rest.None? then None
      else Some([DigitValue(s[0]).value * 16 + DigitValue(s[1]).value] + rest.value)
  }

  /** A byte string as hex, two digits a byte. */
  function ToHex(bytes: seq<nat>): string
    requires forall i :: 0 <= i < |bytes| ==> bytes[i] < 256
  {
    if bytes == [] then "" else [Digit(bytes[0] / 16), Digit(bytes[0] % 16)] + ToHex(bytes[1..])
  }

  /** What is hashed are the bytes the text spells. */
  lemma {:induction false} FromHexOfToHex(bytes: seq<nat>)
    requires forall i :: 0 <= i < |bytes| ==> bytes[i] < 256
    ensures FromHex(ToHex(bytes)) == Some(bytes)
  {
    if bytes != [] {
      FromHexOfToHex(bytes[1..]);
      var s := ToHex(bytes);
      assert s[2..] == ToHex(bytes[1..]);
      assert bytes == [bytes[0]] + bytes[1..];
    }
  }

  predicate Decodes(raw: string) {
    FromHex(Remove0x(raw)).Some?
  }

  /** `_enrich`: hash every transaction, look it up, and number the rows; the first that is not hex raises. */
  method Enrich<Info>(rawTxs: seq<string>, keccak: seq<nat> -> string, lookup: string -> Info)
    returns (rows: Option<seq<Row<Info>>>)
    ensures rows.Some? <==> forall i :: 0 <= i < |rawTxs| ==> Decodes(rawTxs[i])
    ensures rows.Some? ==> |rows.value| == |rawTxs|
    ensures rows.Some? ==>
              forall i :: 0 <= i < |rawTxs| ==>
                var hash := Ensure0x(keccak(FromHex(Remove0x(rawTxs[i])).value));
                rows.value[i] == Row(i, hash, Ensure0x(rawTxs[i]), lookup(hash))
  {
    var done: seq<Row<Info>> := [];
    for i := 0 to |rawTxs|
      invariant |done| == i
      invariant forall j :: 0 <= j < i ==>
                  Decodes(rawTxs[j]) &&
                  var hash := Ensure0x(keccak(FromHex(Remove0x(rawTxs[j])).value));
                  done[j] == Row(j, hash, Ensure0x(rawTxs[j]), lookup(hash))
    {
      var raw := rawTxs[i];
      var bytes := FromHex(Remove0x(raw));
      if bytes.None? {
        assert !Decodes(rawTxs[i]);
        return None;
      }
      var hash := Ensure0x(keccak(bytes.value));
      done := done + [Row(i, hash, Ensure0x(raw), lookup(hash))];
    }
    return Some(done);
  }

  /**
   End to end, for a client that waits for each reply: the rows are numbered from 0 and their raw
   values are, with a 0x prefix, everything the answered requests sent, in submission order.
  */
  method ExportSerialClient<Info>(trace: seq<Event>, keccak: seq<nat> -> string, lookup: string -> Info)
    returns (rows: Option<seq<Row<Info>>>)
    requires Run(Start, trace).Some? && Quiet(Run(Start, trace).value.handlers)
    requires OneAtATime(trace)
    ensures var sent := Concat(Arrivals(trace), FullParts(Run(Start, trace).value.handlers));
            && (rows.Some? <==> forall i :: 0 <= i < |sent| ==> Decodes(sent[i]))
            && (rows.Some? ==>
                  && |rows.value| == |sent|
                  && forall i :: 0 <= i < |sent| ==>
                       rows.value[i].seqNo == i && rows.value[i].raw == Ensure0x(sent[i]))
  {
    SerialClientCapture(trace);
    rows := Enrich(Raws(Run(Start, trace).value.log), keccak, lookup);
  }
}
