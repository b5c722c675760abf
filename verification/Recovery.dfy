/** The recovery command: the scan and the receipt loop as written, and the sidecar that feeds them. */
module Recovery {
  import opened Wrappers
  import opened Numerals
  import opened Sweep
  import opened Ledger

  /** The node, as seen through its RPC. The trace records what it and the scan have done. */
  class Node {
    const sc: Scan
    var chain: Chain
    ghost const c0: Chain
    ghost var trace: seq<Event>
    ghost var sys: Sys

    ghost predicate Valid()
      reads this
    {
      && sc.Sound() && Settled(c0)
      && Run(sc, Begin(c0), trace) == Some(sys)
      && sys.chain == chain
    }

    constructor (sc: Scan, chain: Chain)
      requires sc.Sound() && Settled(chain)
      ensures Valid() && this.sc == sc && this.chain == chain && c0 == chain && sys == Begin(chain)
    {
      this.sc, this.chain, this.c0, this.trace, this.sys := sc, chain, chain, [], Begin(chain);
    }

    /** Record one step that has just happened. */
    ghost method Note(e: Event)
      requires sc.Sound() && Settled(c0) && Run(sc, Begin(c0), trace) == Some(sys)
      requires Next(sc, sys, e).Some? && Next(sc, sys, e).value.chain == chain
      modifies this`trace, this`sys
      ensures Valid() && sys == Next(sc, old(sys), e).value
    {
      hide Next;
      assert (trace + [e])[..|trace|] == trace;
      trace, sys := trace + [e], Next(sc, sys, e).value;
    }

    /** The chain includes any sweeps it likes, in any order, at any price. */
    method Mining()
      requires Valid()
      modifies this
      ensures Valid() && sys == old(sys).(chain := chain)
      ensures forall tx :: tx in old(chain).receipts ==> tx in chain.receipts
    {
      var schedule: seq<(Tx, Block)> := *;
      hide Run, Include, Includable, Scan.Sound, Settled;
      for k := 0 to |schedule|
        invariant Valid() && sys == old(sys).(chain := chain)
        invariant forall tx :: tx in old(chain).receipts ==> tx in chain.receipts
      {
        var (tx, b) := schedule[k];
        if Includable(chain, tx, b) && !sc.Scans(b.coinbase) {
          IncludeReceipts(chain, tx, b);
          chain := Include(chain, tx, b);
          Note(Mine(tx, b));
        }
      }
    }

    /** `get_balance` of the key the scan is at. */
    method GetBalance(address: Address) returns (balance: nat)
      requires Valid() && sys.phase.Idle? && sys.i < sc.count && address == sc.Addr(sys.i)
      modifies this
      ensures Valid() && balance == At(chain.balances, address)
      ensures sys == if WorthSweeping(balance, sc.Reserve(), sc.minSweep)
                     then old(sys).(chain := chain, phase := HasBalance(balance))
                     else old(sys).(chain := chain, i := old(sys).i + 1)
    {
      Mining();
      hide Run;
      balance := At(chain.balances, address);
      Note(ReadBalance);
    }

    /** `_nonce` of the key the scan is at. */
    method GetNonce(address: Address) returns (nonce: nat)
      requires Valid() && sys.phase.HasBalance? && address == sc.Addr(sys.i)
      modifies this
      ensures Valid() && sys == old(sys).(chain := chain, phase := HasNonce(old(sys).phase.balance, nonce))
    {
      Mining();
      hide Run;
      nonce := At(chain.nonces, address);
      Note(ReadNonce);
    }

    /** eth_sendRawTransaction: the node accepts or rejects as it likes. */
    method SendRaw(tx: Tx) returns (hash: Option<TxHash>)
      requires Valid() && sys.phase.HasNonce? && sc.Reserve() <= sys.phase.balance
      requires tx == SweepTx(sc, sys.i, sys.phase.balance, sys.phase.nonce)
      modifies this
      ensures Valid()
      ensures hash.Some? ==>
                && hash.value == TxHash(tx)
                && sys.i == old(sys).i + 1 && sys.phase.Idle?
                && sys.recovered == old(sys).recovered + [RecoveredAccount(tx.sender, tx.value, TxHash(tx))]
      ensures hash.None? ==> sys.phase.Rejected?
    {
      Mining();
      hide Run;
      var accepted: bool := *;
      if accepted {
        chain := chain.(mempool := chain.mempool + {tx});
        Note(Send(true));
        return Some(TxHash(tx));
      }
      Note(Send(false));
      return None;
    }

    /** eth_getTransactionReceipt. */
    method HasReceipt(hash: TxHash) returns (found: bool)
      requires Valid()
      modifies this
      ensures Valid() && sys == old(sys).(chain := chain)
      ensures forall tx :: tx in old(chain).receipts ==> tx in chain.receipts
      ensures found ==> hash.tx in chain.receipts
      ensures hash.tx in old(chain).receipts ==> found
    {
      Mining();
      found := hash.tx in chain.receipts;
    }
  }

  /** What sweep_account yields: a sweep, nothing worth sweeping, or a raised rejection. */
  datatype SweepResult = Swept(hash: TxHash, value: nat) | NothingToSweep | SweepRejected

  /** `sweep_account`, for the key the scan is at. */
  method SweepAccount(node: Node, key: nat) returns (result: SweepResult)
    requires node.Valid() && node.sys.phase.Idle? && node.sys.i < node.sc.count && key == node.sc.start + node.sys.i
    modifies node
    ensures node.Valid()
    ensures result.SweepRejected? <==> node.sys.phase.Rejected?
    ensures !result.SweepRejected? ==> node.sys.phase.Idle? && node.sys.i == old(node.sys).i + 1
    ensures result.NothingToSweep? ==> node.sys.recovered == old(node.sys).recovered
    ensures result.Swept? ==>
              node.sys.recovered ==
              old(node.sys).recovered + [RecoveredAccount(node.sc.derive(key), result.value, result.hash)]
  {
    hide Run, Include;
    var address := node.sc.derive(key);
    var balance := node.GetBalance(address);
    var reserve := node.sc.Reserve();
    if balance <= reserve || balance - reserve < node.sc.minSweep {
      return NothingToSweep;
    }
    var value := balance - reserve;
    var nonce := node.GetNonce(address);
    var tx := Tx(address, nonce, node.sc.to, value, node.sc.maxFee, node.sc.maxPriority);
    var hash := node.SendRaw(tx);
    if hash.None? {
      return SweepRejected;
    }
    return Swept(hash.value, value);
  }

  /** The wall clock: it never goes back, and a sleep takes at least as long as asked. */
  class Clock {
    var now: real
    /** All the time slept on request. */
    ghost var slept: real

    method Time() returns (t: real)
      modifies this`now
      ensures t == now >= old(now)
    {
      var drift: real := *;
      if drift > 0.0 {
        now := now + drift;
      }
      t := now;
    }

    method Sleep(seconds: real)
      requires seconds >= 0.0
      modifies this
      ensures now >= old(now) + seconds && slept == old(slept) + seconds
    {
      slept := slept + seconds;
      var extra: real := *;
      now := now + seconds + if extra > 0.0 then extra else 0.0;
    }
  }

  /** The hashes of a set that have no receipt when asked about. */
  method StillPending(node: Node, pending: set<TxHash>) returns (still: set<TxHash>)
    requires node.Valid()
    modifies node
    ensures node.Valid() && node.sys == old(node.sys).(chain := node.chain)
    ensures forall tx :: tx in old(node.chain).receipts ==> tx in node.chain.receipts
    ensures still <= pending
    ensures forall h :: h in pending && h !in still ==> h.tx in node.chain.receipts
    ensures forall h :: h in still ==> h.tx !in old(node.chain).receipts
  {
    hide Run, Settled, Scan.Sound;
    still := {};
    var todo := pending;
    while todo != {}
      invariant node.Valid() && node.sys == old(node.sys).(chain := node.chain)
      invariant forall tx :: tx in old(node.chain).receipts ==> tx in node.chain.receipts
      invariant todo <= pending && still <= pending
      invariant forall h :: h in pending && h !in still && h !in todo ==> h.tx in node.chain.receipts
      invariant forall h :: h in still ==> h.tx !in old(node.chain).receipts
      decreases todo
    {
      var h :| h in todo;
      todo := todo - {h};
      var found := node.HasReceipt(h);
      if !found {
        still := still + {h};
      }
    }
  }

  const POLL_SECONDS := 4.0
  const TIMEOUT_SECONDS := 180.0

  /**
   The receipt loop. It polls until nothing is pending or 180 seconds are over, sleeping 4 seconds
   after each poll that leaves something; pending only shrinks, what has a receipt is dropped at the
   first poll, and with any clock the body runs at most 45 times.
  */
  method AwaitReceipts(node: Node, clock: Clock, hashes: set<TxHash>)
    returns (pending: set<TxHash>, ghost polls: nat)
    requires node.Valid()
    modifies node, clock
    ensures node.Valid() && node.sys == old(node.sys).(chain := node.chain)
    ensures pending <= hashes && polls <= 45
    ensures forall h :: h in hashes && h !in pending ==> h.tx in node.chain.receipts
    ensures pending == {} || clock.now >= old(clock.now) + 180.0
    ensures clock.slept == old(clock.slept) + 4.0 * (if polls > 0 && pending == {} then polls - 1 else polls) as real
    ensures polls > 0 ==> forall h :: h in pending ==> h.tx !in old(node.chain).receipts
    ensures polls > 0 && (forall h :: h in hashes ==> h.tx in old(node.chain).receipts) ==> pending == {} && polls == 1
    ensures hashes == {} ==> polls == 0
  {
    hide Run, Settled, Scan.Sound;
    polls := 0;
    var begun := clock.Time();
    var deadline := begun + TIMEOUT_SECONDS;
    pending := hashes;
    var t := clock.Time();
    while pending != {} && t < deadline
      invariant node.Valid() && node.sys == old(node.sys).(chain := node.chain)
      invariant pending <= hashes && polls <= 45
      invariant forall h :: h in hashes && h !in pending ==> h.tx in node.chain.receipts
      invariant clock.now == t && begun >= old(clock.now)
      invariant pending != {} ==> t >= begun + POLL_SECONDS * polls as real
      invariant clock.slept == old(clock.slept) + 4.0 * (if polls > 0 && pending == {} then polls - 1 else polls) as real
      invariant forall tx :: tx in old(node.chain).receipts ==> tx in node.chain.receipts
      invariant polls > 0 ==> forall h :: h in pending ==> h.tx !in old(node.chain).receipts
      invariant polls > 1 ==> exists h :: h in hashes && h.tx !in old(node.chain).receipts
      invariant hashes == {} ==> polls == 0
      decreases 45 - polls
    {
      pending := StillPending(node, pending);
      polls := polls + 1;
      if pending != {} {
        clock.Sleep(POLL_SECONDS);
      }
      t := clock.Time();
    }
  }

  /**
   `recover_funded_eoas`. None stands for the RuntimeError of a rejected submission. `settled` says
   that the receipt loop ran and ended with nothing pending.
  */
  method RecoverFundedEoas(node: Node, clock: Clock, wait: bool)
    returns (result: Option<seq<RecoveredAccount>>, ghost settled: bool)
    requires node.Valid() && node.sys == Begin(node.c0)
    modifies node, clock
    ensures node.Valid()
    ensures result.None? <==> node.sys.phase.Rejected?
    ensures result.Some? ==> result.value == Expected(node.sc, node.c0, node.sc.count)
    ensures result.Some? ==> node.sys.i == node.sc.count && node.sys.recovered == result.value
    ensures settled ==> Complete(node.sc, node.sys)
    ensures result.Some? && wait && !settled ==> clock.now >= old(clock.now) + 180.0
    ensures !wait || result.None? || result.value == [] ==> clock.now == old(clock.now)
  {
    hide Run, Next, Include, Expected;
    var recovered: seq<RecoveredAccount> := [];
    for i := 0 to node.sc.count
      invariant node.Valid() && node.sys.phase.Idle? && node.sys.i == i && node.sys.recovered == recovered
      invariant clock.now == old(clock.now)
    {
      var key := node.sc.start + i;
      var swept := SweepAccount(node, key);
      match swept {
        case SweepRejected => return None, false;
        case NothingToSweep =>
        case Swept(hash, value) =>
          recovered := recovered + [RecoveredAccount(node.sc.derive(key), value, hash)];
      }
    }
    AlwaysAccounted(node.sc, node.c0, node.trace);
    assert recovered == Expected(node.sc, node.c0, node.sc.count);
    if wait && recovered != [] {
      var hashes := set k | 0 <= k < |recovered| :: recovered[k].hash;
      var pending;
      ghost var polls;
      pending, polls := AwaitReceipts(node, clock, hashes);
      settled := pending == {};
    } else {
      settled := recovered == [];
    }
    if settled {
      NothingPending(node.sc, node.c0, node.trace);
    }
    return Some(recovered), settled;
  }

  /**
   Idempotence: after a pass whose sweeps are all included, recovering again from the same keys with the
   same fees returns an empty list and leaves the chain as it is.
  */
  method RecoverAgain(first: Node, clock: Clock, wait: bool)
    returns (result: Option<seq<RecoveredAccount>>, second: Node)
    requires first.Valid() && Complete(first.sc, first.sys)
    modifies clock
    ensures second.Valid() && fresh(second) && second.sc == first.sc && second.c0 == first.chain
    ensures result == Some([])
    ensures second.chain == first.chain
  {
    hide Run, Next, Include, Expected, Settled, Scan.Sound;
    CompletePassSettles(first.sc, first.c0, first.trace);
    second := new Node(first.sc, first.chain);
    ghost var settled;
    result, settled := RecoverFundedEoas(second, clock, wait);
    SecondPassIsIdle(first.sc, first.c0, first.trace, second.trace);
  }

  /** When every recovered hash has a receipt, nothing is left in the pool. */
  lemma NothingPending(sc: Scan, c0: Chain, trace: seq<Event>)
    requires sc.Sound() && Settled(c0) && Run(sc, Begin(c0), trace).Some?
    requires var s := Run(sc, Begin(c0), trace).value;
             && s.i == sc.count && s.phase.Idle?
             && forall k :: 0 <= k < |s.recovered| ==> s.recovered[k].hash.tx in s.chain.receipts
    ensures Complete(sc, Run(sc, Begin(c0), trace).value)
  {
    hide Run, LedgerAccounted, SweepOf, Funded;
    AlwaysAccounted(sc, c0, trace);
    var s := Run(sc, Begin(c0), trace).value;
    forall i: nat | i < s.i && Funded(sc, c0, i)
      ensures SweepOf(sc, c0, i) in s.chain.receipts
    {
      var k := ExpectedHolds(sc, c0, s.i, i);
      assert s.recovered[k].hash.tx == SweepOf(sc, c0, i);
    }
    assert s.chain.mempool == {};
  }

  lemma {:induction false} ExpectedHolds(sc: Scan, c0: Chain, n: nat, i: nat) returns (k: nat)
    requires i < n && Funded(sc, c0, i)
    ensures k < |Expected(sc, c0, n)| && Expected(sc, c0, n)[k].hash == TxHash(SweepOf(sc, c0, i))
  {
    hide SweepOf, Funded;
    if i == n - 1 {
      k := |Expected(sc, c0, n - 1)|;
    } else {
      k := ExpectedHolds(sc, c0, n - 1, i);
    }
  }

  // ---------------------------------------------------------------- the sidecar

  /** The order of secp256k1's group (SEC 2, section 2.4.1). */
  const SECP256K1_ORDER: nat := 0xFFFFFFFF_FFFFFFFF_FFFFFFFF_FFFFFFFE_BAAEDCE6_AF48A03B_BFD25E8C_D0364141

  const RANDOM_BOUND: nat := 0x1_000000000000_000000000000_000000000000_000000000000_000000000000

  /** 2^240, and the order as SEC 2 relates it to 2^256. */
  lemma BoundsAre()
    ensures RANDOM_BOUND == 0x1_0000_0000_0000 * 0x1_0000_0000_0000 * 0x1_0000_0000_0000 * 0x1_0000_0000_0000
                            * 0x1_0000_0000_0000
    ensures SECP256K1_ORDER + 0x1_45512319_50B75FC4_402DA173_2FC9BEBF == RANDOM_BOUND * 0x1_0000
  {
  }

  const START_OFFSET: nat := 0x1_0000

  function StartOf(bits: nat): nat {
    bits + START_OFFSET
  }

  /** `random_eoa_start`, for the 240 random bits drawn. */
  function RandomEoaStart(bits: nat): string
    requires bits < RANDOM_BOUND
  {
    Dec(StartOf(bits))
  }

  /** The start submit_transactions uses and records: the one given, or a random one. */
  function SubmitStart(given: Option<string>, bits: nat): string
    requires bits < RANDOM_BOUND
  {
    if given.Some? then given.value else RandomEoaStart(bits)
  }

  /** The start recover_cmd scans from: the option if given, else the sidecar's; None is an error. */
  function RecoverStart(option: Option<string>, sidecar: Option<string>): Option<nat> {
    if option.Some? then ReadDec(option.value)
    else if sidecar.Some? then ReadDec(sidecar.value)
    else None
  }

  /** `eoa_start + i`. */
  function KeyAt(start: nat, i: nat): nat {
    start + i
  }

  /** The keys a scan derives accounts from. */
  function Keys(start: nat, count: nat): set<nat> {
    set i: nat | i < count :: KeyAt(start, i)
  }

  /** A start given as a number survives the sidecar, and one given on recovery overrides it. */
  lemma GivenStartsSurvive(n: nat, bits: nat, sidecar: Option<string>)
    requires bits < RANDOM_BOUND
    ensures RecoverStart(None, Some(SubmitStart(Some(Dec(n)), bits))) == Some(n)
    ensures RecoverStart(Some(Dec(n)), sidecar) == Some(n)
    ensures RecoverStart(None, None) == None
  {
    DecRoundTrip(n);
  }

  /** Different draws give different starts: independent submits scan from different keys. */
  lemma StartsDiffer(bits: nat, bits': nat)
    requires bits < RANDOM_BOUND && bits' < RANDOM_BOUND && bits != bits'
    ensures SubmitStart(None, bits) != SubmitStart(None, bits')
  {
    if SubmitStart(None, bits) == SubmitStart(None, bits') {
      PrintInjective(StartOf(bits), StartOf(bits'), 10);
    }
  }

  /**
   A run's sidecar leads back to its accounts: the start, the random bits and 2^16, survives the text,
   the scanned keys are valid private keys, and they cover all k funded ones exactly when the scan is
   long enough.
  */
  lemma SidecarRecovers(bits: nat, count: nat, k: nat)
    requires bits < RANDOM_BOUND
    ensures RecoverStart(None, Some(SubmitStart(None, bits))) == Some(bits + 0x1_0000)
    ensures count <= SECP256K1_ORDER - RANDOM_BOUND - 0x1_0000 ==>
              forall i: nat :: i < count ==>
                KeyAt(StartOf(bits), i) == bits + 0x1_0000 + i && 1 <= KeyAt(StartOf(bits), i) < SECP256K1_ORDER
    ensures |Keys(StartOf(bits), count)| == count
    ensures Keys(StartOf(bits), k) <= Keys(StartOf(bits), count) <==> k <= count
  {
    DecRoundTrip(StartOf(bits));
    hide Dec, ReadDec;
    KeyCount(StartOf(bits), count);
    if k > count {
      assert KeyAt(StartOf(bits), count) in Keys(StartOf(bits), k);
    }
  }

  lemma {:induction false} KeyCount(start: nat, count: nat)
    ensures |Keys(start, count)| == count
  {
    if count > 0 {
      KeyCount(start, count - 1);
      assert Keys(start, count) == Keys(start, count - 1) + {KeyAt(start, count - 1)};
    }
  }

  /** With derivation injective on private keys, such a scan meets the assumptions of the ledger theorems. */
  lemma SidecarScanIsSound(sc: Scan, bits: nat)
    requires bits < RANDOM_BOUND && sc.start == StartOf(bits)
    requires sc.count <= SECP256K1_ORDER - RANDOM_BOUND - 0x1_0000
    requires forall x: nat, y: nat :: 1 <= x < y < SECP256K1_ORDER ==> sc.derive(x) != sc.derive(y)
    requires forall i: nat :: i < sc.count ==> sc.Addr(i) != sc.to
    ensures sc.Sound()
  {
    forall i: nat, j: nat | i < j < sc.count
      ensures sc.Addr(i) != sc.Addr(j)
    {
      assert 1 <= sc.start + i < sc.start + j < SECP256K1_ORDER;
    }
  }
}
