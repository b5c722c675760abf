/** What holds in every interleaving of a recovery scan with the chain's inclusions. */
module Ledger {
  import opened Sweep

  // ---------------------------------------------------------------- one inclusion

  lemma SweepsDiffer(sc: Scan, c0: Chain, i: nat, k: nat)
    requires sc.Sound() && i < sc.count && k < sc.count && i != k
    requires Funded(sc, c0, i) && Funded(sc, c0, k)
    ensures SweepOf(sc, c0, i) != SweepOf(sc, c0, k)
  {
    assert sc.Addr(i) != sc.Addr(k);
  }

  /** Including the sweep of key k leaves the standing of every other key as it was. */
  lemma OthersUnmoved(sc: Scan, c0: Chain, r: map<Tx, Block>, k: nat, b: Block, i: nat)
    requires sc.Sound() && i < sc.count && k < sc.count && i != k && Funded(sc, c0, k)
    ensures var r' := r[SweepOf(sc, c0, k) := b];
            && (Included(sc, c0, r', i) <==> Included(sc, c0, r, i))
            && Kept(sc, c0, r', i) == Kept(sc, c0, r, i)
            && (Included(sc, c0, r, i) ==> r'[SweepOf(sc, c0, i)] == r[SweepOf(sc, c0, i)])
            && forall a :: Brought(sc, c0, r', a, i) == Brought(sc, c0, r, a, i)
  {
    if Funded(sc, c0, i) {
      SweepsDiffer(sc, c0, i, k);
    }
  }

  lemma {:induction false} SumsAfter(sc: Scan, c0: Chain, r: map<Tx, Block>, k: nat, b: Block, a: Address, n: nat)
    requires sc.Sound() && k < sc.count && n <= sc.count && Funded(sc, c0, k) && SweepOf(sc, c0, k) !in r
    ensures var r' := r[SweepOf(sc, c0, k) := b];
            && Gained(sc, c0, r', a, n) == Gained(sc, c0, r, a, n) + (if k < n then Brought(sc, c0, r', a, k) else 0)
            && Burnt(sc, c0, r', n) == Burnt(sc, c0, r, n) + (if k < n then GAS_TRANSFER * b.baseFee else 0)
  {
    hide Brought, SweepOf, Funded;
    if n > 0 {
      SumsAfter(sc, c0, r, k, b, a, n - 1);
      if n - 1 != k {
        OthersUnmoved(sc, c0, r, k, b, n - 1);
      } else {
        NothingBrought(sc, c0, r, a, k);
      }
    }
  }

  lemma NothingBrought(sc: Scan, c0: Chain, r: map<Tx, Block>, a: Address, k: nat)
    requires Funded(sc, c0, k) && SweepOf(sc, c0, k) !in r
    ensures Brought(sc, c0, r, a, k) == 0
  {
  }

  /** The balances and nonces an inclusion leaves behind. */
  lemma IncludeBalances(c: Chain, tx: Tx, b: Block, a: Address)
    requires Includable(c, tx, b) && tx.sender != tx.to && tx.sender != b.coinbase
    ensures var c' := Include(c, tx, b);
            && At(c'.balances, a) ==
               (if a == tx.sender then At(c.balances, a) - tx.value - GAS_TRANSFER * Price(tx, b)
                else At(c.balances, a) + (if a == tx.to then tx.value else 0)
                     + (if a == b.coinbase then GAS_TRANSFER * Tip(tx, b) else 0))
            && At(c'.nonces, a) == (if a == tx.sender then tx.nonce + 1 else At(c.nonces, a))
  {
    PriceBounds(tx, b);
  }

  lemma ScansKey(sc: Scan, i: nat)
    requires i < sc.count
    ensures sc.Scans(sc.Addr(i))
  {
  }

  lemma IncludeKeepsLedger(sc: Scan, c0: Chain, c: Chain, n: nat, k: nat, b: Block)
    requires sc.Sound() && LedgerAccounted(sc, c0, c) && PoolAccounted(sc, c0, c, n)
    requires k < n && Funded(sc, c0, k) && Includable(c, SweepOf(sc, c0, k), b) && !sc.Scans(b.coinbase)
    ensures LedgerAccounted(sc, c0, Include(c, SweepOf(sc, c0, k), b))
  {
    hide Gained, Burnt, Total, Include, Includable, Included, Kept, Brought;
    var tx := SweepOf(sc, c0, k);
    var c' := Include(c, tx, b);
    IncludeReceipts(c, tx, b);
    IncludeConserves(c, tx, b);
    ScansKey(sc, k);
    assert tx !in c.receipts;
    SumsAfter(sc, c0, c.receipts, k, b, sc.to, sc.count);
    forall i: nat | i < sc.count
      ensures At(c'.balances, sc.Addr(i)) == Kept(sc, c0, c'.receipts, i)
      ensures At(c'.nonces, sc.Addr(i)) ==
              At(c0.nonces, sc.Addr(i)) + if Included(sc, c0, c'.receipts, i) then 1 else 0
    {
      ScansKey(sc, i);
      IncludeBalances(c, tx, b, sc.Addr(i));
      if i == k {
        KeptWhenIncluded(sc, c0, c.receipts, k, b);
      } else {
        OthersUnmoved(sc, c0, c.receipts, k, b, i);
      }
    }
    forall a: Address | !sc.Scans(a)
      ensures At(c'.balances, a) == At(c0.balances, a) + Gained(sc, c0, c'.receipts, a, sc.count)
    {
      IncludeBalances(c, tx, b, a);
      SumsAfter(sc, c0, c.receipts, k, b, a, sc.count);
      BroughtWhenIncluded(sc, c0, c.receipts, a, k, b);
    }
  }

  lemma IncludeReceipts(c: Chain, tx: Tx, b: Block)
    requires Includable(c, tx, b)
    ensures var c' := Include(c, tx, b);
            && c'.receipts == c.receipts[tx := b] && c'.mempool == c.mempool - {tx}
            && c'.burned == c.burned + GAS_TRANSFER * b.baseFee && b.baseFee <= tx.maxFee && tx in c.mempool
  {
  }

  lemma KeptWhenIncluded(sc: Scan, c0: Chain, r: map<Tx, Block>, k: nat, b: Block)
    requires Funded(sc, c0, k) && SweepOf(sc, c0, k) !in r && b.baseFee <= sc.maxFee
    ensures var tx := SweepOf(sc, c0, k);
            && Kept(sc, c0, r, k) == tx.value + sc.Reserve()
            && Kept(sc, c0, r[tx := b], k) == sc.Reserve() - GAS_TRANSFER * Price(tx, b)
            && Included(sc, c0, r[tx := b], k) && !Included(sc, c0, r, k)
  {
  }

  lemma BroughtWhenIncluded(sc: Scan, c0: Chain, r: map<Tx, Block>, a: Address, k: nat, b: Block)
    requires Funded(sc, c0, k) && b.baseFee <= sc.maxFee
    ensures var tx := SweepOf(sc, c0, k);
            Brought(sc, c0, r[tx := b], a, k)
            == (if a == sc.to then tx.value else 0) + (if a == b.coinbase then GAS_TRANSFER * Tip(tx, b) else 0)
  {
  }

  lemma IncludeKeepsPool(sc: Scan, c0: Chain, c: Chain, n: nat, k: nat, b: Block)
    requires sc.Sound() && PoolAccounted(sc, c0, c, n)
    requires k < n && Funded(sc, c0, k) && Includable(c, SweepOf(sc, c0, k), b) && !sc.Scans(b.coinbase)
    ensures PoolAccounted(sc, c0, Include(c, SweepOf(sc, c0, k), b), n)
  {
    hide Include, Includable, SweepOf, Funded;
    var tx := SweepOf(sc, c0, k);
    IncludeReceipts(c, tx, b);
    SweepShape(sc, c0, k);
    forall i: nat | i < sc.count && i != k && Funded(sc, c0, i)
      ensures SweepOf(sc, c0, i) != tx
    {
      SweepsDiffer(sc, c0, i, k);
    }
  }

  lemma SweepShape(sc: Scan, c0: Chain, k: nat)
    requires Funded(sc, c0, k)
    ensures var tx := SweepOf(sc, c0, k);
            && tx.maxFee == sc.maxFee && tx.maxPriority == sc.maxPriority && tx.sender == sc.Addr(k) && tx.to == sc.to
            && tx.nonce == At(c0.nonces, sc.Addr(k))
            && tx.value + sc.Reserve() == At(c0.balances, sc.Addr(k))
  {
  }

  // ---------------------------------------------------------------- every step, every trace

  lemma MineKeeps(sc: Scan, c0: Chain, s: Sys, tx: Tx, b: Block)
    requires sc.Sound() && Accounted(sc, c0, s)
    requires Includable(s.chain, tx, b) && !sc.Scans(b.coinbase)
    ensures Accounted(sc, c0, s.(chain := Include(s.chain, tx, b)))
  {
    hide LedgerAccounted, Include, Funded, SweepOf;
    IncludeReceipts(s.chain, tx, b);
    var k: nat :| k < s.i && Funded(sc, c0, k) && SweepOf(sc, c0, k) == tx;
    hide PoolAccounted;
    IncludeKeepsLedger(sc, c0, s.chain, s.i, k, b);
    IncludeKeepsPool(sc, c0, s.chain, s.i, k, b);
  }

  /** A key not swept yet still holds what it held at the start. */
  lemma UnsweptUntouched(sc: Scan, c0: Chain, s: Sys)
    requires Accounted(sc, c0, s) && s.i < sc.count
    ensures At(s.chain.balances, sc.Addr(s.i)) == At(c0.balances, sc.Addr(s.i))
    ensures At(s.chain.nonces, sc.Addr(s.i)) == At(c0.nonces, sc.Addr(s.i))
  {
    assert !Included(sc, c0, s.chain.receipts, s.i);
  }

  lemma SendKeeps(sc: Scan, c0: Chain, s: Sys, accepted: bool)
    requires sc.Sound() && Accounted(sc, c0, s) && Next(sc, s, Send(accepted)).Some?
    ensures Accounted(sc, c0, Next(sc, s, Send(accepted)).value)
  {
    hide LedgerAccounted, PoolAccounted, Include, SweepOf, Funded;
    if accepted {
      var k := s.i;
      var tx := SweepTx(sc, k, s.phase.balance, s.phase.nonce);
      var s' := Next(sc, s, Send(accepted)).value;
      SentTx(sc, c0, s);
      LedgerOfPool(sc, c0, s.chain, s'.chain);
      PoolGrows(sc, c0, s.chain, k);
    }
  }

  lemma SentTx(sc: Scan, c0: Chain, s: Sys)
    requires ScanAccounted(sc, c0, s) && s.phase.HasNonce?
    ensures s.i < sc.count && Funded(sc, c0, s.i)
    ensures sc.Reserve() <= s.phase.balance
            && SweepTx(sc, s.i, s.phase.balance, s.phase.nonce) == SweepOf(sc, c0, s.i)
  {
  }

  /** The sweep of the next key joins the pool. */
  lemma PoolGrows(sc: Scan, c0: Chain, c: Chain, k: nat)
    requires sc.Sound() && PoolAccounted(sc, c0, c, k) && k < sc.count && Funded(sc, c0, k)
    ensures PoolAccounted(sc, c0, c.(mempool := c.mempool + {SweepOf(sc, c0, k)}), k + 1)
  {
    hide Funded, SweepOf;
    var tx := SweepOf(sc, c0, k);
    var mempool' := c.mempool + {tx};
    forall i: nat | i < k && Funded(sc, c0, i)
      ensures SweepOf(sc, c0, i) != tx
    {
      SweepsDiffer(sc, c0, i, k);
    }
    assert forall t :: t in mempool' <==> t == tx || t in c.mempool;
  }

  lemma PoolSkips(sc: Scan, c0: Chain, c: Chain, k: nat)
    requires PoolAccounted(sc, c0, c, k) && k < sc.count && !Funded(sc, c0, k)
    ensures PoolAccounted(sc, c0, c, k + 1)
  {
    hide Funded, SweepOf;
  }

  lemma LedgerOfPool(sc: Scan, c0: Chain, c: Chain, c': Chain)
    requires LedgerAccounted(sc, c0, c) && c' == c.(mempool := c'.mempool)
    ensures LedgerAccounted(sc, c0, c')
  {
  }

  lemma ReadKeeps(sc: Scan, c0: Chain, s: Sys, e: Event)
    requires sc.Sound() && Accounted(sc, c0, s) && (e.ReadBalance? || e.ReadNonce?) && Next(sc, s, e).Some?
    ensures Accounted(sc, c0, Next(sc, s, e).value)
  {
    hide LedgerAccounted, PoolAccounted, Include, SweepOf;
    if e.ReadBalance? {
      UnsweptUntouched(sc, c0, s);
      if !Funded(sc, c0, s.i) {
        PoolSkips(sc, c0, s.chain, s.i);
        assert s.recovered + [] == s.recovered;
      }
    } else {
      UnsweptUntouched(sc, c0, s);
    }
  }

  lemma StartAccounted(sc: Scan, c0: Chain)
    requires sc.Sound() && Settled(c0)
    ensures Accounted(sc, c0, Begin(c0))
  {
    forall i: nat | i < sc.count
      ensures !Included(sc, c0, c0.receipts, i)
    {
    }
    SumsAtStart(sc, c0, sc.count);
  }

  lemma {:induction false} SumsAtStart(sc: Scan, c0: Chain, n: nat)
    requires n <= sc.count && forall i: nat :: i < n ==> !Included(sc, c0, c0.receipts, i)
    ensures Burnt(sc, c0, c0.receipts, n) == 0
    ensures forall a :: Gained(sc, c0, c0.receipts, a, n) == 0
  {
    if n > 0 {
      SumsAtStart(sc, c0, n - 1);
    }
  }

  /** In every interleaving, at every moment, the ledger, the pool and the scan are accounted for. */
  lemma {:induction false} AlwaysAccounted(sc: Scan, c0: Chain, trace: seq<Event>)
    requires sc.Sound() && Settled(c0) && Run(sc, Begin(c0), trace).Some?
    ensures Accounted(sc, c0, Run(sc, Begin(c0), trace).value)
  {
    hide Accounted, Include, Settled, Scan.Sound;
    if trace == [] {
      StartAccounted(sc, c0);
    } else {
      AlwaysAccounted(sc, c0, trace[..|trace| - 1]);
      var s := Run(sc, Begin(c0), trace[..|trace| - 1]).value;
      match trace[|trace| - 1]
      case Mine(tx, b) => MineKeeps(sc, c0, s, tx, b);
      case Send(accepted) => SendKeeps(sc, c0, s, accepted);
      case e => ReadKeeps(sc, c0, s, e);
    }
  }

  // ---------------------------------------------------------------- what recovery promises

  /** A scan that ran to the end with every sweep included. */
  ghost predicate Complete(sc: Scan, s: Sys) {
    s.i == sc.count && s.phase.Idle? && s.chain.mempool == {}
  }

  /**
   However inclusions interleave with the scan, a pending sweep can be included in every block whose
   base fee is within the cap, if the priority fee is within the cap too, and otherwise in none.
  */
  lemma EverySweepAffordable(sc: Scan, c0: Chain, trace: seq<Event>, tx: Tx, b: Block)
    requires sc.Sound() && Settled(c0) && Run(sc, Begin(c0), trace).Some?
    requires tx in Run(sc, Begin(c0), trace).value.chain.mempool
    ensures var c := Run(sc, Begin(c0), trace).value.chain;
            && tx.maxFee == sc.maxFee
            && At(c.balances, tx.sender) == tx.value + GAS_TRANSFER * tx.maxFee
            && (Includable(c, tx, b) <==> b.baseFee <= sc.maxFee && sc.maxPriority <= sc.maxFee)
  {
    hide Run;
    AlwaysAccounted(sc, c0, trace);
    var s := Run(sc, Begin(c0), trace).value;
    var k: nat :| k < s.i && Funded(sc, c0, k) && SweepOf(sc, c0, k) == tx;
    assert !Included(sc, c0, s.chain.receipts, k);
  }

  /** With a priority fee above the cap no sweep is ever included, and no wei moves. */
  lemma {:induction false} PriorityAboveCapSweepsNothing(sc: Scan, c0: Chain, trace: seq<Event>)
    requires sc.Sound() && Settled(c0) && Run(sc, Begin(c0), trace).Some?
    requires sc.maxPriority > sc.maxFee
    ensures var c := Run(sc, Begin(c0), trace).value.chain;
            c.balances == c0.balances && c.receipts == c0.receipts && c.burned == c0.burned
  {
    hide Include, Includable, Settled, Scan.Sound;
    if trace != [] {
      var front := trace[..|trace| - 1];
      PriorityAboveCapSweepsNothing(sc, c0, front);
      match trace[|trace| - 1]
      case Mine(tx, b) =>
        IncludeReceipts(Run(sc, Begin(c0), front).value.chain, tx, b);
        EverySweepAffordable(sc, c0, front, tx, b);
      case _ =>
    }
  }

  /** None of the blocks that included the first n keys' sweeps pays its tips to the recipient. */
  predicate TipsGoElsewhere(sc: Scan, c0: Chain, r: map<Tx, Block>, n: nat) {
    forall i: nat :: i < n && Included(sc, c0, r, i) ==> r[SweepOf(sc, c0, i)].coinbase != sc.to
  }

  /**
   When all is included, each swept sender keeps exactly 21000 * (max_fee - p) at its own price p,
   every other scanned account is untouched, and the recipient has gained exactly what was swept,
   besides tips if it is itself a coinbase.
  */
  lemma FinalLedger(sc: Scan, c0: Chain, trace: seq<Event>)
    requires sc.Sound() && Settled(c0) && Run(sc, Begin(c0), trace).Some?
    requires Complete(sc, Run(sc, Begin(c0), trace).value)
    ensures var s := Run(sc, Begin(c0), trace).value;
            && (forall i: nat :: i < sc.count ==>
                  if Funded(sc, c0, i) then
                    && SweepOf(sc, c0, i) in s.chain.receipts
                    && var b := s.chain.receipts[SweepOf(sc, c0, i)];
                       && b.baseFee <= sc.maxFee
                       && At(s.chain.balances, sc.Addr(i)) ==
                          21000 * (sc.maxFee - Price(SweepOf(sc, c0, i), b))
                  else At(s.chain.balances, sc.Addr(i)) == At(c0.balances, sc.Addr(i)))
            && s.recovered == Expected(sc, c0, sc.count)
            && (TipsGoElsewhere(sc, c0, s.chain.receipts, sc.count) ==>
                  At(s.chain.balances, sc.to) == At(c0.balances, sc.to) + TotalSwept(s.recovered))
  {
    hide Run;
    AlwaysAccounted(sc, c0, trace);
    var s := Run(sc, Begin(c0), trace).value;
    forall i: nat | i < sc.count && Funded(sc, c0, i)
      ensures Included(sc, c0, s.chain.receipts, i)
    {
      assert SweepOf(sc, c0, i) !in s.chain.mempool;
    }
    if TipsGoElsewhere(sc, c0, s.chain.receipts, sc.count) {
      RecipientGains(sc, c0, s.chain.receipts, sc.count);
    }
  }

  function TotalSwept(recovered: seq<RecoveredAccount>): nat {
    if recovered == [] then 0 else TotalSwept(recovered[..|recovered| - 1]) + recovered[|recovered| - 1].sweptWei
  }

  lemma TotalSweptSnoc(recovered: seq<RecoveredAccount>, r: RecoveredAccount)
    ensures TotalSwept(recovered + [r]) == TotalSwept(recovered) + r.sweptWei
  {
    assert (recovered + [r])[..|recovered|] == recovered;
  }

  lemma {:induction false} RecipientGains(sc: Scan, c0: Chain, r: map<Tx, Block>, n: nat)
    requires forall i: nat :: i < n && Funded(sc, c0, i) ==> Included(sc, c0, r, i)
    requires TipsGoElsewhere(sc, c0, r, n)
    ensures Gained(sc, c0, r, sc.to, n) == TotalSwept(Expected(sc, c0, n))
  {
    if n > 0 {
      RecipientGains(sc, c0, r, n - 1);
      if Funded(sc, c0, n - 1) {
        var tx := SweepOf(sc, c0, n - 1);
        TotalSweptSnoc(Expected(sc, c0, n - 1), RecoveredAccount(sc.Addr(n - 1), tx.value, TxHash(tx)));
      } else {
        assert Expected(sc, c0, n - 1) + [] == Expected(sc, c0, n - 1);
      }
    }
  }

  /** The receipts of a run's own sweeps: which were included, and in what blocks. */
  ghost predicate SameReceipts(sc: Scan, c0: Chain, c: Chain, c': Chain) {
    forall i: nat :: i < sc.count && Funded(sc, c0, i) ==>
      var tx := SweepOf(sc, c0, i);
      (tx in c.receipts <==> tx in c'.receipts) && (tx in c.receipts ==> c.receipts[tx] == c'.receipts[tx])
  }

  /**
   Order independence: two interleavings, complete or not, that have included the same sweeps at the
   same prices agree on every balance, every scanned nonce and the wei burned.
  */
  lemma OrderIndependence(sc: Scan, c0: Chain, trace: seq<Event>, trace': seq<Event>)
    requires sc.Sound() && Settled(c0)
    requires Run(sc, Begin(c0), trace).Some? && Run(sc, Begin(c0), trace').Some?
    requires SameReceipts(sc, c0, Run(sc, Begin(c0), trace).value.chain, Run(sc, Begin(c0), trace').value.chain)
    ensures var c, c' := Run(sc, Begin(c0), trace).value.chain, Run(sc, Begin(c0), trace').value.chain;
            && (forall a: Address :: At(c.balances, a) == At(c'.balances, a))
            && (forall i: nat :: i < sc.count ==> At(c.nonces, sc.Addr(i)) == At(c'.nonces, sc.Addr(i)))
            && c.burned == c'.burned
  {
    hide Run, PoolAccounted, ScanAccounted, Total;
    AlwaysAccounted(sc, c0, trace);
    AlwaysAccounted(sc, c0, trace');
    var c, c' := Run(sc, Begin(c0), trace).value.chain, Run(sc, Begin(c0), trace').value.chain;
    forall a: Address
      ensures At(c.balances, a) == At(c'.balances, a)
    {
      SameSums(sc, c0, c, c', a, sc.count);
      if sc.Scans(a) {
        var i: nat :| i < sc.count && sc.Addr(i) == a;
        assert Kept(sc, c0, c.receipts, i) == Kept(sc, c0, c'.receipts, i);
      }
    }
    SameSums(sc, c0, c, c', sc.to, sc.count);
  }

  lemma {:induction false} SameSums(sc: Scan, c0: Chain, c: Chain, c': Chain, a: Address, n: nat)
    requires n <= sc.count && SameReceipts(sc, c0, c, c')
    ensures Gained(sc, c0, c.receipts, a, n) == Gained(sc, c0, c'.receipts, a, n)
    ensures Burnt(sc, c0, c.receipts, n) == Burnt(sc, c0, c'.receipts, n)
  {
    if n > 0 {
      SameSums(sc, c0, c, c', a, n - 1);
    }
  }

  /** Conservation, in every state of every interleaving, also after a rejected submission. */
  lemma WeiIsConserved(sc: Scan, c0: Chain, trace: seq<Event>)
    requires sc.Sound() && Settled(c0) && Run(sc, Begin(c0), trace).Some?
    ensures var c := Run(sc, Begin(c0), trace).value.chain;
            Total(c.balances) + c.burned == Total(c0.balances) + c0.burned
  {
    hide Run, Total;
    AlwaysAccounted(sc, c0, trace);
  }

  /** The initial balances of the keys worth sweeping among the first n. */
  function FundedTotal(sc: Scan, c0: Chain, n: nat): nat {
    if n == 0 then 0
    else FundedTotal(sc, c0, n - 1) + if Funded(sc, c0, n - 1) then At(c0.balances, sc.Addr(n - 1)) else 0
  }

  predicate Recovers(recovered: seq<RecoveredAccount>, a: Address) {
    exists k :: 0 <= k < |recovered| && recovered[k].address == a
  }

  /** One of the first n keys has this address and more than the gas reserve. */
  predicate FundedKey(sc: Scan, c0: Chain, n: nat, a: Address) {
    exists i: nat | i < n :: sc.Addr(i) == a && Funded(sc, c0, i)
  }

  /**
   Exact recovery: a scan without rejections recovers, in key order, exactly the keys holding more
   than the gas reserve, and as much more as the minimum asks; their balances are the total swept plus one reserve each.
  */
  lemma ExactRecovery(sc: Scan, c0: Chain, trace: seq<Event>)
    requires sc.Sound() && Settled(c0) && Run(sc, Begin(c0), trace).Some?
    requires Run(sc, Begin(c0), trace).value.i == sc.count
    ensures var recovered := Run(sc, Begin(c0), trace).value.recovered;
            && recovered == Expected(sc, c0, sc.count)
            && FundedTotal(sc, c0, sc.count) == TotalSwept(recovered) + |recovered| * sc.Reserve()
            && (forall a: Address :: Recovers(recovered, a) <==> FundedKey(sc, c0, sc.count, a))
  {
    hide Run, Recovers, FundedKey;
    AlwaysAccounted(sc, c0, trace);
    ExpectedTotals(sc, c0, sc.count);
    forall a: Address
      ensures Recovers(Expected(sc, c0, sc.count), a) <==> FundedKey(sc, c0, sc.count, a)
    {
      ExpectedAddresses(sc, c0, sc.count, a);
    }
  }

  lemma {:induction false} ExpectedTotals(sc: Scan, c0: Chain, n: nat)
    ensures FundedTotal(sc, c0, n) == TotalSwept(Expected(sc, c0, n)) + |Expected(sc, c0, n)| * sc.Reserve()
  {
    if n > 0 {
      ExpectedTotals(sc, c0, n - 1);
      var front := Expected(sc, c0, n - 1);
      if Funded(sc, c0, n - 1) {
        var tx := SweepOf(sc, c0, n - 1);
        var r := RecoveredAccount(sc.Addr(n - 1), tx.value, TxHash(tx));
        TotalSweptSnoc(front, r);
        SweepShape(sc, c0, n - 1);
        OneMore(|front|, sc.Reserve());
        assert Expected(sc, c0, n) == front + [r];
      } else {
        assert front + [] == front;
      }
    }
  }

  lemma OneMore(k: nat, reserve: nat)
    ensures (k + 1) * reserve == k * reserve + reserve
  {
  }

  lemma {:induction false} ExpectedAddresses(sc: Scan, c0: Chain, n: nat, a: Address)
    ensures Recovers(Expected(sc, c0, n), a) <==> FundedKey(sc, c0, n, a)
  {
    if n > 0 {
      ExpectedAddresses(sc, c0, n - 1, a);
      var front, all := Expected(sc, c0, n - 1), Expected(sc, c0, n);
      assert forall k :: 0 <= k < |front| ==> all[k] == front[k];
      if Funded(sc, c0, n - 1) {
        assert all[|front|].address == sc.Addr(n - 1);
      }
    }
  }

  /** Once all sweeps of a pass are included, no scanned key is worth sweeping. */
  lemma NothingLeft(sc: Scan, c0: Chain, trace: seq<Event>, i: nat)
    requires sc.Sound() && Settled(c0) && Run(sc, Begin(c0), trace).Some?
    requires Complete(sc, Run(sc, Begin(c0), trace).value) && i < sc.count
    ensures !Funded(sc, Run(sc, Begin(c0), trace).value.chain, i)
  {
    hide Run, Settled;
    FinalLedger(sc, c0, trace);
    var c := Run(sc, Begin(c0), trace).value.chain;
    if Funded(sc, c0, i) {
      var tx := SweepOf(sc, c0, i);
      PriceBounds(tx, c.receipts[tx]);
    }
  }

  lemma InclusionUsesNonce(c: Chain, tx: Tx, b: Block)
    requires NoncesUsed(c) && Includable(c, tx, b)
    ensures NoncesUsed(Include(c, tx, b))
  {
    hide Credit, Debit, Price, Tip;
    var c' := Include(c, tx, b);
    IncludeReceipts(c, tx, b);
    assert c'.nonces == c.nonces[tx.sender := tx.nonce + 1];
  }

  lemma {:induction false} NoncesStayUsed(sc: Scan, c0: Chain, trace: seq<Event>)
    requires Settled(c0) && Run(sc, Begin(c0), trace).Some?
    ensures NoncesUsed(Run(sc, Begin(c0), trace).value.chain)
  {
    hide NoncesUsed, Include, Includable;
    if trace != [] {
      NoncesStayUsed(sc, c0, trace[..|trace| - 1]);
      var s := Run(sc, Begin(c0), trace[..|trace| - 1]).value;
      match trace[|trace| - 1]
      case Mine(tx, b) => InclusionUsesNonce(s.chain, tx, b);
      case Send(accepted) => UsedDespitePool(s.chain, Next(sc, s, Send(accepted)).value.chain);
      case _ =>
    }
  }

  lemma UsedDespitePool(c: Chain, c': Chain)
    requires NoncesUsed(c) && c' == c.(mempool := c'.mempool)
    ensures NoncesUsed(c')
  {
  }

  /** A completed pass leaves a chain that another scan may start from. */
  lemma CompletePassSettles(sc: Scan, c0: Chain, trace: seq<Event>)
    requires sc.Sound() && Settled(c0) && Run(sc, Begin(c0), trace).Some?
    requires Complete(sc, Run(sc, Begin(c0), trace).value)
    ensures Settled(Run(sc, Begin(c0), trace).value.chain)
  {
    hide Run;
    NoncesStayUsed(sc, c0, trace);
  }

  /** Idempotence: a second pass over the same keys with the same fees submits nothing and returns nothing. */
  lemma {:induction false} SecondPassIsIdle(sc: Scan, c0: Chain, trace: seq<Event>, again: seq<Event>)
    requires sc.Sound() && Settled(c0) && Run(sc, Begin(c0), trace).Some?
    requires Complete(sc, Run(sc, Begin(c0), trace).value)
    requires var c := Run(sc, Begin(c0), trace).value.chain; Run(sc, Begin(c), again).Some?
    ensures var c := Run(sc, Begin(c0), trace).value.chain;
            var s := Run(sc, Begin(c), again).value;
            && s.recovered == [] && s.chain == c && s.phase.Idle?
            && forall k :: 0 <= k < |again| ==> again[k].ReadBalance?
  {
    var c := Run(sc, Begin(c0), trace).value.chain;
    if again != [] {
      var front := again[..|again| - 1];
      SecondPassIsIdle(sc, c0, trace, front);
      var s := Run(sc, Begin(c), front).value;
      if s.i < sc.count {
        NothingLeft(sc, c0, trace, s.i);
      }
      hide Settled, Scan.Sound, Include;
      assert forall k :: 0 <= k < |front| ==> again[k] == front[k];
    }
  }
}
