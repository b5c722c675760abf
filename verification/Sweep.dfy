/**
 Recovering the test accounts' ether.

 The scan reads a balance, reads a nonce and fires a sweep, for one key after another,
 without waiting; the chain includes sweeps whenever it likes. A trace is any sequence of
 scan steps and inclusions. Everything below rests on one fact: in every trace the ledger is
 a function of the ledger the scan started from and of which sweeps have been included at
 which prices, never of the order.
*/
module Sweep {
  import opened Wrappers

  const GAS_TRANSFER: nat := 21000

  type Address = nat

  /** A type-2 transfer. */
  datatype Tx = Tx(sender: Address, nonce: nat, to: Address, value: nat, maxFee: nat, maxPriority: nat)

  /** What a block charges: its base fee, and who collects the tips. */
  datatype Block = Block(baseFee: nat, coinbase: Address)

  /** The chain: balances and nonces at latest, submitted transactions, receipts, and wei burned so far. */
  datatype Chain = Chain(
    balances: map<Address, nat>, nonces: map<Address, nat>, mempool: set<Tx>, receipts: map<Tx, Block>, burned: nat)

  /**
   One recovery run. `derive` is EEST's derivation of an address from a private key; `minSweep` is 0 when
   recover_funded_eoas calls sweep_account.
  */
  datatype Scan = Scan(
    derive: nat -> Address, start: nat, count: nat, to: Address, maxFee: nat, maxPriority: nat, minSweep: nat)
  {
    function Addr(i: nat): Address {
      derive(start + i)
    }

    function Reserve(): nat {
      GAS_TRANSFER * maxFee
    }

    predicate Scans(a: Address) {
      exists i: nat | i < count :: Addr(i) == a
    }

    /** Derivation gives distinct addresses, none of them the recipient. */
    ghost predicate Sound() {
      && (forall i: nat, j: nat :: i < j < count ==> Addr(i) != Addr(j))
      && !Scans(to)
    }
  }

  function At(m: map<Address, nat>, a: Address): nat {
    if a in m then m[a] else 0
  }

  /** The tip per gas in a block: what is left of the fee cap above the base fee, up to the priority cap. */
  function Tip(tx: Tx, b: Block): nat
    requires b.baseFee <= tx.maxFee
  {
    Min(tx.maxPriority, tx.maxFee - b.baseFee)
  }

  /** The price per gas in a block (EIP-1559). */
  function Price(tx: Tx, b: Block): (p: nat)
    requires b.baseFee <= tx.maxFee
    ensures b.baseFee <= p <= tx.maxFee
  {
    b.baseFee + Tip(tx, b)
  }

  /** The price is the base fee and the priority fee, but never more than the cap. */
  lemma PriceIs(tx: Tx, b: Block)
    requires b.baseFee <= tx.maxFee
    ensures Price(tx, b) == if b.baseFee + tx.maxPriority <= tx.maxFee then b.baseFee + tx.maxPriority else tx.maxFee
  {
  }

  /** EIP-1559's checks on a transaction at inclusion. */
  predicate Includable(c: Chain, tx: Tx, b: Block) {
    && tx in c.mempool
    && tx.maxPriority <= tx.maxFee
    && b.baseFee <= tx.maxFee
    && At(c.nonces, tx.sender) == tx.nonce
    && At(c.balances, tx.sender) >= tx.value + GAS_TRANSFER * tx.maxFee
  }

  function Credit(m: map<Address, nat>, a: Address, wei: nat): map<Address, nat> {
    m[a := At(m, a) + wei]
  }

  function Debit(m: map<Address, nat>, a: Address, wei: nat): map<Address, nat>
    requires wei <= At(m, a)
  {
    m[a := At(m, a) - wei]
  }

  /** Inclusion: the sender pays value and gas, the base fee is burned, the tip goes to the coinbase. */
  function Include(c: Chain, tx: Tx, b: Block): Chain
    requires Includable(c, tx, b)
  {
    PriceBounds(tx, b);
    var paid := Debit(c.balances, tx.sender, tx.value + GAS_TRANSFER * Price(tx, b));
    var moved := Credit(paid, tx.to, tx.value);
    var tipped := Credit(moved, b.coinbase, GAS_TRANSFER * Tip(tx, b));
    Chain(tipped, c.nonces[tx.sender := tx.nonce + 1], c.mempool - {tx}, c.receipts[tx := b],
          c.burned + GAS_TRANSFER * b.baseFee)
  }

  lemma PriceBounds(tx: Tx, b: Block)
    requires b.baseFee <= tx.maxFee
    ensures GAS_TRANSFER * Price(tx, b) <= GAS_TRANSFER * tx.maxFee
    ensures GAS_TRANSFER * Price(tx, b) == GAS_TRANSFER * b.baseFee + GAS_TRANSFER * Tip(tx, b)
  {
  }

  // ---------------------------------------------------------------- the scan as a thread

  /** sweep_account sends something for this balance. */
  predicate WorthSweeping(balance: nat, reserve: nat, minSweep: nat) {
    reserve < balance && minSweep <= balance - reserve
  }

  /** The hash of a transaction; distinct transactions have distinct hashes. */
  datatype TxHash = TxHash(tx: Tx)

  datatype RecoveredAccount = RecoveredAccount(address: Address, sweptWei: nat, hash: TxHash)

  datatype Phase = Idle | HasBalance(balance: nat) | HasNonce(balance: nat, nonce: nat) | Rejected

  datatype Sys = Sys(chain: Chain, i: nat, phase: Phase, recovered: seq<RecoveredAccount>)

  datatype Event =
    | ReadBalance
    | ReadNonce
    | Send(accepted: bool)
    | Mine(tx: Tx, block: Block)

  function SweepTx(sc: Scan, i: nat, balance: nat, nonce: nat): Tx
    requires sc.Reserve() <= balance
  {
    Tx(sc.Addr(i), nonce, sc.to, balance - sc.Reserve(), sc.maxFee, sc.maxPriority)
  }

  /** One step of the scan or of the chain; None when that step cannot happen. */
  function Next(sc: Scan, s: Sys, e: Event): Option<Sys> {
    match e
    case ReadBalance =>
      if s.phase.Idle? && s.i < sc.count then
        var balance := At(s.chain.balances, sc.Addr(s.i));
        if WorthSweeping(balance, sc.Reserve(), sc.minSweep) then Some(s.(phase := HasBalance(balance)))
        else Some(s.(i := s.i + 1))
      else None
    case ReadNonce =>
      if s.phase.HasBalance? then
        Some(s.(phase := HasNonce(s.phase.balance, At(s.chain.nonces, sc.Addr(s.i)))))
      else None
    case Send(accepted) =>
      if s.phase.HasNonce? && sc.Reserve() <= s.phase.balance then
        var tx := SweepTx(sc, s.i, s.phase.balance, s.phase.nonce);
        if accepted then
          Some(Sys(s.chain.(mempool := s.chain.mempool + {tx}), s.i + 1, Idle,
                   s.recovered + [RecoveredAccount(tx.sender, tx.value, TxHash(tx))]))
        else Some(s.(phase := Rejected))
      else None
    case Mine(tx, b) =>
      if Includable(s.chain, tx, b) && !sc.Scans(b.coinbase) then Some(s.(chain := Include(s.chain, tx, b)))
      else None
  }

  function Begin(c: Chain): Sys {
    Sys(c, 0, Idle, [])
  }

  function Run(sc: Scan, s: Sys, trace: seq<Event>): Option<Sys> {
    if trace == [] then Some(s)
    else
      var before := Run(sc, s, trace[..|trace| - 1]);
      if before.None? then None else Next(sc, before.value, trace[|trace| - 1])
  }

  ghost predicate NoncesUsed(c: Chain) {
    forall tx :: tx in c.receipts ==> tx.nonce < At(c.nonces, tx.sender)
  }

  /** A chain a scan may start from: nothing pending, and every past transaction's nonce is used up. */
  ghost predicate Settled(c: Chain) {
    c.mempool == {} && NoncesUsed(c)
  }

  // ---------------------------------------------------------------- the ledger in closed form

  /** Key i is worth sweeping on the chain the scan starts from. */
  predicate Funded(sc: Scan, c: Chain, i: nat) {
    WorthSweeping(At(c.balances, sc.Addr(i)), sc.Reserve(), sc.minSweep)
  }

  function SweepOf(sc: Scan, c: Chain, i: nat): Tx
    requires Funded(sc, c, i)
  {
    SweepTx(sc, i, At(c.balances, sc.Addr(i)), At(c.nonces, sc.Addr(i)))
  }

  predicate Included(sc: Scan, c: Chain, receipts: map<Tx, Block>, i: nat) {
    Funded(sc, c, i) && SweepOf(sc, c, i) in receipts
  }

  /** What a scanned account has, given the receipts so far. */
  function Kept(sc: Scan, c: Chain, receipts: map<Tx, Block>, i: nat): int {
    if Included(sc, c, receipts, i) && receipts[SweepOf(sc, c, i)].baseFee <= sc.maxFee
    then GAS_TRANSFER * (sc.maxFee - Price(SweepOf(sc, c, i), receipts[SweepOf(sc, c, i)]))
    else At(c.balances, sc.Addr(i))
  }

  /** What the sweep of key i has brought to an account that is not scanned. */
  function Brought(sc: Scan, c: Chain, receipts: map<Tx, Block>, a: Address, i: nat): nat {
    if Included(sc, c, receipts, i) then
      var tx := SweepOf(sc, c, i);
      var b := receipts[tx];
      (if a == sc.to then tx.value else 0)
      + (if a == b.coinbase && b.baseFee <= tx.maxFee then GAS_TRANSFER * Tip(tx, b) else 0)
    else 0
  }

  function Gained(sc: Scan, c: Chain, receipts: map<Tx, Block>, a: Address, n: nat): nat {
    if n == 0 then 0 else Gained(sc, c, receipts, a, n - 1) + Brought(sc, c, receipts, a, n - 1)
  }

  function Burnt(sc: Scan, c: Chain, receipts: map<Tx, Block>, n: nat): nat {
    if n == 0 then 0
    else Burnt(sc, c, receipts, n - 1)
         + if Included(sc, c, receipts, n - 1) then GAS_TRANSFER * receipts[SweepOf(sc, c, n - 1)].baseFee else 0
  }

  /** The accounts a scan of the first n keys recovers: those worth sweeping, in order. */
  function Expected(sc: Scan, c: Chain, n: nat): seq<RecoveredAccount> {
    if n == 0 then []
    else
      Expected(sc, c, n - 1)
      + if Funded(sc, c, n - 1) then
          var tx := SweepOf(sc, c, n - 1);
          [RecoveredAccount(sc.Addr(n - 1), tx.value, TxHash(tx))]
        else []
  }

  /** What every state of every trace satisfies, with c0 the chain the scan started from. */
  ghost predicate Accounted(sc: Scan, c0: Chain, s: Sys) {
    && LedgerAccounted(sc, c0, s.chain)
    && PoolAccounted(sc, c0, s.chain, s.i)
    && ScanAccounted(sc, c0, s)
  }

  ghost predicate LedgerAccounted(sc: Scan, c0: Chain, c: Chain) {
    && (forall i: nat :: i < sc.count ==> At(c.balances, sc.Addr(i)) == Kept(sc, c0, c.receipts, i))
    && (forall i: nat :: i < sc.count ==>
          At(c.nonces, sc.Addr(i)) ==
          At(c0.nonces, sc.Addr(i)) + if Included(sc, c0, c.receipts, i) then 1 else 0)
    && (forall a: Address :: !sc.Scans(a) ==>
          At(c.balances, a) == At(c0.balances, a) + Gained(sc, c0, c.receipts, a, sc.count))
    && c.burned == c0.burned + Burnt(sc, c0, c.receipts, sc.count)
    && Total(c.balances) + c.burned == Total(c0.balances) + c0.burned
  }

  /** Pending and included are exactly the sweeps of the keys scanned so far. */
  ghost predicate PoolAccounted(sc: Scan, c0: Chain, c: Chain, n: nat) {
    && n <= sc.count
    && (forall i: nat :: i < n && Funded(sc, c0, i) ==>
          (SweepOf(sc, c0, i) in c.mempool <==> SweepOf(sc, c0, i) !in c.receipts))
    && (forall i: nat :: n <= i < sc.count && Funded(sc, c0, i) ==> SweepOf(sc, c0, i) !in c.receipts)
    && (forall tx :: tx in c.mempool ==> exists i: nat :: i < n && Funded(sc, c0, i) && SweepOf(sc, c0, i) == tx)
    && (forall i: nat :: i < sc.count && Included(sc, c0, c.receipts, i) ==>
          c.receipts[SweepOf(sc, c0, i)].baseFee <= sc.maxFee && !sc.Scans(c.receipts[SweepOf(sc, c0, i)].coinbase))
  }

  ghost predicate ScanAccounted(sc: Scan, c0: Chain, s: Sys) {
    && s.recovered == Expected(sc, c0, s.i)
    && (!s.phase.Idle? && !s.phase.Rejected? ==>
          s.i < sc.count && Funded(sc, c0, s.i) && s.phase.balance == At(c0.balances, sc.Addr(s.i)))
    && (s.phase.HasNonce? ==> s.phase.nonce == At(c0.nonces, sc.Addr(s.i)))
  }

  // ---------------------------------------------------------------- total wei

  /** All the wei in a ledger. */
  ghost function Total(m: map<Address, nat>): nat {
    if m == map[] then 0
    else
      var a :| a in m;
      m[a] + Total(m - {a})
  }

  lemma {:induction false} TotalWithout(m: map<Address, nat>, a: Address)
    requires a in m
    ensures Total(m) == m[a] + Total(m - {a})
    decreases |m|
  {
    var b :| b in m && Total(m) == m[b] + Total(m - {b});
    if a != b {
      TotalWithout(m - {b}, a);
      TotalWithout(m - {a}, b);
      assert m - {a} - {b} == m - {b} - {a};
    }
  }

  lemma TotalOfNone()
    ensures Total(map[]) == 0
  {
  }

  lemma TotalOfUpdate(m: map<Address, nat>, a: Address, wei: nat)
    ensures Total(m[a := wei]) == Total(m) - At(m, a) + wei
  {
    TotalWithout(m[a := wei], a);
    if a in m {
      TotalWithout(m, a);
      assert m[a := wei] - {a} == m - {a};
    } else {
      assert m[a := wei] - {a} == m;
    }
  }

  lemma CreditTotal(m: map<Address, nat>, a: Address, wei: nat)
    ensures Total(Credit(m, a, wei)) == Total(m) + wei
  {
    TotalOfUpdate(m, a, At(m, a) + wei);
  }

  lemma DebitTotal(m: map<Address, nat>, a: Address, wei: nat)
    requires wei <= At(m, a)
    ensures Total(Debit(m, a, wei)) == Total(m) - wei
  {
    TotalOfUpdate(m, a, At(m, a) - wei);
  }

  /** Inclusion moves wei and burns the base fee; nothing else appears or disappears. */
  lemma IncludeConserves(c: Chain, tx: Tx, b: Block)
    requires Includable(c, tx, b)
    ensures var c' := Include(c, tx, b); Total(c'.balances) + c'.burned == Total(c.balances) + c.burned
  {
    hide Total, Credit, Debit, At, Tip;
    PriceBounds(tx, b);
    var paid := Debit(c.balances, tx.sender, tx.value + GAS_TRANSFER * Price(tx, b));
    var moved := Credit(paid, tx.to, tx.value);
    DebitTotal(c.balances, tx.sender, tx.value + GAS_TRANSFER * Price(tx, b));
    CreditTotal(paid, tx.to, tx.value);
    CreditTotal(moved, b.coinbase, GAS_TRANSFER * Tip(tx, b));
  }
}
