/** The two genesis writers: which forks they activate, and what survives in the alloc. */
module Genesis {
  import opened Wrappers
  import opened Numerals
  import opened Wire

  // ---------------------------------------------------------------- forks

  /** A timestamp fork: its config key and its name. */
  datatype Fork = Fork(key: string, name: string)

  type Table = seq<Fork>

  function Lower(s: string): string {
    seq(|s|, i requires 0 <= i < |s| => if 'A' <= s[i] <= 'Z' then s[i] - 'A' + 'a' else s[i])
  }

  predicate DistinctNames(table: Table) {
    forall i, j :: 0 <= i < j < |table| ==> table[i].name != table[j].name
  }

  predicate Knows(table: Table, name: string) {
    exists i :: 0 <= i < |table| && table[i].name == name
  }

  /** The forks activated for a target: up to and including it, or all of them when it is unknown. */
  function Activated(table: Table, target: string): (n: nat)
    ensures n <= |table|
  {
    if table == [] then 0
    else if table[0].name == target then 1
    else 1 + Activated(table[1..], target)
  }

  lemma {:induction false} ActivatedMeans(table: Table, target: string)
    ensures var n := Activated(table, target);
            if Knows(table, target) then
              0 < n && table[n - 1].name == target && forall j :: 0 <= j < n - 1 ==> table[j].name != target
            else n == |table|
  {
    if table != [] && table[0].name != target {
      ActivatedMeans(table[1..], target);
      assert forall j :: 0 <= j < |table| - 1 ==> table[1..][j] == table[j + 1];
      if Knows(table, target) {
        var i :| 0 <= i < |table| && table[i].name == target;
        assert table[1..][i - 1].name == target;
      }
    }
  }

  /** In a table of distinct names, the fork in place k activates exactly the first k + 1. */
  lemma ActivatesPrefix(table: Table, k: nat)
    requires DistinctNames(table) && k < |table|
    ensures Activated(table, table[k].name) == k + 1
  {
    ActivatedMeans(table, table[k].name);
  }

  /** The activated forks are exactly these config keys, each at 0. */
  predicate Activates(config: map<string, nat>, table: Table, n: nat)
    requires n <= |table|
  {
    && (forall j :: 0 <= j < n ==> table[j].key in config)
    && forall key :: key in config ==> config[key] == 0 && exists j :: 0 <= j < n && table[j].key == key
  }

  /** chainspec.py: activate forks one by one and stop after the target. */
  method ActivateUntil(table: Table, target: string) returns (config: map<string, nat>)
    ensures Activates(config, table, Activated(table, target))
  {
    ActivatedMeans(table, target);
    config := map[];
    for i := 0 to |table|
      invariant Activates(config, table, i)
      invariant forall j :: 0 <= j < i ==> table[j].name != target
    {
      config := config[table[i].key := 0];
      if table[i].name == target {
        assert Activated(table, target) == i + 1;
        return;
      }
    }
  }

  /** `_fork_index`, with None for -1. */
  method ForkIndex(table: Table, fork: string) returns (index: Option<nat>)
    ensures index == if Knows(table, fork) then Some(Activated(table, fork) - 1) else None
  {
    ActivatedMeans(table, fork);
    for i := 0 to |table|
      invariant forall j :: 0 <= j < i ==> table[j].name != fork
    {
      if table[i].name == fork {
        return Some(i);
      }
    }
    return None;
  }

  const AMSTERDAM := "Amsterdam"

  /** The parts of a devnet genesis that depend on the fork. */
  datatype Devnet<Blob> = Devnet(config: map<string, nat>, blobSchedule: map<string, Blob>, amsterdamFields: bool)

  predicate HasName(table: Table, n: nat, name: string)
    requires n <= |table|
  {
    exists j :: 0 <= j < n && table[j].name == name
  }

  /** The lower-case names of the first n forks. */
  function LowerNames(table: Table, n: nat): set<string>
    requires n <= |table|
  {
    set j | 0 <= j < n :: Lower(table[j].name)
  }

  /** The entries of the forks activated. */
  function ScheduleOf<Blob>(entries: map<string, Blob>, table: Table, n: nat): map<string, Blob>
    requires n <= |table|
  {
    map name | name in entries && name in LowerNames(table, n) :: entries[name]
  }

  /** A fork is among the activated ones exactly when its own index is no larger than the target's. */
  lemma ActivatedByIndex(table: Table, target: string, name: string)
    requires Knows(table, target)
    ensures HasName(table, Activated(table, target), name) <==>
            Knows(table, name) && Activated(table, name) <= Activated(table, target)
  {
    ActivatedMeans(table, target);
    ActivatedMeans(table, name);
  }

  lemma LowerNamesNext(table: Table, n: nat)
    requires n < |table|
    ensures LowerNames(table, n + 1) == LowerNames(table, n) + {Lower(table[n].name)}
  {
    hide Lower;
  }

  lemma ScheduleNext<Blob>(entries: map<string, Blob>, table: Table, n: nat)
    requires n < |table|
    ensures ScheduleOf(entries, table, 0) == map[]
    ensures var name, before := Lower(table[n].name), ScheduleOf(entries, table, n);
            ScheduleOf(entries, table, n + 1) == if name in entries then before[name := entries[name]] else before
  {
    hide Lower, LowerNames;
    LowerNamesNext(table, n);
    NoNames(table);
  }

  lemma NoNames(table: Table)
    ensures LowerNames(table, 0) == {}
  {
  }

  /** devnet_genesis.py: activate by index; an unknown fork is an error. */
  method BuildDevnet<Blob>(table: Table, fork: string, entries: map<string, Blob>) returns (r: Result<Devnet<Blob>, ()>)
    ensures r.Ok? <==> Knows(table, fork)
    ensures r.Ok? ==>
              var n := Activated(table, fork);
              && Activates(r.value.config, table, n)
              && r.value.blobSchedule == ScheduleOf(entries, table, n)
              && (r.value.amsterdamFields <==> HasName(table, n, AMSTERDAM))
  {
    hide Activated, Knows, Lower, LowerNames, HasName, ScheduleOf;
    var target := ForkIndex(table, fork);
    if target.None? {
      return Err(());
    }
    var config: map<string, nat> := map[];
    var schedule: map<string, Blob> := map[];
    var i := 0;
    ScheduleNext(entries, table, i);
    while i < |table| && i <= target.value
      invariant i <= target.value + 1 && i <= |table|
      invariant Activates(config, table, i)
      invariant schedule == ScheduleOf(entries, table, i)
    {
      ScheduleNext(entries, table, i);
      config := config[table[i].key := 0];
      var name := Lower(table[i].name);
      if name in entries {
        schedule := schedule[name := entries[name]];
      }
      i := i + 1;
    }
    var amsterdam := ForkIndex(table, AMSTERDAM);
    ActivatedByIndex(table, fork, AMSTERDAM);
    return Ok(Devnet(config, schedule, amsterdam.Some? && target.value >= amsterdam.value));
  }

  /** Both writers meet the same description for a known fork, and it leaves no choice. */
  lemma WritersAgree(a: map<string, nat>, b: map<string, nat>, table: Table, n: nat)
    requires n <= |table| && Activates(a, table, n) && Activates(b, table, n)
    ensures a == b
  {
    forall key
      ensures key in a <==> key in b
    {
    }
  }

  const TIMESTAMP_FORKS: Table := [
    Fork("shanghaiTime", "Shanghai"), Fork("cancunTime", "Cancun"), Fork("pragueTime", "Prague"),
    Fork("osakaTime", "Osaka"), Fork("bpo1Time", "BPO1"), Fork("bpo2Time", "BPO2"),
    Fork("amsterdamTime", "Amsterdam")]

  lemma NamesAreDistinct()
    ensures DistinctNames(TIMESTAMP_FORKS)
  {
    var names := seq(7, i requires 0 <= i < 7 => TIMESTAMP_FORKS[i].name);
    assert names == ["Shanghai", "Cancun", "Prague", "Osaka", "BPO1", "BPO2", "Amsterdam"];
    assert names[4][3] != names[5][3];
    forall i, j | 0 <= i < j < 7
      ensures names[i] != names[j]
    {
      assert names[i][0] != names[j][0] || i == 4;
    }
  }

  /** With the repository's own table: the Amsterdam header fields appear for Amsterdam and no other known fork. */
  lemma AmsterdamIsLast(target: string)
    requires Knows(TIMESTAMP_FORKS, target)
    ensures HasName(TIMESTAMP_FORKS, Activated(TIMESTAMP_FORKS, target), AMSTERDAM) <==> target == AMSTERDAM
  {
    NamesAreDistinct();
    var k :| 0 <= k < 7 && TIMESTAMP_FORKS[k].name == target;
    ActivatesPrefix(TIMESTAMP_FORKS, k);
    ActivatesPrefix(TIMESTAMP_FORKS, 6);
    ActivatedByIndex(TIMESTAMP_FORKS, target, AMSTERDAM);
    assert TIMESTAMP_FORKS[6].name == AMSTERDAM;
  }

  /** Target and maximum number of blobs, and the fee update fraction. */
  datatype Blobs = Blobs(target: nat, max: nat, fraction: nat)

  const BLOB_SCHEDULE: map<string, Blobs> := map[
    "cancun" := Blobs(3, 6, 3338477), "prague" := Blobs(6, 9, 5007716), "osaka" := Blobs(6, 9, 5007716),
    "bpo1" := Blobs(10, 15, 8346193), "bpo2" := Blobs(14, 21, 11684671), "amsterdam" := Blobs(14, 21, 11684671)]

  /** The config keys and the lower-case names of the table, written out. */
  const TIME_KEYS := ["shanghaiTime", "cancunTime", "pragueTime", "osakaTime", "bpo1Time", "bpo2Time", "amsterdamTime"]

  const LOWER_NAMES := ["shanghai", "cancun", "prague", "osaka", "bpo1", "bpo2", "amsterdam"]

  lemma LowerOf(s: string, t: string)
    requires |s| == |t|
    requires forall i :: 0 <= i < |s| ==> t[i] == if 'A' <= s[i] <= 'Z' then s[i] - 'A' + 'a' else s[i]
    ensures Lower(s) == t
  {
  }

  lemma TableWrittenOut()
    ensures |TIMESTAMP_FORKS| == 7
    ensures forall j :: 0 <= j < 7 ==>
              TIMESTAMP_FORKS[j].key == TIME_KEYS[j] && Lower(TIMESTAMP_FORKS[j].name) == LOWER_NAMES[j]
  {
    LowerOf("Shanghai", "shanghai");
    LowerOf("Cancun", "cancun");
    LowerOf("Prague", "prague");
    LowerOf("Osaka", "osaka");
    LowerOf("BPO1", "bpo1");
    LowerOf("BPO2", "bpo2");
    LowerOf("Amsterdam", "amsterdam");
  }

  lemma LowerNamesDiffer(i: nat, j: nat)
    requires i < j < 7
    ensures LOWER_NAMES[i] != LOWER_NAMES[j]
  {
    assert LOWER_NAMES[i][0] != LOWER_NAMES[j][0] || LOWER_NAMES[i][3] != LOWER_NAMES[j][3];
  }

  /** Of the repository's table only Shanghai has no blob schedule. */
  lemma EntriesOfTable(j: nat)
    requires j < 7
    ensures LOWER_NAMES[j] in BLOB_SCHEDULE <==> j >= 1
  {
    forall i: nat | 0 < i < 7
      ensures LOWER_NAMES[0] != LOWER_NAMES[i]
    {
      LowerNamesDiffer(0, i);
    }
    assert LOWER_NAMES[1] == "cancun" && LOWER_NAMES[2] == "prague" && LOWER_NAMES[3] == "osaka"
           && LOWER_NAMES[4] == "bpo1" && LOWER_NAMES[5] == "bpo2" && LOWER_NAMES[6] == "amsterdam";
  }

  /**
   With the repository's tables, a devnet for the fork in place k has exactly the time keys up to its own,
   and the blob schedules of exactly the forks from Cancun up to it.
  */
  lemma DevnetFor(k: nat, config: map<string, nat>, schedule: map<string, Blobs>)
    requires k < 7 && Activates(config, TIMESTAMP_FORKS, k + 1)
    requires schedule == ScheduleOf(BLOB_SCHEDULE, TIMESTAMP_FORKS, k + 1)
    ensures Activated(TIMESTAMP_FORKS, TIMESTAMP_FORKS[k].name) == k + 1
    ensures forall key :: key in config <==> key in TIME_KEYS[..k + 1]
    ensures forall j :: 0 <= j < 7 ==> (LOWER_NAMES[j] in schedule <==> 1 <= j <= k)
    ensures forall name :: name in schedule ==> name in LOWER_NAMES && schedule[name] == BLOB_SCHEDULE[name]
  {
    hide Lower;
    NamesAreDistinct();
    ActivatesPrefix(TIMESTAMP_FORKS, k);
    TableWrittenOut();
    hide Activated;
    forall j: nat | j < 7
      ensures LOWER_NAMES[j] in schedule <==> 1 <= j <= k
    {
      EntriesOfTable(j);
      if LOWER_NAMES[j] in schedule {
        var i :| 0 <= i < k + 1 && Lower(TIMESTAMP_FORKS[i].name) == LOWER_NAMES[j];
        if i < j {
          LowerNamesDiffer(i, j);
        } else if j < i {
          LowerNamesDiffer(j, i);
        }
      } else if j <= k {
        assert Lower(TIMESTAMP_FORKS[j].name) in LowerNames(TIMESTAMP_FORKS, k + 1);
      }
    }
    forall key
      ensures key in config <==> key in TIME_KEYS[..k + 1]
    {
      if key in config {
        var j :| 0 <= j < k + 1 && TIMESTAMP_FORKS[j].key == key;
        assert TIME_KEYS[..k + 1][j] == key;
      }
      if key in TIME_KEYS[..k + 1] {
        var j :| 0 <= j < k + 1 && TIME_KEYS[..k + 1][j] == key;
        assert TIMESTAMP_FORKS[j].key == key;
      }
    }
  }

  // ---------------------------------------------------------------- alloc

  datatype Account = Account(balance: nat, nonce: nat, code: HexBytes, storage: map<nat, nat>)

  /** An alloc entry as written: empty parts are left out. */
  datatype Entry = Entry(
    balance: string, nonce: Option<string>, code: Option<string>, storage: Option<map<string, string>>)

  method WriteStorage(storage: map<nat, nat>) returns (out: map<string, string>)
    ensures forall k :: k in storage ==> Hex(k) in out && out[Hex(k)] == Hex(storage[k])
    ensures forall t :: t in out ==> exists k :: k in storage && t == Hex(k)
  {
    out := map[];
    var todo := storage.Keys;
    while todo != {}
      invariant todo <= storage.Keys
      invariant forall k :: k in storage && k !in todo ==> Hex(k) in out && out[Hex(k)] == Hex(storage[k])
      invariant forall t :: t in out ==> exists k :: k in storage && t == Hex(k)
      decreases todo
    {
      var k :| k in todo;
      forall j | j in storage && j !in todo
        ensures Hex(j) != Hex(k)
      {
        if Hex(j) == Hex(k) {
          HexInjective(j, k);
        }
      }
      out := out[Hex(k) := Hex(storage[k])];
      todo := todo - {k};
    }
  }

  function Written(storage: Option<map<string, string>>): map<string, string> {
    if storage.Some? then storage.value else map[]
  }

  /** The slots a reader finds, by number. */
  function ReadSlots(out: map<string, string>): set<(Option<nat>, Option<nat>)> {
    set t | t in out :: (ReadHex(t), ReadHex(out[t]))
  }

  function Slots(storage: map<nat, nat>): set<(Option<nat>, Option<nat>)> {
    set k | k in storage :: (Some(k), Some(storage[k]))
  }

  /** An account as read back from its texts; a text that is no number reads as None. */
  datatype Read = Read(
    balance: Option<nat>, nonce: Option<nat>, code: HexBytes, slots: set<(Option<nat>, Option<nat>)>)

  /** Reading an entry back, with absent parts at their defaults. */
  function ReadEntry(e: Entry): Read {
    Read(ReadHex(e.balance),
         if e.nonce.Some? then ReadHex(e.nonce.value) else Some(0),
         if e.code.Some? then FromHexText(e.code.value) else HexBytes(""),
         ReadSlots(Written(e.storage)))
  }

  function Holding(a: Account): Read {
    Read(Some(a.balance), Some(a.nonce), a.code, Slots(a.storage))
  }

  /** `_alloc_entry`. */
  method AllocEntry(a: Account) returns (e: Entry)
    ensures ReadEntry(e) == Holding(a)
  {
    var nonce := None;
    if a.nonce != 0 {
      nonce := Some(Hex(a.nonce));
    }
    var code := None;
    if a.code.digits != "" {
      code := Some(HexText(a.code));
    }
    var storage := None;
    if a.storage != map[] {
      var out := WriteStorage(a.storage);
      storage := Some(out);
    }
    e := Entry(Hex(a.balance), nonce, code, storage);
    HexRoundTrip(a.balance);
    HexRoundTrip(a.nonce);
    GoReadsPythonText(a.code);
    hide Hex, ReadHex, HexText, FromHexText;
    forall k | k in a.storage
      ensures ReadHex(Hex(k)) == Some(k) && ReadHex(Hex(a.storage[k])) == Some(a.storage[k])
    {
      HexRoundTrip(k);
      HexRoundTrip(a.storage[k]);
    }
  }

  /**
   The alloc part of `build_genesis`. Reading it back gives exactly the accounts of the fixture's
   pre-state that are present: none is lost, merged with another, altered or invented.
  */
  method BuildAlloc(pre: map<HexBytes, Option<Account>>) returns (alloc: map<string, Entry>)
    ensures forall a :: a in pre && pre[a].Some? ==>
              HexText(a) in alloc && ReadEntry(alloc[HexText(a)]) == Holding(pre[a].value)
    ensures forall t :: t in alloc ==>
              FromHexText(t) in pre && pre[FromHexText(t)].Some? && t == HexText(FromHexText(t))
  {
    hide ReadEntry, Holding, HexText, FromHexText;
    alloc := map[];
    var todo := pre.Keys;
    while todo != {}
      invariant todo <= pre.Keys
      invariant forall a :: a in pre && pre[a].Some? && a !in todo ==>
                  HexText(a) in alloc && ReadEntry(alloc[HexText(a)]) == Holding(pre[a].value)
      invariant forall t :: t in alloc ==>
                  FromHexText(t) in pre && pre[FromHexText(t)].Some? && t == HexText(FromHexText(t))
                  && FromHexText(t) !in todo
      decreases todo
    {
      var address :| address in todo;
      todo := todo - {address};
      GoReadsPythonText(address);
      if pre[address].None? {
        continue;
      }
      var entry := AllocEntry(pre[address].value);
      forall a | a in pre && a != address
        ensures HexText(a) != HexText(address)
      {
        GoReadsPythonText(a);
      }
      alloc := alloc[HexText(address) := entry];
    }
  }
}
