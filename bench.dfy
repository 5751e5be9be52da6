/**
 * main.go: building the two workloads and the write-then-read pass `run`
 * over the relational table and the goleveldb database.
 */
module Bench {
  import opened Wrappers
  import opened KeyCodec
  import opened Backends

  /** Record counts fixed in main.go (lines 81 and 93). */
  const KeysLen: nat := 5000000
  const ItemsLen: nat := 5000000

  /** Go's `int` is 64 bits wide: a loop counter stays below 2^63. */
  const IntLimit: int := 0x8000_0000_0000_0000

  type Int64 = n: int | -IntLimit <= n < IntLimit
  type Uint32 = n: int | 0 <= n < 0x1_0000_0000
  type Uint8 = n: int | 0 <= n < 256

  /** The chunk-metadata record of main.go:25-41. Go's nil slice is []. */
  datatype Item = Item(
    address: seq<Byte>,
    data: seq<Byte>,
    accessTimestamp: Int64,
    storeTimestamp: Int64,
    binID: Uint64,
    pinCounter: Uint64,
    tag: Uint32,
    batchID: seq<Byte>,
    index: seq<Byte>,
    timestamp: seq<Byte>,
    sig: seq<Byte>,
    bucketDepth: Uint8,
    depth: Uint8,
    radius: Uint8,
    immutable: bool)

  /**
   * `newItem`: the random 8-byte payload (drawn by the caller) goes into the
   * address and the four postage-stamp slices; everything else keeps Go's zero value.
   */
  function NewItem(payload: seq<Byte>): (it: Item)
    requires |payload| == 8
    ensures it.address == it.batchID == it.index == it.timestamp == it.sig == payload
    ensures it.data == []
    ensures it.accessTimestamp == it.storeTimestamp == 0
    ensures it.binID == it.pinCounter == it.tag == 0
    ensures it.bucketDepth == it.depth == it.radius == 0
    ensures !it.immutable
  {
    Item(payload, [], 0, 0, 0, 0, 0, payload, payload, payload, payload, 0, 0, 0, false)
  }

  /** Record i of the key workload is keyed and valued by encodeUint64(i). */
  ghost predicate IsKeyWorkload(keys: seq<KeyValue>)
  {
    |keys| <= Uint64Limit &&
    forall i :: 0 <= i < |keys| ==> keys[i] == KeyValue(EncodeUint64(i), EncodeUint64(i))
  }

  /**
   * The key-workload loop of `main`: keysLen records, record i holding
   * encodeUint64(i) as key and value, and keySize, the length of the first value.
   */
  method BuildKeys(keysLen: nat) returns (keys: seq<KeyValue>, keySize: nat)
    requires 0 < keysLen < IntLimit
    ensures |keys| == keysLen && IsKeyWorkload(keys)
    ensures keySize == 8
  {
    keys := [];
    var i := 0;
    while i < keysLen
      invariant 0 <= i <= keysLen && |keys| == i
      invariant forall k :: 0 <= k < i ==> keys[k] == KeyValue(EncodeUint64(k), EncodeUint64(k))
    {
      keys := keys + [KeyValue(EncodeUint64(i), EncodeUint64(i))];
      i := i + 1;
    }
    keySize := |keys[0].value|;
  }

  /** Generated keys are strictly increasing in bytewise order, hence distinct. */
  lemma KeyWorkloadSorted(keys: seq<KeyValue>)
    requires IsKeyWorkload(keys)
    ensures forall i, j :: 0 <= i < j < |keys| ==> LexLess(keys[i].key, keys[j].key)
    ensures forall i, j :: 0 <= i < j < |keys| ==> keys[i].key != keys[j].key
  {
    forall i, j | 0 <= i < j < |keys|
      ensures LexLess(keys[i].key, keys[j].key) && keys[i].key != keys[j].key
    {
      EncodeOrder(i, j);
      LexLessIrreflexive(keys[i].key);
    }
  }

  /** After a complete write pass of the key workload, key i holds encodeUint64(i). */
  lemma KeyWorkloadStored(m: map<seq<Byte>, seq<Byte>>, keys: seq<KeyValue>)
    requires IsKeyWorkload(keys)
    ensures forall i :: 0 <= i < |keys| ==>
              EncodeUint64(i) in PutAll(m, keys) && PutAll(m, keys)[EncodeUint64(i)] == EncodeUint64(i)
  {
    KeyWorkloadSorted(keys);
    forall i | 0 <= i < |keys|
      ensures EncodeUint64(i) in PutAll(m, keys) && PutAll(m, keys)[EncodeUint64(i)] == EncodeUint64(i)
    {
      PutAllLastWins(m, keys, i);
    }
  }

  /**
   * The item-workload loop of `main`: one record per payload, keyed by the
   * payload, valued by the serialised item; itemSize is the first value's length.
   * `marshal` stands for `json.Marshal`, which cannot fail on an Item.
   */
  method BuildItems(payloads: seq<seq<Byte>>, marshal: Item -> seq<Byte>) returns (items: seq<KeyValue>, itemSize: nat)
    requires 0 < |payloads| < IntLimit
    requires forall i :: 0 <= i < |payloads| ==> |payloads[i]| == 8
    ensures |items| == |payloads|
    ensures forall i :: 0 <= i < |items| ==> items[i].key == payloads[i] && |items[i].key| == 8
    ensures forall i :: 0 <= i < |items| ==> items[i].value == marshal(NewItem(items[i].key))
    ensures itemSize == |marshal(NewItem(payloads[0]))|
  {
    items := [];
    var i := 0;
    while i < |payloads|
      invariant 0 <= i <= |payloads| && |items| == i
      invariant forall k :: 0 <= k < i ==> items[k] == KeyValue(payloads[k], marshal(NewItem(payloads[k])))
    {
      var item := NewItem(payloads[i]);
      items := items + [KeyValue(item.address, marshal(item))];
      i := i + 1;
    }
    itemSize := |items[0].value|;
  }

  // -----------------------------------------------------------------------
  // run

  /** The four loops of `run`, in program order. */
  datatype Phase = SqliteWrite | SqliteRead | LeveldbWrite | LeveldbRead {
    function Rank(): nat
    {
      match this
      case SqliteWrite => 0
      case SqliteRead => 1
      case LeveldbWrite => 2
      case LeveldbRead => 3
    }
    predicate OnSqlite()
    {
      this == SqliteWrite || this == SqliteRead
    }
  }

  /** How `run` ends: all four loops done, or `log.Fatal` at record `at` of a phase. */
  datatype RunOutcome = Completed | Fatal(phase: Phase, at: nat, err: Error)

  ghost predicate FitsWorkload(o: RunOutcome, n: nat)
  {
    o.Fatal? ==> o.at < n
  }

  /** How many records phase p called the store for before the run ended. */
  function Visited(o: RunOutcome, p: Phase, n: nat): (k: nat)
    requires FitsWorkload(o, n)
    ensures k <= n
    ensures o.Completed? ==> k == n
    ensures o.Fatal? && p.Rank() > o.phase.Rank() ==> k == 0
  {
    match o
    case Completed => n
    case Fatal(q, at, _) =>
      if p.Rank() < q.Rank() then n else if p == q then at + 1 else 0
  }

  /** How many of those calls succeeded: all of them but a fatal one. */
  function Succeeded(o: RunOutcome, p: Phase, n: nat): (k: nat)
    requires FitsWorkload(o, n)
    ensures k <= Visited(o, p, n)
    ensures k == Visited(o, p, n) - (if o.Fatal? && o.phase == p then 1 else 0)
  {
    if o.Fatal? && o.phase == p then o.at else Visited(o, p, n)
  }

  /**
   * The phases of `run` are strictly sequential: a loop issues a call only if
   * every call of the loops before it succeeded.
   */
  lemma PhasesInOrder(o: RunOutcome, n: nat)
    requires FitsWorkload(o, n)
    ensures Visited(o, SqliteRead, n) > 0 ==> Succeeded(o, SqliteWrite, n) == n
    ensures Visited(o, LeveldbWrite, n) > 0 ==> Succeeded(o, SqliteRead, n) == n
    ensures Visited(o, LeveldbRead, n) > 0 ==> Succeeded(o, LeveldbWrite, n) == n
  {
  }

  /** The calls a run over keys issues to the relational table. */
  function SqlTrace(keys: seq<KeyValue>, o: RunOutcome): seq<Call>
    requires FitsWorkload(o, |keys|)
  {
    PutCalls(keys[..Visited(o, SqliteWrite, |keys|)]) + GetCalls(keys[..Visited(o, SqliteRead, |keys|)])
  }

  /** The calls a run over keys issues to the goleveldb database. */
  function LeveldbTrace(keys: seq<KeyValue>, o: RunOutcome): seq<Call>
    requires FitsWorkload(o, |keys|)
  {
    PutCalls(keys[..Visited(o, LeveldbWrite, |keys|)]) + GetCalls(keys[..Visited(o, LeveldbRead, |keys|)])
  }

  /** How one loop of `run` ended: every record done, or an error at record `at`. */
  datatype LoopEnd = Done | Stopped(at: nat, err: Error) {
    /** Records the loop called the store for, out of n. */
    function Reached(n: nat): nat
    {
      if Stopped? then at + 1 else n
    }
    /** Records whose call succeeded, out of n. */
    function Passed(n: nat): nat
    {
      if Stopped? then at else n
    }
  }

  /** A loop over n records that ended as `e` started at call number c0 of a store with these faults. */
  ghost predicate LoopFaults(e: LoopEnd, n: nat, faults: map<nat, string>, c0: nat)
  {
    (e.Stopped? ==> e.at < n && Some(e.err) == Scheduled(faults, c0 + e.at)) &&
    NoFaults(faults, c0, c0 + e.Passed(n))
  }

  /** main.go:119-124: `Put(db, &k)` (a row insert) for every record, in order. */
  method WriteTable(sql: SqlTable, keys: seq<KeyValue>) returns (e: LoopEnd)
    modifies sql
    ensures LoopFaults(e, |keys|, sql.faults, |old(sql.calls)|)
    ensures sql.calls == old(sql.calls) + PutCalls(keys[..e.Reached(|keys|)])
    ensures sql.rows == old(sql.rows) + keys[..e.Passed(|keys|)]
  {
    var i := 0;
    while i < |keys|
      invariant 0 <= i <= |keys|
      invariant sql.calls == old(sql.calls) + PutCalls(keys[..i])
      invariant sql.rows == old(sql.rows) + keys[..i]
      invariant NoFaults(sql.faults, |old(sql.calls)|, |sql.calls|)
    {
      var err := sql.Create(keys[i]);
      PutCallsSnoc(keys, i);
      if err.Some? {
        return Stopped(i, err.value);
      }
      assert keys[..i + 1] == keys[..i] + [keys[i]];
      i := i + 1;
    }
    assert keys[..i] == keys;
    return Done;
  }

  /** main.go:129-134: `Get(db, &KeyValue{Key: k.Key})` for every record, in order. */
  method ReadTable(sql: SqlTable, keys: seq<KeyValue>) returns (e: LoopEnd)
    modifies sql
    ensures LoopFaults(e, |keys|, sql.faults, |old(sql.calls)|)
    ensures sql.calls == old(sql.calls) + GetCalls(keys[..e.Reached(|keys|)])
    ensures sql.rows == old(sql.rows)
  {
    var i := 0;
    while i < |keys|
      invariant 0 <= i <= |keys|
      invariant sql.calls == old(sql.calls) + GetCalls(keys[..i])
      invariant sql.rows == old(sql.rows)
      invariant NoFaults(sql.faults, |old(sql.calls)|, |sql.calls|)
    {
      var err := sql.First(keys[i].key);
      GetCallsSnoc(keys, i);
      if err.Some? {
        return Stopped(i, err.value);
      }
      i := i + 1;
    }
    assert keys[..i] == keys;
    return Done;
  }

  /** main.go:140-145: a goleveldb Put of every record, in order. */
  method WriteLeveldb(ldb: KVStore, keys: seq<KeyValue>) returns (e: LoopEnd)
    modifies ldb
    ensures LoopFaults(e, |keys|, ldb.faults, |old(ldb.calls)|)
    ensures ldb.calls == old(ldb.calls) + PutCalls(keys[..e.Reached(|keys|)])
    ensures ldb.entries == PutAll(old(ldb.entries), keys[..e.Passed(|keys|)])
  {
    var i := 0;
    while i < |keys|
      invariant 0 <= i <= |keys|
      invariant ldb.calls == old(ldb.calls) + PutCalls(keys[..i])
      invariant ldb.entries == PutAll(old(ldb.entries), keys[..i])
      invariant NoFaults(ldb.faults, |old(ldb.calls)|, |ldb.calls|)
    {
      var err := ldb.Put(keys[i].key, keys[i].value);
      PutCallsSnoc(keys, i);
      if err.Some? {
        return Stopped(i, err.value);
      }
      assert keys[..i + 1][..i] == keys[..i];
      i := i + 1;
    }
    assert keys[..i] == keys;
    return Done;
  }

  /**
   * main.go:150-155: a goleveldb Get of every record's key, in order. When
   * every key is present, as after a complete write loop, only an engine error
   * can stop it: it never meets `ErrNotFound`.
   */
  method ReadLeveldb(ldb: KVStore, keys: seq<KeyValue>) returns (e: LoopEnd)
    modifies ldb
    ensures e.Stopped? ==> e.at < |keys|
    ensures e.Stopped? ==>
              if |old(ldb.calls)| + e.at in ldb.faults
              then Some(e.err) == Scheduled(ldb.faults, |old(ldb.calls)| + e.at)
              else e.err == ErrNotFound && keys[e.at].key !in ldb.entries
    ensures NoFaults(ldb.faults, |old(ldb.calls)|, |old(ldb.calls)| + e.Passed(|keys|))
    ensures forall i :: 0 <= i < e.Passed(|keys|) ==> keys[i].key in ldb.entries
    ensures ldb.calls == old(ldb.calls) + GetCalls(keys[..e.Reached(|keys|)])
    ensures ldb.entries == old(ldb.entries)
  {
    var i := 0;
    while i < |keys|
      invariant 0 <= i <= |keys|
      invariant ldb.calls == old(ldb.calls) + GetCalls(keys[..i])
      invariant ldb.entries == old(ldb.entries)
      invariant NoFaults(ldb.faults, |old(ldb.calls)|, |ldb.calls|)
      invariant forall k :: 0 <= k < i ==> keys[k].key in ldb.entries
    {
      var _, err := ldb.Get(keys[i].key);
      GetCallsSnoc(keys, i);
      if err.Some? {
        return Stopped(i, err.value);
      }
      i := i + 1;
    }
    assert keys[..i] == keys;
    return Done;
  }

  /** main.go:117-136, the relational half of `run`: write every record, then look every key up. */
  method RunSqlite(sql: SqlTable, keys: seq<KeyValue>) returns (o: RunOutcome)
    modifies sql
    ensures FitsWorkload(o, |keys|) && (o.Fatal? ==> o.phase.OnSqlite())
    ensures sql.calls == old(sql.calls) + SqlTrace(keys, o)
    ensures sql.rows == old(sql.rows) + keys[..Succeeded(o, SqliteWrite, |keys|)]
    ensures NoFaults(sql.faults, |old(sql.calls)|, |sql.calls| - if o.Fatal? then 1 else 0)
    ensures o.Fatal? ==> |sql.calls| > |old(sql.calls)| && Some(o.err) == Scheduled(sql.faults, |sql.calls| - 1)
  {
    var n := |keys|;
    assert keys[..n] == keys;
    var e := WriteTable(sql, keys);
    if e.Stopped? {
      o := Fatal(SqliteWrite, e.at, e.err);
      assert keys[..Visited(o, SqliteRead, n)] == [];
      return;
    }
    ghost var s1 := |sql.calls|;
    e := ReadTable(sql, keys);
    if e.Stopped? {
      o := Fatal(SqliteRead, e.at, e.err);
      assert NoFaults(sql.faults, |old(sql.calls)|, s1);
      return;
    }
    o := Completed;
  }

  /** main.go:138-157, the goleveldb half of `run`: write every record, then get every key. */
  method RunLeveldb(ldb: KVStore, keys: seq<KeyValue>) returns (o: RunOutcome)
    modifies ldb
    ensures FitsWorkload(o, |keys|) && (o.Fatal? ==> !o.phase.OnSqlite())
    ensures ldb.calls == old(ldb.calls) + LeveldbTrace(keys, o)
    ensures ldb.entries == PutAll(old(ldb.entries), keys[..Succeeded(o, LeveldbWrite, |keys|)])
    ensures NoFaults(ldb.faults, |old(ldb.calls)|, |ldb.calls| - if o.Fatal? then 1 else 0)
    ensures o.Fatal? ==> |ldb.calls| > |old(ldb.calls)| && Some(o.err) == Scheduled(ldb.faults, |ldb.calls| - 1)
  {
    var n := |keys|;
    assert keys[..n] == keys;
    var e := WriteLeveldb(ldb, keys);
    if e.Stopped? {
      o := Fatal(LeveldbWrite, e.at, e.err);
      assert keys[..Visited(o, LeveldbRead, n)] == [];
      return;
    }
    ghost var l1 := |ldb.calls|;
    PutAllContains(old(ldb.entries), keys);
    e := ReadLeveldb(ldb, keys);
    if e.Stopped? {
      o := Fatal(LeveldbRead, e.at, e.err);
      assert NoFaults(ldb.faults, |old(ldb.calls)|, l1);
      return;
    }
    o := Completed;
  }

  /**
   * `run`: the relational write and read loops, then the goleveldb write and
   * read loops, each over keys in slice order; the first error ends the
   * process (`log.Fatal`), so no later call is issued and no later loop starts.
   */
  method Run(sql: SqlTable, ldb: KVStore, keys: seq<KeyValue>) returns (o: RunOutcome)
    modifies sql, ldb
    ensures FitsWorkload(o, |keys|)
    ensures sql.calls == old(sql.calls) + SqlTrace(keys, o)
    ensures ldb.calls == old(ldb.calls) + LeveldbTrace(keys, o)
    ensures sql.rows == old(sql.rows) + keys[..Succeeded(o, SqliteWrite, |keys|)]
    ensures ldb.entries == PutAll(old(ldb.entries), keys[..Succeeded(o, LeveldbWrite, |keys|)])
    ensures NoFaults(sql.faults, |old(sql.calls)|, |sql.calls| - if o.Fatal? && o.phase.OnSqlite() then 1 else 0)
    ensures NoFaults(ldb.faults, |old(ldb.calls)|, |ldb.calls| - if o.Fatal? && !o.phase.OnSqlite() then 1 else 0)
    ensures o.Fatal? && o.phase.OnSqlite() ==>
              |sql.calls| > |old(sql.calls)| && Some(o.err) == Scheduled(sql.faults, |sql.calls| - 1)
    ensures o.Fatal? && !o.phase.OnSqlite() ==>
              |ldb.calls| > |old(ldb.calls)| && Some(o.err) == Scheduled(ldb.faults, |ldb.calls| - 1)
  {
    assert keys[..0] == [];
    o := RunSqlite(sql, keys);
    if o.Fatal? {
      return;
    }
    o := RunLeveldb(ldb, keys);
  }

  /**
   * The fault facts of one `run` whose calls to the table are numbered
   * [s0, s1) and whose calls to goleveldb are numbered [l0, l1): every call
   * before the fatal one had no scheduled fault, and the fatal error is the
   * one scheduled for the failing store's last call.
   */
  ghost predicate RunFaults(o: RunOutcome, sqlFaults: map<nat, string>, s0: nat, s1: nat,
                            ldbFaults: map<nat, string>, l0: nat, l1: nat)
  {
    NoFaults(sqlFaults, s0, s1 - if o.Fatal? && o.phase.OnSqlite() then 1 else 0) &&
    NoFaults(ldbFaults, l0, l1 - if o.Fatal? && !o.phase.OnSqlite() then 1 else 0) &&
    (o.Fatal? && o.phase.OnSqlite() ==> s1 > s0 && Some(o.err) == Scheduled(sqlFaults, s1 - 1)) &&
    (o.Fatal? && !o.phase.OnSqlite() ==> l1 > l0 && Some(o.err) == Scheduled(ldbFaults, l1 - 1))
  }

  /**
   * The workload part of `main` (main.go:81-113): build the key workload and
   * the item workload, then `run` the key workload and, only if that run did
   * not end the process, the item workload.
   */
  method Benchmark(sql: SqlTable, ldb: KVStore, keysLen: nat, payloads: seq<seq<Byte>>, marshal: Item -> seq<Byte>)
    returns (keys: seq<KeyValue>, items: seq<KeyValue>, first: RunOutcome, second: Option<RunOutcome>)
    requires 0 < keysLen < IntLimit
    requires 0 < |payloads| < IntLimit
    requires forall i :: 0 <= i < |payloads| ==> |payloads[i]| == 8
    modifies sql, ldb
    ensures |keys| == keysLen && IsKeyWorkload(keys)
    ensures |items| == |payloads|
    ensures forall i :: 0 <= i < |items| ==> items[i] == KeyValue(payloads[i], marshal(NewItem(payloads[i])))
    ensures FitsWorkload(first, |keys|)
    ensures second.Some? <==> first.Completed?
    ensures second.Some? ==> FitsWorkload(second.value, |items|)
    ensures sql.calls == old(sql.calls) + SqlTrace(keys, first) +
              (if second.Some? then SqlTrace(items, second.value) else [])
    ensures ldb.calls == old(ldb.calls) + LeveldbTrace(keys, first) +
              (if second.Some? then LeveldbTrace(items, second.value) else [])
    ensures RunFaults(first, sql.faults, |old(sql.calls)|, |old(sql.calls)| + |SqlTrace(keys, first)|,
                      ldb.faults, |old(ldb.calls)|, |old(ldb.calls)| + |LeveldbTrace(keys, first)|)
    ensures second.Some? ==>
              RunFaults(second.value, sql.faults, |old(sql.calls)| + |SqlTrace(keys, first)|, |sql.calls|,
                        ldb.faults, |old(ldb.calls)| + |LeveldbTrace(keys, first)|, |ldb.calls|)
    ensures sql.rows == old(sql.rows) + keys[..Succeeded(first, SqliteWrite, |keys|)] +
              (if second.Some? then items[..Succeeded(second.value, SqliteWrite, |items|)] else [])
    ensures ldb.entries == PutAll(PutAll(old(ldb.entries), keys[..Succeeded(first, LeveldbWrite, |keys|)]),
                                  if second.Some? then items[..Succeeded(second.value, LeveldbWrite, |items|)] else [])
  {
    var keySize, itemSize;
    keys, keySize := BuildKeys(keysLen);
    items, itemSize := BuildItems(payloads, marshal);
    first := Run(sql, ldb, keys);
    if first.Fatal? {
      assert sql.rows == sql.rows + [];
      return keys, items, first, None;
    }
    var o := Run(sql, ldb, items);
    second := Some(o);
  }
}
