/**
 * The two storage engines the benchmark drives, as the harness sees them.
 *
 * KVStore is a goleveldb `*leveldb.DB` reduced to a map from keys to values
 * with a not-found outcome. SqlTable is the gorm/SQLite `KeyValue` table
 * reduced to its list of inserted rows. Which calls an engine fails, and with
 * what message, is decided by the environment: every store carries a fixed
 * fault schedule indexed by call number, and records every call it receives,
 * so the caller's order of operations can be stated exactly.
 */
module Backends {
  import opened Wrappers
  import opened KeyCodec

  /** A record of a workload, and a row of the relational table (main.go:20-23). */
  datatype KeyValue = KeyValue(key: seq<Byte>, value: seq<Byte>)

  /** `leveldb.ErrNotFound`, or any other error an engine reports. */
  datatype Error = ErrNotFound | ErrEngine(detail: string)

  /** One call issued to a store. */
  datatype Call = PutCall(key: seq<Byte>, value: seq<Byte>) | GetCall(key: seq<Byte>)

  /** The error the schedule assigns to call number n, if any. */
  function Scheduled(faults: map<nat, string>, n: nat): (err: Option<Error>)
    ensures err.Some? <==> n in faults
    ensures err.Some? ==> err.value.ErrEngine?
  {
    if n in faults then Some(ErrEngine(faults[n])) else None
  }

  /** No call numbered in [from, to) is scheduled to fail. */
  ghost predicate NoFaults(faults: map<nat, string>, from: nat, to: int)
  {
    forall n :: from <= n < to ==> n !in faults
  }

  /** The calls a loop of Puts over kvs issues, in slice order. */
  function PutCalls(kvs: seq<KeyValue>): (cs: seq<Call>)
    ensures |cs| == |kvs|
  {
    seq(|kvs|, i requires 0 <= i < |kvs| => PutCall(kvs[i].key, kvs[i].value))
  }

  /** The calls a loop of Gets over the keys of kvs issues, in slice order. */
  function GetCalls(kvs: seq<KeyValue>): (cs: seq<Call>)
    ensures |cs| == |kvs|
  {
    seq(|kvs|, i requires 0 <= i < |kvs| => GetCall(kvs[i].key))
  }

  /** One more record, one more call at the end. */
  lemma PutCallsSnoc(kvs: seq<KeyValue>, i: nat)
    requires i < |kvs|
    ensures PutCalls(kvs[..i + 1]) == PutCalls(kvs[..i]) + [PutCall(kvs[i].key, kvs[i].value)]
  {
  }

  /** One more record, one more call at the end. */
  lemma GetCallsSnoc(kvs: seq<KeyValue>, i: nat)
    requires i < |kvs|
    ensures GetCalls(kvs[..i + 1]) == GetCalls(kvs[..i]) + [GetCall(kvs[i].key)]
  {
  }

  /** The map after putting every record of kvs into m, first to last. */
  function PutAll(m: map<seq<Byte>, seq<Byte>>, kvs: seq<KeyValue>): map<seq<Byte>, seq<Byte>>
  {
    if kvs == [] then m
    else
      var last := kvs[|kvs| - 1];
      PutAll(m, kvs[..|kvs| - 1])[last.key := last.value]
  }

  /** After the Puts every key of kvs is present. */
  lemma {:induction false} PutAllContains(m: map<seq<Byte>, seq<Byte>>, kvs: seq<KeyValue>)
    ensures forall i :: 0 <= i < |kvs| ==> kvs[i].key in PutAll(m, kvs)
  {
    if kvs != [] {
      var front := kvs[..|kvs| - 1];
      PutAllContains(m, front);
      forall i | 0 <= i < |kvs| - 1 ensures kvs[i].key in PutAll(m, kvs) {
        assert kvs[i] == front[i];
      }
    }
  }

  /** Last write wins: a key holds the value of its last occurrence in kvs. */
  lemma {:induction false} PutAllLastWins(m: map<seq<Byte>, seq<Byte>>, kvs: seq<KeyValue>, i: nat)
    requires i < |kvs|
    requires forall j :: i < j < |kvs| ==> kvs[j].key != kvs[i].key
    ensures kvs[i].key in PutAll(m, kvs) && PutAll(m, kvs)[kvs[i].key] == kvs[i].value
  {
    if i < |kvs| - 1 {
      var front := kvs[..|kvs| - 1];
      assert front[i] == kvs[i];
      PutAllLastWins(m, front, i);
    }
  }

  /** A key that kvs never mentions keeps its presence and value. */
  lemma {:induction false} PutAllUntouched(m: map<seq<Byte>, seq<Byte>>, kvs: seq<KeyValue>, k: seq<Byte>)
    requires forall i :: 0 <= i < |kvs| ==> kvs[i].key != k
    ensures k in PutAll(m, kvs) <==> k in m
    ensures k in m ==> PutAll(m, kvs)[k] == m[k]
  {
    if kvs != [] {
      var front := kvs[..|kvs| - 1];
      forall i | 0 <= i < |front| ensures front[i].key != k {
        assert front[i] == kvs[i];
      }
      PutAllUntouched(m, front, k);
    }
  }

  /** A goleveldb database as a map, with a fault schedule for its calls. */
  class KVStore {
    var entries: map<seq<Byte>, seq<Byte>>
    var calls: seq<Call>
    const faults: map<nat, string>

    /** An opened database holding `entries`, with no calls issued yet. */
    constructor (entries: map<seq<Byte>, seq<Byte>>, faults: map<nat, string>)
      ensures this.entries == entries && calls == [] && this.faults == faults
    {
      this.entries := entries;
      calls := [];
      this.faults := faults;
    }

    /** `DB.Put(key, value, nil)`: inserts or overwrites key, unless the engine fails. */
    method Put(key: seq<Byte>, value: seq<Byte>) returns (err: Option<Error>)
      modifies this
      ensures calls == old(calls) + [PutCall(key, value)]
      ensures err == Scheduled(faults, |old(calls)|)
      ensures entries == if err.None? then old(entries)[key := value] else old(entries)
    {
      err := Scheduled(faults, |calls|);
      calls := calls + [PutCall(key, value)];
      if err.None? {
        entries := entries[key := value];
      }
    }

    /**
     * `DB.Get(key, nil)`: the stored value, `ErrNotFound` for an absent key,
     * or the engine's error; a nil slice (here []) with every error.
     */
    method Get(key: seq<Byte>) returns (value: seq<Byte>, err: Option<Error>)
      modifies this
      ensures calls == old(calls) + [GetCall(key)]
      ensures entries == old(entries)
      ensures Scheduled(faults, |old(calls)|).Some? ==> err == Scheduled(faults, |old(calls)|)
      ensures Scheduled(faults, |old(calls)|).None? ==>
                err == (if key in entries then None else Some(ErrNotFound))
      ensures value == if err.None? then entries[key] else []
    {
      err := Scheduled(faults, |calls|);
      calls := calls + [GetCall(key)];
      if err.None? && key !in entries {
        err := Some(ErrNotFound);
      }
      value := if err.None? then entries[key] else [];
    }
  }

  /**
   * The SQLite `KeyValue` table behind gorm: `Create` appends a row (no
   * deduplication); which row `First` would load is decided inside gorm and is
   * not modelled, so a lookup reports only the error, if any, the schedule gives it.
   */
  class SqlTable {
    var rows: seq<KeyValue>
    var calls: seq<Call>
    const faults: map<nat, string>

    constructor (rows: seq<KeyValue>, faults: map<nat, string>)
      ensures this.rows == rows && calls == [] && this.faults == faults
    {
      this.rows := rows;
      calls := [];
      this.faults := faults;
    }

    /** `Put` at main.go:164-166: `db.Create(value)` inserts one row. */
    method Create(kv: KeyValue) returns (err: Option<Error>)
      modifies this
      ensures calls == old(calls) + [PutCall(kv.key, kv.value)]
      ensures err == Scheduled(faults, |old(calls)|)
      ensures rows == if err.None? then old(rows) + [kv] else old(rows)
    {
      err := Scheduled(faults, |calls|);
      calls := calls + [PutCall(kv.key, kv.value)];
      if err.None? {
        rows := rows + [kv];
      }
    }

    /** `Get` at main.go:160-162: `db.First(ret)` with ret's key set. */
    method First(key: seq<Byte>) returns (err: Option<Error>)
      modifies this
      ensures calls == old(calls) + [GetCall(key)]
      ensures rows == old(rows)
      ensures err == Scheduled(faults, |old(calls)|)
    {
      err := Scheduled(faults, |calls|);
      calls := calls + [GetCall(key)];
    }
  }
}
