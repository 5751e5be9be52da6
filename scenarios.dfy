/**
 * Client scenarios: what a caller can conclude about a benchmark run from the
 * contracts of the workload builders and of `run` alone.
 */
module Scenarios {
  import opened Wrappers
  import opened KeyCodec
  import opened Backends
  import opened Bench
  import LevelDB

  /** An engine error on the 500th insert: 499 rows written, nothing read, goleveldb untouched. */
  method FailFastScenario() {
    var sql := new SqlTable([], map[499 := "disk full"]);
    var ldb := new KVStore(map[], map[]);
    var keys, _ := BuildKeys(1000);
    var o := Run(sql, ldb, keys);
    assert 499 in sql.faults;
    assert o == Fatal(SqliteWrite, 499, ErrEngine("disk full"));
    assert |sql.rows| == 499;
    assert ldb.calls == [];
  }

  /** 1000 sequential keys through a healthy goleveldb: every key reads back as written. */
  method KeyWorkloadScenario() {
    var sql := new SqlTable([], map[]);
    var ldb := new KVStore(map[], map[]);
    var keys, keySize := BuildKeys(1000);
    assert keySize == 8;
    var o := Run(sql, ldb, keys);
    assert o == Completed;
    KeyWorkloadStored(map[], keys);
    assert ldb.entries[EncodeUint64(999)] == EncodeUint64(999);
    assert |sql.rows| == 1000;
  }

  /**
   * `main` with its fixed counts on two healthy stores: both workloads run to
   * completion, and every record reaches the table and goleveldb.
   */
  method MainScenario(payloads: seq<seq<Byte>>, marshal: Item -> seq<Byte>)
    requires |payloads| == ItemsLen
    requires forall i :: 0 <= i < |payloads| ==> |payloads[i]| == 8
  {
    var sql := new SqlTable([], map[]);
    var ldb := new KVStore(map[], map[]);
    var keys, items, first, second := Benchmark(sql, ldb, KeysLen, payloads, marshal);
    assert first == Completed;
    assert second == Some(Completed);
    assert |sql.rows| == KeysLen + ItemsLen;
    assert keys[..|keys|] == keys && items[..|items|] == items;
    assert ldb.entries == PutAll(PutAll(map[], keys), items);
    PutAllContains(PutAll(map[], keys), items);
    assert payloads[0] in ldb.entries;
  }

  /** Put(v1), Put(v2), Get() through a `Uint64Field` on a healthy database. */
  method FieldScenario(v1: Uint64, v2: Uint64) {
    var other: seq<Byte> := [0x6b];
    var ldb := new KVStore(map[other := [1, 2, 3]], map[]);
    var f := new LevelDB.Uint64Field(ldb, EncodeUint64(7));
    var v, err := f.Get();
    assert v == 0 && err == None;
    ghost var start := ldb.entries;
    err := f.Put(v1);
    err := f.Put(v2);
    LevelDB.LastWriteWins(start, f.key, v1, v2);
    v, err := f.Get();
    assert err == None && v == v2;
    assert ldb.entries[other] == [1, 2, 3];
  }
}
