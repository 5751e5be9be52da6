# sqlite-leveldb benchmark harness, modelled in Dafny

The repository times two embedded storage engines against each other: a
goleveldb database and a SQLite table reached through gorm. `main` builds two
workloads, then `run` writes every record to the SQLite table, reads every
key back, writes every record to goleveldb and reads every key back, in that
order, ending the process at the first error. A small wrapper,
`Uint64Field`, keeps one unsigned 64-bit integer under a fixed goleveldb key.

This project models:

- the fixed-width key codec `encodeUint64` (8 bytes, big-endian) and the
  decode `binary.BigEndian.Uint64`, with their round trips and the fact that
  the encoding preserves order under bytewise comparison (`keycodec.dfy`);
- the two stores as the harness sees them (`backends.dfy`): goleveldb as a
  class over a map from keys to values with a not-found outcome, and the
  SQLite table as a class over its list of inserted rows;
- `Uint64Field.Put` and `Uint64Field.Get` over that map (`leveldb.dfy`);
- the workload builders in `main`, `newItem`, and the four loops of `run`
  with their fail-fast structure (`bench.dfy`);
- four client scenarios that use only the contracts above (`scenarios.dfy`):
  an engine error on the 500th insert, 1000 sequential keys through a healthy
  goleveldb, `main`'s fixed counts of 5,000,000 keys and items through two
  healthy stores, and Put/Put/Get through a `Uint64Field`.

Engine errors come from the environment. Every store carries a fixed fault
schedule, a map from call number to error message, and records every call it
receives in `calls`. A call fails exactly when its number is in the schedule.
The harness's order of operations and its fail-fast behaviour can therefore be
stated exactly, for every possible pattern of engine failures.

Notes on the source:

- `encodeUint64` is written twice, at main.go:168-172 and
  leveldb/leveldb.go:39-43, with the same body. It is modelled once, as
  `KeyCodec.EncodeUint64`.
- main.go:77 calls `testleveldb.New("db/leveldb")`, and main.go:141 and
  main.go:151 call `testleveldb.Put` and `testleveldb.Get`. The
  leveldb/leveldb.go in this repository has a zero-argument `New` and no such
  `Put` or `Get`. The model follows leveldb/leveldb.go as written. The calls in
  `run` are modelled as the goleveldb database's own `Put` and `Get`
  (`Backends.KVStore.Put`, `Backends.KVStore.Get`).
- `binary.BigEndian.Uint64` panics on a slice shorter than eight bytes and
  ignores bytes after the eighth. `KeyCodec.DecodeUint64` therefore requires
  at least eight bytes and reads the first eight. `LevelDB.Uint64Field.Get`
  requires the same of the value stored under its key. `LevelDB.Uint64Field.Put`
  keeps that true.
- `keys[0]` and `items[0]` (main.go:91, main.go:108) panic on an empty slice.
  `Bench.BuildKeys` and `Bench.BuildItems` therefore require a non-empty
  workload, as the fixed counts of 5,000,000 provide.

## Model

| member | source | states |
|---|---|---|
| KeyCodec.EncodeUint64 | leveldb/leveldb.go:39-43 | the result has exactly 8 bytes, and byte j is bits 8·(7−j) to 8·(7−j)+7 of the value, i.e. big-endian |
| KeyCodec.DecodeUint64 | leveldb/leveldb.go:36 | the first eight bytes read most significant first: the value whose encoding is exactly those bytes; requires at least eight bytes, where Go panics |
| KeyCodec.DecodeEncode | leveldb/leveldb.go:36-43 | `BigEndian.Uint64` of `encodeUint64(v)` is v |
| KeyCodec.EncodeDecode | leveldb/leveldb.go:36-43 | every 8-byte slice is the encoding of the value it decodes to |
| KeyCodec.EncodeInjective | main.go:168-172 | distinct values have distinct encodings |
| KeyCodec.EncodeOrder | main.go:168-172 | `encodeUint64(i)` sorts before `encodeUint64(j)` in bytewise order if and only if i < j |
| Backends.PutAllContains | main.go:140-145 | after a write loop over a slice, every key of the slice is present in the store |
| Backends.PutAllLastWins | main.go:140-145 | after a write loop, a key holds the value of its last occurrence in the slice |
| Backends.PutAllUntouched | main.go:140-145 | a key the slice never mentions keeps its presence and value |
| Backends.KVStore.constructor | leveldb/leveldb.go:15-22 | an opened goleveldb database: the given contents, its fault schedule, no calls issued |
| Backends.KVStore.Put | leveldb/leveldb.go:25 | records the call; the scheduled error if any, with the contents unchanged, else the key now maps to the value |
| Backends.KVStore.Get | leveldb/leveldb.go:29 | records the call; the scheduled error, else `ErrNotFound` exactly when the key is absent, else the stored value; contents unchanged |
| Backends.SqlTable.constructor | main.go:54-66 | an opened SQLite table: the given rows, its fault schedule, no calls issued |
| Backends.SqlTable.Create | main.go:164-166 | records the call; the scheduled error if any, else one row appended, with no deduplication |
| Backends.SqlTable.First | main.go:160-162 | records the call, returns the scheduled error if any, and leaves the rows unchanged |
| LevelDB.FieldValue | leveldb/leveldb.go:28-37 | what `Get` reads: 0 for an absent key, otherwise the value whose encoding is the first 8 stored bytes |
| LevelDB.PutThenGet | leveldb/leveldb.go:24-37 | after `Put(v)` the stored value is decodable and `Get` reads v |
| LevelDB.LastWriteWins | leveldb/leveldb.go:24-37 | after `Put(v1)` and then `Put(v2)`, `Get` reads v2 |
| LevelDB.Uint64Field.constructor | leveldb/leveldb.go:10-13 | a field over the given database and key |
| LevelDB.Uint64Field.Put | leveldb/leveldb.go:24-26 | issues one Put of `encodeUint64(val)` under the field's key; only that entry changes; a store error is returned unchanged; the stored value stays decodable |
| LevelDB.Uint64Field.Get | leveldb/leveldb.go:28-37 | issues one Get; (0, nil) for an absent key; (0, err) with the store's error unchanged; otherwise the decoded value; the store is not changed |
| Bench.NewItem | main.go:174-186 | the 8-byte payload is the Address, BatchID, Index, Timestamp and Sig; every number is 0, Data is empty and Immutable is false |
| Bench.BuildKeys | main.go:81-91 | exactly keysLen records; record i has key and value `encodeUint64(i)`; keySize is 8 |
| Bench.KeyWorkloadSorted | main.go:83-90 | the generated keys strictly increase in bytewise order, so they are distinct |
| Bench.KeyWorkloadStored | main.go:140-155 | after a complete goleveldb write pass over the key workload, key `encodeUint64(i)` holds `encodeUint64(i)` |
| Bench.BuildItems | main.go:93-108 | one record per payload, in order; the key is the payload, the value the serialised `newItem(payload)`; itemSize is the first value's length |
| Bench.PhasesInOrder | main.go:119-155 | a loop of `run` issues a call only if every call of the loops before it succeeded |
| Bench.WriteTable | main.go:119-124 | inserts the records in slice order and stops at the first error; the rows gained are exactly the records before it |
| Bench.ReadTable | main.go:129-134 | looks up the keys in slice order and stops at the first error |
| Bench.WriteLeveldb | main.go:140-145 | puts the records in slice order and stops at the first error; the store is the old one with those records put in order |
| Bench.ReadLeveldb | main.go:150-155 | gets the keys in slice order and stops at the first error; it stops on `ErrNotFound` only at a key absent from the store, otherwise on a scheduled engine error |
| Bench.RunSqlite | main.go:117-136 | the SQLite write loop, then a read loop over the same keys in the same order, with no call after the first error |
| Bench.RunLeveldb | main.go:138-157 | the goleveldb write loop, then a read loop over the same keys in the same order; the read loop never meets a missing key |
| Bench.Run | main.go:116-158 | the exact call sequence each store receives; every call before the fatal one succeeded; the fatal error is the failed call's own error; no later call or phase; the rows and entries written |
| Bench.Benchmark | main.go:81-113 | builds both workloads, runs the key workload, and runs the item workload only if the first run completed; for each run, the exact calls each store receives, no scheduled fault before the fatal call and the fatal error the failing call's own; the final rows are the old rows plus the records each run wrote, and the final goleveldb contents the old ones with both runs' written records put in order |

## Left out

- CPU profiling, `os.Create` and `os.MkdirAll` (main.go:45-52): process I/O.
- Opening SQLite through gorm, `AutoMigrate` and the two PRAGMA statements (main.go:54-75). The constructor of `Backends.SqlTable` stands for the opened, migrated table.
- Which row gorm's `First` loads, and whether it filters by the key (main.go:160-162): this is decided inside gorm. `Backends.SqlTable.First` reports only its scheduled error. The relational read pass is not claimed to find any particular row.
- `json.Marshal` (main.go:98): the model takes it as a function parameter, `marshal`. It cannot fail on an `Item`, so the `log.Fatal` at main.go:100 is not modelled.
- `math/rand` (main.go:79, main.go:177): the random payloads are an input sequence of 8-byte payloads, not a model of the generator.
- `time.Now`, `time.Since` and every `log.Printf` (main.go:110-157): timing and logging. `run`'s `label` argument is used only in log output and is dropped.
- `log.Fatal` ends the process. It is modelled as `Run` returning `Fatal(phase, index, error)`.
- `leveldb.OpenFile` and the panic in `New` (leveldb/leveldb.go:15-22), and the goleveldb engine internals: the database is a map with a not-found outcome. An engine error is modelled as a scheduled fault that leaves the contents unchanged.
- Slice aliasing: `newItem` shares one 8-byte array among five fields, and Go slices are mutable. The model uses immutable sequences, and Go's nil slice is the empty sequence.
- Go's 64-bit `int` loop counters: the builders require fewer than 2^63 records, so `uint64(i)` is exact.
