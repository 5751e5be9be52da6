/**
 * leveldb/leveldb.go: `Uint64Field`, one unsigned 64-bit integer stored
 * big-endian under a fixed key of a goleveldb database.
 */
module LevelDB {
  import opened Wrappers
  import opened KeyCodec
  import opened Backends

  /**
   * Whatever the store holds under key can be decoded: `binary.BigEndian.Uint64`
   * panics on a value shorter than eight bytes.
   */
  ghost predicate Decodable(m: map<seq<Byte>, seq<Byte>>, key: seq<Byte>)
  {
    key in m ==> |m[key]| >= 8
  }

  /**
   * The value a field reads from store contents m: the decoded entry, or 0
   * when the key is absent.
   */
  function FieldValue(m: map<seq<Byte>, seq<Byte>>, key: seq<Byte>): (v: Uint64)
    requires Decodable(m, key)
    ensures key !in m ==> v == 0
    ensures key in m ==> EncodeUint64(v) == m[key][..8]
  {
    if key in m then DecodeUint64(m[key]) else 0
  }

  /** Put(v) then Get() reads v back, and the stored value stays decodable. */
  lemma PutThenGet(m: map<seq<Byte>, seq<Byte>>, key: seq<Byte>, v: Uint64)
    ensures Decodable(m[key := EncodeUint64(v)], key)
    ensures FieldValue(m[key := EncodeUint64(v)], key) == v
  {
    DecodeEncode(v);
  }

  /** Put(v1), Put(v2), Get() reads v2. */
  lemma LastWriteWins(m: map<seq<Byte>, seq<Byte>>, key: seq<Byte>, v1: Uint64, v2: Uint64)
    ensures FieldValue(m[key := EncodeUint64(v1)][key := EncodeUint64(v2)], key) == v2
  {
    assert m[key := EncodeUint64(v1)][key := EncodeUint64(v2)] == m[key := EncodeUint64(v2)];
    PutThenGet(m, key, v2);
  }

  /** A `Uint64Field{DB, Key}` value: the database handle and the key. */
  class Uint64Field {
    const db: KVStore
    const key: seq<Byte>

    constructor (db: KVStore, key: seq<Byte>)
      ensures this.db == db && this.key == key
    {
      this.db := db;
      this.key := key;
    }

    /**
     * `Put(val)`: stores the 8-byte encoding of val under the key; only that
     * entry changes, and a store error is returned as it is.
     */
    method Put(val: Uint64) returns (err: Option<Error>)
      modifies db
      ensures db.calls == old(db.calls) + [PutCall(key, EncodeUint64(val))]
      ensures err == Scheduled(db.faults, |old(db.calls)|)
      ensures db.entries == if err.None? then old(db.entries)[key := EncodeUint64(val)] else old(db.entries)
      ensures forall k :: k != key ==> (k in db.entries <==> k in old(db.entries))
      ensures forall k :: k != key && k in db.entries ==> db.entries[k] == old(db.entries)[k]
      ensures err.None? ==> Decodable(db.entries, key)
    {
      err := db.Put(key, EncodeUint64(val));
    }

    /**
     * `Get()`: the decoded stored value; (0, nil) when the key is absent;
     * (0, err) for any other store error, err passed through unchanged.
     */
    method Get() returns (val: Uint64, err: Option<Error>)
      requires Decodable(db.entries, key)
      modifies db
      ensures db.calls == old(db.calls) + [GetCall(key)]
      ensures db.entries == old(db.entries)
      ensures err == Scheduled(db.faults, |old(db.calls)|)
      ensures err.Some? ==> val == 0
      ensures err.None? ==> val == FieldValue(db.entries, key)
      ensures err.None? && key !in db.entries ==> val == 0
    {
      var b, e := db.Get(key);
      if e.Some? {
        if e.value == ErrNotFound {
          return 0, None;
        }
        return 0, e;
      }
      val, err := DecodeUint64(b), None;
    }
  }
}
