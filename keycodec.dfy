/**
 * The fixed-width key codec: `encodeUint64` (written twice in the repository, at
 * main.go:168-172 and leveldb/leveldb.go:39-43) and the decode
 * `binary.BigEndian.Uint64` used by leveldb/leveldb.go:36.
 *
 * Bytes are integers in [0, 256), a Go `uint64` an integer in [0, 2^64).
 * The big-endian layout is given once, for any width, by ToBigEndian and
 * FromBigEndian; the Go functions are their 8-byte instances.
 */
module KeyCodec {

  type Byte = b: int | 0 <= b < 256

  const Uint64Limit: int := 0x1_0000_0000_0000_0000

  type Uint64 = n: int | 0 <= n < Uint64Limit

  /** 256^k: the weight of a byte that has k bytes after it. */
  function Pow256(k: nat): (p: nat)
    ensures p >= 1
  {
    if k == 0 then 1 else 256 * Pow256(k - 1)
  }

  /**
   * The low `width` bytes of n, most significant first. Higher bytes are
   * dropped, as Go's `byte(v >> s)` conversion drops them.
   */
  function ToBigEndian(n: nat, width: nat): (b: seq<Byte>)
    ensures |b| == width
  {
    if width == 0 then [] else ToBigEndian(n / 256, width - 1) + [n % 256]
  }

  /** The number whose big-endian bytes are b. */
  function FromBigEndian(b: seq<Byte>): (n: nat)
    ensures n < Pow256(|b|)
  {
    if b == [] then 0 else FromBigEndian(b[..|b| - 1]) * 256 + b[|b| - 1]
  }

  /**
   * `encodeUint64`: a fresh 8-byte slice filled by `binary.BigEndian.PutUint64`,
   * so byte j holds bits 8*(7-j) .. 8*(7-j)+7 of the value.
   */
  function EncodeUint64(v: Uint64): (b: seq<Byte>)
    ensures |b| == 8
    ensures forall j :: 0 <= j < 8 ==> b[j] == (v / Pow256(7 - j)) % 256
  {
    var b := ToBigEndian(v, 8);
    forall j | 0 <= j < 8 ensures b[j] == (v / Pow256(7 - j)) % 256 {
      ToBigEndianAt(v, 8, j);
    }
    b
  }

  /**
   * `binary.BigEndian.Uint64`: the first eight bytes, most significant first.
   * Go panics on a slice shorter than eight bytes; bytes after the eighth are ignored.
   */
  function DecodeUint64(b: seq<Byte>): (v: Uint64)
    requires |b| >= 8
    ensures EncodeUint64(v) == b[..8]
  {
    var v := FromBigEndian(b[..8]);
    ToFromBigEndian(b[..8]);
    v
  }

  /**
   * Bytewise lexicographic order, the order of `bytes.Compare` and of
   * LevelDB's default comparator: a proper prefix sorts first.
   */
  predicate LexLess(a: seq<Byte>, b: seq<Byte>)
  {
    if a == [] then b != []
    else b != [] && (a[0] < b[0] || (a[0] == b[0] && LexLess(a[1..], b[1..])))
  }

  // ---------------------------------------------------------------------
  // Layout: byte j of ToBigEndian(n, w) is digit w-1-j of n in base 256.

  /** Division has one quotient: n = d*a + r with 0 <= r < d forces n / d == a. */
  lemma DivUnique(n: int, d: int, a: int, r: int)
    requires d > 0 && n == d * a + r && 0 <= r < d
    ensures n / d == a
  {
    var q := n / d;
    assert n == d * q + n % d;
    assert d * (a - q) == n % d - r;
    if a - q >= 1 {
      assert false;
    } else if a - q <= -1 {
      assert false;
    }
  }

  lemma DivDiv256(n: nat, p: nat)
    requires p >= 1
    ensures n / 256 / p == n / (256 * p)
  {
    var q, r := n / 256, n % 256;
    var a, c := q / p, q % p;
    assert n == 256 * q + r;
    assert q == p * a + c;
    assert n == (256 * p) * a + (256 * c + r);
    DivUnique(n, 256 * p, a, 256 * c + r);
  }

  lemma {:induction false} ToBigEndianAt(n: nat, w: nat, j: nat)
    requires j < w
    ensures ToBigEndian(n, w)[j] == (n / Pow256(w - 1 - j)) % 256
  {
    if j == w - 1 {
      assert ToBigEndian(n, w)[j] == n % 256;
    } else {
      ToBigEndianAt(n / 256, w - 1, j);
      DivDiv256(n, Pow256(w - 2 - j));
      assert ToBigEndian(n, w)[j] == ToBigEndian(n / 256, w - 1)[j];
    }
  }

  // ---------------------------------------------------------------------
  // Round trips.

  lemma {:induction false} FromToBigEndian(n: nat, w: nat)
    requires n < Pow256(w)
    ensures FromBigEndian(ToBigEndian(n, w)) == n
  {
    if w > 0 {
      var b := ToBigEndian(n, w);
      assert b[..w - 1] == ToBigEndian(n / 256, w - 1);
      FromToBigEndian(n / 256, w - 1);
    }
  }

  lemma {:induction false} ToFromBigEndian(b: seq<Byte>)
    ensures ToBigEndian(FromBigEndian(b), |b|) == b
  {
    if b != [] {
      var front, last := b[..|b| - 1], b[|b| - 1];
      var n := FromBigEndian(b);
      assert n / 256 == FromBigEndian(front) && n % 256 == last;
      ToFromBigEndian(front);
      assert b == front + [last];
    }
  }

  /** Decoding what `encodeUint64` produced gives the value back. */
  lemma DecodeEncode(v: Uint64)
    ensures DecodeUint64(EncodeUint64(v)) == v
  {
    var b := EncodeUint64(v);
    assert b[..8] == b;
    assert Pow256(8) == Uint64Limit;
    FromToBigEndian(v, 8);
  }

  /** Every 8-byte slice is the encoding of the value it decodes to. */
  lemma EncodeDecode(b: seq<Byte>)
    requires |b| == 8
    ensures EncodeUint64(DecodeUint64(b)) == b
  {
    assert b[..8] == b;
    ToFromBigEndian(b);
  }

  /** Distinct values have distinct encodings. */
  lemma EncodeInjective(v: Uint64, w: Uint64)
    requires EncodeUint64(v) == EncodeUint64(w)
    ensures v == w
  {
    DecodeEncode(v);
    DecodeEncode(w);
  }

  // ---------------------------------------------------------------------
  // Order.

  lemma {:induction false} LexLessIrreflexive(a: seq<Byte>)
    ensures !LexLess(a, a)
  {
    if a != [] {
      LexLessIrreflexive(a[1..]);
    }
  }

  lemma {:induction false} LexLessAsymmetric(a: seq<Byte>, b: seq<Byte>)
    requires LexLess(a, b)
    ensures !LexLess(b, a)
  {
    if a != [] && b != [] && a[0] == b[0] {
      LexLessAsymmetric(a[1..], b[1..]);
    }
  }

  /** Once two equal-length sequences differ, what follows does not matter. */
  lemma {:induction false} LexLessExtend(a: seq<Byte>, b: seq<Byte>, x: seq<Byte>, y: seq<Byte>)
    requires |a| == |b| && LexLess(a, b)
    ensures LexLess(a + x, b + y)
  {
    assert (a + x)[0] == a[0] && (b + y)[0] == b[0];
    if a[0] == b[0] && !(a[0] < b[0]) {
      assert (a + x)[1..] == a[1..] + x;
      assert (b + y)[1..] == b[1..] + y;
      LexLessExtend(a[1..], b[1..], x, y);
    }
  }

  /** Equal prefixes: the last byte decides. */
  lemma {:induction false} LexLessLastByte(p: seq<Byte>, x: Byte, y: Byte)
    requires x < y
    ensures LexLess(p + [x], p + [y])
  {
    if p != [] {
      assert (p + [x])[1..] == p[1..] + [x];
      assert (p + [y])[1..] == p[1..] + [y];
      LexLessLastByte(p[1..], x, y);
    }
  }

  lemma {:induction false} ToBigEndianMonotone(i: nat, j: nat, w: nat)
    requires i < j < Pow256(w)
    ensures LexLess(ToBigEndian(i, w), ToBigEndian(j, w))
  {
    var hi, hj := i / 256, j / 256;
    if hi < hj {
      ToBigEndianMonotone(hi, hj, w - 1);
      LexLessExtend(ToBigEndian(hi, w - 1), ToBigEndian(hj, w - 1), [i % 256], [j % 256]);
    } else {
      LexLessLastByte(ToBigEndian(hi, w - 1), i % 256, j % 256);
    }
  }

  /**
   * The encoding preserves order in both directions: encodeUint64(i) sorts
   * before encodeUint64(j) in bytewise order exactly when i < j.
   */
  lemma EncodeOrder(i: Uint64, j: Uint64)
    ensures LexLess(EncodeUint64(i), EncodeUint64(j)) <==> i < j
  {
    assert Pow256(8) == Uint64Limit;
    if i < j {
      ToBigEndianMonotone(i, j, 8);
    } else if i == j {
      LexLessIrreflexive(EncodeUint64(i));
    } else {
      ToBigEndianMonotone(j, i, 8);
      LexLessAsymmetric(EncodeUint64(j), EncodeUint64(i));
    }
  }
}
