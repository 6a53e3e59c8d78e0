/** Key hashing and key equality for the three associative maps of the
    server: keys of type i32, keys of type i64, and length-prefixed byte
    strings. A hash table is only correct when keys its equality calls equal
    receive equal hashes; the lemmas here establish that for each map. */
module Assoc {
  import opened CTypes

  // ---------------------------------------------------------------------
  // Map `_i32ptr`: i32 keys, identity hash, integer equality.
  // ---------------------------------------------------------------------

  /** The i32 map's hash: the key itself. */
  function I32Hash(k: i32): i32
  {
    k
  }

  /** The i32 map's key equality. */
  predicate I32Eq(a: i32, b: i32)
  {
    a == b
  }

  /** The identity hash agrees with key equality in both directions: equal
      keys hash equally and distinct keys never collide. */
  lemma I32HashMatchesEq(a: i32, b: i32)
    ensures I32Eq(a, b) <==> I32Hash(a) == I32Hash(b)
  {
  }

  // ---------------------------------------------------------------------
  // Map `_i64ptr`: i64 keys, shift/xor mixer folded to 32 bits.
  // An i64 key is represented by its 64-bit two's complement pattern, so
  // key equality is equality of patterns.
  // ---------------------------------------------------------------------

  const SIGN64: bv64 := 0x8000_0000_0000_0000

  /** The key is a negative i64. */
  predicate IsNegative(k: bv64)
  {
    k & SIGN64 != 0
  }

  /** `k >> 33` on a signed 64-bit value as the compiler performs it: an
      arithmetic shift, which fills the vacated high bits with the sign. */
  function Sar33(k: bv64): (r: bv64)
    ensures r >> 31 == (if IsNegative(k) then 0x1_FFFF_FFFF else 0)
    ensures r & 0x7FFF_FFFF == k >> 33
  {
    if IsNegative(k) then (k >> 33) | 0xFFFF_FFFF_8000_0000 else k >> 33
  }

  /** The conversion to `uint32_t`: keep the low 32 bits. */
  function Low32(x: bv64): bv32
  {
    (x & 0xFFFF_FFFF) as bv32
  }

  /** The i64 map's hash: `(uint32_t)(k >> 33 ^ k ^ k << 11)`, with the
      left shift wrapping modulo 2^64. */
  function I64Hash(k: bv64): bv32
  {
    Low32(Sar33(k) ^ k ^ (k << 11))
  }

  /** The same mixer with a logical right shift, as an unsigned key would get. */
  function I64HashLogical(k: bv64): bv32
  {
    Low32((k >> 33) ^ k ^ (k << 11))
  }

  /** The i64 map's key equality. */
  predicate I64Eq(a: bv64, b: bv64)
  {
    a == b
  }

  /** The choice of shift is visible in exactly one bit of the hash: bit 31,
      which the arithmetic shift sets for negative keys and only for them. */
  lemma I64HashShiftChoice(k: bv64)
    ensures I64Hash(k) == I64HashLogical(k) ^ (if IsNegative(k) then 0x8000_0000 else 0)
  {
    if IsNegative(k) {
      SignFillXor(k);
      Low32Xor((k >> 33) ^ k ^ (k << 11), 0xFFFF_FFFF_8000_0000);
      assert Low32(0xFFFF_FFFF_8000_0000) == 0x8000_0000;
    }
  }

  /** Filling the vacated bits with ones flips exactly those bits of the mix. */
  lemma SignFillXor(k: bv64)
    ensures ((k >> 33) | 0xFFFF_FFFF_8000_0000) ^ k ^ (k << 11)
         == ((k >> 33) ^ k ^ (k << 11)) ^ 0xFFFF_FFFF_8000_0000
  {
  }

  /** Truncation to 32 bits commutes with exclusive or. */
  lemma Low32Xor(x: bv64, y: bv64)
    ensures Low32(x ^ y) == Low32(x) ^ Low32(y)
  {
  }

  /** Keys equal under the map's equality get the same hash. */
  lemma I64HashRespectsEq(a: bv64, b: bv64)
    ensures I64Eq(a, b) ==> I64Hash(a) == I64Hash(b)
  {
  }

  /** The mixer folds 64 bits into 32, so distinct keys can share a hash:
      key 2^32 lands in the same bucket as key 0, and lookups must compare
      keys with the map's equality. */
  lemma I64HashCollides()
    ensures !I64Eq(0x1_0000_0000, 0) && I64Hash(0x1_0000_0000) == I64Hash(0)
  {
  }

  // ---------------------------------------------------------------------
  // Map `_lstrptr`: keys are length-prefixed byte strings.
  // ---------------------------------------------------------------------

  /** A length-prefixed string once its varint prefix has been decoded:
      the declared length and the memory that follows the prefix. Only the
      first `len` bytes of `mem` belong to the string. */
  datatype LStr = LStr(len: u32, mem: seq<u8>)
  {
    /** The declared length does not run past the memory. */
    predicate Valid()
    {
      len as int <= |mem|
    }

    /** The bytes the string consists of. */
    function Payload(): (p: seq<u8>)
      requires Valid()
      ensures |p| == len as int
    {
      mem[..len]
    }
  }

  /** One step of the X31 hash: multiply by 31 and add the next byte,
      wrapping modulo 2^32. The hash is kept as its unsigned 32-bit pattern. */
  function X31Step(h: u32, b: u8): u32
  {
    ((h as int * 31 + b as int) % TWO_32) as u32
  }

  /** The X31 hash of a byte sequence: the left fold of X31Step from 0.
      Wrapping at every step gives the same hash as evaluating the
      polynomial X31Poly exactly and wrapping once at the end. */
  function X31(bytes: seq<u8>): (h: u32)
    ensures h as int == X31Poly(bytes) % TWO_32
    decreases |bytes|
  {
    if |bytes| == 0 then 0
    else
      var init := bytes[..|bytes| - 1];
      ModMulAdd(X31Poly(init), bytes[|bytes| - 1] as int);
      X31Step(X31(init), bytes[|bytes| - 1])
  }

  /** The X31 hash of a length-prefixed string, read as a C `int`. */
  function X31HashLStr(s: LStr): (h: i32)
    requires s.Valid()
    ensures s.len == 0 ==> h == 0
  {
    WrapI32(X31(s.Payload()) as int)
  }

  /** Appending a byte to the input adds one step to the fold. */
  lemma X31Snoc(bytes: seq<u8>, b: u8)
    ensures X31(bytes + [b]) == X31Step(X31(bytes), b)
  {
    assert (bytes + [b])[..|bytes|] == bytes;
  }

  /** `h << 5` on a 32-bit word: multiplication by 32, wrapping. */
  function ShiftLeft5(h: u32): u32
  {
    ((h as int * 32) % TWO_32) as u32
  }

  /** The source's `(h << 5) - h + byte`, computed modulo 2^32, is one X31
      step: shift-and-subtract multiplies by 31. */
  lemma ShiftSubIsStep(h: u32, b: u8)
    ensures ((ShiftLeft5(h) as int - h as int + b as int) % TWO_32) as u32 == X31Step(h, b)
  {
  }

  /** `__ac_X31_hash_lstr` as written: it walks exactly `len` bytes past
      the prefix, updating `h = (h << 5) - h + byte` in 32-bit arithmetic.
      Its result is the X31 fold of the payload. */
  method X31HashLoop(s: LStr) returns (h: i32)
    requires s.Valid()
    ensures h == X31HashLStr(s)
  {
    var acc: u32 := 0;
    var i := 0;
    while i < s.len as int
      invariant 0 <= i <= s.len as int
      invariant acc == X31(s.mem[..i])
    {
      ShiftSubIsStep(acc, s.mem[i]);
      assert s.mem[..i + 1] == s.mem[..i] + [s.mem[i]];
      X31Snoc(s.mem[..i], s.mem[i]);
      acc := ((ShiftLeft5(acc) as int - acc as int + s.mem[i] as int) % TWO_32) as u32;
      i := i + 1;
    }
    assert s.mem[..i] == s.Payload();
    h := WrapI32(acc as int);
  }

  /** The polynomial the X31 hash evaluates, without any wrap-around:
      the bytes are the coefficients of a polynomial in 31. */
  function X31Poly(bytes: seq<u8>): nat
    decreases |bytes|
  {
    if |bytes| == 0 then 0
    else X31Poly(bytes[..|bytes| - 1]) * 31 + bytes[|bytes| - 1] as int
  }

  /** Reducing before multiplying by 31 and adding does not change the
      result modulo 2^32. */
  lemma ModMulAdd(p: int, c: int)
    ensures ((p % TWO_32) * 31 + c) % TWO_32 == (p * 31 + c) % TWO_32
  {
  }

  /** Bytes past the declared length never reach the X31 hash. */
  lemma X31IgnoresTrailingBytes(s: LStr, extra: seq<u8>)
    requires s.Valid()
    ensures LStr(s.len, s.mem + extra).Valid()
    ensures X31HashLStr(LStr(s.len, s.mem + extra)) == X31HashLStr(s)
  {
    assert LStr(s.len, s.mem + extra).Payload() == s.Payload();
  }

  /** `memcmp` over two equal-length byte blocks: zero when they are
      equal, otherwise the sign of the first differing pair of bytes compared
      as unsigned values (C fixes only the sign, so the model returns -1 or 1). */
  function MemCmp(p: seq<u8>, q: seq<u8>): (r: int)
    requires |p| == |q|
    ensures -1 <= r <= 1
    ensures r == 0 <==> p == q
    ensures r != 0 ==> exists i :: 0 <= i < |p| && p[..i] == q[..i] && p[i] != q[i] && (r < 0 <==> p[i] < q[i])
    decreases |p|
  {
    if |p| == 0 then 0
    else if p[0] < q[0] then (assert p[..0] == q[..0]; -1)
    else if p[0] > q[0] then (assert p[..0] == q[..0]; 1)
    else
      var r := MemCmp(p[1..], q[1..]);
      assert p == [p[0]] + p[1..] && q == [q[0]] + q[1..];
      if r != 0 then
        var i :| 0 <= i < |p[1..]| && p[1..][..i] == q[1..][..i] && p[1..][i] != q[1..][i] && (r < 0 <==> p[1..][i] < q[1..][i]);
        assert p[..i + 1] == [p[0]] + p[1..][..i];
        assert q[..i + 1] == [q[0]] + q[1..][..i];
        r
      else r
  }

  /** `lstrcmp`: strings of different declared lengths compare as the
      unsigned difference `bl - al` read back as an `int`; strings of equal
      length compare by `memcmp` of their payloads. */
  function LStrCmp(a: LStr, b: LStr): (r: i32)
    requires a.Valid() && b.Valid()
    ensures r == 0 <==> a.len == b.len && a.Payload() == b.Payload()
  {
    if a.len != b.len then WrapI32(b.len as int - a.len as int)
    else MemCmp(a.Payload(), b.Payload()) as i32
  }

  /** When the declared lengths differ, the result is their wrapped
      difference, which is never zero. */
  lemma LStrCmpLengthMismatch(a: LStr, b: LStr)
    requires a.Valid() && b.Valid() && a.len != b.len
    ensures LStrCmp(a, b) == WrapI32(b.len as int - a.len as int) != 0
  {
  }

  /** `lstrcmp` finds every string equal to itself. */
  lemma LStrCmpReflexive(a: LStr)
    requires a.Valid()
    ensures LStrCmp(a, a) == 0
  {
  }

  /** The `_lstrptr` map's key equality: `lstrcmp(a, b) == 0`. */
  function LStrEq(a: LStr, b: LStr): (r: bool)
    requires a.Valid() && b.Valid()
    ensures r <==> a.len == b.len && a.Payload() == b.Payload()
  {
    LStrCmp(a, b) == 0
  }

  /** The `_lstrptr` map's hash: MurmurHash2 over the payload bytes with
      seed 13. MurmurHash2 is not part of this model, so it is a parameter:
      any function of the payload bytes. */
  function LStrHash(murmur: seq<u8> -> u32, s: LStr): (h: u32)
    requires s.Valid()
    ensures forall extra: seq<u8> {:trigger s.mem + extra} :: h == murmur((s.mem + extra)[..s.len])
  {
    forall extra: seq<u8> ensures (s.mem + extra)[..s.len] == s.Payload() {
      assert (s.mem + extra)[..s.len] == s.mem[..s.len];
    }
    murmur(s.Payload())
  }

  /** The hash-table contract for `_lstrptr`: keys equal under `lstrcmp`
      get the same MurmurHash2 bucket and the same X31 hash, whatever bytes
      follow their payloads in memory. */
  lemma LStrEqualKeysHashEqual(a: LStr, b: LStr, murmur: seq<u8> -> u32)
    requires a.Valid() && b.Valid() && LStrEq(a, b)
    ensures a.len == b.len
    ensures LStrHash(murmur, a) == LStrHash(murmur, b)
    ensures X31HashLStr(a) == X31HashLStr(b)
  {
  }

  /** The sign of -1, 0 or 1 of an integer. */
  function Sign(x: int): int
  {
    if x < 0 then -1 else if x > 0 then 1 else 0
  }

  /** Swapping the operands of `memcmp` flips the sign of its result. */
  lemma MemCmpAntisymmetric(p: seq<u8>, q: seq<u8>)
    requires |p| == |q|
    ensures MemCmp(p, q) == -MemCmp(q, p)
  {
  }

  /** While the declared lengths are less than 2^31 apart, swapping the
      operands of `lstrcmp` flips the sign of its result. */
  lemma LStrCmpAntisymmetric(a: LStr, b: LStr)
    requires a.Valid() && b.Valid()
    requires -TWO_31 < b.len as int - a.len as int < TWO_31
    ensures Sign(LStrCmp(a, b) as int) == -Sign(LStrCmp(b, a) as int)
  {
  }

  /** Lengths exactly 2^31 apart break that symmetry: both orders compare
      as "less", since `2^31` and `-2^31` wrap to the same `int`. The maps
      only ask whether `lstrcmp` is zero, so this does not affect them. */
  lemma LStrCmpNotAntisymmetricAtHalfRange(a: LStr, b: LStr)
    requires a.Valid() && b.Valid()
    requires b.len as int - a.len as int == TWO_31
    ensures LStrCmp(a, b) < 0 && LStrCmp(b, a) < 0
  {
  }

  /** Such a pair exists: the empty string and a string of 2^31 bytes. */
  lemma HalfRangePairExists()
    ensures var a := LStr(0, []);
            var b := LStr(0x8000_0000 as u32, seq(0x8000_0000, _ => 0 as u8));
            a.Valid() && b.Valid() && b.len as int - a.len as int == TWO_31
  {
  }
}
