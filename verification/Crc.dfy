/**
 ogg_crc (ttsbot/recording/ogg.py): zlib's reflected CRC-32 turned into Ogg's.
 A register is its 32 bits; index i is the bit of weight 2^i.
 */
module Crc {
  import opened Bytes

  type Word = w: seq<bool> | |w| == 32 witness seq(32, _ => false)

  function Zeros(n: nat): (r: seq<bool>)
    ensures |r| == n
  {
    seq(n, _ => false)
  }

  function Xor(a: seq<bool>, b: seq<bool>): (r: seq<bool>)
    requires |a| == |b|
    ensures |r| == |a|
  {
    seq(|a|, i requires 0 <= i < |a| => a[i] != b[i])
  }

  function Reverse(s: seq<bool>): (r: seq<bool>)
    ensures |r| == |s|
  {
    seq(|s|, i requires 0 <= i < |s| => s[|s| - 1 - i])
  }

  function ToBits(x: nat, n: nat): (r: seq<bool>)
    ensures |r| == n
  {
    if n == 0 then [] else [x % 2 == 1] + ToBits(x / 2, n - 1)
  }

  function Pow2(n: nat): nat { if n == 0 then 1 else 2 * Pow2(n - 1) }

  function FromBits(s: seq<bool>): (r: nat)
    ensures r < Pow2(|s|)
  {
    if s == [] then 0 else (if s[0] then 1 else 0) + 2 * FromBits(s[1..])
  }

  lemma {:induction false} BitsRoundTrip(s: seq<bool>)
    ensures ToBits(FromBits(s), |s|) == s
  {
    if s != [] {
      BitsRoundTrip(s[1..]);
      assert s == [s[0]] + s[1..];
    }
  }

  lemma ByteOfBits(s: seq<bool>)
    requires |s| == 8
    ensures FromBits(s) < 256
  {
    assert Pow2(8) == 256;
  }

  // ---- zlib.crc32 (RFC 1952, section 8): low bit first.

  /** The exponents of the generator below x^32: 0x04C11DB7 as a set of bits. */
  const TERMS: set<int> := {0, 1, 2, 4, 5, 7, 8, 10, 11, 12, 16, 22, 23, 26}

  /** 0xEDB88320: the generator with its bits reversed. */
  function ReflectedPoly(): Word { seq(32, i => (31 - i) in TERMS) }

  function ReflectedBit(c: Word): Word {
    Xor(c[1..] + [false], if c[0] then ReflectedPoly() else Zeros(32))
  }

  function ReflectedShift(c: Word, bits: nat): Word
    decreases bits
  {
    if bits == 0 then c else ReflectedShift(ReflectedBit(c), bits - 1)
  }

  /** The table-driven update: entry n of the table is n shifted eight times. */
  function ReflectedByte(c: Word, b: byte): Word {
    var index := Xor(c[..8], ToBits(b, 8));
    Xor(ReflectedShift(index + Zeros(24), 8), c[8..] + Zeros(8))
  }

  function ReflectedRun(c: Word, data: bytes): Word
    decreases |data|
  {
    if data == [] then c else ReflectedRun(ReflectedByte(c, data[0]), data[1..])
  }

  function Ones(): Word { seq(32, _ => true) }

  /** zlib.crc32(data, value): the register is kept complemented between calls. */
  function ZlibCrc32(data: bytes, value: Word): Word {
    Xor(ReflectedRun(Xor(value, Ones()), data), Ones())
  }

  // ---- ogg_crc

  /** Entry b of _REVERSED_BITS: the eight binary digits of b read backwards. */
  function ReversedBits(b: byte): (r: byte) {
    ByteOfBits(Reverse(ToBits(b, 8)));
    FromBits(Reverse(ToBits(b, 8)))
  }

  /** bytes.translate(_REVERSED_BITS) */
  function Translate(data: bytes): (r: bytes)
    ensures |r| == |data|
  {
    seq(|data|, k requires 0 <= k < |data| => ReversedBits(data[k]))
  }

  /** raw.to_bytes(4, "little") */
  function LittleBytes(w: Word): (r: bytes)
    ensures |r| == 4
  {
    ByteOfBits(w[0..8]); ByteOfBits(w[8..16]); ByteOfBits(w[16..24]); ByteOfBits(w[24..32]);
    [FromBits(w[0..8]), FromBits(w[8..16]), FromBits(w[16..24]), FromBits(w[24..32])]
  }

  /** int.from_bytes(b, "big") */
  function FromBE(b: bytes): nat {
    if b == [] then 0 else 256 * FromBE(b[..|b| - 1]) + b[|b| - 1]
  }

  function OggCrc(data: bytes): nat {
    var raw := Xor(ZlibCrc32(Translate(data), Ones()), Ones());
    FromBE(Translate(LittleBytes(raw)))
  }

  // ---- The reference (RFC 3533, section 6): MSB first, zero init, no final xor.

  /** 0x04C11DB7 */
  function MsbPoly(): Word { seq(32, i => i in TERMS) }

  function MsbBit(c: Word): Word {
    Xor([false] + c[..31], if c[31] then MsbPoly() else Zeros(32))
  }

  function MsbShift(c: Word, bits: nat): Word
    decreases bits
  {
    if bits == 0 then c else MsbShift(MsbBit(c), bits - 1)
  }

  function MsbByte(c: Word, b: byte): Word {
    MsbShift(Xor(c, Zeros(24) + ToBits(b, 8)), 8)
  }

  function MsbRun(c: Word, data: bytes): Word
    decreases |data|
  {
    if data == [] then c else MsbRun(MsbByte(c, data[0]), data[1..])
  }

  function Rfc3533Crc(data: bytes): nat { FromBits(MsbRun(Zeros(32), data)) }

  // ---- Reflection: one register is the other one reversed.

  lemma ReverseXor(a: seq<bool>, b: seq<bool>)
    requires |a| == |b|
    ensures Reverse(Xor(a, b)) == Xor(Reverse(a), Reverse(b))
  {}

  lemma ReverseBitStep(c: Word)
    ensures Reverse(ReflectedBit(c)) == MsbBit(Reverse(c))
  {
    var p, q := ReflectedPoly(), MsbPoly();
    assert Reverse(p) == q;
    assert Reverse(Zeros(32)) == Zeros(32);
    assert Reverse(c[1..] + [false]) == [false] + Reverse(c)[..31];
    ReverseXor(c[1..] + [false], if c[0] then p else Zeros(32));
  }

  lemma {:induction false} ReverseShift(c: Word, bits: nat)
    ensures Reverse(ReflectedShift(c, bits)) == MsbShift(Reverse(c), bits)
    decreases bits
  {
    if bits > 0 {
      ReverseBitStep(c);
      ReverseShift(ReflectedBit(c), bits - 1);
    }
  }

  /** The reflected shift is linear, so the table lookup equals shifting the whole register. */
  lemma ReflectedBitLinear(a: Word, b: Word)
    ensures ReflectedBit(Xor(a, b)) == Xor(ReflectedBit(a), ReflectedBit(b))
  {}

  lemma {:induction false} ReflectedShiftLinear(a: Word, b: Word, bits: nat)
    ensures ReflectedShift(Xor(a, b), bits) == Xor(ReflectedShift(a, bits), ReflectedShift(b, bits))
    decreases bits
  {
    if bits > 0 {
      ReflectedBitLinear(a, b);
      ReflectedShiftLinear(ReflectedBit(a), ReflectedBit(b), bits - 1);
    }
  }

  lemma {:induction false} ReflectedShiftHigh(c: Word, bits: nat)
    requires bits <= 32 && forall i :: 0 <= i < bits ==> !c[i]
    ensures ReflectedShift(c, bits) == c[bits..] + Zeros(bits)
    decreases bits
  {
    if bits > 0 {
      var d := ReflectedBit(c);
      assert d == c[1..] + [false];
      ReflectedShiftHigh(d, bits - 1);
    }
  }

  lemma TableIsShift(c: Word, b: byte)
    ensures ReflectedByte(c, b) == ReflectedShift(Xor(c, ToBits(b, 8) + Zeros(24)), 8)
  {
    var index := Xor(c[..8], ToBits(b, 8));
    var low, high := index + Zeros(24), Zeros(8) + c[8..];
    assert Xor(c, ToBits(b, 8) + Zeros(24)) == Xor(low, high);
    ReflectedShiftLinear(low, high, 8);
    ReflectedShiftHigh(high, 8);
    assert high[8..] == c[8..];
  }

  lemma ReverseByteStep(c: Word, b: byte)
    ensures Reverse(ReflectedByte(c, ReversedBits(b))) == MsbByte(Reverse(c), b)
  {
    hide ReflectedShift, MsbShift, ReflectedByte, FromBits, ToBits;
    var r := ReversedBits(b);
    BitsRoundTrip(Reverse(ToBits(b, 8)));
    TableIsShift(c, r);
    var x := Xor(c, ToBits(r, 8) + Zeros(24));
    ReverseShift(x, 8);
    assert Reverse(x) == Xor(Reverse(c), Zeros(24) + ToBits(b, 8));
  }

  lemma {:induction false} ReverseRun(c: Word, data: bytes)
    ensures Reverse(ReflectedRun(c, Translate(data))) == MsbRun(Reverse(c), data)
    decreases |data|
  {
    if data == [] {
      hide Reverse;
      assert Translate(data) == [];
    } else {
      var next := ReflectedByte(c, ReversedBits(data[0]));
      ReverseByteStep(c, data[0]);
      hide ReflectedByte, MsbByte, ReversedBits, Reverse;
      assert Translate(data)[0] == ReversedBits(data[0]) && Translate(data)[1..] == Translate(data[1..]);
      ReverseRun(next, data[1..]);
      hide Translate;
    }
  }

  lemma DoublePow(n: nat, x: nat)
    ensures 2 * (Pow2(n) * x) == Pow2(n + 1) * x
  {}

  lemma {:induction false} FromBitsAppend(a: seq<bool>, b: seq<bool>)
    ensures FromBits(a + b) == FromBits(a) + Pow2(|a|) * FromBits(b)
  {
    if a == [] {
      assert a + b == b;
    } else {
      FromBitsAppend(a[1..], b);
      assert (a + b)[1..] == a[1..] + b;
      DoublePow(|a| - 1, FromBits(b));
    }
  }

  lemma FourBytesBE(b: bytes)
    requires |b| == 4
    ensures FromBE(b) == 16777216 * (b[0] as int) + 65536 * (b[1] as int) + 256 * (b[2] as int) + (b[3] as int)
  {
    assert b[..3][..2] == b[..2] && b[..2][..1] == b[..1] && b[..1][..0] == [];
    assert FromBE(b[..1]) == b[0];
    assert FromBE(b[..2]) == 256 * FromBE(b[..1]) + b[1];
    assert FromBE(b[..3]) == 256 * FromBE(b[..2]) + b[2];
  }

  lemma FourBytesOfBits(r: Word)
    ensures FromBits(r) == 256 * (256 * (256 * FromBits(r[24..32]) + FromBits(r[16..24])) + FromBits(r[8..16])) + FromBits(r[0..8])
  {
    assert Pow2(8) == 256;
    assert r == r[0..8] + r[8..32] && r[8..32] == r[8..16] + r[16..32] && r[16..32] == r[16..24] + r[24..32];
    FromBitsAppend(r[0..8], r[8..32]);
    FromBitsAppend(r[8..16], r[16..32]);
    FromBitsAppend(r[16..24], r[24..32]);
  }

  lemma ReverseSlice(w: Word, i: nat, j: nat)
    requires i <= j <= 32
    ensures Reverse(w[i..j]) == Reverse(w)[32 - j..32 - i]
  {}

  lemma ReversedSlice(w: Word, i: nat, j: nat)
    requires i <= j <= 32 && j - i == 8
    ensures FromBits(w[i..j]) < 256
    ensures ReversedBits(FromBits(w[i..j])) == FromBits(Reverse(w)[32 - j..32 - i])
  {
    ByteOfBits(w[i..j]);
    BitsRoundTrip(w[i..j]);
    hide FromBits, ToBits;
    ReverseSlice(w, i, j);
    hide Reverse;
  }

  lemma ReversedBytesBackwards(w: Word)
    ensures FromBE(Translate(LittleBytes(w))) == FromBits(Reverse(w))
  {
    hide Translate, LittleBytes, FromBE, FromBits, Reverse;
    TranslatedLittle(w);
    FourBytesBE(Translate(LittleBytes(w)));
    FourBytesOfBits(Reverse(w));
  }

  lemma TranslatedLittle(w: Word)
    ensures var b := Translate(LittleBytes(w));
            && b[0] == FromBits(Reverse(w)[24..32]) && b[1] == FromBits(Reverse(w)[16..24])
            && b[2] == FromBits(Reverse(w)[8..16]) && b[3] == FromBits(Reverse(w)[0..8])
  {
    hide Translate, LittleBytes, FromBits, Reverse;
    TranslatedAt(w, 0);
    TranslatedAt(w, 1);
    TranslatedAt(w, 2);
    TranslatedAt(w, 3);
  }

  lemma TranslatedAt(w: Word, k: nat)
    requires k < 4
    ensures Translate(LittleBytes(w))[k] == FromBits(Reverse(w)[24 - 8 * k..32 - 8 * k])
  {
    hide ReversedBits, FromBits, Reverse;
    LittleAt(w, k);
    hide LittleBytes;
    ReversedSlice(w, 8 * k, 8 * k + 8);
  }

  lemma LittleAt(w: Word, k: nat)
    requires k < 4
    ensures LittleBytes(w)[k] == FromBits(w[8 * k..8 * k + 8])
  {
    hide FromBits;
  }

  lemma Complements(w: Word)
    ensures Xor(Ones(), Ones()) == Zeros(32)
    ensures Xor(Xor(w, Ones()), Ones()) == w
    ensures Reverse(Zeros(32)) == Zeros(32)
  {}

  /** The reflected computation over bit-reversed bytes is the CRC of RFC 3533, for every byte string. */
  lemma OggCrcIsRfc3533(data: bytes)
    ensures OggCrc(data) == Rfc3533Crc(data)
  {
    var raw := ReflectedRun(Xor(Ones(), Ones()), Translate(data));
    Complements(raw);
    ReversedBytesBackwards(raw);
    ReverseRun(Zeros(32), data);
  }

  /** The value fits the four-byte checksum field of a page. */
  lemma CrcFits(data: bytes)
    ensures OggCrc(data) < Pow256(4)
  {
    hide Pow2, Pow256, OggCrc, MsbRun;
    OggCrcIsRfc3533(data);
    WordFits();
  }

  lemma WordFits()
    ensures Pow2(32) == Pow256(4)
  {
    assert Pow2(8) == 256 && Pow2(16) == 65536 && Pow2(24) == 16777216 && Pow2(32) == 4294967296;
    assert Pow256(4) == 4294967296;
  }

  // ---- Error detection: two strings that differ in one burst of four bytes have different CRCs.

  lemma {:induction false} ToBitsValue(x: nat, n: nat)
    requires x < Pow2(n)
    ensures FromBits(ToBits(x, n)) == x
  {
    if n > 0 {
      ToBitsValue(x / 2, n - 1);
      assert ToBits(x, n)[1..] == ToBits(x / 2, n - 1);
    }
  }

  lemma {:induction false} FromBitsInjective(a: seq<bool>, b: seq<bool>)
    requires |a| == |b| && FromBits(a) == FromBits(b)
    ensures a == b
  {
    BitsRoundTrip(a);
    BitsRoundTrip(b);
  }

  lemma MsbBitInjective(c: Word, d: Word)
    requires MsbBit(c) == MsbBit(d)
    ensures c == d
  {
    assert MsbBit(c)[0] == c[31] && MsbBit(d)[0] == d[31];
    forall i | 0 <= i < 31 ensures c[i] == d[i] {
      assert MsbBit(c)[i + 1] == MsbBit(d)[i + 1];
      assert ([false] + c[..31])[i + 1] == c[i] && ([false] + d[..31])[i + 1] == d[i];
    }
  }

  lemma {:induction false} MsbShiftInjective(c: Word, d: Word, bits: nat)
    requires MsbShift(c, bits) == MsbShift(d, bits)
    ensures c == d
    decreases bits
  {
    if bits > 0 {
      MsbShiftInjective(MsbBit(c), MsbBit(d), bits - 1);
      MsbBitInjective(c, d);
    }
  }

  lemma XorCancels(a: Word, b: Word, x: Word)
    requires Xor(a, x) == Xor(b, x)
    ensures a == b
  {
    forall i | 0 <= i < 32 ensures a[i] == b[i] {
      assert Xor(a, x)[i] == Xor(b, x)[i];
    }
  }

  lemma {:induction false} MsbRunInjective(c: Word, d: Word, data: bytes)
    requires MsbRun(c, data) == MsbRun(d, data)
    ensures c == d
    decreases |data|
  {
    if data != [] {
      var x := Zeros(24) + ToBits(data[0], 8);
      MsbRunInjective(MsbByte(c, data[0]), MsbByte(d, data[0]), data[1..]);
      MsbShiftInjective(Xor(c, x), Xor(d, x), 8);
      XorCancels(c, d, x);
    }
  }

  lemma {:induction false} MsbRunAppend(c: Word, a: bytes, b: bytes)
    ensures MsbRun(c, a + b) == MsbRun(MsbRun(c, a), b)
    decreases |a|
  {
    if a == [] {
      assert a + b == b;
    } else {
      assert (a + b)[1..] == a[1..] + b;
      MsbRunAppend(MsbByte(c, a[0]), a[1..], b);
    }
  }

  lemma MsbBitLinear(a: Word, b: Word)
    ensures MsbBit(Xor(a, b)) == Xor(MsbBit(a), MsbBit(b))
  {}

  lemma {:induction false} MsbShiftLinear(a: Word, b: Word, bits: nat)
    ensures MsbShift(Xor(a, b), bits) == Xor(MsbShift(a, bits), MsbShift(b, bits))
    decreases bits
  {
    if bits > 0 {
      MsbBitLinear(a, b);
      MsbShiftLinear(MsbBit(a), MsbBit(b), bits - 1);
    }
  }

  lemma {:induction false} MsbShiftLow(c: Word, bits: nat)
    requires bits <= 32 && forall i :: 32 - bits <= i < 32 ==> !c[i]
    ensures MsbShift(c, bits) == Zeros(bits) + c[..32 - bits]
    decreases bits
  {
    if bits > 0 {
      var d := MsbBit(c);
      assert d == [false] + c[..31];
      MsbShiftLow(d, bits - 1);
    }
  }

  lemma {:induction false} MsbShiftAdd(c: Word, m: nat, n: nat)
    ensures MsbShift(c, m + n) == MsbShift(MsbShift(c, m), n)
    decreases m
  {
    if m > 0 { MsbShiftAdd(MsbBit(c), m - 1, n); }
  }

  /** Up to four bytes as one register, first byte at the top. */
  function TopWord(d: bytes): Word
    decreases |d|
  {
    if d == [] then Zeros(32) else TopWord(d[1..])[8..] + ToBits(d[0], 8)
  }

  lemma {:induction false} TopWordLow(d: bytes)
    requires |d| <= 4
    ensures forall i :: 0 <= i < 32 - 8 * |d| ==> !TopWord(d)[i]
    decreases |d|
  {
    if d != [] { TopWordLow(d[1..]); }
  }

  /** The bytes after the first reach the register by shifting it eight bits up. */
  lemma TopWordSplits(c: Word, d: bytes)
    requires 0 < |d| <= 4
    ensures Xor(MsbByte(c, d[0]), TopWord(d[1..])) == MsbShift(Xor(c, TopWord(d)), 8)
  {
    var first, rest := Zeros(24) + ToBits(d[0], 8), TopWord(d[1..]);
    var below := rest[8..] + Zeros(8);
    TopWordLow(d[1..]);
    MsbShiftLow(below, 8);
    assert Zeros(8) + below[..24] == rest;
    MsbShiftLinear(Xor(c, first), below, 8);
    assert Xor(Xor(c, first), below) == Xor(c, TopWord(d));
  }

  lemma XorNothing(c: Word)
    ensures Xor(c, TopWord([])) == c && MsbShift(c, 0) == c && MsbRun(c, []) == c
  {
    assert Xor(c, Zeros(32)) == c;
  }

  lemma {:induction false} ShortRunIsOneShift(c: Word, d: bytes)
    requires |d| <= 4
    ensures MsbRun(c, d) == MsbShift(Xor(c, TopWord(d)), 8 * |d|)
    decreases |d|
  {
    hide TopWord, MsbByte, MsbShift, Xor, MsbRun;
    if d == [] {
      XorNothing(c);
    } else {
      var e, rest, all := MsbByte(c, d[0]), d[1..], Xor(c, TopWord(d));
      RunFirst(c, d);
      ShortRunIsOneShift(e, rest);
      TopWordSplits(c, d);
      MsbShiftAdd(all, 8, 8 * |rest|);
      assert 8 + 8 * |rest| == 8 * |d|;
    }
  }

  lemma RunFirst(c: Word, d: bytes)
    requires d != []
    ensures MsbRun(c, d) == MsbRun(MsbByte(c, d[0]), d[1..])
  {}

  lemma {:induction false} TopWordInjective(a: bytes, b: bytes)
    requires |a| == |b| <= 4 && TopWord(a) == TopWord(b)
    ensures a == b
    decreases |a|
  {
    if a != [] {
      var x, y := TopWord(a[1..]), TopWord(b[1..]);
      TopWordLow(a[1..]);
      TopWordLow(b[1..]);
      assert TopWord(a)[24..] == ToBits(a[0], 8) && TopWord(b)[24..] == ToBits(b[0], 8);
      assert TopWord(a)[..24] == x[8..] && TopWord(b)[..24] == y[8..];
      assert x == x[..8] + x[8..] && y == y[..8] + y[8..] && x[..8] == Zeros(8) && y[..8] == Zeros(8);
      TopWordInjective(a[1..], b[1..]);
      assert Pow2(8) == 256;
      ToBitsValue(a[0], 8);
      ToBitsValue(b[0], 8);
      assert a == [a[0]] + a[1..] && b == [b[0]] + b[1..];
    }
  }

  lemma CrcInThreeParts(before: bytes, a: bytes, after: bytes)
    ensures OggCrc(before + a + after) == FromBits(MsbRun(MsbRun(MsbRun(Zeros(32), before), a), after))
  {
    OggCrcIsRfc3533(before + a + after);
    MsbRunAppend(Zeros(32), before + a, after);
    MsbRunAppend(Zeros(32), before, a);
  }

  lemma BurstMovesRegister(c: Word, a: bytes, b: bytes)
    requires |a| == |b| <= 4 && a != b
    ensures MsbRun(c, a) != MsbRun(c, b)
  {
    if MsbRun(c, a) == MsbRun(c, b) {
      var x, y := TopWord(a), TopWord(b);
      ShortRunIsOneShift(c, a);
      ShortRunIsOneShift(c, b);
      MsbShiftInjective(Xor(c, x), Xor(c, y), 8 * |a|);
      assert Xor(x, c) == Xor(c, x) && Xor(y, c) == Xor(c, y);
      XorCancels(x, y, c);
      TopWordInjective(a, b);
    }
  }

  /** A burst of damage within four bytes always changes the CRC. */
  lemma BurstDetected(before: bytes, a: bytes, b: bytes, after: bytes)
    requires |a| == |b| <= 4 && a != b
    ensures OggCrc(before + a + after) != OggCrc(before + b + after)
  {
    CrcInThreeParts(before, a, after);
    CrcInThreeParts(before, b, after);
    var c := MsbRun(Zeros(32), before);
    BurstMovesRegister(c, a, b);
    if OggCrc(before + a + after) == OggCrc(before + b + after) {
      FromBitsInjective(MsbRun(MsbRun(c, a), after), MsbRun(MsbRun(c, b), after));
      MsbRunInjective(MsbRun(c, a), MsbRun(c, b), after);
    }
  }
}
