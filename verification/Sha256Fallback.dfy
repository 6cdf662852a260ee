/** JavaScript numbers as the digest uses them: integer-valued doubles, exact as
    long as they stay safe, with bit operators that first reduce both operands
    modulo 2^32 and, except for `>>>`, answer as signed 32-bit integers. */
module JsNumber {
  import opened Fips180

  const MAX_SAFE: int := 0x1F_FFFF_FFFF_FFFF

  predicate Safe(x: int) { -MAX_SAFE <= x <= MAX_SAFE }

  function ToUint32(x: int): Word { x % TWO_32 }

  function ToInt32(x: int): (r: int)
    ensures -0x8000_0000 <= r < 0x8000_0000
    ensures ToUint32(r) == ToUint32(x)
  {
    var u := ToUint32(x);
    if u < 0x8000_0000 then u else u - TWO_32
  }

  /** `x + y`; the requirement shows that no sum of the digest is ever rounded. */
  function Add(x: int, y: int): int
    requires Safe(x) && Safe(y) && Safe(x + y)
  {
    x + y
  }

  function BitXor(x: int, y: int): (r: int)
    ensures -0x8000_0000 <= r < 0x8000_0000
  {
    ToInt32(Xor(ToUint32(x), ToUint32(y)))
  }

  function BitAnd(x: int, y: int): (r: int)
    ensures -0x8000_0000 <= r < 0x8000_0000
  {
    ToInt32(And(ToUint32(x), ToUint32(y)))
  }

  function BitOr(x: int, y: int): (r: int)
    ensures -0x8000_0000 <= r < 0x8000_0000
  {
    ToInt32(Or(ToUint32(x), ToUint32(y)))
  }

  function BitNot(x: int): (r: int)
    ensures -0x8000_0000 <= r < 0x8000_0000
  {
    ToInt32(Not(ToUint32(x)))
  }

  /** `x << n` */
  function ShiftLeft(x: int, n: nat): (r: int)
    requires n < 32
    ensures -0x8000_0000 <= r < 0x8000_0000
  {
    ToInt32(Shl(ToUint32(x), n))
  }

  /** `x >>> n` */
  function ShiftRight(x: int, n: nat): Word
    requires n < 32
  {
    Shr(ToUint32(x), n)
  }
}

/** packages/shared/src/sha256-hex.ts */
module Sha256Fallback {
  import opened Text
  import opened Fips180
  import opened JsNumber

  // ---- the arithmetic of one schedule word and of one round --------------

  function Ror(value: int, bits: nat): int
    requires 0 < bits < 32
  {
    BitOr(ShiftRight(value, bits), ShiftLeft(value, 32 - bits))
  }

  /** Signed or not, a rotated value stands for the rotated word. */
  lemma RorIsRotr(v: Word, bits: nat)
    requires 0 < bits < 32
    ensures ToUint32(Ror(v, bits)) == Rotr(bits, v)
    ensures -0x8000_0000 <= Ror(v, bits) < 0x8000_0000
  {
    hide Or, Shl, Shr;
  }

  /** Each bit operator stands for the word operation on the words its operands stand for. */
  lemma BitOperators(x: int, y: int)
    ensures ToUint32(BitXor(x, y)) == Xor(ToUint32(x), ToUint32(y))
    ensures ToUint32(BitAnd(x, y)) == And(ToUint32(x), ToUint32(y))
    ensures ToUint32(BitNot(x)) == Not(ToUint32(x))
  {
    hide And, Xor, Not;
  }

  lemma Xor3(x: int, y: int, z: int)
    ensures ToUint32(BitXor(BitXor(x, y), z)) == Xor(Xor(ToUint32(x), ToUint32(y)), ToUint32(z))
  {
    hide And, Xor, Not, BitXor, BitAnd, BitNot;
    BitOperators(x, y);
    BitOperators(BitXor(x, y), z);
  }

  lemma SumModulo(x: int, y: int)
    ensures ToUint32(ToUint32(x) + y) == ToUint32(x + y)
  {
  }

  /** Reducing once at the end is the same as adding modulo 2^32 throughout. */
  lemma SumOfFour(a: Word, s: int, b: Word, t: int)
    ensures ToUint32(a + s + b + t) == Plus(Plus(Plus(ToUint32(t), b), ToUint32(s)), a)
  {
    SumModulo(t, b);
    SumModulo(t + b, ToUint32(s));
    SumModulo(s, t + b);
    SumModulo(t + b + s, a);
  }

  function SmallS0(w: Word): (r: int)
    ensures -0x8000_0000 <= r < 0x8000_0000
  {
    BitXor(BitXor(Ror(w, 7), Ror(w, 18)), ShiftRight(w, 3))
  }

  function SmallS1(w: Word): (r: int)
    ensures -0x8000_0000 <= r < 0x8000_0000
  {
    BitXor(BitXor(Ror(w, 17), Ror(w, 19)), ShiftRight(w, 10))
  }

  lemma SmallSigmas(w: Word)
    ensures ToUint32(SmallS0(w)) == SmallSigma0(w)
    ensures ToUint32(SmallS1(w)) == SmallSigma1(w)
  {
    hide And, Or, Xor, Not, Shl, Shr;
    RorIsRotr(w, 7); RorIsRotr(w, 18); RorIsRotr(w, 17); RorIsRotr(w, 19);
    hide Ror, Rotr, ToInt32;
    Xor3(Ror(w, 7), Ror(w, 18), ShiftRight(w, 3));
    Xor3(Ror(w, 17), Ror(w, 19), ShiftRight(w, 10));
  }

  function ScheduleWord(w16: Word, w15: Word, w7: Word, w2: Word): Word {
    ToUint32(Add(Add(Add(w16, SmallS0(w15)), w7), SmallS1(w2)))
  }

  lemma ScheduleWordIsFips(w16: Word, w15: Word, w7: Word, w2: Word)
    ensures ScheduleWord(w16, w15, w7, w2)
         == Plus(Plus(Plus(SmallSigma1(w2), w7), SmallSigma0(w15)), w16)
  {
    hide SmallS0, SmallS1, SmallSigma0, SmallSigma1;
    SmallSigmas(w15);
    SmallSigmas(w2);
    SumOfFour(w16, SmallS0(w15), w7, SmallS1(w2));
  }

  function BigS0(a: Word): (r: int)
    ensures -0x8000_0000 <= r < 0x8000_0000
  {
    BitXor(BitXor(Ror(a, 2), Ror(a, 13)), Ror(a, 22))
  }

  function BigS1(e: Word): (r: int)
    ensures -0x8000_0000 <= r < 0x8000_0000
  {
    BitXor(BitXor(Ror(e, 6), Ror(e, 11)), Ror(e, 25))
  }

  function Choose(e: Word, f: Word, g: Word): (r: int)
    ensures -0x8000_0000 <= r < 0x8000_0000
  {
    BitXor(BitAnd(e, f), BitAnd(BitNot(e), g))
  }

  function Majority(a: Word, b: Word, c: Word): (r: int)
    ensures -0x8000_0000 <= r < 0x8000_0000
  {
    BitXor(BitXor(BitAnd(a, b), BitAnd(a, c)), BitAnd(b, c))
  }

  lemma BigSigmas(w: Word)
    ensures ToUint32(BigS0(w)) == BigSigma0(w)
    ensures ToUint32(BigS1(w)) == BigSigma1(w)
  {
    hide And, Or, Xor, Not, Shl, Shr;
    RorIsRotr(w, 2); RorIsRotr(w, 13); RorIsRotr(w, 22);
    RorIsRotr(w, 6); RorIsRotr(w, 11); RorIsRotr(w, 25);
    hide Ror, Rotr, ToInt32;
    Xor3(Ror(w, 2), Ror(w, 13), Ror(w, 22));
    Xor3(Ror(w, 6), Ror(w, 11), Ror(w, 25));
  }

  lemma ChooseAndMajority(x: Word, y: Word, z: Word)
    ensures ToUint32(Choose(x, y, z)) == Ch(x, y, z)
    ensures ToUint32(Majority(x, y, z)) == Maj(x, y, z)
  {
    hide And, Or, Xor, Not, BitXor, BitAnd, BitNot;
    BitOperators(x, y);
    BitOperators(x, z);
    BitOperators(y, z);
    BitOperators(BitNot(x), z);
    BitOperators(BitAnd(x, y), BitAnd(BitNot(x), z));
    Xor3(BitAnd(x, y), BitAnd(x, z), BitAnd(y, z));
    assert ToUint32(x) == x && ToUint32(y) == y && ToUint32(z) == z;
  }

  /** One round as the loop body computes it (lines 58 to 72). */
  function FallbackRound(s: Hash, k: Word, w: Word): Hash {
    var temp1 := ToUint32(Add(Add(Add(Add(s.h, BigS1(s.e)), Choose(s.e, s.f, s.g)), k), w));
    var temp2 := ToUint32(Add(BigS0(s.a), Majority(s.a, s.b, s.c)));
    Hash(ToUint32(Add(temp1, temp2)), s.a, s.b, s.c, ToUint32(Add(s.d, temp1)), s.e, s.f, s.g)
  }

  lemma SumOfFive(h: Word, s: int, c: int, k: Word, w: Word)
    ensures ToUint32(h + s + c + k + w) == Plus(Plus(Plus(Plus(h, ToUint32(s)), ToUint32(c)), k), w)
  {
    SumModulo(s, h);
    SumModulo(h + s, ToUint32(c));
    SumModulo(c, h + s);
    SumModulo(h + s + c, k);
    SumModulo(h + s + c + k, w);
  }

  lemma SumOfTwo(x: int, y: int)
    ensures ToUint32(x + y) == Plus(ToUint32(x), ToUint32(y))
  {
    SumModulo(x, y);
    SumModulo(y, ToUint32(x));
  }

  lemma RoundIsFips(s: Hash, k: Word, w: Word)
    ensures FallbackRound(s, k, w) == Round(s, k, w)
  {
    hide ToUint32, Plus, BigS0, BigS1, Choose, Majority, BigSigma0, BigSigma1, Ch, Maj;
    BigSigmas(s.e);
    BigSigmas(s.a);
    ChooseAndMajority(s.e, s.f, s.g);
    ChooseAndMajority(s.a, s.b, s.c);
    SumOfFive(s.h, BigS1(s.e), Choose(s.e, s.f, s.g), k, w);
    SumOfTwo(BigS0(s.a), Majority(s.a, s.b, s.c));
    SumOfWords(ToUint32(s.h + BigS1(s.e) + Choose(s.e, s.f, s.g) + k + w),
               ToUint32(BigS0(s.a) + Majority(s.a, s.b, s.c)));
    SumOfWords(s.d, ToUint32(s.h + BigS1(s.e) + Choose(s.e, s.f, s.g) + k + w));
  }

  lemma SumOfWords(x: Word, y: Word)
    ensures ToUint32(x + y) == Plus(x, y)
  {
  }

  // ---- padding -----------------------------------------------------------

  function PaddedLength(length: nat): (p: nat)
    ensures p % 64 == 0 && p >= length + 9
    ensures forall q: nat :: q % 64 == 0 && q >= length + 9 ==> p <= q
  {
    (length + 9 + 63) / 64 * 64
  }

  /** The bytes left in `buf`: only the low 32 bits of the length are written. */
  function FallbackPad(message: seq<Byte>): (padded: seq<Byte>)
    ensures |padded| == PaddedLength(|message|)
  {
    message + [0x80] + Zeros(PaddedLength(|message|) - |message| - 5) + BigEndian(ToUint32(8 * |message|), 4)
  }

  lemma DropByte(x: nat, z: nat, r: nat)
    requires x == z * 0x100 + r
    ensures x / 0x100 == z + r / 0x100 && x % 0x100 == r % 0x100
  {
  }

  /** Eight bytes of a length are its high word followed by its low word. */
  lemma BigEndianOfLength(x: nat, high: nat, low: nat)
    requires x == high * TWO_32 + low && low < TWO_32
    ensures BigEndian(x, 8) == BigEndian(high, 4) + BigEndian(low, 4)
  {
    hide BigEndian;
    BigEndianPeel(x, 8);
    BigEndianPeel(low, 4);
    DropByte(x, high * 0x100_0000, low);
    DropByte(x / 0x100, high * 0x1_0000, low / 0x100);
    DropByte(x / 0x100 / 0x100, high * 0x100, low / 0x100 / 0x100);
    DropByte(x / 0x100 / 0x100 / 0x100, high, low / 0x100 / 0x100 / 0x100);
    assert low / 0x100 / 0x100 / 0x100 / 0x100 == 0;
  }

  lemma BigEndianPeel(x: nat, n: nat)
    requires n >= 4
    ensures BigEndian(x, n) == BigEndian(x / 0x100 / 0x100 / 0x100 / 0x100, n - 4)
         + [x / 0x100 / 0x100 / 0x100 % 0x100, x / 0x100 / 0x100 % 0x100, x / 0x100 % 0x100, x % 0x100]
  {
    assert BigEndian(x, n) == BigEndian(x / 0x100, n - 1) + [x % 0x100];
    assert BigEndian(x / 0x100, n - 1) == BigEndian(x / 0x100 / 0x100, n - 2) + [x / 0x100 % 0x100];
    assert BigEndian(x / 0x100 / 0x100, n - 2) ==
      BigEndian(x / 0x100 / 0x100 / 0x100, n - 3) + [x / 0x100 / 0x100 % 0x100];
    assert BigEndian(x / 0x100 / 0x100 / 0x100, n - 3)
        == BigEndian(x / 0x100 / 0x100 / 0x100 / 0x100, n - 4) + [x / 0x100 / 0x100 / 0x100 % 0x100];
  }

  lemma BigEndianZero(x: nat)
    requires x < TWO_32
    ensures BigEndian(x, 4) == Zeros(4) <==> x == 0
  {
    hide BigEndian;
    BigEndianPeel(x, 4);
    var x1 := x / 0x100;
    var x2 := x1 / 0x100;
    var x3 := x2 / 0x100;
    assert x3 < 0x100;
    if BigEndian(x, 4) == Zeros(4) {
      assert x3 % 0x100 == Zeros(4)[0] == 0;
      assert x2 % 0x100 == Zeros(4)[1] == 0;
      assert x1 % 0x100 == Zeros(4)[2] == 0;
      assert x % 0x100 == Zeros(4)[3] == 0;
    }
  }

  lemma PaddedLengths(length: nat, q: nat, r: nat)
    requires length == 64 * q + r && r < 64
    ensures PaddedLength(length) == 64 * (if r < 56 then q + 1 else q + 2)
    ensures ZeroBits(8 * length) == if r < 56 then 447 - 8 * r else 959 - 8 * r
  {
    assert length + 72 == 64 * (if r < 56 then q + 1 else q + 2) + (if r < 56 then r + 8 else r - 56);
    assert 447 - 8 * length == 512 * (0 - q) + 447 - 8 * r;
    assert 447 - 8 * length == 512 * (0 - q - 1) + 959 - 8 * r;
  }

  lemma MiddleDecides<T>(head: seq<T>, a: seq<T>, b: seq<T>, tail: seq<T>)
    requires |a| == |b|
    ensures head + a + tail == head + b + tail <==> a == b
  {
    assert (head + a + tail)[|head|..|head| + |a|] == a;
    assert (head + b + tail)[|head|..|head| + |b|] == b;
  }

  /** Both paddings differ at most in the high word of the length. */
  lemma PaddingShapes(message: seq<Byte>, bits: nat, zeros: nat)
    requires bits == 8 * |message| < 0x1_0000_0000_0000_0000
    requires zeros == (ZeroBits(bits) - 7) / 8
    ensures |Pad(message)| == PaddedLength(|message|) == |message| + zeros + 9
    ensures Pad(message)
         == message + [0x80] + Zeros(zeros) + BigEndian(bits / TWO_32, 4) + BigEndian(ToUint32(bits), 4)
    ensures FallbackPad(message)
         == message + [0x80] + Zeros(zeros) + Zeros(4) + BigEndian(ToUint32(bits), 4)
  {
    hide *;
    PaddingZeros(|message|, bits, zeros);
    ZerosSplit(zeros);
    PadShape(message, bits, zeros);
    FallbackShape(message, bits, zeros);
  }

  lemma PaddingZeros(length: nat, bits: nat, zeros: nat)
    requires bits == 8 * length && zeros == (ZeroBits(bits) - 7) / 8
    ensures PaddedLength(length) == length + zeros + 9
  {
    PaddedLengths(length, length / 64, length % 64);
    hide ZeroBits, PaddedLength;
  }

  lemma ZerosSplit(zeros: nat)
    ensures Zeros(zeros + 4) == Zeros(zeros) + Zeros(4) && |Zeros(zeros)| == zeros
  {
  }

  lemma PadShape(message: seq<Byte>, bits: nat, zeros: nat)
    requires bits == 8 * |message| < 0x1_0000_0000_0000_0000 && zeros == (ZeroBits(bits) - 7) / 8
    requires |Zeros(zeros)| == zeros
    ensures |Pad(message)| == |message| + zeros + 9
    ensures Pad(message)
         == message + [0x80] + Zeros(zeros) + BigEndian(bits / TWO_32, 4) + BigEndian(ToUint32(bits), 4)
  {
    BigEndianOfLength(bits, bits / TWO_32, ToUint32(bits));
    hide BigEndian, ZeroBits, ToUint32, Zeros;
  }

  lemma FallbackShape(message: seq<Byte>, bits: nat, zeros: nat)
    requires bits == 8 * |message| && PaddedLength(|message|) == |message| + zeros + 9
    requires Zeros(zeros + 4) == Zeros(zeros) + Zeros(4)
    ensures FallbackPad(message)
         == message + [0x80] + Zeros(zeros) + Zeros(4) + BigEndian(ToUint32(bits), 4)
  {
    hide BigEndian, ToUint32, PaddedLength, Zeros;
    assert PaddedLength(|message|) - |message| - 5 == zeros + 4;
  }

  /** The fallback pads as section 5.1.1 does exactly when the length in bits fits 32 bits. */
  lemma PaddingIsFips(message: seq<Byte>)
    requires 8 * |message| < 0x1_0000_0000_0000_0000
    ensures |Pad(message)| == |FallbackPad(message)|
    ensures FallbackPad(message) == Pad(message) <==> |message| < 0x2000_0000
  {
    hide BigEndian, ZeroBits, Pad, FallbackPad, PaddedLength;
    var bits := 8 * |message|;
    var zeros := (ZeroBits(bits) - 7) / 8;
    PaddingShapes(message, bits, zeros);
    BigEndianZero(bits / TWO_32);
    MiddleDecides(message + [0x80] + Zeros(zeros), Zeros(4), BigEndian(bits / TWO_32, 4), BigEndian(ToUint32(bits), 4));
  }

  // ---- the digest --------------------------------------------------------

  /** `DataView.getUint32(at, false)` */
  function GetUint32(bytes: seq<Byte>, at: nat): Word
    requires at + 4 <= |bytes|
  {
    WordAt(bytes, at)
  }

  method SetUint32(buf: array<Byte>, at: nat, value: Word)
    requires at + 4 <= buf.Length
    modifies buf
    ensures buf[..] == old(buf[..at]) + BigEndian(value, 4) + old(buf[at + 4..])
  {
    BigEndianPeel(value, 4);
    buf[at] := value / 0x100 / 0x100 / 0x100 % 0x100;
    buf[at + 1] := value / 0x100 / 0x100 % 0x100;
    buf[at + 2] := value / 0x100 % 0x100;
    buf[at + 3] := value % 0x100;
  }

  /** Lines 20 to 26. */
  method FillBuffer(message: seq<Byte>) returns (buf: array<Byte>)
    ensures fresh(buf) && buf[..] == FallbackPad(message)
  {
    var paddedLen := PaddedLength(|message|);
    buf := new Byte[paddedLen](_ => 0);
    forall i | 0 <= i < |message| { buf[i] := message[i]; }
    buf[|message|] := 0x80;
    ghost var before := message + [0x80] + Zeros(paddedLen - |message| - 1);
    assert buf[..] == before;
    SetUint32(buf, paddedLen - 4, ToUint32(8 * |message|));
    assert before[..paddedLen - 4] == message + [0x80] + Zeros(paddedLen - |message| - 5);
  }

  /** Lines 39 to 41. */
  method LoadBlock(w: array<Word>, buf: array<Byte>, offset: nat, ghost n: nat)
    requires w.Length == 64
    requires offset == 64 * n && offset + 64 <= buf.Length
    modifies w
    ensures w[..16] == Block(buf[..], n)
  {
    hide WordAt;
    for i := 0 to 16
      invariant forall j :: 0 <= j < i ==> w[j] == WordAt(buf[..], offset + 4 * j)
    {
      w[i] := GetUint32(buf[..], offset + i * 4);
    }
  }

  /** Lines 42 to 46: whatever an earlier block left in `w` is overwritten before it is read. */
  method ExtendSchedule(w: array<Word>)
    requires w.Length == 64
    modifies w
    ensures w[..] == Schedule(old(w[..16]), 64)
  {
    hide ScheduleWord, SmallSigma0, SmallSigma1, Plus;
    ghost var m := w[..16];
    for i := 16 to 64
      invariant w[..i] == Schedule(m, i)
    {
      ScheduleWordIsFips(w[i - 16], w[i - 15], w[i - 7], w[i - 2]);
      ghost var done := w[..i];
      w[i] := ScheduleWord(w[i - 16], w[i - 15], w[i - 7], w[i - 2]);
      assert w[..i + 1] == done + [w[i]];
    }
    assert w[..] == w[..64];
  }

  /** Lines 48 to 73: the working variables of one block. */
  method RunRounds(start: Hash, w: array<Word>) returns (end: Hash)
    requires w.Length == 64
    ensures end == Rounds(start, w[..], 64)
  {
    hide BigS0, BigS1, Choose, Majority, Round;
    TablesAgree();
    var a, b, c, d, e, f, g, h := start.a, start.b, start.c, start.d, start.e, start.f, start.g, start.h;
    for i := 0 to 64
      invariant Hash(a, b, c, d, e, f, g, h) == Rounds(start, w[..], i)
    {
      RoundIsFips(Hash(a, b, c, d, e, f, g, h), RoundConstants[i], w[i]);
      var temp1 := ToUint32(Add(Add(Add(Add(h, BigS1(e)), Choose(e, f, g)), RoundConstants[i]), w[i]));
      var temp2 := ToUint32(Add(BigS0(a), Majority(a, b, c)));
      h := g;
      g := f;
      f := e;
      e := ToUint32(Add(d, temp1));
      d := c;
      c := b;
      b := a;
      a := ToUint32(Add(temp1, temp2));
    }
    end := Hash(a, b, c, d, e, f, g, h);
  }

  /** Lines 75 to 82. */
  function AddHash(s: Hash, v: Hash): Hash {
    Hash(ToUint32(Add(s.a, v.a)), ToUint32(Add(s.b, v.b)), ToUint32(Add(s.c, v.c)), ToUint32(Add(s.d, v.d)),
         ToUint32(Add(s.e, v.e)), ToUint32(Add(s.f, v.f)), ToUint32(Add(s.g, v.g)), ToUint32(Add(s.h, v.h)))
  }

  // ---- the tables of the code ----------------------------------------------

  /** Lines 3 to 12. */
  const RoundConstants: seq<Word> := [
    0x428a2f98, 0x71374491, 0xb5c0fbcf, 0xe9b5dba5, 0x3956c25b, 0x59f111f1, 0x923f82a4, 0xab1c5ed5,
    0xd807aa98, 0x12835b01, 0x243185be, 0x550c7dc3, 0x72be5d74, 0x80deb1fe, 0x9bdc06a7, 0xc19bf174,
    0xe49b69c1, 0xefbe4786, 0x0fc19dc6, 0x240ca1cc, 0x2de92c6f, 0x4a7484aa, 0x5cb0a9dc, 0x76f988da,
    0x983e5152, 0xa831c66d, 0xb00327c8, 0xbf597fc7, 0xc6e00bf3, 0xd5a79147, 0x06ca6351, 0x14292967,
    0x27b70a85, 0x2e1b2138, 0x4d2c6dfc, 0x53380d13, 0x650a7354, 0x766a0abb, 0x81c2c92e, 0x92722c85,
    0xa2bfe8a1, 0xa81a664b, 0xc24b8b70, 0xc76c51a3, 0xd192e819, 0xd6990624, 0xf40e3585, 0x106aa070,
    0x19a4c116, 0x1e376c08, 0x2748774c, 0x34b0bcb5, 0x391c0cb3, 0x4ed8aa4a, 0x5b9cca4f, 0x682e6ff3,
    0x748f82ee, 0x78a5636f, 0x84c87814, 0x8cc70208, 0x90befffa, 0xa4506ceb, 0xbef9a3f7, 0xc67178f2
  ]

  /** Lines 28 to 35. */
  const InitialHash :=
    Hash(0x6a09e667, 0xbb67ae85, 0x3c6ef372, 0xa54ff53a, 0x510e527f, 0x9b05688c, 0x1f83d9ab, 0x5be0cd19)

  /** They are the standard's. */
  lemma TablesAgree()
    ensures RoundConstants == K && InitialHash == H0
  {
  }

  // ---- hexadecimal output ------------------------------------------------

  /** `n.toString(16)` */
  function ToString16(n: nat): string {
    if n < 16 then [HexDigit(n)] else ToString16(n / 16) + [HexDigit(n % 16)]
  }

  /** `s.padStart(width, '0')` */
  function PadStart(s: string, width: nat): string {
    if |s| >= width then s else seq(width - |s|, _ => '0') + s
  }

  function BytesToHex(bytes: seq<Byte>): string {
    if bytes == [] then ""
    else PadStart(ToString16(bytes[0]), 2) + BytesToHex(bytes[1..])
  }

  /** `words.map((word) => word.toString(16).padStart(8, '0')).join('')` */
  function WordsToHex(words: seq<Word>): string {
    if words == [] then ""
    else PadStart(ToString16(words[0]), 8) + WordsToHex(words[1..])
  }

  /** What a lower-case hexadecimal digit stands for. */
  function DigitOf(c: char): int {
    if '0' <= c <= '9' then c as int - '0' as int else c as int - 'a' as int + 10
  }

  predicate IsLowerHex(s: string) { forall i :: 0 <= i < |s| ==> '0' <= s[i] <= '9' || 'a' <= s[i] <= 'f' }

  /** The number a text of lower-case hexadecimal digits stands for. */
  function ReadHex(s: string): int {
    if s == "" then 0 else 16 * ReadHex(s[..|s| - 1]) + DigitOf(s[|s| - 1])
  }

  /** `width` hexadecimal digits of `n`. */
  function FixedHex(n: nat, width: nat): string {
    if width == 0 then "" else FixedHex(n / 16, width - 1) + [HexDigit(n % 16)]
  }

  function Pow16(k: nat): nat { if k == 0 then 1 else 16 * Pow16(k - 1) }

  lemma {:induction false} FixedHexZero(width: nat)
    ensures FixedHex(0, width) == seq(width, _ => '0')
  {
    if width > 0 { FixedHexZero(width - 1); }
  }

  lemma {:induction false} FixedHexReads(n: nat, width: nat)
    requires n < Pow16(width)
    ensures |FixedHex(n, width)| == width && IsLowerHex(FixedHex(n, width)) && ReadHex(FixedHex(n, width)) == n
  {
    if width > 0 {
      FixedHexReads(n / 16, width - 1);
      DigitReads(n % 16);
      hide HexDigit, DigitOf;
      assert FixedHex(n, width)[..width - 1] == FixedHex(n / 16, width - 1);
    }
  }

  lemma {:induction false} PadStartIsFixed(n: nat, width: nat)
    requires width > 0 && n < Pow16(width)
    ensures |ToString16(n)| <= width
    ensures PadStart(ToString16(n), width) == FixedHex(n, width)
  {
    hide HexDigit;
    if n < 16 {
      FixedHexZero(width - 1);
    } else {
      PadStartIsFixed(n / 16, width - 1);
      assert FixedHex(n, width) == FixedHex(n / 16, width - 1) + [HexDigit(n % 16)];
    }
  }

  lemma PadStartIsFixedHex(n: nat, width: nat)
    requires width > 0 && n < Pow16(width)
    ensures PadStart(ToString16(n), width) == FixedHex(n, width)
    ensures var s := PadStart(ToString16(n), width); |s| == width && IsLowerHex(s) && ReadHex(s) == n
  {
    hide *;
    PadStartIsFixed(n, width);
    FixedHexReads(n, width);
  }

  lemma {:induction false} BytesToHexAppend(x: seq<Byte>, y: seq<Byte>)
    ensures BytesToHex(x + y) == BytesToHex(x) + BytesToHex(y)
  {
    if x == [] {
      assert x + y == y;
    } else {
      assert (x + y)[1..] == x[1..] + y;
      BytesToHexAppend(x[1..], y);
    }
  }

  lemma {:induction false} BigEndianHex(n: nat, width: nat)
    ensures BytesToHex(BigEndian(n, width)) == FixedHex(n, 2 * width)
  {
    if width > 0 {
      hide BytesToHex, HexDigit, FixedHex;
      var q, b := n / 256, n % 256;
      BigEndianHex(q, width - 1);
      BytesToHexAppend(BigEndian(q, width - 1), [b]);
      HexPair(b);
      FixedHexStep(n, q, b / 16, b % 16, 2 * (width - 1));
    }
  }

  lemma HexPair(b: Byte)
    ensures BytesToHex([b]) == [HexDigit(b / 16), HexDigit(b % 16)]
  {
    assert Pow16(2) == 256 by { assert Pow16(1) == 16; }
    PadStartIsFixedHex(b, 2);
    assert FixedHex(b, 2) == FixedHex(b / 16, 1) + [HexDigit(b % 16)];
  }

  lemma FixedHexStep(n: nat, q: nat, x: nat, y: nat, width: nat)
    requires n == 256 * q + 16 * x + y && x < 16 && y < 16
    ensures FixedHex(n, width + 2) == FixedHex(q, width) + [HexDigit(x), HexDigit(y)]
  {
    hide HexDigit;
    assert n / 16 == 16 * q + x && n % 16 == y;
    assert FixedHex(n, width + 2) == FixedHex(16 * q + x, width + 1) + [HexDigit(y)];
  }

  lemma WordHex(w: Word)
    ensures PadStart(ToString16(w), 8) == BytesToHex(BigEndian(w, 4))
  {
    assert Pow16(8) == TWO_32;
    PadStartIsFixedHex(w, 8);
    BigEndianHex(w, 4);
  }

  /** Padded words spell the same digits as the bytes they consist of. */
  lemma {:induction false} WordsSpellBytes(words: seq<Word>)
    ensures WordsToHex(words) == BytesToHex(WordBytes(words))
  {
    if words != [] {
      WordHex(words[0]);
      WordsSpellBytes(words[1..]);
      BytesToHexAppend(BigEndian(words[0], 4), WordBytes(words[1..]));
    }
  }

  /** Two digits at a time, the text gives the bytes back. */
  ghost predicate Spells(hex: string, bytes: seq<Byte>) {
    |hex| == 2 * |bytes| && IsLowerHex(hex)
    && forall k :: 0 <= k < |bytes| ==> 16 * DigitOf(hex[2 * k]) + DigitOf(hex[2 * k + 1]) == bytes[k]
  }

  lemma DigitReads(d: nat)
    requires d < 16
    ensures DigitOf(HexDigit(d)) == d
    ensures '0' <= HexDigit(d) <= '9' || 'a' <= HexDigit(d) <= 'f'
  {
  }

  lemma PairReads(b: Byte)
    ensures Spells([HexDigit(b / 16), HexDigit(b % 16)], [b])
  {
    DigitReads(b / 16);
    DigitReads(b % 16);
    hide HexDigit, DigitOf;
  }

  lemma SpellsMore(x: string, y: string, a: Byte, bytes: seq<Byte>)
    requires Spells(x, [a]) && Spells(y, bytes)
    ensures Spells(x + y, [a] + bytes)
  {
    var hex, all := x + y, [a] + bytes;
    hide DigitOf;
    forall k | 0 <= k < |all| ensures 16 * DigitOf(hex[2 * k]) + DigitOf(hex[2 * k + 1]) == all[k] {
      if k == 0 {
        assert hex[0] == x[0] && hex[1] == x[1] && [a][0] == a;
        assert 16 * DigitOf(x[2 * 0]) + DigitOf(x[2 * 0 + 1]) == [a][0];
      } else {
        assert hex[2 * k] == y[2 * (k - 1)] && hex[2 * k + 1] == y[2 * (k - 1) + 1];
      }
    }
  }

  lemma NothingSpells()
    ensures Spells(BytesToHex([]), [])
  {
  }

  lemma {:induction false} BytesToHexSpells(bytes: seq<Byte>)
    ensures Spells(BytesToHex(bytes), bytes)
  {
    hide *;
    if bytes == [] {
      NothingSpells();
    } else {
      var first, rest := [bytes[0]], bytes[1..];
      HexPair(bytes[0]);
      PairReads(bytes[0]);
      BytesToHexSpells(rest);
      SpellsMore(BytesToHex(first), BytesToHex(rest), bytes[0], rest);
      assert bytes == first + rest;
      BytesToHexAppend(first, rest);
    }
  }

  // ---- the whole digest --------------------------------------------------

  /** Lines 38 to 83: the hash value after all blocks of `buf`. */
  method HashBuffer(buf: array<Byte>) returns (state: Hash)
    requires buf.Length % 64 == 0
    ensures state == HashOf(buf[..])
  {
    hide Compress, Block, AddHash, Schedule, Rounds;
    TablesAgree();
    state := InitialHash;
    var w := new Word[64];
    var offset := 0;
    ghost var n := 0;
    while offset < buf.Length
      invariant offset == 64 * n <= buf.Length
      invariant state == HashBlocks(buf[..], n)
    {
      LoadBlock(w, buf, offset, n);
      ExtendSchedule(w);
      var v := RunRounds(state, w);
      AddHashIsCompress(state, v, w[..], Block(buf[..], n));
      state := AddHash(state, v);
      offset, n := offset + 64, n + 1;
    }
  }

  lemma AddHashIsCompress(s: Hash, v: Hash, w: seq<Word>, m: seq<Word>)
    requires |m| == 16 && w == Schedule(m, 64) && v == Rounds(s, w, 64)
    ensures AddHash(s, v) == Compress(s, m)
  {
    hide Schedule, Rounds, ToUint32, Plus, Add;
    AddIsPlus(s.a, v.a); AddIsPlus(s.b, v.b); AddIsPlus(s.c, v.c); AddIsPlus(s.d, v.d);
    AddIsPlus(s.e, v.e); AddIsPlus(s.f, v.f); AddIsPlus(s.g, v.g); AddIsPlus(s.h, v.h);
  }

  lemma AddIsPlus(x: Word, y: Word)
    ensures ToUint32(Add(x, y)) == Plus(x, y)
  {
  }

  /** `sha256HexFallback` on the UTF-8 bytes of its input. The digest it returns is
      always the one of `FallbackPad`; that is SHA-256 for every message shorter
      than 2^29 bytes. */
  method Sha256HexFallback(message: seq<Byte>) returns (hex: string)
    ensures hex == BytesToHex(WordBytes(HashOf(FallbackPad(message)).Words()))
    ensures |message| < 0x2000_0000 ==> hex == BytesToHex(Sha256(message)) && Spells(hex, Sha256(message))
    ensures IsSha256Hex(hex)
  {
    hide FallbackPad, Pad, HashOf, BytesToHex, WordBytes, WordsToHex;
    var buf := FillBuffer(message);
    var state := HashBuffer(buf);
    hex := WordsToHex(state.Words());
    WordsSpellBytes(state.Words());
    BytesToHexSpells(WordBytes(state.Words()));
    if |message| < 0x2000_0000 { PaddingIsFips(message); }
  }

  datatype Digest = Unavailable | Digested(bytes: seq<Byte>)

  /** `sha256Hex`: Web Crypto when it answers, the fallback when it is absent or throws. */
  method Sha256Hex(message: seq<Byte>, subtle: Digest) returns (hex: string)
    requires |message| < 0x2000_0000
    requires subtle.Digested? ==> subtle.bytes == Sha256(message)
    ensures hex == BytesToHex(Sha256(message)) && Spells(hex, Sha256(message)) && IsSha256Hex(hex)
  {
    BytesToHexSpells(Sha256(message));
    hide Sha256;
    if subtle.Digested? {
      hex := BytesToHex(subtle.bytes);
    } else {
      hex := Sha256HexFallback(message);
    }
  }
}
