/** The words of FIPS 180-4 and its SHA-256 function: the reference the
    fallback digest is proved against. Section numbers are those of FIPS 180-4. */
module Fips180 {
  const TWO_32: int := 0x1_0000_0000

  type Word = x: int | 0 <= x < 0x1_0000_0000
  type Byte = x: int | 0 <= x < 0x100

  // Section 2.2.2 and 3.2: operations on 32-bit words.
  function And(x: Word, y: Word): Word { ((x as bv32) & (y as bv32)) as int }
  function Or(x: Word, y: Word): Word { ((x as bv32) | (y as bv32)) as int }
  function Xor(x: Word, y: Word): Word { ((x as bv32) ^ (y as bv32)) as int }
  function Not(x: Word): Word { (!(x as bv32)) as int }
  function Shl(x: Word, n: nat): Word requires n < 32 { ((x as bv32) << n) as int }
  function Shr(x: Word, n: nat): Word requires n < 32 { ((x as bv32) >> n) as int }
  function Plus(x: Word, y: Word): Word { (x + y) % TWO_32 }
  function Rotr(n: nat, x: Word): Word requires 0 < n < 32 { Or(Shr(x, n), Shl(x, 32 - n)) }

  // Section 4.1.2: the SHA-256 functions.
  function Ch(x: Word, y: Word, z: Word): Word { Xor(And(x, y), And(Not(x), z)) }
  function Maj(x: Word, y: Word, z: Word): Word { Xor(Xor(And(x, y), And(x, z)), And(y, z)) }
  function BigSigma0(x: Word): Word { Xor(Xor(Rotr(2, x), Rotr(13, x)), Rotr(22, x)) }
  function BigSigma1(x: Word): Word { Xor(Xor(Rotr(6, x), Rotr(11, x)), Rotr(25, x)) }
  function SmallSigma0(x: Word): Word { Xor(Xor(Rotr(7, x), Rotr(18, x)), Shr(x, 3)) }
  function SmallSigma1(x: Word): Word { Xor(Xor(Rotr(17, x), Rotr(19, x)), Shr(x, 10)) }

  // Section 4.2.2: the SHA-256 constants.
  const K: seq<Word> := [
    0x428a2f98, 0x71374491, 0xb5c0fbcf, 0xe9b5dba5, 0x3956c25b, 0x59f111f1, 0x923f82a4, 0xab1c5ed5,
    0xd807aa98, 0x12835b01, 0x243185be, 0x550c7dc3, 0x72be5d74, 0x80deb1fe, 0x9bdc06a7, 0xc19bf174,
    0xe49b69c1, 0xefbe4786, 0x0fc19dc6, 0x240ca1cc, 0x2de92c6f, 0x4a7484aa, 0x5cb0a9dc, 0x76f988da,
    0x983e5152, 0xa831c66d, 0xb00327c8, 0xbf597fc7, 0xc6e00bf3, 0xd5a79147, 0x06ca6351, 0x14292967,
    0x27b70a85, 0x2e1b2138, 0x4d2c6dfc, 0x53380d13, 0x650a7354, 0x766a0abb, 0x81c2c92e, 0x92722c85,
    0xa2bfe8a1, 0xa81a664b, 0xc24b8b70, 0xc76c51a3, 0xd192e819, 0xd6990624, 0xf40e3585, 0x106aa070,
    0x19a4c116, 0x1e376c08, 0x2748774c, 0x34b0bcb5, 0x391c0cb3, 0x4ed8aa4a, 0x5b9cca4f, 0x682e6ff3,
    0x748f82ee, 0x78a5636f, 0x84c87814, 0x8cc70208, 0x90befffa, 0xa4506ceb, 0xbef9a3f7, 0xc67178f2
  ]

  datatype Hash = Hash(a: Word, b: Word, c: Word, d: Word, e: Word, f: Word, g: Word, h: Word) {
    function Words(): seq<Word> { [a, b, c, d, e, f, g, h] }
  }

  // Section 5.3.3: the initial hash value.
  const H0 := Hash(0x6a09e667, 0xbb67ae85, 0x3c6ef372, 0xa54ff53a, 0x510e527f, 0x9b05688c, 0x1f83d9ab, 0x5be0cd19)

  // ---- Section 5.1.1: padding -------------------------------------------

  /** `zeroBits` is a solution of l + 1 + k = 448 (mod 512) for a message of `bits` bits. */
  predicate PadsTo448(bits: nat, zeroBits: nat) { (bits + 1 + zeroBits) % 512 == 448 }

  /** The smallest non-negative solution k. */
  function ZeroBits(bits: nat): (k: nat)
    ensures PadsTo448(bits, k)
    ensures forall j: nat :: PadsTo448(bits, j) ==> k <= j
  {
    (447 - bits) % 512
  }

  function Zeros(n: nat): seq<Byte> { seq(n, _ => 0) }

  /** The `n` low-order bytes of `x`, most significant first. */
  function BigEndian(x: nat, n: nat): (s: seq<Byte>)
    ensures |s| == n
  {
    if n == 0 then [] else BigEndian(x / 256, n - 1) + [x % 256]
  }

  /** The message, the bit 1 and seven zero bits (0x80), the remaining k - 7 zero
      bits, and the length in bits as a 64-bit block. */
  function Pad(message: seq<Byte>): seq<Byte>
    requires 8 * |message| < 0x1_0000_0000_0000_0000
  {
    message + [0x80] + Zeros((ZeroBits(8 * |message|) - 7) / 8) + BigEndian(8 * |message|, 8)
  }

  // ---- Section 5.2.1: parsing -------------------------------------------

  function BytesToInt(b0: int, b1: int, b2: int, b3: int): int {
    b0 * 0x100_0000 + b1 * 0x1_0000 + b2 * 0x100 + b3
  }

  function WordAt(bytes: seq<Byte>, at: nat): Word
    requires at + 4 <= |bytes|
  {
    BytesToInt(bytes[at], bytes[at + 1], bytes[at + 2], bytes[at + 3])
  }

  function Block(bytes: seq<Byte>, n: nat): (m: seq<Word>)
    requires 64 * n + 64 <= |bytes|
    ensures |m| == 16
  {
    seq(16, (t: int) requires 0 <= t < 16 => WordAt(bytes, 64 * n + 4 * t))
  }

  // ---- Section 6.2.2: computation ---------------------------------------

  /** The first `n` words of the message schedule. */
  function Schedule(m: seq<Word>, n: nat): (w: seq<Word>)
    requires |m| == 16 && n <= 64
    ensures |w| == n
    decreases n
  {
    if n <= 16 then m[..n]
    else
      var w := Schedule(m, n - 1);
      w + [Plus(Plus(Plus(SmallSigma1(w[n - 3]), w[n - 8]), SmallSigma0(w[n - 16])), w[n - 17])]
  }

  /** One iteration of step 3. */
  function Round(s: Hash, k: Word, w: Word): Hash {
    var t1 := Plus(Plus(Plus(Plus(s.h, BigSigma1(s.e)), Ch(s.e, s.f, s.g)), k), w);
    var t2 := Plus(BigSigma0(s.a), Maj(s.a, s.b, s.c));
    Hash(Plus(t1, t2), s.a, s.b, s.c, Plus(s.d, t1), s.e, s.f, s.g)
  }

  /** The working variables after the first `t` iterations. */
  function Rounds(s: Hash, w: seq<Word>, t: nat): Hash
    requires |w| == 64 && t <= 64
  {
    if t == 0 then s else Round(Rounds(s, w, t - 1), K[t - 1], w[t - 1])
  }

  /** Steps 1 to 4 for one block. */
  function Compress(s: Hash, m: seq<Word>): Hash
    requires |m| == 16
  {
    var v := Rounds(s, Schedule(m, 64), 64);
    Hash(Plus(s.a, v.a), Plus(s.b, v.b), Plus(s.c, v.c), Plus(s.d, v.d),
         Plus(s.e, v.e), Plus(s.f, v.f), Plus(s.g, v.g), Plus(s.h, v.h))
  }

  /** The hash value after the first `n` blocks of `padded`. */
  function HashBlocks(padded: seq<Byte>, n: nat): Hash
    requires 64 * n <= |padded|
  {
    if n == 0 then H0 else Compress(HashBlocks(padded, n - 1), Block(padded, n - 1))
  }

  function HashOf(padded: seq<Byte>): Hash
  {
    HashBlocks(padded, |padded| / 64)
  }

  /** The bytes of a list of words. */
  function WordBytes(words: seq<Word>): (d: seq<Byte>)
    ensures |d| == 4 * |words|
  {
    if words == [] then [] else BigEndian(words[0], 4) + WordBytes(words[1..])
  }

  /** The 32-byte message digest H0 || ... || H7. */
  function Sha256(message: seq<Byte>): (d: seq<Byte>)
    requires 8 * |message| < 0x1_0000_0000_0000_0000
    ensures |d| == 32
  {
    WordBytes(HashOf(Pad(message)).Words())
  }
}
