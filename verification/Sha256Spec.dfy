/** SHA-256 as FIPS 180-2 defines it, on 32-bit words. */
module Sha256Spec {

  type Byte = bv8
  type Word = bv32

  // Section 2.2.2: addition is modulo 2^32, ROTR and SHR are written out with shifts.

  function Add(x: Word, y: Word): Word { x + y }

  // Section 4.1.2: the six logical functions.

  function Ch(x: Word, y: Word, z: Word): Word { (x & y) ^ (!x & z) }

  function Maj(x: Word, y: Word, z: Word): Word { (x & y) ^ (x & z) ^ (y & z) }

  function BigSigma0(x: Word): Word { ((x >> 2) | (x << 30)) ^ ((x >> 13) | (x << 19)) ^ ((x >> 22) | (x << 10)) }

  function BigSigma1(x: Word): Word { ((x >> 6) | (x << 26)) ^ ((x >> 11) | (x << 21)) ^ ((x >> 25) | (x << 7)) }

  function SmallSigma0(x: Word): Word { ((x >> 7) | (x << 25)) ^ ((x >> 18) | (x << 14)) ^ (x >> 3) }

  function SmallSigma1(x: Word): Word { ((x >> 17) | (x << 15)) ^ ((x >> 19) | (x << 13)) ^ (x >> 10) }

  // Section 4.2.2: the constants, eight to a row.

  function KRow(r: nat): seq<Word>
    requires r < 8
    ensures |KRow(r)| == 8
  {
    if r == 0 then [0x428a2f98, 0x71374491, 0xb5c0fbcf, 0xe9b5dba5, 0x3956c25b, 0x59f111f1, 0x923f82a4, 0xab1c5ed5]
    else if r == 1 then [0xd807aa98, 0x12835b01, 0x243185be, 0x550c7dc3, 0x72be5d74, 0x80deb1fe, 0x9bdc06a7, 0xc19bf174]
    else if r == 2 then [0xe49b69c1, 0xefbe4786, 0x0fc19dc6, 0x240ca1cc, 0x2de92c6f, 0x4a7484aa, 0x5cb0a9dc, 0x76f988da]
    else if r == 3 then [0x983e5152, 0xa831c66d, 0xb00327c8, 0xbf597fc7, 0xc6e00bf3, 0xd5a79147, 0x06ca6351, 0x14292967]
    else if r == 4 then [0x27b70a85, 0x2e1b2138, 0x4d2c6dfc, 0x53380d13, 0x650a7354, 0x766a0abb, 0x81c2c92e, 0x92722c85]
    else if r == 5 then [0xa2bfe8a1, 0xa81a664b, 0xc24b8b70, 0xc76c51a3, 0xd192e819, 0xd6990624, 0xf40e3585, 0x106aa070]
    else if r == 6 then [0x19a4c116, 0x1e376c08, 0x2748774c, 0x34b0bcb5, 0x391c0cb3, 0x4ed8aa4a, 0x5b9cca4f, 0x682e6ff3]
    else [0x748f82ee, 0x78a5636f, 0x84c87814, 0x8cc70208, 0x90befffa, 0xa4506ceb, 0xbef9a3f7, 0xc67178f2]
  }

  function K(t: nat): Word
    requires t < 64
  {
    KRow(t / 8)[t % 8]
  }

  /** The working variables, and the intermediate hash value. */
  datatype Regs = Regs(a: Word, b: Word, c: Word, d: Word, e: Word, f: Word, g: Word, h: Word)

  // Section 5.3.2: the initial hash value.

  function Initial(): Regs {
    Regs(0x6a09e667, 0xbb67ae85, 0x3c6ef372, 0xa54ff53a, 0x510e527f, 0x9b05688c, 0x1f83d9ab, 0x5be0cd19)
  }

  // Section 6.2.2: the hash computation.

  function BigEndian(p: Byte, q: Byte, r: Byte, s: Byte): Word {
    ((p as Word) << 24) | ((q as Word) << 16) | ((r as Word) << 8) | (s as Word)
  }

  /** The i-th 32-bit word of a block, most significant byte first. */
  function WordAt(block: seq<Byte>, i: nat): Word
    requires 4 * i + 4 <= |block|
  {
    BigEndian(block[4 * i], block[4 * i + 1], block[4 * i + 2], block[4 * i + 3])
  }

  /** Step 1: the message schedule. */
  function Schedule(block: seq<Byte>, t: nat): Word
    requires |block| == 64
  {
    if t < 16 then WordAt(block, t)
    else Add(Add(Add(SmallSigma1(Schedule(block, t - 2)), Schedule(block, t - 7)),
                 SmallSigma0(Schedule(block, t - 15))), Schedule(block, t - 16))
  }

  /** One iteration of step 3. */
  function Round(r: Regs, w: Word, k: Word): Regs {
    var t1 := Add(Add(Add(Add(r.h, BigSigma1(r.e)), Ch(r.e, r.f, r.g)), k), w);
    var t2 := Add(BigSigma0(r.a), Maj(r.a, r.b, r.c));
    Regs(Add(t1, t2), r.a, r.b, r.c, Add(r.d, t1), r.e, r.f, r.g)
  }

  /** The working variables after the first n iterations. */
  function Rounds(r: Regs, block: seq<Byte>, n: nat): Regs
    requires |block| == 64 && n <= 64
  {
    if n == 0 then r else Round(Rounds(r, block, n - 1), Schedule(block, n - 1), K(n - 1))
  }

  function Sum(x: Regs, y: Regs): Regs {
    Regs(Add(x.a, y.a), Add(x.b, y.b), Add(x.c, y.c), Add(x.d, y.d),
         Add(x.e, y.e), Add(x.f, y.f), Add(x.g, y.g), Add(x.h, y.h))
  }

  /** Steps 1 to 4 for one block. */
  function Compress(r: Regs, block: seq<Byte>): Regs
    requires |block| == 64
  {
    Sum(r, Rounds(r, block, 64))
  }

  /** The hash value after all blocks of a message of whole blocks. */
  function HashBlocks(m: seq<Byte>): Regs
    requires |m| % 64 == 0
  {
    if m == [] then Initial() else Compress(HashBlocks(m[..|m| - 64]), m[|m| - 64..])
  }

  // Section 5.1.1: padding.

  function Zeros(n: nat): (r: seq<Byte>)
    ensures |r| == n
  {
    seq(n, _ => 0)
  }

  /** The four bytes of n < 2^32, most significant first. */
  function Bytes4(n: nat): (r: seq<Byte>)
    ensures |r| == 4
  {
    [(n / 0x100_0000 % 256) as Byte, (n / 0x1_0000 % 256) as Byte, (n / 0x100 % 256) as Byte, (n % 256) as Byte]
  }

  /** The 64-bit block that holds a length in bits. */
  function LengthBlock(bits: nat): (r: seq<Byte>)
    ensures |r| == 8
  {
    Bytes4(bits / 0x1_0000_0000) + Bytes4(bits % 0x1_0000_0000)
  }

  /** The number of zero bytes after the byte 0x80: the smallest that leaves room for the length. */
  function ZeroBytes(n: nat): (k: nat)
    ensures (n + 1 + k) % 64 == 56 && k < 64
  {
    (55 - n) % 64
  }

  function Padding(n: nat): (p: seq<Byte>)
    ensures (n + |p|) % 64 == 0
  {
    var k := ZeroBytes(n);
    assert (n + 1 + k + 8) % 64 == 0;
    [0x80] + Zeros(k) + LengthBlock(8 * n)
  }

  function Pad(m: seq<Byte>): seq<Byte> { m + Padding(|m|) }

  /** The four bytes of a word, most significant first. */
  function WordBytes(w: Word): seq<Byte> {
    [((w >> 24) & 0xFF) as Byte, ((w >> 16) & 0xFF) as Byte, ((w >> 8) & 0xFF) as Byte, (w & 0xFF) as Byte]
  }

  function RegsBytes(r: Regs): seq<Byte> {
    WordBytes(r.a) + WordBytes(r.b) + WordBytes(r.c) + WordBytes(r.d)
    + WordBytes(r.e) + WordBytes(r.f) + WordBytes(r.g) + WordBytes(r.h)
  }

  /** Section 6.2: the message digest. */
  function Sha256(m: seq<Byte>): seq<Byte> {
    RegsBytes(HashBlocks(Pad(m)))
  }
}
