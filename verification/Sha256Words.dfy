/** The block function of the program's SHA-256, whose "uint32" is a 64-bit word that is almost
  * never masked, and the proof that its low halves are the words of FIPS 180-2.
  */
module Sha256Words {
  import Spec = Sha256Spec

  type Byte = bv8
  type Long = bv64

  // The macros.

  /** Unsigned addition of two longs. */
  function Plus(x: Long, y: Long): Long { x + y }

  function S0(x: Long): Long {
    (((x & 0xFFFF_FFFF) >> 7) | (x << 25)) ^ (((x & 0xFFFF_FFFF) >> 18) | (x << 14)) ^ ((x & 0xFFFF_FFFF) >> 3)
  }

  function S1(x: Long): Long {
    (((x & 0xFFFF_FFFF) >> 17) | (x << 15)) ^ (((x & 0xFFFF_FFFF) >> 19) | (x << 13)) ^ ((x & 0xFFFF_FFFF) >> 10)
  }

  function S2(x: Long): Long {
    (((x & 0xFFFF_FFFF) >> 2) | (x << 30)) ^ (((x & 0xFFFF_FFFF) >> 13) | (x << 19))
    ^ (((x & 0xFFFF_FFFF) >> 22) | (x << 10))
  }

  function S3(x: Long): Long {
    (((x & 0xFFFF_FFFF) >> 6) | (x << 26)) ^ (((x & 0xFFFF_FFFF) >> 11) | (x << 21))
    ^ (((x & 0xFFFF_FFFF) >> 25) | (x << 7))
  }

  function F0(x: Long, y: Long, z: Long): Long { (x & y) | (z & (x | y)) }

  function F1(x: Long, y: Long, z: Long): Long { z ^ (x & (y ^ z)) }

  function GetUint32(p: Byte, q: Byte, r: Byte, s: Byte): Long {
    ((p as Long) << 24) | ((q as Long) << 16) | ((r as Long) << 8) | (s as Long)
  }

  /** The byte that PUT_UINT32 stores for a long shifted right. */
  function ByteOf(x: Long): Byte { (x & 0xFF) as Byte }

  function PutUint32(x: Long): seq<Byte> {
    [ByteOf(x >> 24), ByteOf(x >> 16), ByteOf(x >> 8), ByteOf(x)]
  }

  // The block function on longs.

  datatype Regs64 = Regs64(a: Long, b: Long, c: Long, d: Long, e: Long, f: Long, g: Long, h: Long)

  /** What R(t), or the bytes of the block, put into W[t]. */
  function W(block: seq<Byte>, t: nat): Long
    requires |block| == 64
  {
    if t < 16 then GetUint32(block[4 * t], block[4 * t + 1], block[4 * t + 2], block[4 * t + 3])
    else Plus(Plus(Plus(S1(W(block, t - 2)), W(block, t - 7)), S0(W(block, t - 15))), W(block, t - 16))
  }

  function Temp1(r: Regs64, x: Long, k: Long): Long {
    Plus(Plus(Plus(Plus(r.h, S3(r.e)), F1(r.e, r.f, r.g)), k), x)
  }

  function Temp2(r: Regs64): Long { Plus(S2(r.a), F0(r.a, r.b, r.c)) }

  /** One P line, listing the registers as the next line names them. */
  function P(r: Regs64, x: Long, k: Long): Regs64 {
    Regs64(Plus(Temp1(r, x, k), Temp2(r)), r.a, r.b, r.c, Plus(r.d, Temp1(r, x, k)), r.e, r.f, r.g)
  }

  /** The constants of P lines 8 r to 8 r + 7. */
  function KLine(r: nat): seq<Long>
    requires r < 8
    ensures |KLine(r)| == 8
  {
    if r == 0 then [0x428A2F98, 0x71374491, 0xB5C0FBCF, 0xE9B5DBA5, 0x3956C25B, 0x59F111F1, 0x923F82A4, 0xAB1C5ED5]
    else if r == 1 then [0xD807AA98, 0x12835B01, 0x243185BE, 0x550C7DC3, 0x72BE5D74, 0x80DEB1FE, 0x9BDC06A7, 0xC19BF174]
    else if r == 2 then [0xE49B69C1, 0xEFBE4786, 0x0FC19DC6, 0x240CA1CC, 0x2DE92C6F, 0x4A7484AA, 0x5CB0A9DC, 0x76F988DA]
    else if r == 3 then [0x983E5152, 0xA831C66D, 0xB00327C8, 0xBF597FC7, 0xC6E00BF3, 0xD5A79147, 0x06CA6351, 0x14292967]
    else if r == 4 then [0x27B70A85, 0x2E1B2138, 0x4D2C6DFC, 0x53380D13, 0x650A7354, 0x766A0ABB, 0x81C2C92E, 0x92722C85]
    else if r == 5 then [0xA2BFE8A1, 0xA81A664B, 0xC24B8B70, 0xC76C51A3, 0xD192E819, 0xD6990624, 0xF40E3585, 0x106AA070]
    else if r == 6 then [0x19A4C116, 0x1E376C08, 0x2748774C, 0x34B0BCB5, 0x391C0CB3, 0x4ED8AA4A, 0x5B9CCA4F, 0x682E6FF3]
    else [0x748F82EE, 0x78A5636F, 0x84C87814, 0x8CC70208, 0x90BEFFFA, 0xA4506CEB, 0xBEF9A3F7, 0xC67178F2]
  }

  function KOf(t: nat): Long
    requires t < 64
  {
    KLine(t / 8)[t % 8]
  }

  /** The registers after n P lines. */
  function Lines(r: Regs64, block: seq<Byte>, n: nat): Regs64
    requires |block| == 64 && n <= 64
  {
    if n == 0 then r else P(Lines(r, block, n - 1), W(block, n - 1), KOf(n - 1))
  }

  function Sum(x: Regs64, y: Regs64): Regs64 {
    Regs64(Plus(x.a, y.a), Plus(x.b, y.b), Plus(x.c, y.c), Plus(x.d, y.d),
           Plus(x.e, y.e), Plus(x.f, y.f), Plus(x.g, y.g), Plus(x.h, y.h))
  }

  /** sha256_process. */
  function Process(r: Regs64, block: seq<Byte>): Regs64
    requires |block| == 64
  {
    Sum(r, Lines(r, block, 64))
  }

  // Low halves.

  function Low(x: Long): Spec.Word { (x & 0xFFFF_FFFF) as Spec.Word }

  function LowRegs(r: Regs64): Spec.Regs {
    Spec.Regs(Low(r.a), Low(r.b), Low(r.c), Low(r.d), Low(r.e), Low(r.f), Low(r.g), Low(r.h))
  }

  lemma LowUnfold(x: Long)
    ensures Low(x) == (x & 0xFFFF_FFFF) as Spec.Word
  {
  }

  lemma LowOfSum(x: Long, y: Long)
    ensures Low(x + y) == Spec.Add((x & 0xFFFF_FFFF) as Spec.Word, (y & 0xFFFF_FFFF) as Spec.Word)
  {
  }

  lemma PlusUnfold(x: Long, y: Long)
    ensures Plus(x, y) == x + y
  {
  }

  /** Carries out of the low half never reach a result. */
  lemma LowPlus(x: Long, y: Long)
    ensures Low(Plus(x, y)) == Spec.Add(Low(x), Low(y))
  {
    hide *;
    LowOfSum(x, y);
    LowUnfold(x);
    LowUnfold(y);
    PlusUnfold(x, y);
  }

  /** The rotations leave the wanted word in the low half, whatever the high half holds. */
  lemma LowS0(x: Long)
    ensures Low(S0(x)) == Spec.SmallSigma0(Low(x))
  {
    assert Low(S0(x)) == Spec.SmallSigma0((x & 0xFFFF_FFFF) as Spec.Word);
  }

  lemma LowS1(x: Long)
    ensures Low(S1(x)) == Spec.SmallSigma1(Low(x))
  {
    assert Low(S1(x)) == Spec.SmallSigma1((x & 0xFFFF_FFFF) as Spec.Word);
  }

  lemma LowS2(x: Long)
    ensures Low(S2(x)) == Spec.BigSigma0(Low(x))
  {
    assert Low(S2(x)) == Spec.BigSigma0((x & 0xFFFF_FFFF) as Spec.Word);
  }

  lemma LowS3(x: Long)
    ensures Low(S3(x)) == Spec.BigSigma1(Low(x))
  {
    assert Low(S3(x)) == Spec.BigSigma1((x & 0xFFFF_FFFF) as Spec.Word);
  }

  /** F0 is Maj and F1 is Ch. */
  lemma LowF0(x: Long, y: Long, z: Long)
    ensures Low(F0(x, y, z)) == Spec.Maj(Low(x), Low(y), Low(z))
  {
  }

  lemma LowF1(x: Long, y: Long, z: Long)
    ensures Low(F1(x, y, z)) == Spec.Ch(Low(x), Low(y), Low(z))
  {
  }

  lemma LowGet(p: Byte, q: Byte, r: Byte, s: Byte)
    ensures Low(GetUint32(p, q, r, s)) == Spec.BigEndian(p, q, r, s)
  {
  }

  predicate LowRow(k: seq<Long>, row: seq<Spec.Word>) {
    |k| == |row| && forall i {:trigger k[i]} :: 0 <= i < |k| ==> Low(k[i]) == row[i]
  }

  lemma LowRow0() ensures LowRow(KLine(0), Spec.KRow(0)) {}

  lemma LowRow1() ensures LowRow(KLine(1), Spec.KRow(1)) {}

  lemma LowRow2() ensures LowRow(KLine(2), Spec.KRow(2)) {}

  lemma LowRow3() ensures LowRow(KLine(3), Spec.KRow(3)) {}

  lemma LowRow4() ensures LowRow(KLine(4), Spec.KRow(4)) {}

  lemma LowRow5() ensures LowRow(KLine(5), Spec.KRow(5)) {}

  lemma LowRow6() ensures LowRow(KLine(6), Spec.KRow(6)) {}

  lemma LowRow7() ensures LowRow(KLine(7), Spec.KRow(7)) {}

  /** The source's constants are those of section 4.2.2. */
  lemma LowConstants(t: nat)
    requires t < 64
    ensures Low(KOf(t)) == Spec.K(t)
  {
    hide KLine, Spec.KRow, Low;
    LowRow0(); LowRow1(); LowRow2(); LowRow3(); LowRow4(); LowRow5(); LowRow6(); LowRow7();
    assert LowRow(KLine(t / 8), Spec.KRow(t / 8));
  }

  lemma LowBytes(x: Long)
    ensures PutUint32(x) == Spec.WordBytes(Low(x))
  {
  }

  // The simulation.

  lemma LowPlus4(x: Long, y: Long, z: Long, w: Long)
    ensures Low(Plus(Plus(Plus(x, y), z), w)) == Spec.Add(Spec.Add(Spec.Add(Low(x), Low(y)), Low(z)), Low(w))
  {
    hide *;
    LowPlus(x, y);
    LowPlus(Plus(x, y), z);
    LowPlus(Plus(Plus(x, y), z), w);
  }

  lemma LowWord(block: seq<Byte>, t: nat)
    requires |block| == 64 && t < 16
    ensures Low(W(block, t)) == Spec.WordAt(block, t)
  {
    hide Low, GetUint32, Spec.BigEndian;
    LowGet(block[4 * t], block[4 * t + 1], block[4 * t + 2], block[4 * t + 3]);
  }

  /** The lazily extended message schedule holds the words of the specified one. */
  lemma {:induction false} LowSchedule(block: seq<Byte>, t: nat)
    requires |block| == 64
    ensures Low(W(block, t)) == Spec.Schedule(block, t)
  {
    hide Low, GetUint32, Plus, S0, S1, Spec.BigEndian, Spec.Add, Spec.SmallSigma0, Spec.SmallSigma1;
    if t < 16 {
      LowWord(block, t);
    } else {
      LowSchedule(block, t - 2);
      LowSchedule(block, t - 7);
      LowSchedule(block, t - 15);
      LowSchedule(block, t - 16);
      LowS1(W(block, t - 2));
      LowS0(W(block, t - 15));
      LowPlus4(S1(W(block, t - 2)), W(block, t - 7), S0(W(block, t - 15)), W(block, t - 16));
    }
  }

  lemma LowTemp1(r: Regs64, x: Long, k: Long)
    ensures Low(Temp1(r, x, k)) == Spec.Add(Spec.Add(Spec.Add(Spec.Add(Low(r.h), Spec.BigSigma1(Low(r.e))),
      Spec.Ch(Low(r.e), Low(r.f), Low(r.g))), Low(k)), Low(x))
  {
    hide Low, Plus, S3, F1, Spec.Add, Spec.BigSigma1, Spec.Ch;
    LowS3(r.e);
    LowF1(r.e, r.f, r.g);
    LowPlus4(r.h, S3(r.e), F1(r.e, r.f, r.g), k);
    LowPlus(Plus(Plus(Plus(r.h, S3(r.e)), F1(r.e, r.f, r.g)), k), x);
  }

  lemma LowTemp2(r: Regs64)
    ensures Low(Temp2(r)) == Spec.Add(Spec.BigSigma0(Low(r.a)), Spec.Maj(Low(r.a), Low(r.b), Low(r.c)))
  {
    hide Low, Plus, S2, F0, Spec.Add, Spec.BigSigma0, Spec.Maj;
    LowS2(r.a);
    LowF0(r.a, r.b, r.c);
    LowPlus(S2(r.a), F0(r.a, r.b, r.c));
  }

  /** A P line is an iteration of step 3 of section 6.2.2. */
  lemma LowP(r: Regs64, x: Long, k: Long)
    ensures LowRegs(P(r, x, k)) == Spec.Round(LowRegs(r), Low(x), Low(k))
  {
    hide Low, Plus, Temp1, Temp2, Spec.Add, Spec.BigSigma0, Spec.BigSigma1, Spec.Ch, Spec.Maj;
    LowTemp1(r, x, k);
    LowTemp2(r);
    LowPlus(Temp1(r, x, k), Temp2(r));
    LowPlus(r.d, Temp1(r, x, k));
  }

  lemma {:induction false} LowLines(r: Regs64, block: seq<Byte>, n: nat)
    requires |block| == 64 && n <= 64
    ensures LowRegs(Lines(r, block, n)) == Spec.Rounds(LowRegs(r), block, n)
  {
    hide LowRegs, P, W, KOf, Low, Spec.Round, Spec.Schedule, Spec.K;
    if n > 0 {
      LowLines(r, block, n - 1);
      LowSchedule(block, n - 1);
      LowConstants(n - 1);
      LowP(Lines(r, block, n - 1), W(block, n - 1), KOf(n - 1));
    }
  }

  lemma LowSum(x: Regs64, y: Regs64)
    ensures LowRegs(Sum(x, y)) == Spec.Sum(LowRegs(x), LowRegs(y))
  {
    hide Low, Plus, Spec.Add;
    LowPlus(x.a, y.a);
    LowPlus(x.b, y.b);
    LowPlus(x.c, y.c);
    LowPlus(x.d, y.d);
    LowPlus(x.e, y.e);
    LowPlus(x.f, y.f);
    LowPlus(x.g, y.g);
    LowPlus(x.h, y.h);
  }

  /** For every state and block, the block function on unmasked longs agrees modulo 2^32 with the
    * hash computation of section 6.2.2. */
  lemma Simulation(r: Regs64, block: seq<Byte>)
    requires |block| == 64
    ensures LowRegs(Process(r, block)) == Spec.Compress(LowRegs(r), block)
  {
    hide LowRegs, Lines, Sum, Spec.Sum, Spec.Rounds;
    LowLines(r, block, 64);
    LowSum(r, Lines(r, block, 64));
  }
}
