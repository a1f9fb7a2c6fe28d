/** The incremental hash: sha256_starts, sha256_process, sha256_update, sha256_finish, GoSha256.
  *
  * The two length counters are modelled as integers with their masks written out; the state
  * words are 64-bit vectors, as `unsigned long` is.
  */
module Sha256 {
  import opened Sequences
  import Spec = Sha256Spec
  import opened Sha256Words

  // ---------------------------------------------------------------- the state as a function of the input

  function Initial64(): Regs64 {
    Regs64(0x6A09E667, 0xBB67AE85, 0x3C6EF372, 0xA54FF53A, 0x510E527F, 0x9B05688C, 0x1F83D9AB, 0x5BE0CD19)
  }

  function HashLongs(m: seq<Byte>): Regs64
    requires |m| % 64 == 0
  {
    if m == [] then Initial64() else Process(HashLongs(m[..|m| - 64]), m[|m| - 64..])
  }

  /** The part of m that lies in whole blocks. */
  function Whole(m: seq<Byte>): (r: seq<Byte>)
    ensures |r| % 64 == 0
  {
    m[..|m| - |m| % 64]
  }

  function Rest(m: seq<Byte>): (r: seq<Byte>)
    ensures |r| == |m| % 64
  {
    m[|m| - |m| % 64..]
  }

  lemma LowInitial()
    ensures LowRegs(Initial64()) == Spec.Initial()
  {
  }

  lemma {:induction false} LowHash(m: seq<Byte>)
    requires |m| % 64 == 0
    ensures LowRegs(HashLongs(m)) == Spec.HashBlocks(m)
  {
    hide LowRegs, Process, Spec.Compress, Initial64, Spec.Initial;
    if m == [] {
      LowInitial();
    } else {
      LowHash(m[..|m| - 64]);
      Simulation(HashLongs(m[..|m| - 64]), m[|m| - 64..]);
    }
  }

  lemma HashAppend(m: seq<Byte>, block: seq<Byte>)
    requires |m| % 64 == 0 && |block| == 64
    ensures HashLongs(m + block) == Process(HashLongs(m), block)
  {
  }

  // ---------------------------------------------------------------- the length counters

  /** The carry test of sha256_update finds the true carry exactly up to this length. */
  lemma CarryExact(total0: nat, length: nat)
    requires total0 < 0x1_0000_0000
    ensures (if (total0 + length) % 0x1_0000_0000 < length then 1 else 0) == (total0 + length) / 0x1_0000_0000
      <==> total0 + length < 0x2_0000_0000
  {
  }

  /** At 2^33 one of two carries is lost. */
  lemma CarryFails()
    ensures var total0, length := 0xFFFF_FFFF, 0x1_0000_0001;
      && total0 + length == 0x2_0000_0000
      && (total0 + length) % 0x1_0000_0000 < length && (total0 + length) / 0x1_0000_0000 == 2
  {
  }

  /** The low counter knows how full the buffer is. */
  lemma LowResidue(n: nat)
    ensures n % 0x1_0000_0000 % 64 == n % 64
  {
  }

  lemma Residue(q: int, r: nat, n: int)
    requires r < 64 && n == q * 64 + r
    ensures n % 64 == r
  {
  }

  lemma CountersGrow(n: nat, length: nat)
    requires n % 0x1_0000_0000 + length < 0x2_0000_0000
    ensures (n + length) % 0x1_0000_0000 == (n % 0x1_0000_0000 + length) % 0x1_0000_0000
    ensures (n + length) / 0x1_0000_0000
      == n / 0x1_0000_0000 + (if (n % 0x1_0000_0000 + length) % 0x1_0000_0000 < length then 1 else 0)
  {
  }

  /** The two words that sha256_finish builds from the counters are the length in bits. */
  lemma BitLength(n: nat)
    requires n < 0x2000_0000_0000_0000
    ensures var total0, total1 := n % 0x1_0000_0000, n / 0x1_0000_0000;
      && Spec.Bytes4(total0 / 0x2000_0000 + total1 * 8) == Spec.Bytes4(8 * n / 0x1_0000_0000)
      && Spec.Bytes4(total0 * 8) == Spec.Bytes4(8 * n % 0x1_0000_0000)
  {
    var total0, total1 := n % 0x1_0000_0000, n / 0x1_0000_0000;
    assert 8 * n == (total0 / 0x2000_0000 + total1 * 8) * 0x1_0000_0000 + total0 * 8 % 0x1_0000_0000;
    Truncated(total0 * 8);
  }

  lemma ByteShift(q: nat, m: nat, n: nat)
    requires n == q * 256 + m
    ensures n % 256 == m % 256
  {
  }

  /** PUT_UINT32 stores the low 32 bits. */
  lemma Truncated(n: nat)
    ensures Spec.Bytes4(n % 0x1_0000_0000) == Spec.Bytes4(n)
  {
    var q, low := n / 0x1_0000_0000, n % 0x1_0000_0000;
    ByteShift(q, low / 0x100_0000, n / 0x100_0000);
    ByteShift(q * 0x100, low / 0x1_0000, n / 0x1_0000);
    ByteShift(q * 0x1_0000, low / 0x100, n / 0x100);
    ByteShift(q * 0x100_0000, low, n);
  }

  // ---------------------------------------------------------------- one block

  /** W[0] to W[n-1] are filled in. */
  ghost predicate Scheduled(w: array<Long>, block: seq<Byte>, n: nat)
    requires |block| == 64
    reads w
  {
    w.Length == 64 && n <= 64 && forall j :: 0 <= j < n ==> w[j] == W(block, j)
  }

  /** R(t): extend the schedule by one word, as late as the round that needs it. */
  method R(w: array<Long>, t: nat, ghost block: seq<Byte>) returns (x: Long)
    requires |block| == 64 && 16 <= t < 64 && Scheduled(w, block, t)
    modifies w
    ensures x == W(block, t) && Scheduled(w, block, t + 1)
  {
    hide S0, S1, Plus;
    w[t] := Plus(Plus(Plus(S1(w[t - 2]), w[t - 7]), S0(w[t - 15])), w[t - 16]);
    x := w[t];
  }

  /** How much of W is filled in before line t. */
  function Filled(t: nat): nat { if t < 16 then 16 else t }

  method LineWord(w: array<Long>, t: nat, ghost block: seq<Byte>) returns (x: Long)
    requires |block| == 64 && t < 64 && Scheduled(w, block, Filled(t))
    modifies w
    ensures x == W(block, t) && Scheduled(w, block, Filled(t + 1))
  {
    if t < 16 { x := w[t]; } else { x := R(w, t, block); }
  }

  /** One P line: it changes only its fourth and eighth register. */
  method LineP(a: Long, b: Long, c: Long, d: Long, e: Long, f: Long, g: Long, h: Long, x: Long, k: Long,
               ghost t: nat, ghost block: seq<Byte>, ghost r: Regs64)
    returns (d': Long, h': Long)
    requires |block| == 64 && t < 64 && x == W(block, t) && k == KOf(t)
    requires Regs64(a, b, c, d, e, f, g, h) == Lines(r, block, t)
    ensures Regs64(h', a, b, c, d', e, f, g) == Lines(r, block, t + 1)
  {
    hide S2, S3, F0, F1, Plus, W, KOf;
    var temp1 := Plus(Plus(Plus(Plus(h, S3(e)), F1(e, f, g)), k), x);
    var temp2 := Plus(S2(a), F0(a, b, c));
    d' := Plus(d, temp1);
    h' := Plus(temp1, temp2);
  }

  /** Four P lines, after which the names have moved on by four places. */
  method Quad(w: array<Long>, t: nat, a: Long, b: Long, c: Long, d: Long, e: Long, f: Long, g: Long, h: Long,
              ghost block: seq<Byte>, ghost r: Regs64)
    returns (A: Long, B: Long, C: Long, D: Long, E: Long, F: Long, G: Long, H: Long)
    requires |block| == 64 && t <= 60 && Scheduled(w, block, Filled(t))
    requires Regs64(a, b, c, d, e, f, g, h) == Lines(r, block, t)
    modifies w
    ensures Scheduled(w, block, Filled(t + 4))
    ensures Regs64(E, F, G, H, A, B, C, D) == Lines(r, block, t + 4)
  {
    hide W, KOf, Scheduled, Lines, Filled;
    A, B, C, D, E, F, G, H := a, b, c, d, e, f, g, h;
    var x;
    x := LineWord(w, t, block);     D, H := LineP(A, B, C, D, E, F, G, H, x, KOf(t), t, block, r);
    x := LineWord(w, t + 1, block); C, G := LineP(H, A, B, C, D, E, F, G, x, KOf(t + 1), t + 1, block, r);
    x := LineWord(w, t + 2, block); B, F := LineP(G, H, A, B, C, D, E, F, x, KOf(t + 2), t + 2, block, r);
    x := LineWord(w, t + 3, block); A, E := LineP(F, G, H, A, B, C, D, E, x, KOf(t + 3), t + 3, block, r);
  }

  /** Eight P lines, after which the names are back in place. */
  method Octet(w: array<Long>, t: nat, a: Long, b: Long, c: Long, d: Long, e: Long, f: Long, g: Long, h: Long,
               ghost block: seq<Byte>, ghost r: Regs64)
    returns (A: Long, B: Long, C: Long, D: Long, E: Long, F: Long, G: Long, H: Long)
    requires |block| == 64 && t <= 56 && Scheduled(w, block, Filled(t))
    requires Regs64(a, b, c, d, e, f, g, h) == Lines(r, block, t)
    modifies w
    ensures Scheduled(w, block, Filled(t + 8))
    ensures Regs64(A, B, C, D, E, F, G, H) == Lines(r, block, t + 8)
  {
    hide W, KOf, Scheduled, Lines, Filled;
    A, B, C, D, E, F, G, H := Quad(w, t, a, b, c, d, e, f, g, h, block, r);
    E, F, G, H, A, B, C, D := Quad(w, t + 4, E, F, G, H, A, B, C, D, block, r);
  }

  method LoadWord(w: array<Long>, i: nat, data: seq<Byte>)
    requires |data| == 64 && i < 16 && Scheduled(w, data, i) && w.Length == 64
    modifies w
    ensures Scheduled(w, data, i + 1)
  {
    hide GetUint32;
    w[i] := GetUint32(data[4 * i], data[4 * i + 1], data[4 * i + 2], data[4 * i + 3]);
  }

  /** W[0] to W[15]: the words of the block. */
  method LoadWords(w: array<Long>, data: seq<Byte>)
    requires w.Length == 64 && |data| == 64
    modifies w
    ensures Scheduled(w, data, 16)
  {
    hide W;
    LoadWord(w, 0, data);
    LoadWord(w, 1, data);
    LoadWord(w, 2, data);
    LoadWord(w, 3, data);
    LoadWord(w, 4, data);
    LoadWord(w, 5, data);
    LoadWord(w, 6, data);
    LoadWord(w, 7, data);
    LoadWord(w, 8, data);
    LoadWord(w, 9, data);
    LoadWord(w, 10, data);
    LoadWord(w, 11, data);
    LoadWord(w, 12, data);
    LoadWord(w, 13, data);
    LoadWord(w, 14, data);
    LoadWord(w, 15, data);
  }

  /** Thirty-two P lines. */
  method HalfOfLines(w: array<Long>, t: nat, a: Long, b: Long, c: Long, d: Long, e: Long, f: Long, g: Long, h: Long,
                     ghost block: seq<Byte>, ghost r: Regs64)
    returns (A: Long, B: Long, C: Long, D: Long, E: Long, F: Long, G: Long, H: Long)
    requires |block| == 64 && t <= 32 && Scheduled(w, block, Filled(t))
    requires Regs64(a, b, c, d, e, f, g, h) == Lines(r, block, t)
    modifies w
    ensures Scheduled(w, block, Filled(t + 32))
    ensures Regs64(A, B, C, D, E, F, G, H) == Lines(r, block, t + 32)
  {
    hide Scheduled, Lines, Filled;
    A, B, C, D, E, F, G, H := Octet(w, t, a, b, c, d, e, f, g, h, block, r);
    A, B, C, D, E, F, G, H := Octet(w, t + 8, A, B, C, D, E, F, G, H, block, r);
    A, B, C, D, E, F, G, H := Octet(w, t + 16, A, B, C, D, E, F, G, H, block, r);
    A, B, C, D, E, F, G, H := Octet(w, t + 24, A, B, C, D, E, F, G, H, block, r);
  }

  /** The sixty-four lines between loading the registers and adding them to the state. */
  method AllLines(data: seq<Byte>, a: Long, b: Long, c: Long, d: Long, e: Long, f: Long, g: Long, h: Long)
    returns (A: Long, B: Long, C: Long, D: Long, E: Long, F: Long, G: Long, H: Long)
    requires |data| == 64
    ensures Regs64(A, B, C, D, E, F, G, H) == Lines(Regs64(a, b, c, d, e, f, g, h), data, 64)
  {
    ghost var r := Regs64(a, b, c, d, e, f, g, h);
    assert Filled(0) == 16 && Lines(r, data, 0) == r;
    hide Scheduled, Lines, Filled;
    var w := new Long[64];
    LoadWords(w, data);
    A, B, C, D, E, F, G, H := HalfOfLines(w, 0, a, b, c, d, e, f, g, h, data, r);
    A, B, C, D, E, F, G, H := HalfOfLines(w, 32, A, B, C, D, E, F, G, H, data, r);
  }

  // ---------------------------------------------------------------- the context

  /** Input that does not complete a block stays in the rest. */
  lemma Buffered(m: seq<Byte>, input: seq<Byte>)
    requires |m| % 64 + |input| < 64
    ensures Whole(m + input) == Whole(m) && Rest(m + input) == Rest(m) + input
  {
    assert |m + input| == |m| + |input|;
    assert (|m| + |input|) % 64 == |m| % 64 + |input|;
  }

  lemma WholeBlocks(m: seq<Byte>, input: seq<Byte>)
    requires |m| % 64 + |input| == 64
    ensures Whole(m + input) == Whole(m) + (Rest(m) + input) && Rest(m + input) == []
  {
  }

  /** Input that completes a block. */
  lemma Completed(m: seq<Byte>, input: seq<Byte>)
    requires |m| % 64 + |input| == 64
    ensures HashLongs(Whole(m + input)) == Process(HashLongs(Whole(m)), Rest(m) + input) && Rest(m + input) == []
  {
    hide HashLongs, Whole, Rest, Process;
    WholeBlocks(m, input);
    HashAppend(Whole(m), Rest(m) + input);
  }

  lemma Spliced(m: seq<Byte>, input: seq<Byte>, i: nat, j: nat)
    requires i <= j <= |input|
    ensures (m + input[..i]) + input[i..j] == m + input[..j]
  {
  }

  lemma NextBlock(n: nat)
    ensures (n + 64) % 64 == n % 64
  {
  }

  class Context {
    var total0: nat
    var total1: nat
    const state: array<Long>
    const buffer: array<Byte>

    ghost predicate Valid() {
      state.Length == 8 && buffer.Length == 64
    }

    function Words(): Regs64
      requires state.Length == 8
      reads state
    {
      Regs64(state[0], state[1], state[2], state[3], state[4], state[5], state[6], state[7])
    }

    /** State words and the used part of the buffer hold the input m. */
    ghost predicate Hashed(m: seq<Byte>)
      reads state, buffer
    {
      Valid() && Words() == HashLongs(Whole(m)) && buffer[..|m| % 64] == Rest(m)
    }

    /** The context stands for the input m: counters, state words and the used part of the buffer
      * are functions of m alone, however m was split over calls. */
    ghost predicate Absorbed(m: seq<Byte>)
      reads this, state, buffer
    {
      && Hashed(m)
      && total0 == |m| % 0x1_0000_0000 && total1 == |m| / 0x1_0000_0000 % 0x1_0000_0000_0000_0000
    }

    /** A context as it comes off the stack. */
    constructor ()
      ensures Valid() && fresh(state) && fresh(buffer)
    {
      state := new Long[8];
      buffer := new Byte[64];
    }

    /** sha256_starts */
    method Starts()
      requires Valid()
      modifies this, state
      ensures Absorbed([])
    {
      total0 := 0;
      total1 := 0;
      state[0] := 0x6A09E667;
      state[1] := 0xBB67AE85;
      state[2] := 0x3C6EF372;
      state[3] := 0xA54FF53A;
      state[4] := 0x510E527F;
      state[5] := 0x9B05688C;
      state[6] := 0x1F83D9AB;
      state[7] := 0x5BE0CD19;
      assert buffer[..0] == [];
    }

    /** sha256_process */
    method ProcessBlock(data: seq<Byte>)
      requires Valid() && |data| == 64
      modifies state
      ensures Words() == Process(old(Words()), data)
    {
      hide Lines, Plus;
      var A, B, C, D, E, F, G, H :=
        AllLines(data, state[0], state[1], state[2], state[3], state[4], state[5], state[6], state[7]);
      state[0] := Plus(state[0], A);
      state[1] := Plus(state[1], B);
      state[2] := Plus(state[2], C);
      state[3] := Plus(state[3], D);
      state[4] := Plus(state[4], E);
      state[5] := Plus(state[5], F);
      state[6] := Plus(state[6], G);
      state[7] := Plus(state[7], H);
    }

    /** The counters of sha256_update. */
    method Count(length: nat, ghost m: seq<Byte>)
      requires total0 == |m| % 0x1_0000_0000 && total1 == |m| / 0x1_0000_0000 % 0x1_0000_0000_0000_0000
      requires total0 + length < 0x2_0000_0000
      modifies this
      ensures total0 == (|m| + length) % 0x1_0000_0000
      ensures total1 == (|m| + length) / 0x1_0000_0000 % 0x1_0000_0000_0000_0000
    {
      CountersGrow(|m|, length);
      total0 := (total0 + length) % 0x1_0000_0000;
      if total0 < length { total1 := (total1 + 1) % 0x1_0000_0000_0000_0000; }
    }

    /** memcpy into the buffer. */
    method Copy(left: nat, input: seq<Byte>)
      requires Valid() && left + |input| <= 64
      modifies buffer
      ensures buffer[..left + |input|] == old(buffer[..left]) + input
    {
      forall i | 0 <= i < |input| { buffer[left + i] := input[i]; }
    }

    /** Complete the buffered block and process it. */
    method FillUp(left: nat, input: seq<Byte>, ghost m: seq<Byte>)
      requires Hashed(m) && left == |m| % 64 && left + |input| == 64
      modifies state, buffer
      ensures Hashed(m + input)
    {
      hide Process, HashLongs, Whole, Rest;
      Copy(left, input);
      assert buffer[..] == buffer[..64];
      ProcessBlock(buffer[..]);
      Completed(m, input);
      assert buffer[..0] == [];
    }

    /** Process a block straight from the input. */
    method TakeBlock(block: seq<Byte>, ghost m: seq<Byte>)
      requires Hashed(m) && |m| % 64 == 0 && |block| == 64
      modifies state
      ensures Hashed(m + block)
    {
      hide Process, HashLongs, Whole, Rest;
      ProcessBlock(block);
      Completed(m, block);
      assert [] + block == block;
    }

    /** Keep an incomplete block for later. */
    method Stash(left: nat, input: seq<Byte>, ghost m: seq<Byte>)
      requires Hashed(m) && left == |m| % 64 && left + |input| < 64
      modifies buffer
      ensures Hashed(m + input)
    {
      hide Process, HashLongs, Whole, Rest;
      Copy(left, input);
      Buffered(m, input);
    }

    /** The loop of sha256_update over the whole blocks of the input. */
    method TakeBlocks(input: seq<Byte>, start: nat, left: nat, ghost m: seq<Byte>) returns (pos: nat)
      requires start <= |input| && Hashed(m + input[..start])
      requires left == (|m| + start) % 64 && (left + |input| - start >= 64 ==> left == 0)
      modifies state
      ensures start <= pos <= |input| && Hashed(m + input[..pos])
      ensures left == (|m| + pos) % 64 && left + |input| - pos < 64
    {
      hide HashLongs, Hashed;
      pos := start;
      while |input| - pos >= 64
        invariant start <= pos <= |input| && left == (|m| + pos) % 64 && Hashed(m + input[..pos])
        invariant left + |input| - pos >= 64 ==> left == 0
      {
        TakeBlock(input[pos..pos + 64], m + input[..pos]);
        Spliced(m, input, pos, pos + 64);
        NextBlock(|m| + pos);
        pos := pos + 64;
      }
    }

    /** sha256_update: the context then stands for the longer input. */
    method Update(input: seq<Byte>, ghost m: seq<Byte>)
      requires Absorbed(m) && total0 + |input| < 0x2_0000_0000
      modifies this, state, buffer
      ensures Absorbed(m + input)
    {
      hide HashLongs, Hashed;
      assert input[..|input|] == input;
      if |input| == 0 {
        assert m + input == m;
        return;
      }
      var left := total0 % 64;
      LowResidue(|m|);
      var fill := 64 - left;
      Count(|input|, m);
      var pos := 0;
      assert m + input[..0] == m;
      if left != 0 && |input| >= fill {
        FillUp(left, input[..fill], m);
        Residue(|m| / 64 + 1, 0, |m| + fill);
        pos := fill;
        left := 0;
      }
      pos := TakeBlocks(input, pos, left, m);
      Spliced(m, input, pos, |input|);
      if pos < |input| {
        Stash(left, input[pos..], m + input[..pos]);
      }
    }

    /** sha256_finish: the digest of the padded message. */
    method Finish(digest: array<Byte>, ghost m: seq<Byte>)
      requires Absorbed(m) && |m| < 0x2000_0000_0000_0000 && digest.Length >= 32 && digest != buffer
      modifies this, state, buffer, digest
      ensures digest[..32] == Spec.Sha256(m) && digest[32..] == old(digest[32..])
    {
      hide Hashed, Words;
      var high := total0 / 0x2000_0000 + total1 * 8;
      var low := total0 * 8;
      var msglen := Spec.Bytes4(high) + Spec.Bytes4(low);
      var last := total0 % 64;
      var padn := if last < 56 then 56 - last else 120 - last;
      PaddingExact(m, high, low, padn);
      Update(SHA256_PADDING[..padn], m);
      Update(msglen, m + SHA256_PADDING[..padn]);
      PutDigest(digest, Spec.Pad(m));
      DigestExact(m);
    }

    /** The eight PUT_UINT32 lines. */
    method PutDigest(digest: array<Byte>, ghost m: seq<Byte>)
      requires Hashed(m) && digest.Length >= 32
      modifies digest
      ensures digest[..32] == LongsBytes(HashLongs(Whole(m)))
      ensures forall j :: 32 <= j < digest.Length ==> digest[j] == old(digest[j])
    {
      hide PutUint32, HashLongs, Whole;
      PutFour(state[0], state[1], state[2], state[3], digest, 0);
      assert digest[..16] == PutUint32(state[0]) + PutUint32(state[1]) + PutUint32(state[2]) + PutUint32(state[3]);
      PutFour(state[4], state[5], state[6], state[7], digest, 16);
    }
  }

  method PutFour(p: Long, q: Long, r: Long, s: Long, b: array<Byte>, i: nat)
    requires i + 16 <= b.Length
    modifies b
    ensures b[..i + 16] == old(b[..i]) + PutUint32(p) + PutUint32(q) + PutUint32(r) + PutUint32(s)
    ensures forall j :: i + 16 <= j < b.Length ==> b[j] == old(b[j])
  {
    hide PutUint32;
    Put(p, b, i);
    Put(q, b, i + 4);
    Put(r, b, i + 8);
    Put(s, b, i + 12);
  }

  /** The 64 bytes that padding is taken from. */
  const SHA256_PADDING: seq<Byte> := [0x80] + Spec.Zeros(63)

  /** PUT_UINT32 */
  method Put(n: Long, b: array<Byte>, i: nat)
    requires i + 4 <= b.Length
    modifies b
    ensures b[..i + 4] == old(b[..i]) + PutUint32(n)
    ensures forall j :: i + 4 <= j < b.Length ==> b[j] == old(b[j])
  {
    hide ByteOf;
    b[i] := ByteOf(n >> 24);
    b[i + 1] := ByteOf(n >> 16);
    b[i + 2] := ByteOf(n >> 8);
    b[i + 3] := ByteOf(n);
  }

  function LongsBytes(r: Regs64): seq<Byte> {
    PutUint32(r.a) + PutUint32(r.b) + PutUint32(r.c) + PutUint32(r.d)
    + PutUint32(r.e) + PutUint32(r.f) + PutUint32(r.g) + PutUint32(r.h)
  }

  lemma PaddingLength(n: nat)
    ensures var last := n % 0x1_0000_0000 % 64;
      1 + Spec.ZeroBytes(n) == if last < 56 then 56 - last else 120 - last
  {
  }

  lemma ZerosPrefix(k: nat)
    requires k <= 63
    ensures SHA256_PADDING[..1 + k] == [0x80] + Spec.Zeros(k)
  {
  }

  /** What sha256_finish feeds in is the padding of section 5.1.1. */
  lemma PaddingExact(m: seq<Byte>, high: nat, low: nat, padn: nat)
    requires |m| < 0x2000_0000_0000_0000
    requires var total0, total1 := |m| % 0x1_0000_0000, |m| / 0x1_0000_0000 % 0x1_0000_0000_0000_0000;
      && high == total0 / 0x2000_0000 + total1 * 8 && low == total0 * 8
      && padn == if total0 % 64 < 56 then 56 - total0 % 64 else 120 - total0 % 64
    ensures padn <= 64
    ensures (m + SHA256_PADDING[..padn]) + (Spec.Bytes4(high) + Spec.Bytes4(low)) == Spec.Pad(m)
  {
    hide Spec.Bytes4, Spec.ZeroBytes, Spec.Zeros;
    PaddingLength(|m|);
    ZerosPrefix(Spec.ZeroBytes(|m|));
    BitLength(|m|);
    assert Spec.Bytes4(high) + Spec.Bytes4(low) == Spec.LengthBlock(8 * |m|);
    Regroup(m, SHA256_PADDING[..padn], Spec.LengthBlock(8 * |m|));
  }

  lemma DigestExact(m: seq<Byte>)
    ensures LongsBytes(HashLongs(Whole(Spec.Pad(m)))) == Spec.Sha256(m)
  {
    hide Low, PutUint32, Spec.WordBytes, HashLongs, Spec.HashBlocks, Spec.Padding;
    var p := Spec.Pad(m);
    assert Whole(p) == p;
    LowHash(p);
    var r := HashLongs(p);
    LowBytes(r.a);
    LowBytes(r.b);
    LowBytes(r.c);
    LowBytes(r.d);
    LowBytes(r.e);
    LowBytes(r.f);
    LowBytes(r.g);
    LowBytes(r.h);
  }

  /** GoSha256, for a length that is not negative: the digest of FIPS 180-2. */
  method GoSha256(source: seq<Byte>, result: array<Byte>) returns (code: int)
    requires |source| < 0x8000_0000 && result.Length >= 32
    modifies result
    ensures code == 0 && result[..32] == Spec.Sha256(source) && result[32..] == old(result[32..])
  {
    var ctx := new Context();
    ctx.Starts();
    ctx.Update(source, []);
    assert [] + source == source;
    ctx.Finish(result, source);
    code := 0;
  }
}
