/** The byte ring between a socket and the frame parsers. */
module Ring {

  import opened Bytes
  import opened Sequences

  const RECV_NOT_ENOUGH := -2
  const USER_CLOSE := -100

  /** The limit that the edge-triggered fill puts on one burst. */
  const BURST_LIMIT := 1024000

  /** What one `read` call yields: up to 256 bytes, or nothing, with EAGAIN in errno or not. */
  datatype ReadResult = Data(bytes: seq<Byte>) | Nothing(eagain: bool)

  function Wrap(n: nat, i: nat): nat { if n <= i then i - n else i }

  lemma WrapIsModulo(n: nat, i: nat)
    requires 0 < n && i < 2 * n
    ensures Wrap(n, i) == i % n < n
  {
  }

  /** The `len` bytes of a ring of size n that start at `head`, wrapping round at n. */
  function Stored(mem: seq<Byte>, n: nat, head: nat, len: nat): (r: seq<Byte>)
    requires |mem| == n && head < n && len <= n
    ensures |r| == len && forall i {:trigger r[i]} :: 0 <= i < len ==> r[i] == mem[Wrap(n, head + i)]
  {
    seq(len, i requires 0 <= i < len => mem[Wrap(n, head + i)])
  }

  /** The code's test in Get: nothing to wrap. */
  predicate TestsStraight(head: nat, tail: nat, len: nat) {
    head <= tail + len
  }

  /** The bound under which Get is first in, first out. */
  predicate InOrder(n: nat, head: nat, used: nat, len: nat) {
    head + len <= n || used + len < n
  }

  /** For bytes that are in the ring, the straight copy runs out of the ring in exactly the
    * cases outside the bound. */
  lemma StraightCopyExact(n: nat, head: nat, used: nat, len: nat)
    requires head < n && used <= n && len <= used
    ensures TestsStraight(head, Wrap(n, head + used), len) && head + len > n <==> !InOrder(n, head, used, len)
  {
  }

  /** What the code's branches read: the bytes of the ring, or, when they copy straight past its
    * end, what memory holds beyond it. */
  function Fetched(mem: seq<Byte>, n: nat, head: nat, tail: nat, len: nat, beyond: seq<Byte>): (r: seq<Byte>)
    requires |mem| == n && head < n && len <= n && len <= |beyond|
    ensures |r| == len
  {
    if TestsStraight(head, tail, len) && head + len > n then (mem[head..] + beyond)[..len]
    else Stored(mem, n, head, len)
  }

  /** Get is first in, first out, whatever lies behind the ring, exactly within the bound. */
  lemma FifoExactly(mem: seq<Byte>, n: nat, head: nat, used: nat, len: nat)
    requires |mem| == n && head < n && used <= n && len <= used
    ensures InOrder(n, head, used, len) <==>
      forall beyond {:trigger Fetched(mem, n, head, Wrap(n, head + used), len, beyond)} :: |beyond| == n ==>
        Fetched(mem, n, head, Wrap(n, head + used), len, beyond) == Stored(mem, n, head, used)[..len]
  {
    StraightCopyExact(n, head, used, len);
    StoredSplit(mem, n, head, len, used - len);
    if !InOrder(n, head, used, len) {
      var other: Byte := if mem[0] == 0 then 1 else 0;
      var beyond := seq(n, _ => other);
      assert Fetched(mem, n, head, Wrap(n, head + used), len, beyond)[n - head] == other;
      assert Stored(mem, n, head, len)[n - head] == mem[0];
    }
  }

  /** A ring that is never half full stays within the bound. */
  lemma HalfEmptyInOrder(n: nat, head: nat, used: nat, len: nat)
    requires len <= used && 2 * used < n
    ensures InOrder(n, head, used, len)
  {
  }

  /** Taking bytes off the front of the ring. */
  lemma StoredSplit(mem: seq<Byte>, n: nat, head: nat, a: nat, b: nat)
    requires |mem| == n && head < n && a + b <= n
    ensures Stored(mem, n, head, a + b)[..a] == Stored(mem, n, head, a)
    ensures Wrap(n, head + a) < n && Stored(mem, n, head, a + b)[a..] == Stored(mem, n, Wrap(n, head + a), b)
  {
  }

  /** Within the bound the code's branches read the bytes at the front, and the rest stays. */
  lemma FetchedInOrder(mem: seq<Byte>, n: nat, head: nat, used: nat, len: nat, beyond: seq<Byte>)
    requires |mem| == n && head < n && used <= n && len <= used && len <= |beyond| && InOrder(n, head, used, len)
    ensures Fetched(mem, n, head, Wrap(n, head + used), len, beyond) == Stored(mem, n, head, used)[..len]
    ensures Wrap(n, head + len) < n
    ensures Stored(mem, n, Wrap(n, head + len), used - len) == Stored(mem, n, head, used)[len..]
  {
    StraightCopyExact(n, head, used, len);
    StoredSplit(mem, n, head, len, used - len);
  }

  /** Memory after `src` was copied to address `at`. */
  function Copied(mem: seq<Byte>, at: nat, src: seq<Byte>): (r: seq<Byte>)
    requires at + |src| <= |mem|
    ensures |r| == |mem|
    ensures forall i {:trigger r[i]} :: 0 <= i < |mem| ==> r[i] == if at <= i < at + |src| then src[i - at] else mem[i]
  {
    mem[..at] + src + mem[at + |src|..]
  }

  /** Copying to the free place after the contents, in one piece. */
  lemma AppendStraight(mem: seq<Byte>, n: nat, head: nat, used: nat, src: seq<Byte>)
    requires |mem| == n && head < n && used + |src| <= n
    requires Wrap(n, head + used) + |src| <= n
    ensures Stored(Copied(mem, Wrap(n, head + used), src), n, head, used + |src|) == Stored(mem, n, head, used) + src
  {
  }

  /** Copying in two pieces, the second to the start of the ring. */
  lemma AppendSplit(mem: seq<Byte>, n: nat, head: nat, used: nat, src: seq<Byte>, cut: nat)
    requires |mem| == n && head < n && used + |src| <= n && cut <= |src|
    requires head + used < n && cut == n - (head + used)
    ensures Stored(Copied(Copied(mem, head + used, src[..cut]), 0, src[cut..]), n, head, used + |src|)
      == Stored(mem, n, head, used) + src
  {
  }

  /** The tail stays where it is when bytes leave. */
  lemma Advance(n: nat, head: nat, used: nat, len: nat)
    requires 0 < n && head < n && len <= used <= n
    ensures (Wrap(n, head + len) + (used - len)) % n == (head + used) % n
  {
    var rest := Wrap(n, head + len) + (used - len);
    WrapIsModulo(n, head + used);
    assert rest == head + used || rest == head + used - n;
    if rest < 2 * n { WrapIsModulo(n, rest); }
  }

  class CircularBuff {
    var head: nat
    var tail: nat
    var used: nat
    const size: nat
    const buffer: array<Byte>

    ghost predicate Valid()
      reads this
    {
      && size > 0 && buffer.Length == size
      && head < size && used <= size && tail == (head + used) % size
    }

    /** Memory, head and fill of the ring; the tail follows from them. */
    function Snapshot(): Image
      reads this, buffer
    {
      Image(buffer[..], head, used)
    }

    /** The bytes put in and not yet taken out, oldest first. */
    function Contents(): (r: seq<Byte>)
      requires Valid()
      reads this, buffer
      ensures |r| == used
    {
      Stored(buffer[..], size, head, used)
    }

    constructor (n: nat)
      requires n > 0
      ensures Valid() && size == n && Contents() == [] && fresh(buffer)
    {
      size := n;
      buffer := new Byte[n];
      head, tail, used := 0, 0, 0;
    }

    method CopyIn(at: nat, src: seq<Byte>)
      requires Valid() && at + |src| <= size
      modifies buffer
      ensures buffer[..] == Copied(old(buffer[..]), at, src)
    {
      forall i | 0 <= i < |src| { buffer[at + i] := src[i]; }
    }

    /** The branches of Put: copy behind the contents, in one piece or two. */
    method CopyBehind(src: seq<Byte>)
      requires Valid() && used + |src| <= size && tail == Wrap(size, head + used)
      modifies buffer
      ensures Stored(buffer[..], size, head, used + |src|) == old(Contents()) + src
    {
      hide Stored, Copied;
      if head <= tail + |src| {
        if head == 0 {
          CopyOnce(src);
        } else {
          var free := size - tail;
          if |src| <= free {
            CopyOnce(src);
          } else {
            CopyTwice(src, free);
          }
        }
      } else {
        CopyOnce(src);
      }
    }

    method CopyOnce(src: seq<Byte>)
      requires Valid() && used + |src| <= size && tail == Wrap(size, head + used) && tail + |src| <= size
      modifies buffer
      ensures Stored(buffer[..], size, head, used + |src|) == old(Contents()) + src
    {
      hide Stored, Copied;
      AppendStraight(buffer[..], size, head, used, src);
      CopyIn(tail, src);
    }

    method CopyTwice(src: seq<Byte>, free: nat)
      requires Valid() && used + |src| <= size && tail == head + used && free == size - tail < |src|
      modifies buffer
      ensures Stored(buffer[..], size, head, used + |src|) == old(Contents()) + src
    {
      hide Stored, Copied;
      AppendSplit(buffer[..], size, head, used, src, free);
      CopyIn(tail, src[..free]);
      CopyIn(0, src[free..]);
    }

    /** Put(char*, int): append everything, or fail and change nothing. */
    method Put(src: seq<Byte>) returns (r: int)
      requires Valid()
      modifies this, buffer
      ensures Valid()
      ensures r == if |src| <= size - old(used) then |src| else -1
      ensures Contents() == old(Contents()) + (if r < 0 then [] else src)
      ensures r < 0 ==> unchanged(this) && unchanged(buffer)
    {
      hide Stored;
      WrapIsModulo(size, head + used);
      if |src| > size - used {
        assert Contents() + [] == Contents();
        return -1;
      }
      CopyBehind(src);
      tail := tail + |src|;
      if size <= tail {
        tail := tail - size;
      }
      used := used + |src|;
      WrapIsModulo(size, head + used);
      return |src|;
    }

    /** Get: the bytes come from the front of the ring, or from beyond its end when the code's
      * test takes the wrong branch. `beyond` is what memory holds after the ring. */
    method Get(len: nat, beyond: seq<Byte>) returns (r: int, out: seq<Byte>)
      requires Valid() && len <= |beyond|
      modifies this
      ensures Valid()
      ensures r == if len <= old(used) then len else RECV_NOT_ENOUGH
      ensures r < 0 ==> unchanged(this) && out == []
      ensures r >= 0 ==> Contents() == old(Contents())[len..]
      ensures r >= 0 ==> head == Wrap(size, old(head) + len) && used == old(used) - len
      ensures r >= 0 ==> out == Fetched(buffer[..], size, old(head), old(tail), len, beyond)
      ensures r >= 0 && InOrder(size, old(head), old(used), len) ==> out == old(Contents())[..len]
    {
      hide Stored;
      WrapIsModulo(size, head + used);
      if len > used {
        return RECV_NOT_ENOUGH, [];
      }
      StraightCopyExact(size, head, used, len);
      StoredSplit(buffer[..], size, head, len, used - len);
      out := Fetch(len, beyond);
      Skip(len);
      return len, out;
    }

    /** The pointer updates of Get. */
    method Skip(len: nat)
      requires Valid() && len <= used
      modifies this
      ensures Valid() && Contents() == old(Contents())[len..]
      ensures head == Wrap(size, old(head) + len) && used == old(used) - len
    {
      hide Stored;
      StoredSplit(buffer[..], size, head, len, used - len);
      WrapIsModulo(size, head + len);
      Advance(size, head, used, len);
      head := head + len;
      if size <= head {
        head := head - size;
      }
      used := used - len;
    }

    /** The branches that Get and GetHeader share: they read `len` bytes, in the ring or not. */
    method Fetch(len: nat, beyond: seq<Byte>) returns (out: seq<Byte>)
      requires Valid() && len <= |beyond|
      ensures |out| == len
      ensures len <= size ==> out == Fetched(buffer[..], size, head, tail, len, beyond)
    {
      var mem := buffer[..] + beyond;
      if head <= tail + len {
        out := mem[head..head + len];
      } else {
        var right := size - head;
        if len <= right {
          out := mem[head..head + len];
        } else {
          out := mem[head..head + right] + mem[..len - right];
        }
      }
    }

    /** GetHeader: four bytes from the front, whether or not four bytes have been put in. */
    method GetHeader(beyond: seq<Byte>) returns (out: seq<Byte>)
      requires Valid() && 4 <= |beyond|
      ensures |out| == 4
      ensures 4 <= size ==> out == Fetched(buffer[..], size, head, tail, 4, beyond)
      ensures 4 <= used && InOrder(size, head, used, 4) ==> out == Contents()[..4]
    {
      hide Stored;
      WrapIsModulo(size, head + used);
      out := Fetch(4, beyond);
      if 4 <= used {
        StraightCopyExact(size, head, used, 4);
        StoredSplit(buffer[..], size, head, 4, used - 4);
      }
    }

    /** Second version of Get, not the program's: it tests for the wrap itself. */
    method GetCorrected(len: nat) returns (r: int, out: seq<Byte>)
      requires Valid()
      modifies this
      ensures Valid()
      ensures r == if len <= old(used) then len else RECV_NOT_ENOUGH
      ensures r < 0 ==> unchanged(this) && out == []
      ensures r >= 0 ==> out == old(Contents())[..len] && Contents() == old(Contents())[len..]
    {
      if len > used {
        return RECV_NOT_ENOUGH, [];
      }
      if head + len <= size {
        out := buffer[head..head + len];
      } else {
        out := buffer[head..] + buffer[..head + len - size];
      }
      assert out == Contents()[..len];
      hide Stored;
      Skip(len);
      return len, out;
    }

    /** Put(Socket*), edge triggered: read until the socket is empty, then put everything.
      * `available` is what the kernel reports first, `got` what the calls to read yield; after
      * them the socket is empty. */
    method PutFromSocket(available: int, got: seq<ReadResult>) returns (r: int)
      requires Valid() && forall i {:trigger got[i]} :: 0 <= i < |got| && got[i].Data? ==> 0 < |got[i].bytes| <= 256
      modifies this, buffer
      ensures Valid()
      ensures r == FillResult(available, got, size - old(used))
      ensures r > 0 ==> Contents() == old(Contents()) + Burst(got)
      ensures forall s, cuts {:trigger CutInto(got, s, cuts)} :: CutInto(got, s, cuts) && r > 0 ==>
        Contents() == old(Contents()) + s
      ensures r <= 0 ==> unchanged(this) && unchanged(buffer)
    {
      hide Stored;
      forall s, cuts | CutInto(got, s, cuts) ensures Burst(got) == s { BurstOfCuts(got, s, cuts); }
      hide CutInto;
      if available <= 0 || available > size - used {
        return USER_CLOSE;
      }
      var i := 0;
      var bufIn := [];
      while true
        invariant i <= |got| && bufIn + Burst(got[i..]) == Burst(got)
        invariant Bounded(got, 0) == Bounded(got[i..], |bufIn|)
        invariant i == 0 ==> bufIn == []
        invariant unchanged(this) && unchanged(buffer)
        decreases |got| - i
      {
        if i == |got| || got[i] == Nothing(true) {
          break;
        }
        if got[i].Nothing? || |bufIn| >= BURST_LIMIT {
          return USER_CLOSE;
        }
        bufIn := bufIn + got[i].bytes;
        i := i + 1;
      }
      if |bufIn| == 0 {
        return USER_CLOSE;
      }
      r := Put(bufIn);
    }
  }

  /** The bytes read until the socket is empty. */
  function Burst(got: seq<ReadResult>): seq<Byte> {
    if got == [] || got[0].Nothing? then [] else got[0].bytes + Burst(got[1..])
  }

  /** The reads bring the bytes s, cut at the positions `cuts`, before the first that brings nothing. */
  predicate CutInto(got: seq<ReadResult>, s: seq<Byte>, cuts: seq<nat>) {
    && 1 <= |cuts| <= |got| + 1 && cuts[0] == 0 && cuts[|cuts| - 1] == |s|
    && (forall i {:trigger got[i]} :: 0 <= i < |cuts| - 1 ==>
          cuts[i] <= cuts[i + 1] <= |s| && got[i] == Data(s[cuts[i]..cuts[i + 1]]))
    && (|cuts| <= |got| ==> got[|cuts| - 1].Nothing?)
  }

  /** However a byte string is cut into reads, the burst is that string, in order. */
  lemma BurstOfCuts(got: seq<ReadResult>, s: seq<Byte>, cuts: seq<nat>)
    requires CutInto(got, s, cuts)
    ensures Burst(got) == s
  {
    BurstFrom(got, s, cuts, 0);
    assert s[0..] == s && got[0..] == got;
  }

  lemma {:induction false} BurstFrom(got: seq<ReadResult>, s: seq<Byte>, cuts: seq<nat>, i: nat)
    requires CutInto(got, s, cuts) && i < |cuts|
    ensures cuts[i] <= |s| && Burst(got[i..]) == s[cuts[i]..]
    decreases |cuts| - i
  {
    if i < |cuts| - 1 {
      BurstFrom(got, s, cuts, i + 1);
      var _ := got[i];
      assert got[i..][1..] == got[i + 1..];
      assert s[cuts[i]..] == s[cuts[i]..cuts[i + 1]] + s[cuts[i + 1]..];
    }
  }

  /** Reading ends with EAGAIN, and no read begins with the limit already reached. */
  predicate Bounded(got: seq<ReadResult>, n: nat) {
    got == [] || got[0] == Nothing(true)
    || (got[0].Data? && n < BURST_LIMIT && Bounded(got[1..], n + |got[0].bytes|))
  }

  /** Some read passes the limit test and brings more than the burst buffer still holds. */
  predicate Overruns(got: seq<ReadResult>, n: nat) {
    got != [] && got[0].Data? && n < BURST_LIMIT
    && (n + |got[0].bytes| > BURST_LIMIT || Overruns(got[1..], n + |got[0].bytes|))
  }

  /** The i-th read takes the bytes read so far from below the limit to above it. */
  predicate Crosses(got: seq<ReadResult>, n: nat, i: nat) {
    && i < |got| && (forall j {:trigger got[j]} :: 0 <= j <= i ==> got[j].Data?)
    && n + |Burst(got[..i])| < BURST_LIMIT < n + |Burst(got[..i + 1])|
  }

  lemma BurstFirst(got: seq<ReadResult>, i: nat)
    requires i < |got| && got[0].Data?
    ensures |Burst(got[..i + 1])| == |got[0].bytes| + |Burst(got[1..][..i])|
  {
    assert got[..i + 1][1..] == got[1..][..i];
  }

  lemma BurstBelow(got: seq<ReadResult>, i: nat)
    requires i < |got| && got[0].Data? && i > 0
    ensures |Burst(got[..i])| >= |got[0].bytes|
  {
    BurstFirst(got, i - 1);
  }

  /** The local buffer of 1024000 bytes is overrun exactly when a read crosses the limit; when the
    * bytes read come to exactly the limit the test stops the fill in time. */
  lemma {:induction false} OverrunExact(got: seq<ReadResult>, n: nat)
    ensures Overruns(got, n) <==> exists i :: Crosses(got, n, i)
    decreases |got|
  {
    if got != [] && got[0].Data? {
      var m := n + |got[0].bytes|;
      OverrunExact(got[1..], m);
      CrossesFirst(got, n);
      forall i: nat ensures Crosses(got[1..], m, i) <==> Crosses(got, n, i + 1) { CrossesNext(got, n, i); }
      if i: nat :| Crosses(got, n, i) {
        if i > 0 { assert Crosses(got[1..], m, i - 1); BurstBelow(got, i); }
      }
      if i: nat :| Crosses(got[1..], m, i) {
        assert Crosses(got, n, i + 1);
      }
    } else {
      forall i: nat ensures !Crosses(got, n, i) { assert i < |got| ==> got[0].Nothing?; }
    }
  }

  lemma CrossesFirst(got: seq<ReadResult>, n: nat)
    requires got != [] && got[0].Data?
    ensures Crosses(got, n, 0) <==> n < BURST_LIMIT < n + |got[0].bytes|
  {
    BurstFirst(got, 0);
    assert got[1..][..0] == [] && got[..0] == [];
  }

  lemma CrossesNext(got: seq<ReadResult>, n: nat, i: nat)
    requires got != [] && got[0].Data?
    ensures Crosses(got[1..], n + |got[0].bytes|, i) <==> Crosses(got, n, i + 1)
  {
    if i + 1 < |got| {
      BurstFirst(got, i);
      BurstFirst(got, i + 1);
      assert forall j :: 0 < j < |got| ==> got[j] == got[1..][j - 1];
    }
  }

  /** How a fill ends: the client is closed when the first report does not fit, the socket fails
    * or nothing arrives; the burst is lost when it grew past the free space after the report. */
  function FillResult(available: int, got: seq<ReadResult>, free: nat): int {
    if !(0 < available <= free && Bounded(got, 0) && Burst(got) != []) then USER_CLOSE
    else if |Burst(got)| > free then -1
    else |Burst(got)|
  }

  /** A fill closes the client: the report is not positive or exceeds the free space, a read after
    * data fails with something other than EAGAIN or brings data beyond the limit, or no byte comes. */
  predicate Closes(available: int, got: seq<ReadResult>, free: nat) {
    || available <= 0 || available > free
    || (exists i :: 0 <= i < |got| && Before(got, i) && got[i] == Nothing(false))
    || (exists i :: 0 <= i < |got| && Before(got, i) && got[i].Data? && |Burst(got[..i])| >= 1024000)
    || got == [] || got[0].Nothing?
  }

  /** The reads before the i-th bring data. */
  predicate Before(got: seq<ReadResult>, i: nat) {
    i <= |got| && forall j {:trigger got[j]} :: 0 <= j < i ==> got[j].Data?
  }

  /** What a fill returns: USER_CLOSE exactly when it closes the client, -1 exactly when it does not
    * but the burst outgrew the free space, else the number of bytes. */
  lemma FillResultExact(available: int, got: seq<ReadResult>, free: nat)
    requires forall i {:trigger got[i]} :: 0 <= i < |got| && got[i].Data? ==> 0 < |got[i].bytes| <= 256
    ensures FillResult(available, got, free) == USER_CLOSE <==> Closes(available, got, free)
    ensures !Closes(available, got, free) ==>
      FillResult(available, got, free) == if |Burst(got)| > free then -1 else |Burst(got)|
  {
    BoundedExact(got, 0);
    if !Bounded(got, 0) {
      var i: nat :| Stops(got, 0, i);
      assert Before(got, i);
    }
    forall i: nat | i < |got| && Before(got, i)
      && (got[i] == Nothing(false) || (got[i].Data? && |Burst(got[..i])| >= 1024000))
      ensures !Bounded(got, 0)
    {
      assert Stops(got, 0, i);
    }
  }

  /** The i-th read is the first that fails, or brings data beyond the limit. */
  predicate Stops(got: seq<ReadResult>, n: nat, i: nat) {
    && i < |got| && Before(got, i)
    && (got[i] == Nothing(false) || (got[i].Data? && n + |Burst(got[..i])| >= BURST_LIMIT))
  }

  lemma StopsFirst(got: seq<ReadResult>, n: nat)
    requires got != []
    ensures Stops(got, n, 0) <==> got[0] == Nothing(false) || (got[0].Data? && n >= BURST_LIMIT)
  {
    assert got[..0] == [];
  }

  lemma StopsNext(got: seq<ReadResult>, n: nat, i: nat)
    requires got != [] && got[0].Data?
    ensures Stops(got[1..], n + |got[0].bytes|, i) <==> Stops(got, n, i + 1)
  {
    if i + 1 < |got| {
      BurstFirst(got, i);
      assert forall j :: 0 < j < |got| ==> got[j] == got[1..][j - 1];
    }
  }

  lemma {:induction false} BoundedExact(got: seq<ReadResult>, n: nat)
    ensures !Bounded(got, n) <==> exists i: nat :: Stops(got, n, i)
    decreases |got|
  {
    if got != [] {
      StopsFirst(got, n);
      if got[0].Data? {
        var m := n + |got[0].bytes|;
        BoundedExact(got[1..], m);
        forall i: nat ensures Stops(got[1..], m, i) <==> Stops(got, n, i + 1) { StopsNext(got, n, i); }
        if i: nat :| Stops(got, n, i) && i > 0 { assert Stops(got[1..], m, i - 1); }
        if i: nat :| Stops(got[1..], m, i) { assert Stops(got, n, i + 1); }
      } else {
        forall i: nat ensures i > 0 ==> !Stops(got, n, i) { assert i > 0 && i < |got| ==> !got[0].Data?; }
      }
    }
  }

  // ---------------------------------------------------------------- whole runs

  /** The ring between two calls, and the calls with what they carry. */
  datatype Image = Image(mem: seq<Byte>, head: nat, used: nat)

  datatype Op = PutOp(src: seq<Byte>) | GetOp(out: seq<Byte>, beyond: seq<Byte>)

  predicate Proper(n: nat, a: Image) {
    |a.mem| == n && a.head < n && a.used <= n
  }

  function Held(n: nat, a: Image): seq<Byte>
    requires Proper(n, a)
  {
    Stored(a.mem, n, a.head, a.used)
  }

  /** One call, as the contracts of Put and Get above describe it. */
  predicate Call(n: nat, a: Image, op: Op, b: Image) {
    Proper(n, a) && Proper(n, b)
    && match op
       case PutOp(src) => a.used + |src| <= n && Held(n, b) == Held(n, a) + src
       case GetOp(out, beyond) =>
         && |out| <= a.used && |out| <= |beyond|
         && out == Fetched(a.mem, n, a.head, Wrap(n, a.head + a.used), |out|, beyond)
         && b == Image(a.mem, Wrap(n, a.head + |out|), a.used - |out|)
  }

  function BytesIn(ops: seq<Op>): seq<Byte> {
    if ops == [] then []
    else BytesIn(ops[..|ops| - 1]) + (if ops[|ops| - 1].PutOp? then ops[|ops| - 1].src else [])
  }

  function BytesOut(ops: seq<Op>): seq<Byte> {
    if ops == [] then []
    else BytesOut(ops[..|ops| - 1]) + (if ops[|ops| - 1].GetOp? then ops[|ops| - 1].out else [])
  }

  /** In every run that keeps the ring less than half full, the bytes that came out, followed by
    * those still held, are the bytes held at first, followed by those put in. */
  lemma {:induction false} FifoRun(n: nat, images: seq<Image>, ops: seq<Op>)
    requires |images| == |ops| + 1
    requires forall i {:trigger images[i]} :: 0 <= i < |images| ==> Proper(n, images[i]) && 2 * images[i].used < n
    requires forall i {:trigger ops[i]} :: 0 <= i < |ops| ==> Call(n, images[i], ops[i], images[i + 1])
    ensures BytesOut(ops) + Held(n, images[|ops|]) == Held(n, images[0]) + BytesIn(ops)
    decreases |ops|
  {
    if ops == [] {
      assert Held(n, images[0]) + [] == [] + Held(n, images[0]);
    } else {
      var k := |ops| - 1;
      FifoRun(n, images[..k + 1], ops[..k]);
      FifoCall(n, images[k], ops[k], images[k + 1], BytesOut(ops[..k]), Held(n, images[0]) + BytesIn(ops[..k]));
      assert ops[k] == ops[|ops| - 1];
      Regroup(Held(n, images[0]), BytesIn(ops[..k]), if ops[k].PutOp? then ops[k].src else []);
    }
  }

  lemma FifoCall(n: nat, a: Image, op: Op, b: Image, taken: seq<Byte>, given: seq<Byte>)
    requires Call(n, a, op, b) && 2 * a.used < n && taken + Held(n, a) == given
    ensures taken + (if op.GetOp? then op.out else []) + Held(n, b) == given + if op.PutOp? then op.src else []
  {
    match op
    case PutOp(src) =>
      Regroup(taken, Held(n, a), src);
      assert taken + [] == taken;
    case GetOp(out, _) =>
      HalfEmptyInOrder(n, a.head, a.used, |out|);
      StraightCopyExact(n, a.head, a.used, |out|);
      StoredSplit(a.mem, n, a.head, |out|, a.used - |out|);
      assert Held(n, a) == out + Held(n, b);
      Regroup(taken, out, Held(n, b));
      assert given + [] == given;
  }

  /** In a ring of any size from two on, a run from empty that leaves the bound: all n bytes in, all
    * but one out, n - 1 in, and the second of the two bytes out next comes from behind the ring. */
  lemma RunLeavesBound(n: nat, mem: seq<Byte>, first: seq<Byte>, second: seq<Byte>, beyond: seq<Byte>)
    requires n >= 2 && |mem| == |first| == n && |second| == n - 1 && |beyond| >= n && beyond[0] != second[0]
    ensures var last := first[n - 1];
      var refilled := second + [last];
      && Call(n, Image(mem, 0, 0), PutOp(first), Image(first, 0, n))
      && Call(n, Image(first, 0, n), GetOp(first[..n - 1], beyond), Image(first, n - 1, 1))
      && Call(n, Image(first, n - 1, 1), PutOp(second), Image(refilled, n - 1, n))
      && !InOrder(n, n - 1, n, 2) && Held(n, Image(refilled, n - 1, n)) == [last] + second
      && Call(n, Image(refilled, n - 1, n), GetOp([last, beyond[0]], beyond), Image(refilled, 1, n - 2))
      && [last, beyond[0]] != ([last] + second)[..2]
  {
    var last := first[n - 1];
    var refilled := second + [last];
    assert Stored(first, n, 0, n) == first;
    assert Held(n, Image(mem, 0, 0)) == [] && [] + first == first;
    assert Fetched(first, n, 0, 0, n - 1, beyond) == first[..n - 1];
    assert Stored(first, n, n - 1, 1) == [last];
    assert Stored(refilled, n, n - 1, n) == [last] + second;
    assert refilled[n - 1..] == [last] && ([last] + beyond)[..2] == [last, beyond[0]];
    assert ([last] + second)[1] == second[0] && [last, beyond[0]][1] == beyond[0];
  }
}
