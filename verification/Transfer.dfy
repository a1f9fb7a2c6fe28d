/** The loops that turn short writes and reads into whole ones. */
module Transfer {
  import opened Bytes

  /** What one system call does: moves up to n bytes, is interrupted, or fails. */
  datatype Call = Moves(n: nat) | Interrupted | Failed

  /** From call `last` on, every call that does not fail makes progress. */
  ghost predicate Settles(calls: nat -> Call, last: nat) {
    forall i {:trigger calls(i)} :: i >= last ==> calls(i).Failed? || (calls(i).Moves? && calls(i).n > 0)
  }

  function Min(a: nat, b: nat): nat { if a < b then a else b }

  /** Bytes moved by the first k calls when at most `limit` can be moved in all. */
  function Moved(calls: nat -> Call, k: nat, limit: nat): (m: nat)
    ensures m <= limit
  {
    if k == 0 then 0
    else
      var before := Moved(calls, k - 1, limit);
      if calls(k - 1).Moves? then before + Min(calls(k - 1).n, limit - before) else before
  }

  /** Bytes that the first k calls would move if nothing ran out. */
  function Total(calls: nat -> Call, k: nat): nat {
    if k == 0 then 0 else Total(calls, k - 1) + if calls(k - 1).Moves? then calls(k - 1).n else 0
  }

  /** The calls move all that they can, up to the limit: nothing is skipped or moved twice. */
  lemma {:induction false} MovedExact(calls: nat -> Call, k: nat, limit: nat)
    ensures Moved(calls, k, limit) == Min(Total(calls, k), limit)
  {
    if k > 0 { MovedExact(calls, k - 1, limit); }
  }

  /** CNPUtil::Write, and Socket::Write once the descriptor is known to be open. Whatever the
    * schedule of short writes and interruptions, the bytes emitted are a beginning of the buffer,
    * as long as the calls made allow; all of it exactly when the result is its length. */
  method Write(buf: seq<Byte>, calls: nat -> Call, ghost last: nat) returns (r: int, sent: seq<Byte>, made: nat)
    requires Settles(calls, last)
    ensures sent <= buf && |sent| == Moved(calls, made, |buf|)
    ensures r == (if made > 0 && calls(made - 1).Failed? then -1 else |buf|)
    ensures r == |buf| <==> sent == buf
    ensures forall i :: 0 <= i < made - 1 ==> !calls(i).Failed?
  {
    var left: nat := |buf|;
    var pos: nat := 0;
    sent := [];
    made := 0;
    while left > 0
      invariant pos + left == |buf| && sent == buf[..pos] && pos == Moved(calls, made, |buf|)
      invariant forall i :: 0 <= i < made ==> !calls(i).Failed?
      decreases if made < last then last - made else 0, left
    {
      var call := calls(made);
      made := made + 1;
      var written := 0;
      match call {
        case Failed => return -1, sent, made;
        case Interrupted => written := 0;
        case Moves(n) => written := Min(n, left);
      }
      sent := sent + buf[pos..pos + written];
      left := left - written;
      pos := pos + written;
    }
    r := |buf| - left;
  }

  /** Socket::Write refuses a closed descriptor without emitting anything. */
  method SocketWrite(fd: int, buf: seq<Byte>, calls: nat -> Call, ghost last: nat) returns (r: int, sent: seq<Byte>)
    requires Settles(calls, last)
    ensures fd <= 0 ==> r == 0 && sent == []
    ensures fd > 0 ==> sent <= buf && r in {-1, |buf|} && (r == |buf| <==> sent == buf)
  {
    if fd <= 0 {
      return 0, [];
    }
    var made;
    r, sent, made := Write(buf, calls, last);
  }

  /** Socket::Read: fills a beginning of the buffer with what arrives, and stops short only at the
    * end of the stream. `incoming` is all that arrives before the peer closes. */
  method Read(n: nat, incoming: seq<Byte>, calls: nat -> Call, ghost last: nat)
    returns (r: int, got: seq<Byte>, made: nat)
    requires Settles(calls, last) && forall i {:trigger calls(i)} :: calls(i).Moves? ==> calls(i).n > 0
    ensures got <= incoming && |got| == Moved(calls, made, Min(n, |incoming|))
    ensures r == if made > 0 && calls(made - 1).Failed? then -1 else Min(n, |incoming|)
    ensures r >= 0 ==> |got| == r && (r < n ==> got == incoming)
  {
    var left := n;
    var limit := Min(n, |incoming|);
    got := [];
    made := 0;
    while left > 0
      invariant |got| + left == n && got <= incoming && |got| == Moved(calls, made, limit)
      invariant made > 0 ==> !calls(made - 1).Failed?
      decreases if made < last then last - made else 0, left
    {
      var call := calls(made);
      made := made + 1;
      var nRead := 0;
      match call {
        case Failed => return -1, got, made;
        case Interrupted => nRead := 0;
        case Moves(k) =>
          nRead := Min(k, Min(left, |incoming| - |got|));
          if nRead == 0 {
            break;
          }
      }
      got := got + incoming[|got|..|got| + nRead];
      left := left - nRead;
    }
    r := |got|;
  }
}
