/** What is done with the bytes of a connection: the fill, drain and re-arm cycle of the workers
  * and receivers, the packet parser on each side, and the plain-text branch.
  */
module Connections {
  import opened Bytes
  import opened Sequences
  import opened Ring
  import opened Frames
  import Network

  /** The longest packet a header can announce; `beyond` reaches that far. */
  const LONGEST := 0x1_0003

  /** The next packet can be read: the header, if it is there, and the packet, if it is whole, lie
    * within the bound of Get, and the packet fits a T_PACKET. */
  predicate InReach(n: nat, head: nat, used: nat, s: seq<Byte>) {
    && (used >= 4 ==> InOrder(n, head, used, 4))
    && (Ready(s) ==> InOrder(n, head, used, FirstLength(s)) && Announced(s) <= PDUBODYSIZE)
  }

  /** With a packet's length to spare it always can. */
  lemma RoomyInReach(n: nat, head: nat, used: nat, s: seq<Byte>)
    requires |s| == used && used + 4096 < n && Sound(s)
    ensures InReach(n, head, used, s)
  {
  }

  // ---------------------------------------------------------------- one pass of a parser over the ring

  /** What a pass does to the buffered bytes: the first packet goes, if it is whole. */
  function Pass(s: seq<Byte>): seq<Byte> {
    if Ready(s) then s[FirstLength(s)..] else s
  }

  /** The bytes that the parser asks Get for: what the four bytes at the front announce, whether they
    * were put in or not. */
  function Asked(n: nat, a: Image, beyond: seq<Byte>): (len: nat)
    requires n >= 4 && Proper(n, a) && |beyond| == LONGEST
    ensures 4 <= len <= LONGEST
  {
    PDUHEADERSIZE + Announced(Fetched(a.mem, n, a.head, Wrap(n, a.head + a.used), 4, beyond))
  }

  /** The packet that a pass takes, as the branches of Get read it, if there are bytes enough. */
  function Fetch(n: nat, a: Image, beyond: seq<Byte>): (packet: seq<Byte>)
    requires n >= 4 && Proper(n, a) && |beyond| == LONGEST && Asked(n, a, beyond) <= a.used
    ensures |packet| == Asked(n, a, beyond)
  {
    Fetched(a.mem, n, a.head, Wrap(n, a.head + a.used), Asked(n, a, beyond), beyond)
  }

  /** The ring after one pass, at any ring position. */
  function RingPass(n: nat, a: Image, beyond: seq<Byte>): (b: Image)
    requires n >= 4 && Proper(n, a) && |beyond| == LONGEST
    ensures Proper(n, b)
  {
    var len := Asked(n, a, beyond);
    if len <= a.used then Image(a.mem, Wrap(n, a.head + len), a.used - len) else a
  }

  /** A packet that is taken fits a T_PACKET. */
  predicate FitsPacket(n: nat, a: Image, beyond: seq<Byte>)
    requires n >= 4 && Proper(n, a) && |beyond| == LONGEST
  {
    Asked(n, a, beyond) <= a.used ==> Asked(n, a, beyond) <= PDUHEADERSIZE + PDUBODYSIZE
  }

  /** Within reach a pass does to the ring what cutting the first packet does to its bytes. */
  lemma PassInReach(n: nat, a: Image, beyond: seq<Byte>)
    requires n >= 4 && Proper(n, a) && |beyond| == LONGEST && InReach(n, a.head, a.used, Held(n, a))
    ensures var s := Held(n, a);
      && (Ready(s) <==> Asked(n, a, beyond) <= a.used) && FitsPacket(n, a, beyond)
      && (Ready(s) ==> Asked(n, a, beyond) == FirstLength(s) && Fetch(n, a, beyond) == s[..FirstLength(s)])
      && Held(n, RingPass(n, a, beyond)) == Pass(s)
  {
    var s := Held(n, a);
    if a.used >= 4 {
      FetchedInOrder(a.mem, n, a.head, a.used, 4, beyond);
      SameAnnouncement(s);
      if Ready(s) { FetchedInOrder(a.mem, n, a.head, a.used, FirstLength(s), beyond); }
    }
  }

  lemma SameAnnouncement(s: seq<Byte>)
    requires |s| >= 4
    ensures Announced(s[..4]) == Announced(s)
  {
  }

  lemma RoomyRing(ring: CircularBuff, beyond: seq<Byte>)
    requires ring.Valid() && ring.used + 4096 < ring.size && Sound(ring.Contents()) && |beyond| == LONGEST
    ensures InReach(ring.size, ring.head, ring.used, ring.Contents())
    ensures FitsPacket(ring.size, ring.Snapshot(), beyond)
  {
    RoomyInReach(ring.size, ring.head, ring.used, ring.Contents());
    PassInReach(ring.size, ring.Snapshot(), beyond);
  }

  /** The lines that both parsers share: the header, then as many bytes as it announces. */
  method ReadPacket(ring: CircularBuff, beyond: seq<Byte>) returns (n: int, packet: seq<Byte>)
    requires ring.Valid() && ring.size >= 4 && |beyond| == LONGEST && FitsPacket(ring.size, ring.Snapshot(), beyond)
    modifies ring
    ensures ring.Valid() && ring.Snapshot() == RingPass(ring.size, old(ring.Snapshot()), beyond)
    ensures n >= 0 <==> Asked(ring.size, old(ring.Snapshot()), beyond) <= old(ring.used)
    ensures n >= 0 ==> packet == Fetch(ring.size, old(ring.Snapshot()), beyond)
    ensures n < 0 ==> unchanged(ring)
  {
    hide Fetched, Announced;
    WrapIsModulo(ring.size, ring.head + ring.used);
    var header := ring.GetHeader(beyond);
    n, packet := ring.Get(PDUHEADERSIZE + Announced(header), beyond);
  }

  // ---------------------------------------------------------------- manager side

  class ClientChatServer {
    const ring: CircularBuff
    var handled: seq<Frame>      // packets that reached the command switch

    constructor (n: nat)
      requires n > 0
      ensures fresh(ring) && fresh(ring.buffer) && ring.Valid()
      ensures ring.size == n && ring.Contents() == [] && handled == []
    {
      ring := new CircularBuff(n);
      handled := [];
    }

    /** One packet, or -1 when the ring has fewer bytes than the parser asks for. At every ring
      * position the ring changes as RingPass says and the packet is what Get reads; within reach that
      * is the first whole packet, and stale header bytes never make one. */
    method ExecuteCommand(beyond: seq<Byte>) returns (r: int)
      requires ring.Valid() && ring.size >= 4 && |beyond| == LONGEST && FitsPacket(ring.size, ring.Snapshot(), beyond)
      modifies this, ring
      ensures ring.Valid() && ring.Snapshot() == RingPass(ring.size, old(ring.Snapshot()), beyond)
      ensures r == if Asked(ring.size, old(ring.Snapshot()), beyond) <= old(ring.used) then 0 else -1
      ensures handled == old(handled) + if r < 0 then [] else [Decode(Fetch(ring.size, old(ring.Snapshot()), beyond))]
      ensures r < 0 ==> unchanged(this) && unchanged(ring)
      ensures old(InReach(ring.size, ring.head, ring.used, ring.Contents())) && Ready(old(ring.Contents())) ==>
        var s := old(ring.Contents());
        r == 0 && handled == old(handled) + [Decode(s[..FirstLength(s)])] && ring.Contents() == s[FirstLength(s)..]
      ensures old(InReach(ring.size, ring.head, ring.used, ring.Contents())) && !Ready(old(ring.Contents())) ==> r == -1
    {
      ghost var a := ring.Snapshot();
      if InReach(ring.size, ring.head, ring.used, ring.Contents()) { PassInReach(ring.size, a, beyond); }
      hide RingPass, Fetch, Asked, Stored, InOrder, Ready, Decode;
      var n, packet := ReadPacket(ring, beyond);
      if n < 0 {
        assert handled + [] == handled;
        return -1;
      }
      handled := handled + [Decode(packet)];
      return 0;
    }

    /** The drain loop of ThreadWorker::Run: all whole packets, in order, nothing else. */
    method Drain(beyond: seq<Byte>)
      requires ring.Valid() && ring.used + 4096 < ring.size && Sound(ring.Contents()) && |beyond| == LONGEST
      modifies this, ring
      ensures ring.Valid()
      ensures handled == old(handled) + CutAll(old(ring.Contents())).frames
      ensures ring.Contents() == CutAll(old(ring.Contents())).rest
    {
      hide Ready, FirstLength, Decode, Asked, Fetch, RingPass, FitsPacket, InReach, Stored;
      ghost var all := CutAll(ring.Contents());
      while ring.used > 0
        invariant ring.Valid() && ring.used <= old(ring.used) && Sound(ring.Contents())
        invariant handled + CutAll(ring.Contents()).frames == old(handled) + all.frames
        invariant CutAll(ring.Contents()).rest == all.rest
        decreases ring.used
      {
        ghost var before, s := handled, ring.Contents();
        RoomyRing(ring, beyond);
        var r := ExecuteCommand(beyond);
        if r < 0 {
          break;
        }
        Regroup(before, [Decode(s[..FirstLength(s)])], CutAll(ring.Contents()).frames);
      }
      EmptyIsIncomplete(ring.Contents());
    }
  }

  lemma EmptyIsIncomplete(s: seq<Byte>)
    ensures s == [] ==> !Ready(s)
    ensures !Ready(s) ==> CutAll(s) == Cut([], s)
  {
  }

  // ---------------------------------------------------------------- a worker and one client

  /** What the socket shows when a worker fills: the report of FIONREAD and the reads after it. */
  datatype Fill = Fill(available: int, got: seq<ReadResult>)

  predicate WellRead(f: Fill) {
    forall i {:trigger f.got[i]} :: 0 <= i < |f.got| && f.got[i].Data? ==> 0 < |f.got[i].bytes| <= 256
  }

  datatype Outcome = Outcome(frames: seq<Frame>, rest: seq<Byte>, closed: bool)

  function Filled(f: Fill, size: nat, rest: seq<Byte>): int
    requires |rest| <= size
  {
    FillResult(f.available, f.got, size - |rest|)
  }

  /** Rounds of fill and drain, by the stream cut alone: a failed fill closes the client, a burst
    * that outgrew the ring is lost. */
  function Rounds(rest: seq<Byte>, fills: seq<Fill>, size: nat): Outcome
    requires |rest| <= size
    decreases |fills|
  {
    if fills == [] then Outcome([], rest, false)
    else
      var r := Filled(fills[0], size, rest);
      if r == USER_CLOSE then Outcome([], rest, true)
      else if r <= 0 then Rounds(rest, fills[1..], size)
      else
        RestIsIncomplete(rest + Burst(fills[0].got));
        var cut := CutAll(rest + Burst(fills[0].got));
        var more := Rounds(cut.rest, fills[1..], size);
        Outcome(cut.frames + more.frames, more.rest, more.closed)
  }

  /** After each fill 4096 bytes of the ring and one more are free, and no packet is too long. */
  predicate Roomy(rest: seq<Byte>, fills: seq<Fill>, size: nat)
    requires |rest| <= size
    decreases |fills|
  {
    fills == [] || (WellRead(fills[0])
      && var r := Filled(fills[0], size, rest);
         if r == USER_CLOSE then true
         else if r <= 0 then Roomy(rest, fills[1..], size)
         else
           var s := rest + Burst(fills[0].got);
           RestIsIncomplete(s);
           |s| + 4096 < size && Sound(s) && Roomy(CutAll(s).rest, fills[1..], size))
  }

  /** ThreadWorker::Run, for the rounds of one client, up to closing it or arming it again. */
  method Work(client: ClientChatServer, fills: seq<Fill>, beyond: seq<Byte>) returns (closed: bool)
    requires client.ring.Valid() && |beyond| == LONGEST
    requires Roomy(client.ring.Contents(), fills, client.ring.size)
    modifies client, client.ring, client.ring.buffer
    ensures client.ring.Valid()
    ensures var o := Rounds(old(client.ring.Contents()), fills, client.ring.size);
      && closed == o.closed && client.ring.Contents() == o.rest
      && client.handled == old(client.handled) + o.frames
    ensures fills != [] && fills[0].available <= 0 ==> closed && client.handled == old(client.handled)
  {
    HungUp(client.ring.Contents(), fills, client.ring.size);
    assert client.handled + [] == client.handled;
    hide CutAll, FillResult, Burst, WellRead;
    ghost var before, rest, size := client.handled, client.ring.Contents(), client.ring.size;
    var i := 0;
    ghost var done: seq<Frame> := [];
    while i < |fills|
      invariant i <= |fills| && client.ring.Valid() && Roomy(client.ring.Contents(), fills[i..], size)
      invariant client.handled == before + done
      invariant Rounds(rest, fills, size) == Joined(done, Rounds(client.ring.Contents(), fills[i..], size))
    {
      ghost var s := client.ring.Contents();
      assert fills[i..][0] == fills[i] && fills[i..][1..] == fills[i + 1..];
      WellReadUnfold(fills[i]);
      var r := client.ring.PutFromSocket(fills[i].available, fills[i].got);
      if r <= 0 {
        if r == USER_CLOSE {
          closed := true;
          return;
        }
      } else {
        client.Drain(beyond);
        ghost var cut := CutAll(s + Burst(fills[i].got));
        Regroup(before, done, cut.frames);
        Regroup(done, cut.frames, Rounds(cut.rest, fills[i + 1..], size).frames);
        done := done + cut.frames;
      }
      i := i + 1;
    }
    closed := false;
  }

  /** When nothing can be read the peer has hung up. */
  lemma HungUp(rest: seq<Byte>, fills: seq<Fill>, size: nat)
    requires |rest| <= size
    ensures fills != [] && fills[0].available <= 0 ==> Rounds(rest, fills, size) == Outcome([], rest, true)
  {
  }

  function Joined(done: seq<Frame>, o: Outcome): Outcome {
    Outcome(done + o.frames, o.rest, o.closed)
  }

  lemma WellReadUnfold(f: Fill)
    requires WellRead(f)
    ensures forall i {:trigger f.got[i]} :: 0 <= i < |f.got| && f.got[i].Data? ==> 0 < |f.got[i].bytes| <= 256
  {
  }

  // ---------------------------------------------------------------- which fills close the client

  /** The fill closes a client whose ring holds `rest`. */
  predicate ClosesAt(f: Fill, size: nat, rest: seq<Byte>)
    requires |rest| <= size
  {
    Closes(f.available, f.got, size - |rest|)
  }

  /** The bytes in the ring before each of the first fills and after the last of them, none of which
    * closes: a burst that does not fit is lost, any other is cut into packets. */
  predicate Trail(rest: seq<Byte>, fills: seq<Fill>, size: nat, rests: seq<seq<Byte>>) {
    && 1 <= |rests| <= |fills| + 1 && rests[0] == rest
    && (forall i {:trigger rests[i]} :: 0 <= i < |rests| ==> |rests[i]| <= size)
    && (forall i {:trigger fills[i]} :: 0 <= i < |rests| - 1 ==>
          && !ClosesAt(fills[i], size, rests[i])
          && rests[i + 1] == if |rests[i]| + |Burst(fills[i].got)| > size then rests[i]
                             else CutAll(rests[i] + Burst(fills[i].got)).rest)
  }

  /** The trail ends at a fill that closes the client. */
  predicate EndsClosed(fills: seq<Fill>, size: nat, rests: seq<seq<Byte>>) {
    1 <= |rests| <= |fills| && |rests[|rests| - 1]| <= size && ClosesAt(fills[|rests| - 1], size, rests[|rests| - 1])
  }

  /** The bytes of the bursts along a trail that were not lost. */
  function Kept(fills: seq<Fill>, size: nat, rests: seq<seq<Byte>>): seq<Byte>
    requires |rests| <= |fills| + 1
  {
    if |rests| <= 1 then []
    else
      (if |rests[0]| + |Burst(fills[0].got)| > size then [] else Burst(fills[0].got))
      + Kept(fills[1..], size, rests[1..])
  }

  lemma FilledExact(f: Fill, size: nat, rest: seq<Byte>)
    requires WellRead(f) && |rest| <= size
    ensures Filled(f, size, rest) == USER_CLOSE <==> ClosesAt(f, size, rest)
    ensures !ClosesAt(f, size, rest) ==>
      && (Filled(f, size, rest) <= 0 <==> |rest| + |Burst(f.got)| > size)
      && Filled(f, size, rest) > USER_CLOSE
  {
    FillResultExact(f.available, f.got, size - |rest|);
  }

  lemma TrailRest(rest: seq<Byte>, fills: seq<Fill>, size: nat, rests: seq<seq<Byte>>)
    requires Trail(rest, fills, size, rests) && |rests| > 1
    ensures Trail(rests[1], fills[1..], size, rests[1..])
    ensures EndsClosed(fills, size, rests) <==> EndsClosed(fills[1..], size, rests[1..])
  {
    hide ClosesAt, CutAll, Burst;
    assert forall i :: 0 < i < |rests| ==> rests[i] == rests[1..][i - 1];
    assert forall i :: 0 < i < |fills| ==> fills[i] == fills[1..][i - 1];
  }

  /** Along a trail up to a fill that closes, or up to the last fill: the worker closes the client in
    * the first case only, the ring is left with what the trail ends with, and the packets handled are
    * those of the bursts that were not lost, cut in one piece. */
  lemma {:induction false} RoundsExact(rest: seq<Byte>, fills: seq<Fill>, size: nat, rests: seq<seq<Byte>>)
    requires |rest| <= size && forall f :: f in fills ==> WellRead(f)
    requires Trail(rest, fills, size, rests) && (|rests| <= |fills| ==> EndsClosed(fills, size, rests))
    ensures var o := Rounds(rest, fills, size);
      && (o.closed <==> |rests| <= |fills|) && o.rest == rests[|rests| - 1]
      && (!Ready(rest) ==> CutAll(rest + Kept(fills, size, rests)) == Cut(o.frames, o.rest))
    decreases |fills|
  {
    hide Ready, CutAll, Burst, WellRead, Filled, ClosesAt;
    if fills != [] { FilledExact(fills[0], size, rest); }
    if |rests| == 1 {
      assert rest + [] == rest;
      EmptyIsIncomplete(rest);
    } else {
      var burst, more := Burst(fills[0].got), Kept(fills[1..], size, rests[1..]);
      var _ := fills[0];
      TrailRest(rest, fills, size, rests);
      RestIsIncomplete(rest + burst);
      RoundsExact(rests[1], fills[1..], size, rests[1..]);
      if |rest| + |burst| > size {
        assert [] + more == more;
      } else {
        CutContinues(rest + burst, more);
        Regroup(rest, burst, more);
      }
    }
  }

  /** Every run of fills has such a trail. */
  lemma {:induction false} TrailExists(rest: seq<Byte>, fills: seq<Fill>, size: nat) returns (rests: seq<seq<Byte>>)
    requires |rest| <= size
    ensures Trail(rest, fills, size, rests) && (|rests| <= |fills| ==> EndsClosed(fills, size, rests))
    decreases |fills|
  {
    hide ClosesAt, CutAll, Burst;
    rests := [rest];
    if fills != [] && !ClosesAt(fills[0], size, rest) {
      var s := rest + Burst(fills[0].got);
      RestIsIncomplete(s);
      var next := if |s| > size then rest else CutAll(s).rest;
      var more := TrailExists(next, fills[1..], size);
      rests := [rest] + more;
      assert forall i :: 0 < i < |rests| ==> rests[i] == more[i - 1];
      assert forall i :: 0 < i < |fills| ==> fills[i] == fills[1..][i - 1];
    }
  }

  /** The worker closes the client exactly when some fill closes it and none before does. */
  lemma ClosedExactly(rest: seq<Byte>, fills: seq<Fill>, size: nat)
    requires |rest| <= size && forall f :: f in fills ==> WellRead(f)
    ensures Rounds(rest, fills, size).closed <==>
      exists rests :: Trail(rest, fills, size, rests) && EndsClosed(fills, size, rests)
  {
    var rests := TrailExists(rest, fills, size);
    hide Trail, EndsClosed, Rounds;
    RoundsExact(rest, fills, size, rests);
    EndsInside(fills, size, rests);
    forall other | Trail(rest, fills, size, other) && EndsClosed(fills, size, other)
      ensures Rounds(rest, fills, size).closed
    {
      EndsInside(fills, size, other);
      RoundsExact(rest, fills, size, other);
    }
  }

  lemma EndsInside(fills: seq<Fill>, size: nat, rests: seq<seq<Byte>>)
    ensures EndsClosed(fills, size, rests) ==> 1 <= |rests| <= |fills|
  {
  }

  /** A burst that is lost does not close the client: the rounds go on as if it had not come. */
  lemma LostBurstGoesOn(rest: seq<Byte>, f: Fill, more: seq<Fill>, size: nat)
    requires WellRead(f) && |rest| <= size && |rest| + |Burst(f.got)| > size && !ClosesAt(f, size, rest)
    ensures Rounds(rest, [f] + more, size) == Rounds(rest, more, size)
  {
    FilledExact(f, size, rest);
    assert ([f] + more)[1..] == more;
  }

  // ---------------------------------------------------------------- reassembly

  /** Every fill succeeds. */
  predicate AllFill(rest: seq<Byte>, fills: seq<Fill>, size: nat)
    requires |rest| <= size
    decreases |fills|
  {
    if fills == [] then true
    else
      var s := rest + Burst(fills[0].got);
      RestIsIncomplete(s);
      Filled(fills[0], size, rest) > 0 && |s| <= size && AllFill(CutAll(s).rest, fills[1..], size)
  }

  function Bursts(fills: seq<Fill>): seq<Byte> {
    if fills == [] then [] else Burst(fills[0].got) + Bursts(fills[1..])
  }

  /** However the bytes of a stream are spread over fills, the packets that come out and the
    * bytes that stay are those of the stream cut in one piece. */
  lemma {:induction false} Reassembly(rest: seq<Byte>, fills: seq<Fill>, size: nat)
    requires |rest| <= size && AllFill(rest, fills, size) && !Ready(rest)
    ensures Rounds(rest, fills, size)
      == Outcome(CutAll(rest + Bursts(fills)).frames, CutAll(rest + Bursts(fills)).rest, false)
    decreases |fills|
  {
    hide Ready, Filled, Burst, CutAll;
    if fills == [] {
      assert rest + [] == rest;
      EmptyIsIncomplete(rest);
    } else {
      var s := rest + Burst(fills[0].got);
      RestIsIncomplete(s);
      Reassembly(CutAll(s).rest, fills[1..], size);
      CutContinues(s, Bursts(fills[1..]));
      Regroup(rest, Burst(fills[0].got), Bursts(fills[1..]));
    }
  }

  /** The fills bring the byte stream s, cut into fills at `ends` and within each fill into reads. */
  predicate Delivers(fills: seq<Fill>, s: seq<Byte>, ends: seq<nat>, cuts: seq<seq<nat>>) {
    && |cuts| == |fills| && |ends| == |fills| + 1 && ends[0] == 0 && ends[|fills|] == |s|
    && forall i {:trigger fills[i]} :: 0 <= i < |fills| ==>
         ends[i] <= ends[i + 1] <= |s| && CutInto(fills[i].got, s[ends[i]..ends[i + 1]], cuts[i])
  }

  lemma {:induction false} DeliveredFrom(fills: seq<Fill>, s: seq<Byte>, ends: seq<nat>, cuts: seq<seq<nat>>, i: nat)
    requires Delivers(fills, s, ends, cuts) && i <= |fills|
    ensures ends[i] <= |s| && Bursts(fills[i..]) == s[ends[i]..]
    decreases |fills| - i
  {
    hide CutInto, Burst;
    if i < |fills| {
      var f := fills[i];
      DeliveredFrom(fills, s, ends, cuts, i + 1);
      BurstOfCuts(f.got, s[ends[i]..ends[i + 1]], cuts[i]);
      assert fills[i..][1..] == fills[i + 1..];
      assert s[ends[i]..] == s[ends[i]..ends[i + 1]] + s[ends[i + 1]..];
    }
  }

  lemma Delivered(fills: seq<Fill>, s: seq<Byte>, ends: seq<nat>, cuts: seq<seq<nat>>)
    requires Delivers(fills, s, ends, cuts)
    ensures Bursts(fills) == s
  {
    DeliveredFrom(fills, s, ends, cuts, 0);
    assert fills[0..] == fills && s[0..] == s;
  }

  /** When the byte stream, however it is cut into fills and reads, is a beginning of the bytes of
    * valid packets, what is handled is a beginning of those packets, what stays in the ring is exactly
    * the bytes behind them and not a whole packet, and all packets are handled once all bytes are in. */
  lemma ReassembledPackets(fs: seq<Frame>, fills: seq<Fill>, size: nat,
                           s: seq<Byte>, ends: seq<nat>, cuts: seq<seq<nat>>)
    requires (forall f :: f in fs ==> Fits(f)) && AllFill([], fills, size)
    requires Delivers(fills, s, ends, cuts) && s <= EncodeAll(fs)
    ensures var o := Rounds([], fills, size);
      && o.frames <= fs && !o.closed && !Ready(o.rest)
      && (forall f :: f in o.frames ==> Fits(f)) && s == EncodeAll(o.frames) + o.rest
    ensures s == EncodeAll(fs) ==> Rounds([], fills, size) == Outcome(fs, [], false)
  {
    Delivered(fills, s, ends, cuts);
    hide Delivers;
    Reassembly([], fills, size);
    assert [] + s == s;
    PrefixOfFrames(fs, s);
    CutEncoded(fs, []);
    assert EncodeAll(fs) + [] == EncodeAll(fs);
  }

  /** After each fill 4096 bytes of the ring and one more are free. */
  predicate Spacious(rest: seq<Byte>, fills: seq<Fill>, size: nat)
    requires |rest| <= size && AllFill(rest, fills, size)
    decreases |fills|
  {
    fills == []
    || (WellRead(fills[0])
      && var s := rest + Burst(fills[0].got);
         RestIsIncomplete(s);
         |s| + 4096 < size && Spacious(CutAll(s).rest, fills[1..], size))
  }

  lemma {:induction false} SpaciousIsRoomy(rest: seq<Byte>, fills: seq<Fill>, size: nat)
    requires |rest| <= size && AllFill(rest, fills, size) && Spacious(rest, fills, size)
    requires Sound(rest + Bursts(fills))
    ensures Roomy(rest, fills, size)
    decreases |fills|
  {
    if fills != [] {
      var s := rest + Burst(fills[0].got);
      Regroup(rest, Burst(fills[0].got), Bursts(fills[1..]));
      SoundPrefix(s, Bursts(fills[1..]));
      RestIsIncomplete(s);
      SpaciousIsRoomy(CutAll(s).rest, fills[1..], size);
    }
  }

  /** Fills that all succeed, carry a beginning of the bytes of valid packets and leave room meet what
    * Work asks for; so the worker dispatches exactly the packets of ReassembledPackets. */
  lemma WorkMayRun(fs: seq<Frame>, fills: seq<Fill>, size: nat, s: seq<Byte>, ends: seq<nat>, cuts: seq<seq<nat>>)
    requires (forall f :: f in fs ==> Fits(f)) && AllFill([], fills, size) && Spacious([], fills, size)
    requires Delivers(fills, s, ends, cuts) && s <= EncodeAll(fs)
    ensures Roomy([], fills, size)
  {
    Delivered(fills, s, ends, cuts);
    PrefixOfFrames(fs, s);
    assert [] + s == s;
    SpaciousIsRoomy([], fills, size);
  }

  // ---------------------------------------------------------------- messages

  const MAX_MESSAGE_SIZE := 1024

  class BroadcastMessage {
    var relayed: bool            // messageType
    var socket: int
    var messageSize: int
    const message: array<Byte>

    constructor ()
      ensures !relayed && socket == 0 && messageSize == 0 && fresh(message) && message.Length == MAX_MESSAGE_SIZE
    {
      relayed, socket, messageSize := false, 0, 0;
      message := new Byte[MAX_MESSAGE_SIZE];
    }

    /** SetMessage(char*, int): the last byte becomes zero. */
    method SetMessage(src: seq<Byte>)
      requires 0 < |src| <= message.Length
      modifies message
      ensures message[..|src|] == Terminated(src)
      ensures message[..|src| - 1] == src[..|src| - 1] && message[|src| - 1] == 0
    {
      Store(src);
      message[|src| - 1] := 0;
    }

    /** Bytes stored through the pointer that GetMessage returns. */
    method Store(src: seq<Byte>)
      requires |src| <= message.Length
      modifies message
      ensures message[..|src|] == src
    {
      forall i | 0 <= i < |src| { message[i] := src[i]; }
    }

    /** The message as the broadcasters will read it. */
    function Value(): Posted
      requires 0 <= messageSize <= message.Length
      reads this, message
    {
      Posted(message[..messageSize], socket, relayed)
    }
  }

  datatype Posted = Posted(bytes: seq<Byte>, socket: int, relayed: bool)

  // ---------------------------------------------------------------- server side

  /** What a packet from a manager posts to the broadcast queue of server connection fd. */
  function PostedBy(f: Frame, fd: int): seq<Posted> {
    if f.command == CMD_CHAT_BROADCAST && |f.body| >= 9 then [Posted(RelayedMessage(f), fd, true)] else []
  }

  /** Byte by byte: a broadcast packet posts one message, marked as relayed and with the connection it
    * came from, whose bytes are those behind the id, the last one zero; any other packet posts nothing. */
  lemma PostedByExact(f: Frame, fd: int)
    requires RelaySized(f)
    ensures f.command != 1620 ==> PostedBy(f, fd) == []
    ensures f.command == 1620 ==> |PostedBy(f, fd)| == 1
    ensures f.command == 1620 ==>
      var p := PostedBy(f, fd)[0];
      && p.relayed && p.socket == fd && |p.bytes| == |f.body| - 8 && p.bytes[|f.body| - 9] == 0
      && forall i :: 0 <= i < |f.body| - 9 ==> p.bytes[i] == f.body[8 + i]
  {
  }

  function PostedByAll(fs: seq<Frame>, fd: int): seq<Posted> {
    if fs == [] then [] else PostedBy(fs[0], fd) + PostedByAll(fs[1..], fd)
  }

  /** Relay packets carry 1 to 1024 bytes of message. */
  predicate RelaySized(f: Frame) {
    f.command == CMD_CHAT_BROADCAST ==> 9 <= |f.body| <= 8 + MAX_MESSAGE_SIZE
  }

  class ChatUser {
    const ring: CircularBuff
    const manager: bool          // type CLIENT_CHAT_MANAGER
    const fd: int
    var posted: seq<Posted>      // put on the broadcast queue, in order

    constructor (n: nat, manager: bool, fd: int)
      requires n > 0
      ensures fresh(ring) && fresh(ring.buffer) && ring.Valid()
      ensures ring.size == n && ring.Contents() == [] && posted == []
      ensures this.manager == manager && this.fd == fd
    {
      this.manager := manager;
      this.fd := fd;
      ring := new CircularBuff(n);
      posted := [];
    }

    /** The manager branch of ExecuteCommand; within reach the packet is the first whole one. */
    method ExecuteRelay(beyond: seq<Byte>) returns (r: int)
      requires ring.Valid() && ring.size >= 4 && |beyond| == LONGEST && FitsPacket(ring.size, ring.Snapshot(), beyond)
      requires Asked(ring.size, ring.Snapshot(), beyond) <= ring.used ==>
        RelaySized(Decode(Fetch(ring.size, ring.Snapshot(), beyond)))
      modifies this, ring
      ensures ring.Valid() && ring.Snapshot() == RingPass(ring.size, old(ring.Snapshot()), beyond)
      ensures r == if Asked(ring.size, old(ring.Snapshot()), beyond) <= old(ring.used) then 0 else -1
      ensures posted == old(posted)
        + if r < 0 then [] else PostedBy(Decode(Fetch(ring.size, old(ring.Snapshot()), beyond)), fd)
      ensures r < 0 ==> unchanged(this) && unchanged(ring)
      ensures old(InReach(ring.size, ring.head, ring.used, ring.Contents())) && Ready(old(ring.Contents())) ==>
        var s := old(ring.Contents());
        && r == 0 && ring.Contents() == s[FirstLength(s)..]
        && posted == old(posted) + PostedBy(Decode(s[..FirstLength(s)]), fd)
      ensures old(InReach(ring.size, ring.head, ring.used, ring.Contents())) && !Ready(old(ring.Contents())) ==> r == -1
    {
      ghost var a := ring.Snapshot();
      if InReach(ring.size, ring.head, ring.used, ring.Contents()) { PassInReach(ring.size, a, beyond); }
      hide RingPass, Fetch, Asked, Stored, InOrder, Ready, Announced;
      var n, packet := ReadPacket(ring, beyond);
      if n < 0 {
        assert posted + [] == posted;
        return -1;
      }
      Post(Decode(packet));
      return 0;
    }

    /** What the manager branch does with a packet: a broadcast packet becomes a relayed message. */
    method Post(f: Frame)
      requires RelaySized(f)
      modifies this`posted
      ensures posted == old(posted) + PostedBy(f, fd)
      ensures f.command == 1620 ==>
        posted == old(posted) + [Posted(f.body[8..|f.body| - 1] + [0], fd, true)]
      ensures f.command != 1620 ==> posted == old(posted)
    {
      if f.command == CMD_CHAT_BROADCAST {
        var broadcastMessage := new BroadcastMessage();
        broadcastMessage.messageSize := |f.body| - 8;
        broadcastMessage.SetMessage(f.body[8..]);
        TerminatedIs(f.body[8..]);
        assert f.body[8..][..|f.body| - 9] == f.body[8..|f.body| - 1];
        broadcastMessage.socket := fd;
        broadcastMessage.relayed := true;
        posted := posted + [broadcastMessage.Value()];
      }
    }

    /** ExecuteCommand: one branch for a manager's connection, one for a user's. Whatever is posted
      * carries the connection and the mark that the network model gives to its messages. */
    method ExecuteCommand(beyond: seq<Byte>, ghost c: Network.Conn, ghost packet: Network.Packet) returns (r: int)
      requires ring.Valid() && ring.size >= 4 && |beyond| == LONGEST && manager == c.Down?
      requires manager ==> FitsPacket(ring.size, ring.Snapshot(), beyond)
      requires manager && Asked(ring.size, ring.Snapshot(), beyond) <= ring.used ==>
        RelaySized(Decode(Fetch(ring.size, ring.Snapshot(), beyond)))
      requires !manager ==> 1 <= ring.used <= MAX_MESSAGE_SIZE && 2 * ring.used < ring.size
      modifies this, ring
      ensures ring.Valid() && old(posted) <= posted && |posted| <= |old(posted)| + 1
      ensures forall p :: p in posted[|old(posted)|..] ==> p.socket == fd && p.relayed == manager
      ensures Network.EntryOf(c, packet).relayed == manager
      ensures !manager ==> posted == old(posted) + [Posted(old(ring.Contents()), fd, false)] && ring.Contents() == []
      ensures manager ==> ring.Snapshot() == RingPass(ring.size, old(ring.Snapshot()), beyond)
      ensures manager ==> r == if Asked(ring.size, old(ring.Snapshot()), beyond) <= old(ring.used) then 0 else -1
      ensures manager && r < 0 ==> unchanged(this) && unchanged(ring)
      ensures manager && r == 0 ==>
        posted == old(posted) + PostedBy(Decode(Fetch(ring.size, old(ring.Snapshot()), beyond)), fd)
    {
      hide RingPass, Fetch, Asked, InReach, Ready, Decode, RelaySized, FitsPacket, Stored;
      ghost var before: seq<Posted>, added: seq<Posted> := posted, [];
      if manager {
        if Asked(ring.size, ring.Snapshot(), beyond) <= ring.used {
          added := PostedBy(Decode(Fetch(ring.size, ring.Snapshot(), beyond)), fd);
        }
        r := ExecuteRelay(beyond);
      } else {
        added := [Posted(ring.Contents(), fd, false)];
        r := ExecuteText(beyond);
      }
      assert posted == before + added && posted[|before|..] == added;
    }

    /** The plain-text branch: all buffered bytes are one message, not marked as relayed. */
    method ExecuteText(beyond: seq<Byte>) returns (r: int)
      requires ring.Valid() && 1 <= ring.used <= MAX_MESSAGE_SIZE && 2 * ring.used < ring.size && |beyond| == LONGEST
      modifies this, ring
      ensures ring.Valid() && r == 0
      ensures posted == old(posted) + [Posted(old(ring.Contents()), fd, false)] && ring.Contents() == []
    {
      var broadcastMessage := new BroadcastMessage();
      broadcastMessage.messageSize := ring.used;
      HalfEmptyInOrder(ring.size, ring.head, ring.used, ring.used);
      ghost var s := ring.Contents();
      var n, bytes := ring.Get(broadcastMessage.messageSize, beyond);
      assert bytes == s && ring.Contents() == [];
      broadcastMessage.Store(bytes);
      broadcastMessage.socket := fd;
      posted := posted + [broadcastMessage.Value()];
      return 0;
    }

    /** The edge-triggered drain loop of ThreadReceiver::Run for a user: one pass. */
    method DrainText(beyond: seq<Byte>)
      requires ring.Valid() && ring.used <= MAX_MESSAGE_SIZE && 2 * ring.used < ring.size && |beyond| == LONGEST
      modifies this, ring
      ensures ring.Valid() && ring.Contents() == []
      ensures posted == old(posted) + if old(ring.used) == 0 then [] else [Posted(old(ring.Contents()), fd, false)]
    {
      while ring.used > 0
        invariant ring.Valid() && ring.used in {0, old(ring.used)}
        invariant ring.used == old(ring.used) ==> ring.Contents() == old(ring.Contents()) && posted == old(posted)
        invariant ring.used < old(ring.used) ==> posted == old(posted) + [Posted(old(ring.Contents()), fd, false)]
        decreases ring.used
      {
        var _ := ExecuteText(beyond);
      }
    }

    /** The same loop for a manager's connection: it ignores the -1, so it comes to an end because
      * the buffer holds whole packets only (EndsExactly says what happens otherwise). */
    method DrainRelays(beyond: seq<Byte>)
      requires ring.Valid() && ring.used + 4096 < ring.size && Sound(ring.Contents()) && |beyond| == LONGEST
      requires forall f :: f in CutAll(ring.Contents()).frames ==> RelaySized(f)
      requires CutAll(ring.Contents()).rest == []
      modifies this, ring
      ensures ring.Valid() && ring.Contents() == []
      ensures posted == old(posted) + PostedByAll(CutAll(old(ring.Contents())).frames, fd)
    {
      hide Ready, FirstLength, Decode, PostedBy, RelaySized;
      ghost var all := CutAll(ring.Contents()).frames;
      while ring.used > 0
        invariant ring.Valid() && ring.used <= old(ring.used) && Sound(ring.Contents())
        invariant CutAll(ring.Contents()).rest == []
        invariant forall f :: f in CutAll(ring.Contents()).frames ==> RelaySized(f)
        invariant posted + PostedByAll(CutAll(ring.Contents()).frames, fd) == old(posted) + PostedByAll(all, fd)
        decreases ring.used
      {
        ghost var s, before := ring.Contents(), posted;
        RoomyRing(ring, beyond);
        PassInReach(ring.size, ring.Snapshot(), beyond);
        assert Ready(s) ==> Decode(s[..FirstLength(s)]) in CutAll(s).frames;
        var _ := ExecuteRelay(beyond);
        assert Ready(s);
        PostedByFirst(CutAll(s).frames, fd);
        Regroup(before, PostedBy(Decode(s[..FirstLength(s)]), fd), PostedByAll(CutAll(ring.Contents()).frames, fd));
      }
    }
  }

  lemma PostedByFirst(fs: seq<Frame>, fd: int)
    requires fs != []
    ensures PostedByAll(fs, fd) == PostedBy(fs[0], fd) + PostedByAll(fs[1..], fd)
  {
  }

  predicate Broadcasts(f: Frame) { f.command == 1620 }

  lemma {:induction false} PostedByConcat(fs: seq<Frame>, gs: seq<Frame>, fd: int)
    ensures PostedByAll(fs + gs, fd) == PostedByAll(fs, fd) + PostedByAll(gs, fd)
  {
    if fs == [] {
      assert fs + gs == gs;
    } else {
      assert (fs + gs)[1..] == fs[1..] + gs;
      PostedByConcat(fs[1..], gs, fd);
      Regroup(PostedBy(fs[0], fd), PostedByAll(fs[1..], fd), PostedByAll(gs, fd));
    }
  }

  /** What a connection posts for a list of packets: one relayed message for each broadcast packet, in
    * the order of the packets. */
  lemma {:induction false} PostedByAllExact(fs: seq<Frame>, fd: int)
    requires forall f :: f in fs ==> RelaySized(f)
    ensures var kept, posts := Filter(Broadcasts, fs), PostedByAll(fs, fd);
      && |posts| == |kept|
      && forall i {:trigger posts[i]} {:trigger kept[i]} :: 0 <= i < |kept| ==>
           && kept[i].command == 1620 && |kept[i].body| >= 9 && posts[i].relayed && posts[i].socket == fd
           && posts[i].bytes == kept[i].body[8..|kept[i].body| - 1] + [0]
  {
    if fs != [] {
      var n := |fs| - 1;
      assert fs == fs[..n] + [fs[n]] && fs[n] in fs;
      PostedByAllExact(fs[..n], fd);
      PostedByConcat(fs[..n], [fs[n]], fd);
      assert PostedByAll([fs[n]], fd) == PostedBy(fs[n], fd);
    }
  }

  function Passes(s: seq<Byte>, k: nat): seq<Byte> {
    if k == 0 then s else Passes(Pass(s), k - 1)
  }

  lemma {:induction false} PassesKeepRest(s: seq<Byte>, k: nat)
    ensures CutAll(Passes(s, k)).rest == CutAll(s).rest
  {
    if k > 0 { PassesKeepRest(Pass(s), k - 1); }
  }

  lemma {:induction false} PassesReachRest(s: seq<Byte>) returns (k: nat)
    ensures Passes(s, k) == CutAll(s).rest
    decreases |s|
  {
    if Ready(s) {
      var j := PassesReachRest(Pass(s));
      k := j + 1;
    } else {
      k := 0;
    }
  }

  /** The buffered bytes are those of a sequence of packets. */
  ghost predicate WholePackets(s: seq<Byte>) {
    exists fs :: (forall f :: f in fs ==> Fits(f)) && s == EncodeAll(fs)
  }

  lemma WholePacketsExact(s: seq<Byte>)
    requires Sound(s)
    ensures WholePackets(s) <==> CutAll(s).rest == []
  {
    Reencoded(s);
    if fs :| (forall f :: f in fs ==> Fits(f)) && s == EncodeAll(fs) {
      CutEncoded(fs, []);
      assert EncodeAll(fs) + [] == s;
    }
    if CutAll(s).rest == [] {
      assert EncodeAll(CutAll(s).frames) + [] == EncodeAll(CutAll(s).frames);
    }
  }

  /** Cutting packet by packet comes to nothing left exactly when the bytes are a concatenation of
    * whole packets; with an incomplete packet at the end it goes round for ever, changing nothing. */
  lemma PassesEndExactly(s: seq<Byte>)
    ensures (exists k: nat :: Passes(s, k) == []) <==> CutAll(s).rest == []
    ensures Sound(s) ==> ((exists k: nat :: Passes(s, k) == []) <==> WholePackets(s))
    ensures Pass(CutAll(s).rest) == CutAll(s).rest
  {
    RestIsIncomplete(s);
    if Sound(s) { WholePacketsExact(s); }
    if k: nat :| Passes(s, k) == [] {
      PassesKeepRest(s, k);
      EmptyIsIncomplete([]);
    }
    var k := PassesReachRest(s);
  }

  // ---------------------------------------------------------------- the loops on the ring

  /** The ring after k passes of a loop that ignores the -1. */
  function RingPasses(n: nat, a: Image, beyond: seq<Byte>, k: nat): (b: Image)
    requires n >= 4 && Proper(n, a) && |beyond| == LONGEST
    ensures Proper(n, b)
    decreases k
  {
    if k == 0 then a else RingPasses(n, RingPass(n, a, beyond), beyond, k - 1)
  }

  /** With a packet's length to spare, passes over the ring are passes over its bytes. */
  lemma {:induction false} RingPassesAgree(n: nat, a: Image, beyond: seq<Byte>, k: nat)
    requires Proper(n, a) && |beyond| == LONGEST && a.used + 4096 < n && Sound(Held(n, a))
    ensures Held(n, RingPasses(n, a, beyond, k)) == Passes(Held(n, a), k)
    decreases k
  {
    if k > 0 {
      RoomyInReach(n, a.head, a.used, Held(n, a));
      PassInReach(n, a, beyond);
      RingPassesAgree(n, RingPass(n, a, beyond), beyond, k - 1);
    }
  }

  /** The receiver's loop on a manager's connection, which ignores the -1: from any ring with a
    * packet's length to spare it comes to its end exactly when the ring holds a concatenation of whole
    * packets. */
  lemma EndsExactly(n: nat, a: Image, beyond: seq<Byte>)
    requires Proper(n, a) && |beyond| == LONGEST && a.used + 4096 < n && Sound(Held(n, a))
    ensures (exists k: nat :: RingPasses(n, a, beyond, k).used == 0) <==> WholePackets(Held(n, a))
  {
    var s := Held(n, a);
    PassesEndExactly(s);
    forall k: nat ensures RingPasses(n, a, beyond, k).used == 0 <==> Passes(s, k) == [] {
      RingPassesAgree(n, a, beyond, k);
      assert |Held(n, RingPasses(n, a, beyond, k))| == RingPasses(n, a, beyond, k).used;
    }
    if k: nat :| RingPasses(n, a, beyond, k).used == 0 { assert Passes(s, k) == []; }
    if k: nat :| Passes(s, k) == [] { assert RingPasses(n, a, beyond, k).used == 0; }
  }

  /** The worker's loop, which stops at the first -1, ends at every ring position and whatever the
    * ring holds: each pass before takes four bytes or more. */
  lemma {:induction false} WorkerLoopEnds(n: nat, a: Image, beyond: seq<Byte>) returns (k: nat)
    requires n >= 4 && Proper(n, a) && |beyond| == LONGEST
    ensures 4 * k + RingPasses(n, a, beyond, k).used <= a.used
    ensures Asked(n, RingPasses(n, a, beyond, k), beyond) > RingPasses(n, a, beyond, k).used
    decreases a.used
  {
    if Asked(n, a, beyond) <= a.used {
      var j := WorkerLoopEnds(n, RingPass(n, a, beyond), beyond);
      k := j + 1;
    } else {
      k := 0;
    }
  }

  // ---------------------------------------------------------------- the bound is needed

  predicate AllZero(s: seq<Byte>) {
    forall i {:trigger s[i]} :: 0 <= i < |s| ==> s[i] == 0
  }

  lemma {:induction false} ZerosAreCut(s: seq<Byte>)
    requires AllZero(s) && |s| % 4 == 0
    ensures Sound(s) && CutAll(s).rest == []
    decreases |s|
  {
    if s != [] {
      assert |s| >= 4 && Ready(s) && FirstLength(s) == 4;
      ZerosAreCut(s[4..]);
    }
  }

  lemma FourGo(n: nat, a: Image, beyond: seq<Byte>)
    requires n >= 4 && Proper(n, a) && |beyond| == LONGEST
    requires AllZero(a.mem) && a.head + a.used <= n && a.used % 4 == 3
    ensures RingPass(n, a, beyond) == if a.used < 4 then a else Image(a.mem, a.head + 4, a.used - 4)
  {
    hide Fetched;
    if a.used >= 4 {
      FetchedInOrder(a.mem, n, a.head, a.used, 4, beyond);
      var header := Stored(a.mem, n, a.head, a.used)[..4];
      assert header[2] == a.mem[a.head + 2] && header[3] == a.mem[a.head + 3];
    }
  }

  /** A ring of zeros with three bytes too many never empties while its bytes lie in one piece. */
  lemma {:induction false} ThreeStay(n: nat, a: Image, beyond: seq<Byte>, k: nat)
    requires n >= 4 && Proper(n, a) && |beyond| == LONGEST
    requires AllZero(a.mem) && a.head + a.used <= n && a.used % 4 == 3
    ensures RingPasses(n, a, beyond, k).used % 4 == 3
    decreases k
  {
    if k > 0 {
      FourGo(n, a, beyond);
      hide RingPass, AllZero;
      ThreeStay(n, RingPass(n, a, beyond), beyond, k - 1);
    }
  }

  /** Without the room it need not end: a ring of zeros of any size divisible by four, from twelve on,
    * full or four short of it, with its head two before the end. It holds whole packets only, but the
    * header is read past the end of the ring, and where 1, 0 follow there, five bytes go at the first
    * pass and three are left over for ever. */
  lemma FullRingLoops(n: nat, a: Image, beyond: seq<Byte>, k: nat)
    requires n >= 12 && n % 4 == 0 && |a.mem| == n && AllZero(a.mem) && a.head == n - 2 && a.used in {n - 4, n}
    requires |beyond| == LONGEST && beyond[0] == 1 && beyond[1] == 0
    ensures Sound(Held(n, a)) && WholePackets(Held(n, a)) && RingPasses(n, a, beyond, k).used > 0
  {
    ZerosHeld(n, a);
    FiveThenThree(n, a, beyond, k);
    hide *;
  }

  lemma ZerosHeld(n: nat, a: Image)
    requires Proper(n, a) && AllZero(a.mem) && a.used % 4 == 0
    ensures Sound(Held(n, a)) && WholePackets(Held(n, a))
  {
    ZerosAreCut(Held(n, a));
    WholePacketsExact(Held(n, a));
  }

  lemma FiveThenThree(n: nat, a: Image, beyond: seq<Byte>, k: nat)
    requires n >= 12 && n % 4 == 0 && |a.mem| == n && AllZero(a.mem) && a.head == n - 2 && a.used in {n - 4, n}
    requires |beyond| == LONGEST && beyond[0] == 1 && beyond[1] == 0
    ensures RingPasses(n, a, beyond, k).used > 0
  {
    FirstPassTakesFive(n, a, beyond);
    hide RingPass;
    if k > 0 { ThreeStay(n, RingPass(n, a, beyond), beyond, k - 1); }
  }

  lemma FirstPassTakesFive(n: nat, a: Image, beyond: seq<Byte>)
    requires n >= 12 && n % 4 == 0 && |a.mem| == n && AllZero(a.mem) && a.head == n - 2 && a.used in {n - 4, n}
    requires |beyond| == LONGEST && beyond[0] == 1 && beyond[1] == 0
    ensures RingPass(n, a, beyond) == Image(a.mem, 3, a.used - 5)
  {
    var tail := Wrap(n, a.head + a.used);
    var header := Fetched(a.mem, n, a.head, tail, 4, beyond);
    assert TestsStraight(a.head, tail, 4) && header == (a.mem[n - 2..] + beyond)[..4];
    assert header[2] == beyond[0] && header[3] == beyond[1];
  }

  /** A broadcast header that announces five bytes, before any of them has come: however often the
    * loop goes round, the ring stays as it is. */
  lemma {:induction false} IncompleteLoops(k: nat)
    ensures var s: seq<Byte> := [84, 6, 5, 0]; Sound(s) && !WholePackets(s) && Passes(s, k) == s
  {
    var s: seq<Byte> := [84, 6, 5, 0];
    assert !Ready(s);
    WholePacketsExact(s);
    if k > 0 { IncompleteLoops(k - 1); }
  }

  // ---------------------------------------------------------------- relay packets through a ring

  /** From any ring position within the bound of Get, header and packet come out as they were put
    * in: the receiver takes exactly the relay packet, reads its id, and has the message that was
    * sent if and only if that ends in a zero byte. */
  lemma RelayPassage(mem: seq<Byte>, n: nat, head: nat, used: nat, beyond: seq<Byte>,
                     id: nat, message: seq<Byte>, more: seq<Byte>)
    requires |mem| == n && head < n && used <= n && |beyond| == LONGEST
    requires id < 0x1_0000_0000_0000_0000 && 1 <= |message| <= MAX_MESSAGE_SIZE
    requires Stored(mem, n, head, used) == Encode(RelayFrame(id, message)) + more
    requires InOrder(n, head, used, 4) && InOrder(n, head, used, 12 + |message|)
    ensures 4 <= used && var tail := Wrap(n, head + used);
      var len := PDUHEADERSIZE + Announced(Fetched(mem, n, head, tail, 4, beyond));
      && len == 12 + |message| <= used
      && Stored(mem, n, Wrap(n, head + len), used - len) == more
      && var f := Decode(Fetched(mem, n, head, tail, len, beyond));
         && f.command == CMD_CHAT_BROADCAST && |f.body| == 8 + |message| && RelayedId(f) == id
         && (RelayedMessage(f) == message <==> message[|message| - 1] == 0)
  {
    RelayTaken(Stored(mem, n, head, used), id, message, more);
    hide Encode, RelayFrame, Decode, RelayedMessage, RelayedId, Announced, Stored, Fetched, InOrder, Wrap;
    FrontInOrder(mem, n, head, used, beyond, 12 + |message|);
  }

  lemma RelayTaken(stream: seq<Byte>, id: nat, message: seq<Byte>, more: seq<Byte>)
    requires id < 0x1_0000_0000_0000_0000 && 1 <= |message| <= MAX_MESSAGE_SIZE
    requires stream == Encode(RelayFrame(id, message)) + more
    ensures 4 <= |stream| && PDUHEADERSIZE + Announced(stream) == 12 + |message| <= |stream|
    ensures stream[12 + |message|..] == more
    ensures var f := Decode(stream[..12 + |message|]);
      && f.command == CMD_CHAT_BROADCAST && |f.body| == 8 + |message| && RelayedId(f) == id
      && (RelayedMessage(f) == message <==> message[|message| - 1] == 0)
  {
    RelayRoundTrip(id, message, more);
    RelayIdentityExact(id, message, more);
    hide Encode, RelayFrame, Decode, RelayedMessage, RelayedId, Announced, Terminated;
  }

  lemma FrontInOrder(mem: seq<Byte>, n: nat, head: nat, used: nat, beyond: seq<Byte>, len: nat)
    requires |mem| == n && head < n && used <= n && |beyond| == LONGEST && 4 <= len <= used && len <= LONGEST
    requires InOrder(n, head, used, 4) && InOrder(n, head, used, len)
    ensures var stream, tail := Stored(mem, n, head, used), Wrap(n, head + used);
      && Announced(Fetched(mem, n, head, tail, 4, beyond)) == Announced(stream)
      && Fetched(mem, n, head, tail, len, beyond) == stream[..len]
      && Wrap(n, head + len) < n && Stored(mem, n, Wrap(n, head + len), used - len) == stream[len..]
  {
    FetchedInOrder(mem, n, head, used, 4, beyond);
    FetchedInOrder(mem, n, head, used, len, beyond);
    hide Stored, Fetched, InOrder, Announced;
    SameAnnouncement(Stored(mem, n, head, used));
  }
}
