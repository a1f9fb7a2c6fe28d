/** No deadlock: with at least one thread in every stage, a reachable state in which anything is
  * still in flight has a step that needs no new input.
  */
module NetworkProgress {
  import opened EventPump
  import opened Sequences
  import opened Network
  import opened NetworkFlow
  import opened NetworkHops
  import opened NetworkInv
  import opened NetworkDelivery

  /** Some thread of the pump has taken c from the queue and not read its socket yet. */
  ghost predicate TakenBySome(pump: Pump<Conn, Packet>, c: Conn) {
    exists i :: 0 <= i < |pump.hands| && pump.hands[i] == Took(c)
  }

  /** c was reported and its socket has not been read since. */
  ghost predicate Reported(pump: Pump<Conn, Packet>, c: Conn) {
    c in pump.batch || c in pump.ready || TakenBySome(pump, c)
  }

  /** A reported connection has something to read; only a thread that has read it has bytes in
    * the ring. */
  ghost predicate PendingAt(pump: Pump<Conn, Packet>, c: Conn, ring: seq<Packet>, inbox: seq<Packet>) {
    && (Reported(pump, c) ==> inbox != [])
    && (c in pump.armed || Reported(pump, c) ==> ring == [])
  }

  ghost predicate PendingIn(cfg: Config, st: State, c: Conn) {
    PendingAt(PumpOf(st, Owner(cfg, c)), c, At(st.ring, c), At(st.inbox, c))
  }

  ghost predicate Pending(cfg: Config, st: State) {
    forall c {:trigger PendingIn(cfg, st, c)} :: c in cfg.conns ==> PendingIn(cfg, st, c)
  }

  /** Each process that reads connections has a thread, and each such server a broadcaster. */
  ghost predicate Staffed(cfg: Config, st: State) {
    forall c {:trigger Owner(cfg, c)} :: c in cfg.conns ==>
      |PumpOf(st, Owner(cfg, c)).hands| > 0 && (Owner(cfg, c).AtServer? ==> |At(st.casts, Owner(cfg, c).s)| > 0)
  }

  // ---------------------------------------------------------------- the pump alone

  lemma PendingPump(pump: Pump<Conn, Packet>, capacity: nat, a: Act<Conn, Packet>, c: Conn, ring: seq<Packet>,
                    inbox: seq<Packet>)
    requires PendingAt(pump, c, ring, inbox)
    requires EventPump.Enabled(pump, capacity, a) && (a.Report? || a.Detach? || a.Enqueue? || a.Take? || a.Rearm?)
    requires a.Report? && c in a.events ==> inbox != []
    requires a.Rearm? && c == pump.hands[a.i].conn ==> ring == []
    ensures PendingAt(EventPump.Apply(pump, capacity, a), c, ring, inbox)
  {
  }

  /** A thread that holds c past the read keeps c out of all the places before it. */
  lemma PastReading(pump: Pump<Conn, Packet>, i: nat)
    requires Owned(pump) && i < |pump.hands| && (pump.hands[i].Filled? || pump.hands[i].Carries?)
    ensures !Reported(pump, pump.hands[i].conn) && pump.hands[i].conn !in pump.armed
  {
    var c := pump.hands[i].conn;
    HolderIsExclusive(pump, c);
    if TakenBySome(pump, c) {
      var j :| 0 <= j < |pump.hands| && pump.hands[j] == Took(c);
      OneThreadPerConnection(pump, i, j);
    }
  }

  /** What a thread does with its own connection after the read leaves other connections' places alone. */
  lemma HandMoves(pump: Pump<Conn, Packet>, i: nat, h: Hand<Conn, Packet>, c: Conn)
    requires i < |pump.hands| && !pump.hands[i].Idle? && (h.Filled? || h.Carries?) && h.conn == pump.hands[i].conn
    ensures Reported(pump.(hands := pump.hands[i := h]), c) ==> Reported(pump, c)
  {
  }

  // ---------------------------------------------------------------- every step keeps it

  lemma MoveNeeds(cfg: Config, st: State, p: Proc, a: Act<Conn, Packet>, c: Conn)
    requires CanMove(cfg, st, p, a)
    ensures EventPump.Enabled(PumpOf(st, p), cfg.capacity, a)
    ensures a.Report? || a.Detach? || a.Enqueue? || a.Take? || a.Rearm?
    ensures a.Report? && c in a.events ==> At(st.inbox, c) != []
    ensures a.Rearm? && c == PumpOf(st, p).hands[a.i].conn ==> At(st.ring, c) == []
  {
  }

  lemma PumpAfter(cfg: Config, st: State, p: Proc, a: Act<Conn, Packet>, q: Proc)
    requires CanMove(cfg, st, p, a)
    ensures PumpOf(DoPump(cfg, st, p, a), q)
      == (if p == q then EventPump.Apply(PumpOf(st, p), cfg.capacity, a) else PumpOf(st, q))
    ensures DoPump(cfg, st, p, a).ring == st.ring && DoPump(cfg, st, p, a).inbox == st.inbox
  {
  }

  lemma PendingAfterPump(cfg: Config, st: State, p: Proc, a: Act<Conn, Packet>, c: Conn)
    requires Pending(cfg, st) && CanMove(cfg, st, p, a) && c in cfg.conns
    ensures CanPump(cfg, st, p, a) && PendingIn(cfg, DoPump(cfg, st, p, a), c)
  {
    MoveNeeds(cfg, st, p, a, c);
    PumpAfter(cfg, st, p, a, Owner(cfg, c));
    assert PendingIn(cfg, st, c);
    hide PendingAt, EventPump.Apply, EventPump.Enabled, CanMove, DoPump, Pending, PumpOf;
    if p == Owner(cfg, c) {
      PendingPump(PumpOf(st, p), cfg.capacity, a, c, At(st.ring, c), At(st.inbox, c));
    }
  }

  /** A thread step changes the ring and the inbox of its own connection only, which has left the
    * places before the read. */
  lemma PendingAfterHand(cfg: Config, st: State, st': State, p: Proc, i: nat, h: Hand<Conn, Packet>, c: Conn)
    requires Exclusive(cfg, st) && Exclusive(cfg, st') && Pending(cfg, st) && c in cfg.conns
    requires !HandOf(st, p, i).Idle? && (h.Filled? || h.Carries?) && h.conn == HandOf(st, p, i).conn
    requires st'.pump == SetHand(st, p, i, h).pump
    requires c != h.conn ==> At(st'.ring, c) == At(st.ring, c) && At(st.inbox, c) <= At(st'.inbox, c)
    ensures PendingIn(cfg, st', c)
  {
    assert PendingIn(cfg, st, c);
    HolderCarries(cfg, p, PumpOf(st, p), i);
    if c == h.conn {
      assert ExclusiveAt(cfg, p, PumpOf(st', p));
      PastReading(PumpOf(st', p), i);
    } else if p == Owner(cfg, c) {
      HandMoves(PumpOf(st, p), i, h, c);
    }
  }

  lemma PendingWider(cfg: Config, st: State, st': State, c: Conn)
    requires Pending(cfg, st) && c in cfg.conns && st'.pump == st.pump
    requires At(st'.ring, c) == At(st.ring, c) && At(st.inbox, c) <= At(st'.inbox, c)
    ensures PendingIn(cfg, st', c)
  {
    assert PendingIn(cfg, st, c);
  }

  lemma InboxGrows(cfg: Config, st: State, m: nat, i: nat, c: Conn)
    requires Sane(cfg) && HandOf(st, AtManager(m), i).Carries? && HandOf(st, AtManager(m), i).item.Frame?
    ensures At(st.inbox, c) <= At(DoForward(cfg, st, m, i).inbox, c)
  {
    var pkt := HandOf(st, AtManager(m), i).item;
    ForwardTargetsExact(cfg, m, pkt.id, At(cfg.servers, m));
    SendAllExact(st.inbox, ForwardTargets(cfg, m, pkt.id, At(cfg.servers, m)), pkt, c);
  }

  lemma PendingAfterRead(cfg: Config, st: State, p: Proc, i: nat, k: nat, c: Conn)
    requires Exclusive(cfg, st) && Pending(cfg, st) && CanStep(cfg, st, Read(p, i, k)) && c in cfg.conns
    ensures PendingIn(cfg, DoRead(st, p, i, k), c)
  {
    hide PendingIn, Exclusive, Pending;
    ExclusiveRead(cfg, st, p, i, k);
    PendingAfterHand(cfg, st, DoRead(st, p, i, k), p, i, Filled(HandOf(st, p, i).conn), c);
  }

  lemma PendingAfterCut(cfg: Config, st: State, p: Proc, i: nat, c: Conn)
    requires Exclusive(cfg, st) && Pending(cfg, st) && CanStep(cfg, st, Cut(p, i)) && c in cfg.conns
    ensures PendingIn(cfg, DoCut(st, p, i), c)
  {
    hide PendingIn, Exclusive, Pending;
    var d := HandOf(st, p, i).conn;
    ExclusiveCut(cfg, st, p, i);
    PendingAfterHand(cfg, st, DoCut(st, p, i), p, i, Carries(d, At(st.ring, d)[0]), c);
  }

  lemma PendingAfterPublish(cfg: Config, st: State, s: nat, i: nat, c: Conn)
    requires Exclusive(cfg, st) && Pending(cfg, st) && CanStep(cfg, st, Publish(s, i)) && c in cfg.conns
    ensures PendingIn(cfg, DoPublish(st, s, i), c)
  {
    hide PendingIn, Exclusive, Pending;
    ExclusiveConsumed(cfg, st, AtServer(s), i, DoPublish(st, s, i));
    PendingAfterHand(cfg, st, DoPublish(st, s, i), AtServer(s), i, Filled(HandOf(st, AtServer(s), i).conn), c);
  }

  lemma PendingAfterForward(cfg: Config, st: State, m: nat, i: nat, c: Conn)
    requires Sane(cfg) && Exclusive(cfg, st) && Pending(cfg, st) && CanStep(cfg, st, Forward(m, i)) && c in cfg.conns
    ensures PendingIn(cfg, DoForward(cfg, st, m, i), c)
  {
    hide PendingIn, Exclusive, Pending;
    InboxGrows(cfg, st, m, i, c);
    ExclusiveConsumed(cfg, st, AtManager(m), i, DoForward(cfg, st, m, i));
    PendingAfterHand(cfg, st, DoForward(cfg, st, m, i), AtManager(m), i, Filled(HandOf(st, AtManager(m), i).conn), c);
  }

  lemma PendingAfterSend(cfg: Config, st: State, u: nat, c: Conn)
    requires Pending(cfg, st) && c in cfg.conns
    ensures PendingIn(cfg, DoSend(st, u), c)
  {
    PendingWider(cfg, st, DoSend(st, u), c);
  }

  lemma CastWires(cfg: Config, st: State, s: nat, b: nat, c: Conn)
    requires CanCast(st, s, b)
    ensures var st' := DoCast(cfg, st, s, b);
      st'.pump == st.pump && st'.ring == st.ring && At(st.inbox, c) <= At(st'.inbox, c)
  {
  }

  lemma PendingAfterCast(cfg: Config, st: State, s: nat, b: nat, c: Conn)
    requires Pending(cfg, st) && CanCast(st, s, b) && c in cfg.conns
    ensures PendingIn(cfg, DoCast(cfg, st, s, b), c)
  {
    hide DoCast, PendingIn, Pending;
    CastWires(cfg, st, s, b, c);
    PendingWider(cfg, st, DoCast(cfg, st, s, b), c);
  }

  lemma PendingKeptAt(cfg: Config, st: State, e: Event, c: Conn)
    requires Sane(cfg) && Exclusive(cfg, st) && Pending(cfg, st) && CanStep(cfg, st, e) && c in cfg.conns
    ensures PendingIn(cfg, Step(cfg, st, e), c)
  {
    hide PendingIn, Pending, Sane, Exclusive, DoSend, DoPump, DoRead, DoCut, DoPublish, DoForward, DoCast;
    match e
    case Send(u) => PendingAfterSend(cfg, st, u, c);
    case Pumping(p, a) => PendingAfterPump(cfg, st, p, a, c);
    case Read(p, i, k) => PendingAfterRead(cfg, st, p, i, k, c);
    case Cut(p, i) => PendingAfterCut(cfg, st, p, i, c);
    case Publish(s, i) => PendingAfterPublish(cfg, st, s, i, c);
    case Forward(m, i) => PendingAfterForward(cfg, st, m, i, c);
    case Casting(s, b) => PendingAfterCast(cfg, st, s, b, c);
  }

  lemma PendingKept(cfg: Config, st: State, e: Event)
    requires Sane(cfg) && Exclusive(cfg, st) && Pending(cfg, st) && CanStep(cfg, st, e)
    ensures Pending(cfg, Step(cfg, st, e))
  {
    forall c | c in cfg.conns
      ensures PendingIn(cfg, Step(cfg, st, e), c)
    {
      PendingKeptAt(cfg, st, e, c);
    }
  }

  /** No step adds or removes a thread. */
  lemma SameThreads(cfg: Config, st: State, e: Event, p: Proc, s: nat)
    requires CanStep(cfg, st, e)
    ensures |PumpOf(Step(cfg, st, e), p).hands| == |PumpOf(st, p).hands|
    ensures |At(Step(cfg, st, e).casts, s)| == |At(st.casts, s)|
  {
    if e.Casting? {
      SameCasters(cfg, st, e.s, e.b, s);
    } else if e.Forward? {
      SameWorkers(cfg, st, e.m, e.i, p);
    }
  }

  lemma SameCasters(cfg: Config, st: State, s: nat, b: nat, t: nat)
    requires CanCast(st, s, b)
    ensures DoCast(cfg, st, s, b).pump == st.pump && |At(DoCast(cfg, st, s, b).casts, t)| == |At(st.casts, t)|
  {
  }

  lemma SameWorkers(cfg: Config, st: State, m: nat, i: nat, p: Proc)
    requires HandOf(st, AtManager(m), i).Carries? && HandOf(st, AtManager(m), i).item.Frame?
    ensures |PumpOf(DoForward(cfg, st, m, i), p).hands| == |PumpOf(st, p).hands|
    ensures DoForward(cfg, st, m, i).casts == st.casts
  {
  }

  lemma StaffedKept(cfg: Config, st: State, e: Event)
    requires Staffed(cfg, st) && CanStep(cfg, st, e)
    ensures Staffed(cfg, Step(cfg, st, e))
  {
    forall c | c in cfg.conns
      ensures var st' := Step(cfg, st, e);
        |PumpOf(st', Owner(cfg, c)).hands| > 0 && (Owner(cfg, c).AtServer? ==> |At(st'.casts, Owner(cfg, c).s)| > 0)
    {
      SameThreads(cfg, st, e, Owner(cfg, c), if Owner(cfg, c).AtServer? then Owner(cfg, c).s else 0);
    }
  }

  // ---------------------------------------------------------------- someone can go on

  /** A step that needs no new input from a user. */
  predicate CanGoOn(cfg: Config, st: State, e: Event) {
    CanStep(cfg, st, e) && !e.Send?
  }

  ghost predicate Moving(cfg: Config, st: State) {
    exists e :: CanGoOn(cfg, st, e)
  }

  /** A broadcaster with something to do goes on. */
  lemma CasterGoesOn(cfg: Config, st: State, s: nat, b: nat)
    requires b < |At(st.casts, s)| && (At(st.bqueue, s) != [] || !At(st.casts, s)[b].Resting?)
    ensures Moving(cfg, st)
  {
    assert CanGoOn(cfg, st, Casting(s, b));
  }

  /** A server with entries queued has a broadcaster for them. */
  lemma QueueGoesOn(cfg: Config, st: State, s: nat)
    requires Inv(cfg, st) && Staffed(cfg, st) && At(st.bqueue, s) != []
    ensures Moving(cfg, st)
  {
    assert TypedAt(cfg, s, At(st.enq, s), At(st.bqueue, s), At(st.casts, s));
    var e := At(st.bqueue, s)[0];
    assert e == At(st.enq, s)[|At(st.enq, s)| - |At(st.bqueue, s)|];
    assert e in At(st.enq, s);
    assert WellTyped(cfg, s, e);
    assert Owner(cfg, e.src) == AtServer(s);
    CasterGoesOn(cfg, st, s, 0);
  }

  /** The event is a step of thread i of process p. */
  predicate StepOf(e: Event, p: Proc, i: nat) {
    match e
    case Pumping(q, a) => q == p && a.Rearm? && a.i == i
    case Read(q, j, _) => q == p && j == i
    case Cut(q, j) => q == p && j == i
    case Publish(s, j) => AtServer(s) == p && j == i
    case Forward(m, j) => AtManager(m) == p && j == i
    case _ => false
  }

  /** The thread itself can take its next step. */
  ghost predicate ThreadMoves(cfg: Config, st: State, p: Proc, i: nat) {
    exists e :: CanGoOn(cfg, st, e) && StepOf(e, p, i)
  }

  lemma TakerGoesOn(cfg: Config, st: State, p: Proc, i: nat)
    requires Exclusive(cfg, st) && Pending(cfg, st) && HandOf(st, p, i).Took?
    ensures ThreadMoves(cfg, st, p, i)
  {
    var c := HandOf(st, p, i).conn;
    HolderCarries(cfg, p, PumpOf(st, p), i);
    assert PendingIn(cfg, st, c);
    assert TakenBySome(PumpOf(st, p), c);
    assert CanGoOn(cfg, st, Read(p, i, 1)) && StepOf(Read(p, i, 1), p, i);
  }

  lemma FillerGoesOn(cfg: Config, st: State, p: Proc, i: nat)
    requires HandOf(st, p, i).Filled?
    ensures ThreadMoves(cfg, st, p, i)
  {
    if At(st.ring, HandOf(st, p, i).conn) == [] {
      assert CanGoOn(cfg, st, Pumping(p, Act.Rearm(i))) && StepOf(Pumping(p, Act.Rearm(i)), p, i);
    } else {
      assert CanGoOn(cfg, st, Cut(p, i)) && StepOf(Cut(p, i), p, i);
    }
  }

  lemma CarrierGoesOn(cfg: Config, st: State, p: Proc, i: nat)
    requires Exclusive(cfg, st) && Fifo(cfg, st) && HandOf(st, p, i).Carries?
    requires p.AtServer? ==> |At(st.bqueue, p.s)| < cfg.capacity
    ensures ThreadMoves(cfg, st, p, i)
  {
    CarriedWellStamped(cfg, st, p, i);
    match p
    case AtServer(s) => assert CanGoOn(cfg, st, Publish(s, i)) && StepOf(Publish(s, i), p, i);
    case AtManager(m) => assert CanGoOn(cfg, st, Forward(m, i)) && StepOf(Forward(m, i), p, i);
  }

  /** A thread that has a connection can itself go on: it reads, cuts, arms again, or passes a message
    * on; only passing a message on needs a place in the broadcast queue. */
  lemma HandGoesOn(cfg: Config, st: State, p: Proc, i: nat)
    requires Inv(cfg, st) && Pending(cfg, st) && !HandOf(st, p, i).Idle?
    requires p.AtServer? && HandOf(st, p, i).Carries? ==> |At(st.bqueue, p.s)| < cfg.capacity
    ensures ThreadMoves(cfg, st, p, i)
  {
    hide ThreadMoves, Exclusive, Pending, Fifo;
    match HandOf(st, p, i)
    case Took(_) => TakerGoesOn(cfg, st, p, i);
    case Filled(_) => FillerGoesOn(cfg, st, p, i);
    case Carries(_, _) => CarrierGoesOn(cfg, st, p, i);
  }

  /** With idle threads only, the poll loop goes on: there is room in the queue, a connection to
    * take, or an event to report. */
  lemma PollGoesOn(cfg: Config, st: State, c: Conn)
    requires Inv(cfg, st) && Pending(cfg, st) && Staffed(cfg, st) && c in cfg.conns && Pipe(cfg, st, c) != []
    requires forall i {:trigger PumpOf(st, Owner(cfg, c)).hands[i]} ::
      0 <= i < |PumpOf(st, Owner(cfg, c)).hands| ==> PumpOf(st, Owner(cfg, c)).hands[i].Idle?
    ensures Moving(cfg, st)
  {
    var p := Owner(cfg, c);
    var pump := PumpOf(st, p);
    if pump.ready != [] {
      assert CanGoOn(cfg, st, Pumping(p, Act.Take(0)));
    } else if pump.batch != [] {
      if pump.detached {
        assert CanGoOn(cfg, st, Pumping(p, Act.Enqueue));
      } else {
        assert CanGoOn(cfg, st, Pumping(p, Act.Detach));
      }
    } else {
      ArmedWithInput(cfg, st, c);
      assert CanGoOn(cfg, st, Pumping(p, Act.Report([c])));
    }
  }

  /** A connection that nobody but the poll set has keeps all its bytes in the socket. */
  lemma ArmedWithInput(cfg: Config, st: State, c: Conn)
    requires Exclusive(cfg, st) && Pending(cfg, st) && c in cfg.conns && Pipe(cfg, st, c) != []
    requires var pump := PumpOf(st, Owner(cfg, c));
      && pump.ready == [] && pump.batch == []
      && forall i {:trigger pump.hands[i]} :: 0 <= i < |pump.hands| ==> pump.hands[i].Idle?
    ensures c in PumpOf(st, Owner(cfg, c)).armed && At(st.inbox, c) != []
  {
    var pump := PumpOf(st, Owner(cfg, c));
    assert ExclusiveAt(cfg, Owner(cfg, c), pump);
    IdleHandsHoldNothing(pump.hands, c);
    CarriedByNone(pump.hands, c);
    assert Holders(pump, c) == 1;
    assert PendingIn(cfg, st, c);
  }

  lemma MovingIfThread(cfg: Config, st: State, p: Proc, i: nat)
    requires ThreadMoves(cfg, st, p, i)
    ensures Moving(cfg, st)
  {
  }

  /** Whatever is still in flight, some step can be taken. */
  lemma SomethingMoves(cfg: Config, st: State)
    requires Inv(cfg, st) && Pending(cfg, st) && Staffed(cfg, st) && !Quiescent(cfg, st)
    ensures Moving(cfg, st)
  {
    if s :| At(st.bqueue, s) != [] {
      QueueGoesOn(cfg, st, s);
    } else if s: nat, b: nat :| b < |At(st.casts, s)| && !At(st.casts, s)[b].Resting? {
      CasterGoesOn(cfg, st, s, b);
    } else {
      var c :| c in cfg.conns && Pipe(cfg, st, c) != [];
      var p := Owner(cfg, c);
      if i: nat :| i < |PumpOf(st, p).hands| && !PumpOf(st, p).hands[i].Idle? {
        HandGoesOn(cfg, st, p, i);
        MovingIfThread(cfg, st, p, i);
      } else {
        PollGoesOn(cfg, st, c);
      }
    }
  }

  lemma InitialProgress(cfg: Config, st: State)
    requires Initial(cfg, st)
    ensures Pending(cfg, st)
  {
  }

  lemma {:induction false} ProgressAlong(cfg: Config, st: State, run: seq<Event>)
    requires Inv(cfg, st) && Pending(cfg, st) && Staffed(cfg, st) && IsRun(cfg, st, run)
    ensures var t := StateAfter(cfg, st, run); Inv(cfg, t) && Pending(cfg, t) && Staffed(cfg, t)
    decreases |run|
  {
    hide Inv, Pending, Staffed, CanStep, Step;
    if run != [] {
      InvParts(cfg, st);
      InvKept(cfg, st, run[0]);
      PendingKept(cfg, st, run[0]);
      StaffedKept(cfg, st, run[0]);
      ProgressAlong(cfg, Step(cfg, st, run[0]), run[1..]);
    }
  }

  lemma InvParts(cfg: Config, st: State)
    requires Inv(cfg, st)
    ensures Sane(cfg) && Exclusive(cfg, st)
  {
  }

  /** Deadlock freedom: after any run from the start, unless nothing is in flight any more, some
    * step other than a user's sending is enabled. */
  lemma NoDeadlock(cfg: Config, start: State, run: seq<Event>)
    requires Sane(cfg) && Initial(cfg, start) && Staffed(cfg, start) && IsRun(cfg, start, run)
    ensures var st := StateAfter(cfg, start, run); Quiescent(cfg, st) || exists e :: CanGoOn(cfg, st, e)
  {
    InitialConnections(cfg, start);
    InitialServers(cfg, start);
    InitialProgress(cfg, start);
    ProgressAlong(cfg, start, run);
    var st := StateAfter(cfg, start, run);
    if !Quiescent(cfg, st) { SomethingMoves(cfg, st); }
  }
}
