/** Delivery conservation: at every moment of every run, the copies of a message that a user
  * has plus the copies still on their way to that user are as many as there are routes.
  */
module NetworkDelivery {
  import opened EventPump
  import opened Sequences
  import opened Network
  import opened NetworkFlow
  import opened NetworkHops
  import opened NetworkInv

  // ---------------------------------------------------------------- runs

  /** All connections armed, nothing sent. */
  ghost predicate Initial(cfg: Config, st: State) {
    && st.inbox == map[] && st.ring == map[] && st.bqueue == map[] && st.got == map[]
    && st.sent == map[] && st.log == map[] && st.eaten == map[] && st.enq == map[]
    && (forall s, b {:trigger At(st.casts, s)[b]} :: 0 <= b < |At(st.casts, s)| ==> At(st.casts, s)[b].Resting?)
    && (forall p {:trigger PumpOf(st, p)} :: FreshPump(cfg, p, PumpOf(st, p)))
  }

  ghost predicate FreshPump(cfg: Config, p: Proc, pump: Pump<Conn, Packet>) {
    && pump.batch == [] && !pump.detached && pump.ready == [] && pump.entering == {} && pump.stranded == {}
    && (forall i {:trigger pump.hands[i]} :: 0 <= i < |pump.hands| ==> pump.hands[i].Idle?)
    && pump.armed == pump.open
    && (forall c {:trigger c in pump.open} :: c in pump.open <==> c in cfg.conns && Owner(cfg, c) == p)
  }

  predicate IsRun(cfg: Config, st: State, run: seq<Event>)
    decreases |run|
  {
    run == [] || (CanStep(cfg, st, run[0]) && IsRun(cfg, Step(cfg, st, run[0]), run[1..]))
  }

  function StateAfter(cfg: Config, st: State, run: seq<Event>): State
    requires IsRun(cfg, st, run)
    decreases |run|
  {
    if run == [] then st else StateAfter(cfg, Step(cfg, st, run[0]), run[1..])
  }

  lemma FreshIsExclusive(cfg: Config, p: Proc, pump: Pump<Conn, Packet>)
    requires FreshPump(cfg, p, pump)
    ensures ExclusiveAt(cfg, p, pump) && forall c :: Carried(pump.hands, c) == []
  {
    forall c ensures InHands(pump.hands, c) == 0 && Carried(pump.hands, c) == [] {
      IdleHandsHoldNothing(pump.hands, c);
      CarriedByNone(pump.hands, c);
    }
  }

  lemma InitialConnections(cfg: Config, st: State)
    requires Initial(cfg, st)
    ensures Exclusive(cfg, st) && Fifo(cfg, st) && Sources(cfg, st) && Intake(cfg, st)
  {
    forall p ensures ExclusiveAt(cfg, p, PumpOf(st, p)) && forall c :: Carried(PumpOf(st, p).hands, c) == [] {
      FreshIsExclusive(cfg, p, PumpOf(st, p));
    }
    forall c ensures Pipe(cfg, st, c) == [] {
    }
    forall c | c in cfg.conns && !c.Up? ensures IntakeAt(At(st.enq, Owner(cfg, c).s), At(st.eaten, c), c) {
      assert At(st.enq, Owner(cfg, c).s) == [] && At(st.eaten, c) == [];
    }
  }

  lemma InitialServers(cfg: Config, st: State)
    requires Initial(cfg, st)
    ensures Typed(cfg, st) && Onwards(cfg, st) && Uplinked(cfg, st) && Delivered(cfg, st)
  {
    forall s, m, x ensures UplinkAt(m, x, At(st.log, Up(s, m)), At(st.enq, s), At(st.bqueue, s), At(st.casts, s)) {
      TallyNone(Relays(m, x), At(st.casts, s));
    }
    forall u, e | FromUser(u) in cfg.conns
      ensures var s := Lookup(cfg.home, u);
        DeliverAt(u, e, At(st.got, u), At(st.enq, s), At(st.bqueue, s), At(st.casts, s))
    {
      TallyNone(Writes(u, e), At(st.casts, Lookup(cfg.home, u)));
    }
  }

  lemma {:induction false} InvAlong(cfg: Config, st: State, run: seq<Event>)
    requires Inv(cfg, st) && IsRun(cfg, st, run)
    ensures Inv(cfg, StateAfter(cfg, st, run))
    decreases |run|
  {
    if run != [] {
      InvKept(cfg, st, run[0]);
      InvAlong(cfg, Step(cfg, st, run[0]), run[1..]);
    }
  }

  lemma Reachable(cfg: Config, st: State, run: seq<Event>)
    requires Sane(cfg) && Initial(cfg, st) && IsRun(cfg, st, run)
    ensures Inv(cfg, StateAfter(cfg, st, run))
  {
    InitialConnections(cfg, st);
    InitialServers(cfg, st);
    InvAlong(cfg, st, run);
  }

  // ---------------------------------------------------------------- routes

  /** The entry that carries message x at server s when it came through manager m. */
  function RelayedEntry(m: nat, s: nat, x: Msg): Entry { Entry(Down(m, s), true, x) }

  /** Manager m passes messages of server s0 on to server s. */
  function Passes(cfg: Config, s0: nat, s: nat): nat -> bool {
    (m: nat) => Up(s0, m) in cfg.conns && Forwards(cfg, m, Lookup(cfg.stamp, s0), s)
  }

  predicate LocalRoute(cfg: Config, v: nat, u: nat) {
    Lookup(cfg.home, u) == Lookup(cfg.home, v) && u != v
  }

  /** How many ways lead from user v to user u. */
  function Routes(cfg: Config, v: nat, u: nat): nat {
    (if LocalRoute(cfg, v, u) then 1 else 0)
    + Tally(Passes(cfg, Lookup(cfg.home, v), Lookup(cfg.home, u)), At(cfg.managers, Lookup(cfg.home, u)))
  }

  /** Copies of x still before the sender's broadcast queue. */
  function AtSource(cfg: Config, st: State, x: Msg): nat {
    multiset(Msgs(Pipe(cfg, st, FromUser(x.u))))[x]
  }

  /** Copies of entry e queued at u's server or in its broadcasters, yet to be written to u. */
  function AtTarget(cfg: Config, st: State, u: nat, e: Entry): nat {
    var s := Lookup(cfg.home, u);
    Tally(Writes(u, e), At(st.casts, s)) + multiset(At(st.bqueue, s))[e]
  }

  /** Copies of x between the sender's broadcast queue and server s, on the way through manager m. */
  function AtManager(cfg: Config, st: State, m: nat, s: nat, x: Msg): nat {
    var s0 := Lookup(cfg.home, x.u);
    multiset(At(st.bqueue, s0))[OwnEntry(x)] + Tally(Relays(m, x), At(st.casts, s0))
    + multiset(Msgs(Pipe(cfg, st, Up(s0, m))))[x] + multiset(Msgs(Pipe(cfg, st, Down(m, s))))[x]
  }

  function AheadVia(cfg: Config, st: State, u: nat, x: Msg, m: nat): nat {
    var s := Lookup(cfg.home, u);
    if Passes(cfg, Lookup(cfg.home, x.u), s)(m)
    then AtTarget(cfg, st, u, RelayedEntry(m, s, x)) + AtManager(cfg, st, m, s, x) + AtSource(cfg, st, x)
    else 0
  }

  function AheadViaAll(cfg: Config, st: State, u: nat, x: Msg, ms: seq<nat>): nat {
    if ms == [] then 0 else AheadVia(cfg, st, u, x, ms[0]) + AheadViaAll(cfg, st, u, x, ms[1..])
  }

  /** Copies of x on their way to user u, over all routes. */
  function Ahead(cfg: Config, st: State, u: nat, x: Msg): nat {
    (if LocalRoute(cfg, x.u, u) then AtTarget(cfg, st, u, OwnEntry(x)) + AtSource(cfg, st, x) else 0)
    + AheadViaAll(cfg, st, u, x, At(cfg.managers, Lookup(cfg.home, u)))
  }

  function IsMsg(x: Msg): Entry -> bool { (e: Entry) => e.msg == x }

  /** How many copies of message x user u has. */
  function Copies(st: State, u: nat, x: Msg): nat {
    Tally(IsMsg(x), At(st.got, u))
  }

  // ---------------------------------------------------------------- one route

  lemma SentOnce(u: nat, n: nat, x: Msg)
    requires x.u == u
    ensures multiset(Sent(u, n))[x] == if x.n < n then 1 else 0
  {
    if n > 0 {
      assert Sent(u, n) == Sent(u, n - 1) + [Msg(u, n - 1)];
      SentOnce(u, n - 1, x);
    }
  }

  /** What has left the source is on the sender's queue history. */
  lemma SourceHop(cfg: Config, st: State, x: Msg)
    requires Inv(cfg, st) && FromUser(x.u) in cfg.conns
    ensures multiset(At(st.enq, Lookup(cfg.home, x.u)))[OwnEntry(x)] + AtSource(cfg, st, x)
      == if x.n < Lookup(st.sent, x.u) then 1 else 0
  {
    var c, s := FromUser(x.u), Lookup(cfg.home, x.u);
    var f := SrcIs(c);
    assert FifoAt(cfg, st, c);
    assert At(st.log, c) == Sent(x.u, Lookup(st.sent, x.u));
    SentOnce(x.u, Lookup(st.sent, x.u), x);
    assert IntakeAt(At(st.enq, s), At(st.eaten, c), c);
    assert TypedAt(cfg, s, At(st.enq, s), At(st.bqueue, s), At(st.casts, s));
    CountIntake(At(st.enq, s), c, OwnEntry(x));
  }

  /** Counting entries of one source is counting their messages, when the source fixes the rest. */
  lemma {:induction false} CountIntake(enq: seq<Entry>, c: Conn, e: Entry)
    requires e.src == c && forall f {:trigger f in enq} :: f in enq && f.src == c ==> f.relayed == e.relayed
    ensures multiset(EntryMsgs(Filter(SrcIs(c), enq)))[e.msg] == multiset(enq)[e]
  {
    if enq != [] {
      var n := |enq| - 1;
      var before, f := enq[..n], enq[n];
      assert forall g :: g in before ==> g in enq;
      CountIntake(before, c, e);
      assert enq == before + [f] && f in enq;
      CountSnoc(before, f, e);
      CountFiltered(before, f, c, e.msg);
    }
  }

  lemma CountFiltered(q: seq<Entry>, f: Entry, c: Conn, x: Msg)
    ensures multiset(EntryMsgs(Filter(SrcIs(c), q + [f])))[x]
      == multiset(EntryMsgs(Filter(SrcIs(c), q)))[x] + (if f.src == c && f.msg == x then 1 else 0)
  {
    var kept := Filter(SrcIs(c), q);
    FilterSnoc(SrcIs(c), q, f);
    EntryMsgsSnoc(kept, f);
    CountSnoc(EntryMsgs(kept), f.msg, x);
    assert kept + [] == kept;
  }

  /** From the sender's queue history to what manager m has finished with. */
  lemma UpHop(cfg: Config, st: State, m: nat, x: Msg)
    requires Inv(cfg, st) && Up(Lookup(cfg.home, x.u), m) in cfg.conns
    ensures var s0 := Lookup(cfg.home, x.u);
      multiset(At(st.eaten, Up(s0, m)))[x] + multiset(Msgs(Pipe(cfg, st, Up(s0, m))))[x]
        + Tally(Relays(m, x), At(st.casts, s0)) + multiset(At(st.bqueue, s0))[OwnEntry(x)]
      == multiset(At(st.enq, s0))[OwnEntry(x)]
  {
    var s0 := Lookup(cfg.home, x.u);
    var o := OwnEntry(x);
    assert UplinkAt(m, x, At(st.log, Up(s0, m)), At(st.enq, s0), At(st.bqueue, s0), At(st.casts, s0));
    assert FifoAt(cfg, st, Up(s0, m));
  }

  /** What server s has finished reading from manager m is what it has queued from it. */
  lemma DownIntake(cfg: Config, st: State, m: nat, s: nat, x: Msg)
    requires Inv(cfg, st) && Down(m, s) in cfg.conns
    ensures multiset(At(st.eaten, Down(m, s)))[x] == multiset(At(st.enq, s))[RelayedEntry(m, s, x)]
  {
    var c := Down(m, s);
    assert IntakeAt(At(st.enq, s), At(st.eaten, c), c);
    assert TypedAt(cfg, s, At(st.enq, s), At(st.bqueue, s), At(st.casts, s));
    CountIntake(At(st.enq, s), c, RelayedEntry(m, s, x));
  }

  /** What manager m has written to server s of another server's messages. */
  lemma DownLog(cfg: Config, st: State, m: nat, s: nat, x: Msg)
    requires Inv(cfg, st) && Up(Lookup(cfg.home, x.u), m) in cfg.conns && Down(m, s) in cfg.conns
    ensures multiset(At(st.log, Down(m, s)))[x]
      == if Passes(cfg, Lookup(cfg.home, x.u), s)(m) then multiset(At(st.eaten, Up(Lookup(cfg.home, x.u), m)))[x] else 0
  {
    var s0, c := Lookup(cfg.home, x.u), Down(m, s);
    assert OnwardAt(cfg, m, s0, s, At(st.log, c), At(st.eaten, Up(s0, m)));
    FilterCount(OriginIs(cfg, s0), At(st.log, c), x);
  }

  /** From what manager m has finished with to what server s has queued from it. */
  lemma DownHop(cfg: Config, st: State, m: nat, s: nat, x: Msg)
    requires Inv(cfg, st) && Up(Lookup(cfg.home, x.u), m) in cfg.conns && Down(m, s) in cfg.conns
    ensures multiset(At(st.enq, s))[RelayedEntry(m, s, x)] + multiset(Msgs(Pipe(cfg, st, Down(m, s))))[x]
      == if Passes(cfg, Lookup(cfg.home, x.u), s)(m) then multiset(At(st.eaten, Up(Lookup(cfg.home, x.u), m)))[x] else 0
  {
    DownIntake(cfg, st, m, s, x);
    DownLog(cfg, st, m, s, x);
    assert FifoAt(cfg, st, Down(m, s));
  }

  /** From a server's queue history to its user u. */
  lemma LastHop(cfg: Config, st: State, u: nat, e: Entry)
    requires Inv(cfg, st) && FromUser(u) in cfg.conns && e.src != FromUser(u)
    ensures multiset(At(st.got, u))[e] + AtTarget(cfg, st, u, e) == multiset(At(st.enq, Lookup(cfg.home, u)))[e]
  {
  }

  /** On one route, delivered and in flight together are one copy of each message sent. */
  lemma RouteVia(cfg: Config, st: State, u: nat, x: Msg, m: nat)
    requires Inv(cfg, st) && FromUser(u) in cfg.conns && FromUser(x.u) in cfg.conns
    requires m in At(cfg.managers, Lookup(cfg.home, u))
    ensures var s := Lookup(cfg.home, u);
      multiset(At(st.got, u))[RelayedEntry(m, s, x)] + AheadVia(cfg, st, u, x, m)
      == if Passes(cfg, Lookup(cfg.home, x.u), s)(m) && x.n < Lookup(st.sent, x.u) then 1 else 0
  {
    var s0, s := Lookup(cfg.home, x.u), Lookup(cfg.home, u);
    var e := RelayedEntry(m, s, x);
    LastHop(cfg, st, u, e);
    if Up(s0, m) in cfg.conns {
      assert Up(s, m) in cfg.conns;
      DownHop(cfg, st, m, s, x);
      UpHop(cfg, st, m, x);
      SourceHop(cfg, st, x);
    } else {
      assert TypedAt(cfg, s, At(st.enq, s), At(st.bqueue, s), At(st.casts, s));
      assert !WellTyped(cfg, s, e);
      assert e !in At(st.enq, s);
    }
  }

  lemma RouteLocal(cfg: Config, st: State, u: nat, x: Msg)
    requires Inv(cfg, st) && FromUser(u) in cfg.conns && FromUser(x.u) in cfg.conns
    ensures multiset(At(st.got, u))[OwnEntry(x)]
        + (if LocalRoute(cfg, x.u, u) then AtTarget(cfg, st, u, OwnEntry(x)) + AtSource(cfg, st, x) else 0)
      == if LocalRoute(cfg, x.u, u) && x.n < Lookup(st.sent, x.u) then 1 else 0
  {
    var s, e := Lookup(cfg.home, u), OwnEntry(x);
    var w := Writes(u, e);
    assert DeliverAt(u, e, At(st.got, u), At(st.enq, s), At(st.bqueue, s), At(st.casts, s));
    SourceHop(cfg, st, x);
    if Lookup(cfg.home, x.u) != s {
      assert TypedAt(cfg, s, At(st.enq, s), At(st.bqueue, s), At(st.casts, s));
      assert !WellTyped(cfg, s, e);
      assert e !in At(st.enq, s);
    }
  }

  // ---------------------------------------------------------------- all routes

  /** Copies of x in q that came through one of the managers ms. */
  function Relayed(q: seq<Entry>, s: nat, x: Msg, ms: seq<nat>): nat {
    if ms == [] then 0 else multiset(q)[RelayedEntry(ms[0], s, x)] + Relayed(q, s, x, ms[1..])
  }

  lemma {:induction false} RelayedSnoc(q: seq<Entry>, e: Entry, s: nat, x: Msg, ms: seq<nat>)
    requires Distinct(ms)
    ensures Relayed(q + [e], s, x, ms) == Relayed(q, s, x, ms)
      + (if e.src.Down? && e == RelayedEntry(e.src.m, s, x) && e.src.m in ms then 1 else 0)
  {
    if ms != [] {
      RelayedSnoc(q, e, s, x, ms[1..]);
      CountSnoc(q, e, RelayedEntry(ms[0], s, x));
      assert ms[0] !in ms[1..];
      assert forall m :: m in ms <==> m == ms[0] || m in ms[1..];
    }
  }

  lemma {:induction false} RelayedNone(s: nat, x: Msg, ms: seq<nat>)
    ensures Relayed([], s, x, ms) == 0
  {
    if ms != [] { RelayedNone(s, x, ms[1..]); }
  }

  /** An entry that can be in a user's hands on server s: local, or through one of the managers ms. */
  predicate Arrived(e: Entry, s: nat, ms: seq<nat>) {
    e == OwnEntry(e.msg) || (e.src.Down? && e.src.m in ms && e == RelayedEntry(e.src.m, s, e.msg))
  }

  /** The copies of x in q are the local ones and those through each manager. */
  lemma {:induction false} CopiesSplit(q: seq<Entry>, s: nat, x: Msg, ms: seq<nat>)
    requires Distinct(ms) && forall e {:trigger e in q} :: e in q ==> Arrived(e, s, ms)
    ensures multiset(q)[OwnEntry(x)] + Relayed(q, s, x, ms) == Tally(IsMsg(x), q)
  {
    if q == [] {
      RelayedNone(s, x, ms);
    } else {
      var n := |q| - 1;
      assert q == q[..n] + [q[n]] && q[n] in q;
      assert forall e :: e in q[..n] ==> e in q;
      CopiesSplit(q[..n], s, x, ms);
      RelayedSnoc(q[..n], q[n], s, x, ms);
      CountSnoc(q[..n], q[n], OwnEntry(x));
      TallySnoc(IsMsg(x), q[..n], q[n]);
    }
  }

  /** Everything a user has been sent arrived on one of the routes. */
  lemma GotArrived(cfg: Config, st: State, u: nat, e: Entry)
    requires Inv(cfg, st) && FromUser(u) in cfg.conns && e in At(st.got, u)
    ensures Arrived(e, Lookup(cfg.home, u), At(cfg.managers, Lookup(cfg.home, u)))
  {
    var s, w := Lookup(cfg.home, u), Writes(u, e);
    assert DeliverAt(u, e, At(st.got, u), At(st.enq, s), At(st.bqueue, s), At(st.casts, s));
    assert multiset(At(st.got, u))[e] > 0;
    assert e in At(st.enq, s);
    assert TypedAt(cfg, s, At(st.enq, s), At(st.bqueue, s), At(st.casts, s));
    if e.src.Down? { assert e.src == Down(e.src.m, s); assert Up(s, e.src.m) in cfg.conns; }
  }

  lemma {:induction false} ViaAll(cfg: Config, st: State, u: nat, x: Msg, ms: seq<nat>)
    requires Inv(cfg, st) && FromUser(u) in cfg.conns && FromUser(x.u) in cfg.conns
    requires forall m :: m in ms ==> m in At(cfg.managers, Lookup(cfg.home, u))
    ensures var s := Lookup(cfg.home, u);
      Relayed(At(st.got, u), s, x, ms) + AheadViaAll(cfg, st, u, x, ms)
      == if x.n < Lookup(st.sent, x.u) then Tally(Passes(cfg, Lookup(cfg.home, x.u), s), ms) else 0
  {
    if ms != [] {
      RouteVia(cfg, st, u, x, ms[0]);
      ViaAll(cfg, st, u, x, ms[1..]);
    }
  }

  /** At every moment, the copies of a message that a user has and those on their way to that
    * user are together as many as there are routes, once the message has been sent, and none before. */
  lemma Conservation(cfg: Config, st: State, u: nat, x: Msg)
    requires Inv(cfg, st) && FromUser(u) in cfg.conns && FromUser(x.u) in cfg.conns
    ensures Copies(st, u, x) + Ahead(cfg, st, u, x)
      == if x.n < Lookup(st.sent, x.u) then Routes(cfg, x.u, u) else 0
  {
    var s := Lookup(cfg.home, u);
    var ms := At(cfg.managers, s);
    forall e | e in At(st.got, u) ensures Arrived(e, s, ms) { GotArrived(cfg, st, u, e); }
    CopiesSplit(At(st.got, u), s, x, ms);
    RouteLocal(cfg, st, u, x);
    ViaAll(cfg, st, u, x, ms);
  }

  /** The same after every run from the start. */
  lemma ConservationAlways(cfg: Config, start: State, run: seq<Event>, u: nat, x: Msg)
    requires Sane(cfg) && Initial(cfg, start) && IsRun(cfg, start, run)
    requires FromUser(u) in cfg.conns && FromUser(x.u) in cfg.conns
    ensures var st := StateAfter(cfg, start, run);
      Copies(st, u, x) + Ahead(cfg, st, u, x) == if x.n < Lookup(st.sent, x.u) then Routes(cfg, x.u, u) else 0
  {
    hide Initial, IsRun, Copies, Ahead, Routes, Inv;
    Reachable(cfg, start, run);
    Conservation(cfg, StateAfter(cfg, start, run), u, x);
  }

  // ---------------------------------------------------------------- quiescence

  /** Nothing is in any socket, ring, queue or thread. */
  ghost predicate Quiescent(cfg: Config, st: State) {
    && (forall c {:trigger Pipe(cfg, st, c)} :: c in cfg.conns ==> Pipe(cfg, st, c) == [])
    && (forall s {:trigger At(st.bqueue, s)} :: At(st.bqueue, s) == [])
    && (forall s, b {:trigger At(st.casts, s)[b]} :: 0 <= b < |At(st.casts, s)| ==> At(st.casts, s)[b].Resting?)
  }

  lemma QuietServer(cfg: Config, st: State, s: nat, m: nat, u: nat, x: Msg, e: Entry)
    requires Quiescent(cfg, st)
    ensures Tally(Relays(m, x), At(st.casts, s)) == 0 && Tally(Writes(u, e), At(st.casts, s)) == 0
  {
    TallyNone(Relays(m, x), At(st.casts, s));
    TallyNone(Writes(u, e), At(st.casts, s));
  }

  lemma {:induction false} QuietRoutes(cfg: Config, st: State, u: nat, x: Msg, ms: seq<nat>)
    requires Sane(cfg) && Quiescent(cfg, st) && FromUser(u) in cfg.conns && FromUser(x.u) in cfg.conns
    requires forall m :: m in ms ==> m in At(cfg.managers, Lookup(cfg.home, u))
    ensures AheadViaAll(cfg, st, u, x, ms) == 0
  {
    if ms != [] {
      var s, s0, m := Lookup(cfg.home, u), Lookup(cfg.home, x.u), ms[0];
      QuietRoutes(cfg, st, u, x, ms[1..]);
      QuietServer(cfg, st, s0, m, u, x, RelayedEntry(m, s, x));
      QuietServer(cfg, st, s, m, u, x, RelayedEntry(m, s, x));
      assert m in ms;
      assert Up(s, m) in cfg.conns && Down(m, s) in cfg.conns;
      if Up(s0, m) in cfg.conns {
        assert Pipe(cfg, st, Up(s0, m)) == [] && Pipe(cfg, st, Down(m, s)) == [] && Pipe(cfg, st, FromUser(x.u)) == [];
      }
    }
  }

  /** After any run from the start, when nothing is in flight any more, every user has exactly as
    * many copies of each message as there are routes to that user from its sender. */
  lemma DeliveredAtQuiescence(cfg: Config, start: State, run: seq<Event>, u: nat, x: Msg)
    requires Sane(cfg) && Initial(cfg, start) && IsRun(cfg, start, run) && Quiescent(cfg, StateAfter(cfg, start, run))
    requires FromUser(u) in cfg.conns && FromUser(x.u) in cfg.conns
    ensures var st := StateAfter(cfg, start, run);
      Copies(st, u, x) == if x.n < Lookup(st.sent, x.u) then Routes(cfg, x.u, u) else 0
  {
    var st := StateAfter(cfg, start, run);
    Reachable(cfg, start, run);
    Conservation(cfg, st, u, x);
    QuietRoutes(cfg, st, u, x, At(cfg.managers, Lookup(cfg.home, u)));
    QuietServer(cfg, st, Lookup(cfg.home, u), 0, u, x, OwnEntry(x));
    assert Pipe(cfg, st, FromUser(x.u)) == [];
  }

  // ---------------------------------------------------------------- ids

  /** Every manager recorded the id that the server stamps, the ids are distinct and below 2^31. */
  ghost predicate PlainIds(cfg: Config) {
    && (forall s, m {:trigger Up(s, m)} :: Up(s, m) in cfg.conns ==>
          Lookup(cfg.hello, (m, s)) == Lookup(cfg.stamp, s) < 0x8000_0000)
    && (forall s, t, m, n {:trigger Up(s, m), Up(t, n)} ::
          Up(s, m) in cfg.conns && Up(t, n) in cfg.conns && Lookup(cfg.stamp, s) == Lookup(cfg.stamp, t) ==> s == t)
  }

  /** With plain ids a manager forwards to every server but the origin. */
  lemma ForwardsToOthers(cfg: Config, m: nat, s: nat, t: nat)
    requires PlainIds(cfg) && Up(s, m) in cfg.conns && Up(t, m) in cfg.conns
    ensures Forwards(cfg, m, Lookup(cfg.stamp, s), t) <==> s != t
  {
  }

  /** A manager keeps a frame from the server it came from exactly when the id in the frame has its
    * upper 33 bits alike and its low 32 bits are those of the id that the manager recorded; it
    * echoes the frame in all other cases. */
  lemma EchoExact(cfg: Config, m: nat, s: nat)
    requires Lookup(cfg.hello, (m, s)) < 0x1_0000_0000_0000_0000 && Lookup(cfg.stamp, s) < 0x1_0000_0000_0000_0000
    ensures var hello, stamp := Lookup(cfg.hello, (m, s)), Lookup(cfg.stamp, s);
      && (!Forwards(cfg, m, stamp, s) <==>
           (stamp < 0x8000_0000 || stamp >= 0xFFFF_FFFF_8000_0000) && hello % 0x1_0000_0000 == stamp % 0x1_0000_0000)
      && (hello == stamp ==> (Forwards(cfg, m, stamp, s) <==> 0x8000_0000 <= stamp < 0xFFFF_FFFF_8000_0000))
  {
    NarrowExact(Lookup(cfg.stamp, s));
  }

  /** One server with one user and two managers, connected two seconds apart, the second id stamped. */
  function TwoManagers(): Config {
    Config({FromUser(0), Up(0, 0), Up(0, 1), Down(0, 0), Down(1, 0)}, map[0 := 0],
           map[0 := [FromUser(0), Down(0, 0), Down(1, 0)]], map[0 := [0, 1]], map[0 := [0], 1 := [0]],
           map[0 := 1700000005], map[(0, 0) := 1700000003, (1, 0) := 1700000005], 1024)
  }

  lemma TwoManagersLists(k: nat)
    ensures var cfg := TwoManagers();
      && At(cfg.clients, k) == (if k == 0 then [FromUser(0), Down(0, 0), Down(1, 0)] else [])
      && At(cfg.managers, k) == (if k == 0 then [0, 1] else []) && At(cfg.servers, k) == (if k < 2 then [0] else [])
  {
  }

  /** The configuration is a proper one. */
  lemma TwoManagersSane()
    ensures Sane(TwoManagers())
  {
    var cfg := TwoManagers();
    forall k ensures Distinct(At(cfg.managers, k)) && Distinct(At(cfg.clients, k)) && Distinct(At(cfg.servers, k)) {
      TwoManagersLists(k);
    }
    forall s, c ensures c in At(cfg.clients, s) <==> c in cfg.conns && Owner(cfg, c) == AtServer(s) {
      TwoManagersLists(s);
    }
    forall s, m
      ensures m in At(cfg.managers, s) <==> Up(s, m) in cfg.conns
      ensures s in At(cfg.servers, m) <==> Up(s, m) in cfg.conns
    {
      TwoManagersLists(s);
      TwoManagersLists(m);
    }
    forall s, m ensures Up(s, m) in cfg.conns <==> Down(m, s) in cfg.conns {}
    hide TwoManagers, At, Distinct;
  }

  /** There the first manager echoes every frame, and the sender gets its own messages back. */
  lemma FirstManagerEchoes()
    ensures var cfg := TwoManagers();
      Forwards(cfg, 0, Lookup(cfg.stamp, 0), 0) && !Forwards(cfg, 1, Lookup(cfg.stamp, 0), 0) && Routes(cfg, 0, 0) == 1
  {
    var cfg := TwoManagers();
    var f := Passes(cfg, 0, 0);
    assert f(0) && !f(1);
    assert At(cfg.managers, 0) == [0, 1] && [0, 1][1..] == [1];
    assert Tally(f, [1]) == 0 && Tally(f, [0, 1]) == 1;
  }

  function Shared(cfg: Config, s: nat): nat -> bool {
    (m: nat) => m in At(cfg.managers, s)
  }

  lemma {:induction false} TallySame<T>(f: T -> bool, g: T -> bool, q: seq<T>)
    requires forall x :: x in q ==> f(x) == g(x)
    ensures Tally(f, q) == Tally(g, q)
  {
    if q != [] { TallySame(f, g, q[1..]); }
  }

  /** With plain ids: one copy for each other user of the sender's server, none for the sender, and
    * for a user elsewhere as many as the managers that the two servers share. */
  lemma PlainRoutes(cfg: Config, v: nat, u: nat)
    requires Sane(cfg) && PlainIds(cfg)
    ensures var s0, s := Lookup(cfg.home, v), Lookup(cfg.home, u);
      Routes(cfg, v, u) == if s == s0 then (if u == v then 0 else 1) else Tally(Shared(cfg, s0), At(cfg.managers, s))
  {
    var s0, s := Lookup(cfg.home, v), Lookup(cfg.home, u);
    var ms := At(cfg.managers, s);
    forall m | m in ms ensures Passes(cfg, s0, s)(m) == (s != s0 && Shared(cfg, s0)(m)) {
      assert Up(s, m) in cfg.conns;
      if Up(s0, m) in cfg.conns { ForwardsToOthers(cfg, m, s0, s); }
    }
    if s == s0 {
      forall i | 0 <= i < |ms| ensures !Passes(cfg, s0, s)(ms[i]) { assert ms[i] in ms; }
      TallyNone(Passes(cfg, s0, s), ms);
    } else {
      TallySame(Passes(cfg, s0, s), Shared(cfg, s0), ms);
    }
  }

  /** With plain ids, after any run that leaves nothing in flight: the sender has no copy of a
    * message it sent, each other user of its server has one, and a user elsewhere has as many as
    * managers are shared by the two servers. */
  lemma PlainDelivery(cfg: Config, start: State, run: seq<Event>, u: nat, x: Msg)
    requires Sane(cfg) && PlainIds(cfg) && Initial(cfg, start) && IsRun(cfg, start, run)
    requires Quiescent(cfg, StateAfter(cfg, start, run))
    requires FromUser(u) in cfg.conns && FromUser(x.u) in cfg.conns
    requires x.n < Lookup(StateAfter(cfg, start, run).sent, x.u)
    ensures var st, s0, s := StateAfter(cfg, start, run), Lookup(cfg.home, x.u), Lookup(cfg.home, u);
      Copies(st, u, x) == if u == x.u then 0 else if s == s0 then 1 else Tally(Shared(cfg, s0), At(cfg.managers, s))
  {
    hide Initial, IsRun, Quiescent, Copies, Routes, PlainIds, Sane;
    DeliveredAtQuiescence(cfg, start, run, u, x);
    PlainRoutes(cfg, x.u, u);
  }
}
