/** The invariant of the network and its preservation by every event. */
module NetworkInv {
  import opened EventPump
  import opened Sequences
  import opened Network
  import opened NetworkFlow
  import opened NetworkHops

  /** The first n messages of user u. */
  function Sent(u: nat, n: nat): seq<Msg> {
    seq(n, (i: nat) => Msg(u, i))
  }

  function SrcIs(c: Conn): Entry -> bool { (e: Entry) => e.src == c }

  function EntryMsgs(q: seq<Entry>): seq<Msg> {
    seq(|q|, i requires 0 <= i < |q| => q[i].msg)
  }

  function OriginIs(cfg: Config, s: nat): Msg -> bool { (x: Msg) => Lookup(cfg.home, x.u) == s }

  ghost predicate Sources(cfg: Config, st: State) {
    forall u {:trigger FromUser(u)} ::
      FromUser(u) in cfg.conns ==> At(st.log, FromUser(u)) == Sent(u, Lookup(st.sent, u))
  }

  /** A server's queue takes from connection c exactly what was read from it, in order. */
  predicate IntakeAt(enq: seq<Entry>, eaten: seq<Msg>, c: Conn) {
    EntryMsgs(Filter(SrcIs(c), enq)) == eaten
  }

  ghost predicate Intake(cfg: Config, st: State) {
    forall c {:trigger SrcIs(c)} ::
      c in cfg.conns && !c.Up? ==> IntakeAt(At(st.enq, Owner(cfg, c).s), At(st.eaten, c), c)
  }

  ghost predicate Typed(cfg: Config, st: State) {
    forall s {:trigger At(st.enq, s)} :: TypedAt(cfg, s, At(st.enq, s), At(st.bqueue, s), At(st.casts, s))
  }

  /** Manager m passes on to server t exactly what it read from server s, in order, or nothing. */
  predicate OnwardAt(cfg: Config, m: nat, s: nat, t: nat, log: seq<Msg>, eaten: seq<Msg>) {
    Filter(OriginIs(cfg, s), log) == if Forwards(cfg, m, Lookup(cfg.stamp, s), t) then eaten else []
  }

  ghost predicate Onwards(cfg: Config, st: State) {
    forall m, s, t {:trigger Up(s, m), Down(m, t)} :: Up(s, m) in cfg.conns && Down(m, t) in cfg.conns ==>
      OnwardAt(cfg, m, s, t, At(st.log, Down(m, t)), At(st.eaten, Up(s, m)))
  }

  ghost predicate Uplinked(cfg: Config, st: State) {
    forall s, m, x {:trigger Up(s, m), OwnEntry(x)} :: Up(s, m) in cfg.conns ==>
      UplinkAt(m, x, At(st.log, Up(s, m)), At(st.enq, s), At(st.bqueue, s), At(st.casts, s))
  }

  ghost predicate Delivered(cfg: Config, st: State) {
    forall u, e {:trigger Writes(u, e)} :: FromUser(u) in cfg.conns ==>
      var s := Lookup(cfg.home, u); DeliverAt(u, e, At(st.got, u), At(st.enq, s), At(st.bqueue, s), At(st.casts, s))
  }

  ghost predicate Inv(cfg: Config, st: State) {
    && Sane(cfg) && Exclusive(cfg, st) && Fifo(cfg, st) && Sources(cfg, st) && Intake(cfg, st)
    && Typed(cfg, st) && Onwards(cfg, st) && Uplinked(cfg, st) && Delivered(cfg, st)
  }

  // ---------------------------------------------------------------- connections

  lemma CarriedInPipe(cfg: Config, st: State, p: Proc, i: nat)
    requires ExclusiveAt(cfg, p, PumpOf(st, p)) && HandOf(st, p, i).Carries?
    ensures var h := HandOf(st, p, i); h.conn in cfg.conns && Owner(cfg, h.conn) == p && h.item in Pipe(cfg, st, h.conn)
  {
    HolderCarries(cfg, p, PumpOf(st, p), i);
    assert HandOf(st, p, i).item in Load(HandOf(st, p, i), HandOf(st, p, i).conn);
  }

  /** What a thread carries is stamped as its connection requires. */
  lemma CarriedWellStamped(cfg: Config, st: State, p: Proc, i: nat)
    requires Exclusive(cfg, st) && Fifo(cfg, st) && HandOf(st, p, i).Carries?
    ensures var h := HandOf(st, p, i);
      h.conn in cfg.conns && Owner(cfg, h.conn) == p && WellStamped(cfg, h.conn, h.item)
  {
    CarriedInPipe(cfg, st, p, i);
    assert FifoAt(cfg, st, HandOf(st, p, i).conn);
  }

  lemma ArrivalsByForward(cfg: Config, st: State, m: nat, i: nat, c: Conn)
    requires Sane(cfg) && Exclusive(cfg, st) && Fifo(cfg, st)
    ensures forall pkt :: pkt in Arrives(cfg, st, Forward(m, i), c) ==> WellStamped(cfg, c, pkt)
  {
    if Arrives(cfg, st, Forward(m, i), c) != [] {
      CarriedWellStamped(cfg, st, AtManager(m), i);
    }
  }

  lemma ArrivalsByCast(cfg: Config, st: State, s: nat, b: nat, c: Conn)
    requires Typed(cfg, st) && CanCast(st, s, b)
    ensures forall pkt :: pkt in Arrives(cfg, st, Casting(s, b), c) ==> WellStamped(cfg, c, pkt)
  {
    assert TypedAt(cfg, s, At(st.enq, s), At(st.bqueue, s), At(st.casts, s));
    assert WellCast(cfg, s, At(st.casts, s)[b]);
  }

  lemma Arrivals(cfg: Config, st: State, e: Event, c: Conn)
    requires Inv(cfg, st) && CanStep(cfg, st, e)
    ensures forall pkt :: pkt in Arrives(cfg, st, e, c) ==> c in cfg.conns ==> WellStamped(cfg, c, pkt)
  {
    match e
    case Forward(m, i) => ArrivalsByForward(cfg, st, m, i, c);
    case Casting(s, b) => ArrivalsByCast(cfg, st, s, b, c);
    case _ =>
  }

  lemma FifoKept(cfg: Config, st: State, e: Event)
    requires Inv(cfg, st) && CanStep(cfg, st, e)
    ensures Fifo(cfg, Step(cfg, st, e))
  {
    forall c | c in cfg.conns ensures FifoAt(cfg, Step(cfg, st, e), c) {
      assert FifoAt(cfg, st, c);
      Flow(cfg, st, e, c);
      Arrivals(cfg, st, e, c);
      FifoMoves(cfg, st, Step(cfg, st, e), c, Arrives(cfg, st, e, c), Departs(st, e, c));
    }
  }

  /** Only sending adds to a user's own stream. */
  lemma SourcesKept(cfg: Config, st: State, e: Event)
    requires Inv(cfg, st) && CanStep(cfg, st, e)
    ensures Sources(cfg, Step(cfg, st, e))
  {
    var st' := Step(cfg, st, e);
    forall u | FromUser(u) in cfg.conns ensures At(st'.log, FromUser(u)) == Sent(u, Lookup(st'.sent, u)) {
      Flow(cfg, st, e, FromUser(u));
      SentAfter(cfg, st, e, u);
      assert At(st.log, FromUser(u)) == Sent(u, Lookup(st.sent, u));
    }
  }

  lemma SentAfter(cfg: Config, st: State, e: Event, u: nat)
    requires CanStep(cfg, st, e)
    ensures Sent(u, Lookup(Step(cfg, st, e).sent, u))
      == Sent(u, Lookup(st.sent, u)) + Msgs(Arrives(cfg, st, e, FromUser(u)))
  {
  }

  // ---------------------------------------------------------------- servers

  /** What event e puts on the broadcast queue of server t. */
  function QueuedBy(st: State, e: Event, t: nat): seq<Entry> {
    match e
    case Publish(s, i) =>
      var h := HandOf(st, AtServer(s), i); if s == t && h.Carries? then [EntryOf(h.conn, h.item)] else []
    case _ => []
  }

  /** The broadcaster of server t that event e is a step of, or -1. */
  function CasterAt(e: Event, t: nat): int {
    if e.Casting? && e.s == t then e.b else -1
  }

  /** Server t queued these entries, or its broadcaster b took a step. */
  predicate ServerMoves(cfg: Config, st: State, st': State, t: nat, queued: seq<Entry>, b: int) {
    var casts, bqueue := At(st.casts, t), At(st.bqueue, t);
    && At(st'.enq, t) == At(st.enq, t) + queued
    && if b < 0 then At(st'.bqueue, t) == bqueue + queued && At(st'.casts, t) == casts
       else
         && queued == [] && b < |casts| && (casts[b].Resting? ==> bqueue != [])
         && At(st'.bqueue, t) == QueueAfter(casts[b], bqueue)
         && At(st'.casts, t) == casts[b := NextCast(cfg, t, casts[b], bqueue)]
  }

  /** What the broadcaster's step writes. */
  function ToManager(st: State, t: nat, b: int, m: nat): seq<Msg> {
    if 0 <= b < |At(st.casts, t)| then RelayedTo(At(st.casts, t)[b], m) else []
  }

  function ToUser(st: State, t: nat, b: int, u: nat): seq<Entry> {
    if 0 <= b < |At(st.casts, t)| then WrittenTo(At(st.casts, t)[b], u) else []
  }

  /** Only publishing and broadcasting touch queues, broadcasters and users. */
  lemma ServerQuiet(cfg: Config, st: State, e: Event)
    requires CanStep(cfg, st, e) && !e.Publish? && !e.Casting?
    ensures var st' := Step(cfg, st, e);
      st'.enq == st.enq && st'.bqueue == st.bqueue && st'.casts == st.casts && st'.got == st.got
  {
  }

  lemma ServerPublish(cfg: Config, st: State, s: nat, i: nat, t: nat)
    requires HandOf(st, AtServer(s), i).Carries?
    ensures ServerMoves(cfg, st, DoPublish(st, s, i), t, QueuedBy(st, Publish(s, i), t), -1)
    ensures DoPublish(st, s, i).got == st.got
  {
  }

  lemma ServerCast(cfg: Config, st: State, s: nat, b: nat, t: nat)
    requires CanCast(st, s, b)
    ensures ServerMoves(cfg, st, DoCast(cfg, st, s, b), t, [], CasterAt(Casting(s, b), t))
  {
  }

  lemma ServerStep(cfg: Config, st: State, e: Event, t: nat)
    requires CanStep(cfg, st, e)
    ensures ServerMoves(cfg, st, Step(cfg, st, e), t, QueuedBy(st, e, t), CasterAt(e, t))
  {
    match e
    case Publish(s, i) => ServerPublish(cfg, st, s, i, t);
    case Casting(s, b) => ServerCast(cfg, st, s, b, t);
    case _ =>
      ServerQuiet(cfg, st, e);
      assert At(st.enq, t) + [] == At(st.enq, t) && At(st.bqueue, t) + [] == At(st.bqueue, t);
  }

  lemma UsersAfterCast(cfg: Config, st: State, s: nat, b: nat, u: nat)
    requires CanCast(st, s, b)
    ensures At(DoCast(cfg, st, s, b).got, u) == At(st.got, u) + WrittenTo(CastOf(st, s, b), u)
  {
  }

  lemma NotWrittenElsewhere(cfg: Config, st: State, s: nat, b: nat, u: nat)
    requires Sane(cfg) && Typed(cfg, st) && CanCast(st, s, b) && Lookup(cfg.home, u) != s
    ensures WrittenTo(CastOf(st, s, b), u) == []
  {
    assert TypedAt(cfg, s, At(st.enq, s), At(st.bqueue, s), At(st.casts, s));
    assert WellCast(cfg, s, At(st.casts, s)[b]);
    var cast := CastOf(st, s, b);
    if cast.Writing? && cast.users != [] { assert cast.users[0] in cast.users; }
  }

  lemma UsersWithoutCast(cfg: Config, st: State, e: Event, u: nat)
    requires CanStep(cfg, st, e) && !e.Casting?
    ensures At(Step(cfg, st, e).got, u) == At(st.got, u)
  {
    match e
    case Publish(s, i) => ServerPublish(cfg, st, s, i, 0);
    case _ => ServerQuiet(cfg, st, e);
  }

  lemma UsersAfter(cfg: Config, st: State, e: Event, u: nat)
    requires Inv(cfg, st) && CanStep(cfg, st, e)
    ensures var s := Lookup(cfg.home, u);
      At(Step(cfg, st, e).got, u) == At(st.got, u) + ToUser(st, s, CasterAt(e, s), u)
  {
    hide DoCast, At, WrittenTo, Sane;
    assert At(st.got, u) + [] == At(st.got, u);
    match e
    case Casting(t, b) =>
      UsersAfterCast(cfg, st, t, b, u);
      if t != Lookup(cfg.home, u) { NotWrittenElsewhere(cfg, st, t, b, u); }
    case _ => UsersWithoutCast(cfg, st, e, u);
  }

  lemma QueuedWellTyped(cfg: Config, st: State, e: Event, t: nat)
    requires Exclusive(cfg, st) && Fifo(cfg, st)
    ensures |QueuedBy(st, e, t)| <= 1 && forall f :: f in QueuedBy(st, e, t) ==> WellTyped(cfg, t, f)
  {
    if e.Publish? && QueuedBy(st, e, t) != [] { CarriedWellStamped(cfg, st, AtServer(t), e.i); }
  }

  lemma TypedMoves(cfg: Config, st: State, st': State, t: nat, queued: seq<Entry>, b: int)
    requires Sane(cfg) && TypedAt(cfg, t, At(st.enq, t), At(st.bqueue, t), At(st.casts, t))
    requires ServerMoves(cfg, st, st', t, queued, b) && |queued| <= 1
    requires forall f :: f in queued ==> WellTyped(cfg, t, f)
    ensures TypedAt(cfg, t, At(st'.enq, t), At(st'.bqueue, t), At(st'.casts, t))
  {
    if b >= 0 {
      TypedCast(cfg, t, At(st.enq, t), At(st.bqueue, t), At(st.casts, t), b);
      assert At(st.enq, t) + [] == At(st.enq, t);
    } else if queued != [] {
      assert queued == [queued[0]];
      TypedPublish(cfg, t, At(st.enq, t), At(st.bqueue, t), At(st.casts, t), queued[0]);
    } else {
      assert At(st.enq, t) + [] == At(st.enq, t) && At(st.bqueue, t) + [] == At(st.bqueue, t);
    }
  }

  lemma TypedKeptAt(cfg: Config, st: State, e: Event, t: nat)
    requires Inv(cfg, st) && CanStep(cfg, st, e)
    ensures var st' := Step(cfg, st, e); TypedAt(cfg, t, At(st'.enq, t), At(st'.bqueue, t), At(st'.casts, t))
  {
    assert TypedAt(cfg, t, At(st.enq, t), At(st.bqueue, t), At(st.casts, t));
    ServerStep(cfg, st, e, t);
    QueuedWellTyped(cfg, st, e, t);
    TypedMoves(cfg, st, Step(cfg, st, e), t, QueuedBy(st, e, t), CasterAt(e, t));
  }

  lemma TypedKept(cfg: Config, st: State, e: Event)
    requires Inv(cfg, st) && CanStep(cfg, st, e)
    ensures Typed(cfg, Step(cfg, st, e))
  {
    forall t ensures var st' := Step(cfg, st, e); TypedAt(cfg, t, At(st'.enq, t), At(st'.bqueue, t), At(st'.casts, t)) {
      TypedKeptAt(cfg, st, e, t);
    }
  }

  /** The log of an uplink grows only by what the server's broadcasters write. */
  lemma UplinkLog(cfg: Config, st: State, e: Event, s: nat, m: nat)
    requires Sane(cfg) && Exclusive(cfg, st) && CanStep(cfg, st, e)
    ensures At(Step(cfg, st, e).log, Up(s, m)) == At(st.log, Up(s, m)) + ToManager(st, s, CasterAt(e, s), m)
  {
    Flow(cfg, st, e, Up(s, m));
    UplinkArrivals(cfg, st, e, s, m);
  }

  lemma UplinkArrivals(cfg: Config, st: State, e: Event, s: nat, m: nat)
    requires CanStep(cfg, st, e)
    ensures Msgs(Arrives(cfg, st, e, Up(s, m))) == ToManager(st, s, CasterAt(e, s), m)
  {
  }

  lemma UplinkMoves(cfg: Config, st: State, st': State, s: nat, m: nat, x: Msg, queued: seq<Entry>, b: int)
    requires TypedAt(cfg, s, At(st.enq, s), At(st.bqueue, s), At(st.casts, s)) && m in At(cfg.managers, s)
    requires UplinkAt(m, x, At(st.log, Up(s, m)), At(st.enq, s), At(st.bqueue, s), At(st.casts, s))
    requires ServerMoves(cfg, st, st', s, queued, b)
    requires At(st'.log, Up(s, m)) == At(st.log, Up(s, m)) + ToManager(st, s, b, m)
    ensures UplinkAt(m, x, At(st'.log, Up(s, m)), At(st'.enq, s), At(st'.bqueue, s), At(st'.casts, s))
  {
    if b >= 0 {
      UplinkCast(cfg, s, m, x, At(st.log, Up(s, m)), At(st.enq, s), At(st.bqueue, s), At(st.casts, s), b);
      assert At(st.enq, s) + [] == At(st.enq, s);
    } else {
      UplinkPublish(m, x, At(st.log, Up(s, m)), At(st.enq, s), At(st.bqueue, s), At(st.casts, s), queued);
    }
  }

  lemma UplinkedKeptAt(cfg: Config, st: State, e: Event, s: nat, m: nat, x: Msg)
    requires Inv(cfg, st) && CanStep(cfg, st, e) && Up(s, m) in cfg.conns
    ensures var st' := Step(cfg, st, e);
      UplinkAt(m, x, At(st'.log, Up(s, m)), At(st'.enq, s), At(st'.bqueue, s), At(st'.casts, s))
  {
    var o := OwnEntry(x);
    assert UplinkAt(m, x, At(st.log, Up(s, m)), At(st.enq, s), At(st.bqueue, s), At(st.casts, s));
    assert TypedAt(cfg, s, At(st.enq, s), At(st.bqueue, s), At(st.casts, s));
    UplinkLog(cfg, st, e, s, m);
    ServerStep(cfg, st, e, s);
    UplinkMoves(cfg, st, Step(cfg, st, e), s, m, x, QueuedBy(st, e, s), CasterAt(e, s));
  }

  lemma DeliverMoves(cfg: Config, st: State, st': State, s: nat, u: nat, f: Entry, queued: seq<Entry>, b: int)
    requires Sane(cfg) && TypedAt(cfg, s, At(st.enq, s), At(st.bqueue, s), At(st.casts, s))
    requires FromUser(u) in At(cfg.clients, s)
    requires DeliverAt(u, f, At(st.got, u), At(st.enq, s), At(st.bqueue, s), At(st.casts, s))
    requires ServerMoves(cfg, st, st', s, queued, b)
    requires At(st'.got, u) == At(st.got, u) + ToUser(st, s, b, u)
    ensures DeliverAt(u, f, At(st'.got, u), At(st'.enq, s), At(st'.bqueue, s), At(st'.casts, s))
  {
    if b >= 0 {
      DeliverCast(cfg, s, u, f, At(st.got, u), At(st.enq, s), At(st.bqueue, s), At(st.casts, s), b);
      assert At(st.enq, s) + [] == At(st.enq, s);
    } else {
      DeliverPublish(u, f, At(st.got, u), At(st.enq, s), At(st.bqueue, s), At(st.casts, s), queued);
    }
  }

  lemma DeliveredKeptAt(cfg: Config, st: State, e: Event, u: nat, f: Entry)
    requires Inv(cfg, st) && CanStep(cfg, st, e) && FromUser(u) in cfg.conns
    ensures var st' := Step(cfg, st, e); var s := Lookup(cfg.home, u);
      DeliverAt(u, f, At(st'.got, u), At(st'.enq, s), At(st'.bqueue, s), At(st'.casts, s))
  {
    var s, w := Lookup(cfg.home, u), Writes(u, f);
    assert DeliverAt(u, f, At(st.got, u), At(st.enq, s), At(st.bqueue, s), At(st.casts, s));
    assert TypedAt(cfg, s, At(st.enq, s), At(st.bqueue, s), At(st.casts, s));
    assert FromUser(u) in At(cfg.clients, s);
    UsersAfter(cfg, st, e, u);
    ServerStep(cfg, st, e, s);
    DeliverMoves(cfg, st, Step(cfg, st, e), s, u, f, QueuedBy(st, e, s), CasterAt(e, s));
  }

  // ---------------------------------------------------------------- intake and forwarding

  lemma EntryMsgsSnoc(q: seq<Entry>, e: Entry)
    ensures EntryMsgs(q + [e]) == EntryMsgs(q) + [e.msg]
  {
  }

  lemma IntakeGrows(enq: seq<Entry>, eaten: seq<Msg>, c: Conn, e: Entry)
    requires IntakeAt(enq, eaten, c)
    ensures IntakeAt(enq + [e], if e.src == c then eaten + [e.msg] else eaten, c)
  {
  }

  /** What leaves a server's connection is what the server queues from it. */
  lemma QueuedIsDeparted(cfg: Config, st: State, e: Event, c: Conn)
    requires Exclusive(cfg, st) && Fifo(cfg, st) && CanStep(cfg, st, e) && !c.Up?
    ensures var q := QueuedBy(st, e, Owner(cfg, c).s);
      Msgs(Departs(st, e, c)) == (if q != [] && q[0].src == c then [q[0].msg] else [])
  {
    match e
    case Publish(t, i) => CarriedWellStamped(cfg, st, AtServer(t), i);
    case Forward(m, i) => CarriedWellStamped(cfg, st, AtManager(m), i);
    case _ =>
  }

  lemma IntakeMoves(enq: seq<Entry>, eaten: seq<Msg>, c: Conn, queued: seq<Entry>, departed: seq<Msg>)
    requires IntakeAt(enq, eaten, c) && |queued| <= 1
    requires departed == if queued != [] && queued[0].src == c then [queued[0].msg] else []
    ensures IntakeAt(enq + queued, eaten + departed, c)
  {
    assert eaten + [] == eaten;
    if queued != [] {
      assert queued == [queued[0]];
      IntakeGrows(enq, eaten, c, queued[0]);
    } else {
      assert enq + queued == enq;
    }
  }

  lemma IntakeKeptAt(cfg: Config, st: State, e: Event, c: Conn)
    requires Inv(cfg, st) && CanStep(cfg, st, e) && c in cfg.conns && !c.Up?
    ensures var st' := Step(cfg, st, e); IntakeAt(At(st'.enq, Owner(cfg, c).s), At(st'.eaten, c), c)
  {
    var s, f := Owner(cfg, c).s, SrcIs(c);
    assert IntakeAt(At(st.enq, s), At(st.eaten, c), c);
    Flow(cfg, st, e, c);
    ServerStep(cfg, st, e, s);
    QueuedIsDeparted(cfg, st, e, c);
    QueuedWellTyped(cfg, st, e, s);
    IntakeMoves(At(st.enq, s), At(st.eaten, c), c, QueuedBy(st, e, s), Msgs(Departs(st, e, c)));
  }

  lemma OnwardGrows(cfg: Config, m: nat, s: nat, t: nat, log: seq<Msg>, eaten: seq<Msg>, x: Msg)
    requires OnwardAt(cfg, m, s, t, log, eaten)
    ensures Lookup(cfg.home, x.u) == s ==> OnwardAt(cfg, m, s, t,
      if Forwards(cfg, m, Lookup(cfg.stamp, s), t) then log + [x] else log, eaten + [x])
    ensures Lookup(cfg.home, x.u) != s ==> OnwardAt(cfg, m, s, t, log + [x], eaten)
  {
  }

  /** What reaches t through m is what m finishes with and decides to forward. */
  lemma ForwardedIsDeparted(cfg: Config, st: State, e: Event, m: nat, s: nat, t: nat)
    requires Sane(cfg) && Exclusive(cfg, st) && Fifo(cfg, st) && CanStep(cfg, st, e)
    requires Up(s, m) in cfg.conns && Down(m, t) in cfg.conns
    ensures var d, a := Msgs(Departs(st, e, Up(s, m))), Msgs(Arrives(cfg, st, e, Down(m, t)));
      && |d| <= 1 && |a| <= 1
      && (d != [] ==> Lookup(cfg.home, d[0].u) == s && a == if Forwards(cfg, m, Lookup(cfg.stamp, s), t) then d else [])
      && (d == [] && a != [] ==> Lookup(cfg.home, a[0].u) != s)
  {
    match e
    case Forward(n, i) => CarriedWellStamped(cfg, st, AtManager(n), i);
    case Publish(r, i) => CarriedWellStamped(cfg, st, AtServer(r), i);
    case _ =>
  }

  lemma OnwardMoves(cfg: Config, m: nat, s: nat, t: nat, log: seq<Msg>, eaten: seq<Msg>, a: seq<Msg>, d: seq<Msg>)
    requires OnwardAt(cfg, m, s, t, log, eaten) && |d| <= 1 && |a| <= 1
    requires d != [] ==> Lookup(cfg.home, d[0].u) == s
    requires d != [] ==> a == if Forwards(cfg, m, Lookup(cfg.stamp, s), t) then d else []
    requires d == [] && a != [] ==> Lookup(cfg.home, a[0].u) != s
    ensures OnwardAt(cfg, m, s, t, log + a, eaten + d)
  {
    assert log + [] == log && eaten + [] == eaten;
    if d != [] {
      assert d == [d[0]];
      OnwardGrows(cfg, m, s, t, log, eaten, d[0]);
    } else if a != [] {
      assert a == [a[0]];
      OnwardGrows(cfg, m, s, t, log, eaten, a[0]);
    }
  }

  lemma OnwardsKeptAt(cfg: Config, st: State, e: Event, m: nat, s: nat, t: nat)
    requires Inv(cfg, st) && CanStep(cfg, st, e) && Up(s, m) in cfg.conns && Down(m, t) in cfg.conns
    ensures var st' := Step(cfg, st, e); OnwardAt(cfg, m, s, t, At(st'.log, Down(m, t)), At(st'.eaten, Up(s, m)))
  {
    assert OnwardAt(cfg, m, s, t, At(st.log, Down(m, t)), At(st.eaten, Up(s, m)));
    ForwardedIsDeparted(cfg, st, e, m, s, t);
    OnwardMoves(cfg, m, s, t, At(st.log, Down(m, t)), At(st.eaten, Up(s, m)),
                Msgs(Arrives(cfg, st, e, Down(m, t))), Msgs(Departs(st, e, Up(s, m))));
    OnwardStays(cfg, st, e, m, s, t);
  }

  lemma OnwardStays(cfg: Config, st: State, e: Event, m: nat, s: nat, t: nat)
    requires Sane(cfg) && Exclusive(cfg, st) && CanStep(cfg, st, e)
    ensures var st' := Step(cfg, st, e);
      && At(st'.log, Down(m, t)) == At(st.log, Down(m, t)) + Msgs(Arrives(cfg, st, e, Down(m, t)))
      && At(st'.eaten, Up(s, m)) == At(st.eaten, Up(s, m)) + Msgs(Departs(st, e, Up(s, m)))
  {
    Flow(cfg, st, e, Down(m, t));
    Flow(cfg, st, e, Up(s, m));
  }

  // ---------------------------------------------------------------- the invariant

  /** Every event keeps the invariant. */
  lemma InvKept(cfg: Config, st: State, e: Event)
    requires Inv(cfg, st) && CanStep(cfg, st, e)
    ensures Inv(cfg, Step(cfg, st, e))
  {
    var st' := Step(cfg, st, e);
    ExclusiveKept(cfg, st, e);
    FifoKept(cfg, st, e);
    SourcesKept(cfg, st, e);
    TypedKept(cfg, st, e);
    forall c | c in cfg.conns && !c.Up? ensures IntakeAt(At(st'.enq, Owner(cfg, c).s), At(st'.eaten, c), c) {
      IntakeKeptAt(cfg, st, e, c);
    }
    forall m, s, t | Up(s, m) in cfg.conns && Down(m, t) in cfg.conns
      ensures OnwardAt(cfg, m, s, t, At(st'.log, Down(m, t)), At(st'.eaten, Up(s, m)))
    {
      OnwardsKeptAt(cfg, st, e, m, s, t);
    }
    forall s, m, x | Up(s, m) in cfg.conns
      ensures UplinkAt(m, x, At(st'.log, Up(s, m)), At(st'.enq, s), At(st'.bqueue, s), At(st'.casts, s))
    {
      UplinkedKeptAt(cfg, st, e, s, m, x);
    }
    forall u, f | FromUser(u) in cfg.conns
      ensures var s := Lookup(cfg.home, u);
        DeliverAt(u, f, At(st'.got, u), At(st'.enq, s), At(st'.bqueue, s), At(st'.casts, s))
    {
      DeliveredKeptAt(cfg, st, e, u, f);
    }
  }
}
