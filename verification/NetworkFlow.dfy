/** What every step of the network keeps: one holder per connection, first-in first-out
  * connections, and exact counts at each hop a message makes.
  */
module NetworkFlow {
  import opened EventPump
  import opened Sequences
  import opened Network

  // ---------------------------------------------------------------- connections

  function Msgs(q: seq<Packet>): seq<Msg> {
    seq(|q|, i requires 0 <= i < |q| => q[i].msg)
  }

  /** What a thread has cut from connection `c` and not yet passed on. */
  function Load(h: Hand<Conn, Packet>, c: Conn): seq<Packet> {
    if h.Carries? && h.conn == c then [h.item] else []
  }

  function Carried(hands: Hands, c: Conn): seq<Packet> {
    if hands == [] then [] else Load(hands[0], c) + Carried(hands[1..], c)
  }

  /** Everything sent on `c` and not fully dealt with: in a thread's hand, in the ring, in the socket. */
  function Pipe(cfg: Config, st: State, c: Conn): seq<Packet> {
    Carried(PumpOf(st, Owner(cfg, c)).hands, c) + At(st.ring, c) + At(st.inbox, c)
  }

  lemma {:induction false} CarriedByOthers(hands: Hands, i: nat, h: Hand<Conn, Packet>, c: Conn)
    requires i < |hands| && Load(hands[i], c) == Load(h, c)
    ensures Carried(hands[i := h], c) == Carried(hands, c)
  {
    if i == 0 {
      assert hands[i := h][1..] == hands[1..];
    } else {
      assert hands[i := h][1..] == hands[1..][i - 1 := h];
      CarriedByOthers(hands[1..], i - 1, h, c);
    }
  }

  lemma {:induction false} CarriedByNone(hands: Hands, c: Conn)
    requires InHands(hands, c) == 0
    ensures Carried(hands, c) == []
  {
    if hands != [] { CarriedByNone(hands[1..], c); }
  }

  lemma {:induction false} CarriedByOne(hands: Hands, i: nat, c: Conn)
    requires i < |hands| && Holds(hands[i], c) && InHands(hands, c) == 1
    ensures Carried(hands, c) == Load(hands[i], c)
  {
    if i == 0 {
      CarriedByNone(hands[1..], c);
    } else {
      InHandsAt(hands[1..], i - 1, c);
      CarriedByOne(hands[1..], i - 1, c);
    }
  }

  // ---------------------------------------------------------------- ownership

  /** Process p's connections have exactly one holder each, and p holds no others. */
  ghost predicate ExclusiveAt(cfg: Config, p: Proc, pump: Pump<Conn, Packet>) {
    && Owned(pump) && pump.entering == {} && pump.stranded == {}
    && (forall c {:trigger c in pump.open} :: c in pump.open <==> c in cfg.conns && Owner(cfg, c) == p)
  }

  ghost predicate Exclusive(cfg: Config, st: State) {
    forall p {:trigger PumpOf(st, p)} :: ExclusiveAt(cfg, p, PumpOf(st, p))
  }

  lemma ExclusiveAct(cfg: Config, p: Proc, pump: Pump<Conn, Packet>, a: Act<Conn, Packet>)
    requires ExclusiveAt(cfg, p, pump) && EventPump.Enabled(pump, cfg.capacity, a)
    requires a.Report? || a.Detach? || a.Enqueue? || a.Take? || a.Fill? || a.Pop? || a.Push? || a.Rearm?
    ensures ExclusiveAt(cfg, p, EventPump.Apply(pump, cfg.capacity, a))
  {
    OwnershipStep(pump, cfg.capacity, a);
  }

  /** What a thread's step does to the pump is what the pump's own action does. */
  lemma ReadIsFill(cfg: Config, st: State, p: Proc, i: nat, k: nat)
    requires HandOf(st, p, i).Took? && k <= |At(st.inbox, HandOf(st, p, i).conn)|
    ensures CanPump(cfg, st, p, Act.Fill(i)) && DoRead(st, p, i, k).pump == DoPump(cfg, st, p, Act.Fill(i)).pump
  {
  }

  lemma CutIsPop(cfg: Config, st: State, p: Proc, i: nat)
    requires HandOf(st, p, i).Filled? && At(st.ring, HandOf(st, p, i).conn) != []
    ensures var a := Act.Pop(i, At(st.ring, HandOf(st, p, i).conn)[0]);
      CanPump(cfg, st, p, a) && DoCut(st, p, i).pump == DoPump(cfg, st, p, a).pump
  {
  }

  lemma ConsumedIsPush(cfg: Config, st: State, p: Proc, i: nat)
    requires HandOf(st, p, i).Carries?
    ensures CanPump(cfg, st, p, Act.Push(i)) && Consumed(st, p, i).pump == DoPump(cfg, st, p, Act.Push(i)).pump
  {
  }

  lemma ExclusiveMove(cfg: Config, st: State, p: Proc, a: Act<Conn, Packet>, st': State)
    requires Exclusive(cfg, st) && CanPump(cfg, st, p, a) && st'.pump == DoPump(cfg, st, p, a).pump
    requires a.Report? || a.Detach? || a.Enqueue? || a.Take? || a.Fill? || a.Pop? || a.Push? || a.Rearm?
    ensures Exclusive(cfg, st')
  {
    ExclusiveAct(cfg, p, PumpOf(st, p), a);
    forall q ensures ExclusiveAt(cfg, q, PumpOf(st', q)) {
      assert ExclusiveAt(cfg, q, PumpOf(st, q));
    }
  }

  lemma ExclusiveCast(cfg: Config, st: State, st': State)
    requires Exclusive(cfg, st) && st'.pump == st.pump
    ensures Exclusive(cfg, st')
  {
    forall q ensures ExclusiveAt(cfg, q, PumpOf(st', q)) {
      assert ExclusiveAt(cfg, q, PumpOf(st, q));
    }
  }

  lemma ExclusiveRead(cfg: Config, st: State, p: Proc, i: nat, k: nat)
    requires Exclusive(cfg, st) && HandOf(st, p, i).Took? && k <= |At(st.inbox, HandOf(st, p, i).conn)|
    ensures Exclusive(cfg, DoRead(st, p, i, k))
  {
    ReadIsFill(cfg, st, p, i, k);
    ExclusiveMove(cfg, st, p, Act.Fill(i), DoRead(st, p, i, k));
  }

  lemma ExclusiveCut(cfg: Config, st: State, p: Proc, i: nat)
    requires Exclusive(cfg, st) && HandOf(st, p, i).Filled? && At(st.ring, HandOf(st, p, i).conn) != []
    ensures Exclusive(cfg, DoCut(st, p, i))
  {
    CutIsPop(cfg, st, p, i);
    ExclusiveMove(cfg, st, p, Act.Pop(i, At(st.ring, HandOf(st, p, i).conn)[0]), DoCut(st, p, i));
  }

  lemma ExclusiveConsumed(cfg: Config, st: State, p: Proc, i: nat, st': State)
    requires Exclusive(cfg, st) && HandOf(st, p, i).Carries? && st'.pump == Consumed(st, p, i).pump
    ensures Exclusive(cfg, st')
  {
    ConsumedIsPush(cfg, st, p, i);
    ExclusiveMove(cfg, st, p, Act.Push(i), st');
  }

  lemma ExclusiveKept(cfg: Config, st: State, e: Event)
    requires Exclusive(cfg, st) && CanStep(cfg, st, e)
    ensures Exclusive(cfg, Step(cfg, st, e))
  {
    match e
    case Send(u) => ExclusiveCast(cfg, st, DoSend(st, u));
    case Pumping(p, a) => ExclusiveMove(cfg, st, p, a, DoPump(cfg, st, p, a));
    case Read(p, i, k) => ExclusiveRead(cfg, st, p, i, k);
    case Cut(p, i) => ExclusiveCut(cfg, st, p, i);
    case Publish(s, i) => ExclusiveConsumed(cfg, st, AtServer(s), i, DoPublish(st, s, i));
    case Forward(m, i) => ExclusiveConsumed(cfg, st, AtManager(m), i, DoForward(cfg, st, m, i));
    case Casting(s, b) => ExclusiveCast(cfg, st, DoCast(cfg, st, s, b));
  }

  // ---------------------------------------------------------------- connections keep order

  predicate WellStamped(cfg: Config, c: Conn, pkt: Packet) {
    match c
    case FromUser(u) => pkt.Text? && pkt.msg.u == u
    case Up(s, m) =>
      && pkt.Frame? && FromUser(pkt.msg.u) in cfg.conns
      && Lookup(cfg.home, pkt.msg.u) == s && pkt.id == Lookup(cfg.stamp, s)
    case Down(m, s) => pkt.Frame? && FromUser(pkt.msg.u) in cfg.conns && Up(Lookup(cfg.home, pkt.msg.u), m) in cfg.conns
  }

  /** Connection c delivers what was sent on it, in order, once, and carries what belongs on it. */
  ghost predicate FifoAt(cfg: Config, st: State, c: Conn) {
    && At(st.log, c) == At(st.eaten, c) + Msgs(Pipe(cfg, st, c))
    && (forall pkt {:trigger pkt in Pipe(cfg, st, c)} :: pkt in Pipe(cfg, st, c) ==> WellStamped(cfg, c, pkt))
  }

  ghost predicate Fifo(cfg: Config, st: State) {
    forall c {:trigger FifoAt(cfg, st, c)} :: c in cfg.conns ==> FifoAt(cfg, st, c)
  }

  predicate Same(cfg: Config, st: State, st': State, c: Conn) {
    && Pipe(cfg, st', c) == Pipe(cfg, st, c) && At(st'.log, c) == At(st.log, c) && At(st'.eaten, c) == At(st.eaten, c)
  }

  /** A packet was appended to the pipe of c. */
  predicate Gains(cfg: Config, st: State, st': State, c: Conn, pkt: Packet) {
    && Pipe(cfg, st', c) == Pipe(cfg, st, c) + [pkt]
    && At(st'.log, c) == At(st.log, c) + [pkt.msg] && At(st'.eaten, c) == At(st.eaten, c)
  }

  /** The first packet of the pipe of c was dealt with. */
  predicate Loses(cfg: Config, st: State, st': State, c: Conn, pkt: Packet) {
    && Pipe(cfg, st, c) == [pkt] + Pipe(cfg, st', c)
    && At(st'.log, c) == At(st.log, c) && At(st'.eaten, c) == At(st.eaten, c) + [pkt.msg]
  }

  /** Thread i of process p holds a connection of p, and p carries for it only what thread i carries. */
  lemma HolderCarries(cfg: Config, p: Proc, pump: Pump<Conn, Packet>, i: nat)
    requires ExclusiveAt(cfg, p, pump) && i < |pump.hands| && !pump.hands[i].Idle?
    ensures var c := pump.hands[i].conn;
      && c in cfg.conns && Owner(cfg, c) == p
      && InHands(pump.hands, c) == 1 && Carried(pump.hands, c) == Load(pump.hands[i], c)
  {
    var c := pump.hands[i].conn;
    InHandsAt(pump.hands, i, c);
    assert Holders(pump, c) >= 1;
    assert c in pump.open;
    CarriedByOne(pump.hands, i, c);
  }

  lemma HandsAfter(st: State, p: Proc, i: nat, h: Hand<Conn, Packet>, q: Proc)
    requires i < |PumpOf(st, p).hands|
    ensures PumpOf(SetHand(st, p, i, h), q).hands
      == (if p == q then PumpOf(st, p).hands[i := h] else PumpOf(st, q).hands)
  {
  }

  lemma CarriedByMover(cfg: Config, p: Proc, pump: Pump<Conn, Packet>, i: nat, h: Hand<Conn, Packet>)
    requires ExclusiveAt(cfg, p, pump) && i < |pump.hands| && !pump.hands[i].Idle?
    requires !h.Idle? && h.conn == pump.hands[i].conn
    ensures Carried(pump.hands[i := h], h.conn) == Load(h, h.conn)
  {
    HolderCarries(cfg, p, pump, i);
    InHandsUpdate(pump.hands, i, h, h.conn);
    CarriedByOne(pump.hands[i := h], i, h.conn);
  }

  /** After thread i moves on with its connection, what each connection has in the threads. */
  lemma HolderMoves(cfg: Config, st: State, p: Proc, i: nat, h: Hand<Conn, Packet>, c: Conn)
    requires ExclusiveAt(cfg, p, PumpOf(st, p)) && !HandOf(st, p, i).Idle?
    requires !h.Idle? && h.conn == HandOf(st, p, i).conn
    ensures h.conn in cfg.conns && Owner(cfg, h.conn) == p
    ensures Carried(PumpOf(SetHand(st, p, i, h), Owner(cfg, c)).hands, c)
      == (if c == h.conn then Load(h, c) else Carried(PumpOf(st, Owner(cfg, c)).hands, c))
    ensures Carried(PumpOf(st, p).hands, h.conn) == Load(HandOf(st, p, i), h.conn)
  {
    HolderCarries(cfg, p, PumpOf(st, p), i);
    HandsAfter(st, p, i, h, Owner(cfg, c));
    if c == h.conn {
      CarriedByMover(cfg, p, PumpOf(st, p), i, h);
    } else {
      CarriedByOthers(PumpOf(st, p).hands, i, h, c);
    }
  }

  /** Pipes agree when the parts on both sides of a boundary agree together. */
  lemma PipeAcross(cfg: Config, st: State, st': State, c: Conn)
    requires var p := Owner(cfg, c);
      var before, after := Carried(PumpOf(st, p).hands, c), Carried(PumpOf(st', p).hands, c);
      || (after == before && At(st'.ring, c) + At(st'.inbox, c) == At(st.ring, c) + At(st.inbox, c))
      || (after + At(st'.ring, c) == before + At(st.ring, c) && At(st'.inbox, c) == At(st.inbox, c))
    ensures Pipe(cfg, st', c) == Pipe(cfg, st, c)
  {
    Regroup(Carried(PumpOf(st, Owner(cfg, c)).hands, c), At(st.ring, c), At(st.inbox, c));
    Regroup(Carried(PumpOf(st', Owner(cfg, c)).hands, c), At(st'.ring, c), At(st'.inbox, c));
  }

  lemma FlowDeliver(cfg: Config, st: State, c: Conn, pkt: Packet, d: Conn)
    ensures if d == c then Gains(cfg, st, Deliver(st, c, pkt), d, pkt) else Same(cfg, st, Deliver(st, c, pkt), d)
  {
    Regroup(Carried(PumpOf(st, Owner(cfg, d)).hands, d) + At(st.ring, d), At(st.inbox, d), [pkt]);
  }

  lemma ReadParts(st: State, p: Proc, i: nat, k: nat, c: Conn)
    requires HandOf(st, p, i).Took? && k <= |At(st.inbox, HandOf(st, p, i).conn)|
    ensures var d := HandOf(st, p, i).conn; var st' := DoRead(st, p, i, k);
      && st'.pump == SetHand(st, p, i, Filled(d)).pump && st'.log == st.log && st'.eaten == st.eaten
      && At(st'.ring, c) + At(st'.inbox, c) == At(st.ring, c) + At(st.inbox, c)
  {
  }

  lemma FlowRead(cfg: Config, st: State, p: Proc, i: nat, k: nat, c: Conn)
    requires ExclusiveAt(cfg, p, PumpOf(st, p))
    requires HandOf(st, p, i).Took? && k <= |At(st.inbox, HandOf(st, p, i).conn)|
    ensures Same(cfg, st, DoRead(st, p, i, k), c)
  {
    HolderMoves(cfg, st, p, i, Filled(HandOf(st, p, i).conn), c);
    ReadParts(st, p, i, k, c);
    PipeAcross(cfg, st, DoRead(st, p, i, k), c);
  }

  lemma CutParts(st: State, p: Proc, i: nat, c: Conn)
    requires HandOf(st, p, i).Filled? && At(st.ring, HandOf(st, p, i).conn) != []
    ensures var d := HandOf(st, p, i).conn; var st' := DoCut(st, p, i); var h := Carries(d, At(st.ring, d)[0]);
      && st'.pump == SetHand(st, p, i, h).pump && st'.inbox == st.inbox && st'.log == st.log && st'.eaten == st.eaten
      && (c != d ==> At(st'.ring, c) == At(st.ring, c)) && Load(h, d) + At(st'.ring, d) == [] + At(st.ring, d)
  {
  }

  lemma FlowCut(cfg: Config, st: State, p: Proc, i: nat, c: Conn)
    requires ExclusiveAt(cfg, p, PumpOf(st, p))
    requires HandOf(st, p, i).Filled? && At(st.ring, HandOf(st, p, i).conn) != []
    ensures Same(cfg, st, DoCut(st, p, i), c)
  {
    var d := HandOf(st, p, i).conn;
    HolderMoves(cfg, st, p, i, Carries(d, At(st.ring, d)[0]), c);
    CutParts(st, p, i, c);
    PipeAcross(cfg, st, DoCut(st, p, i), c);
  }

  lemma FlowPump(cfg: Config, st: State, p: Proc, a: Act<Conn, Packet>, c: Conn)
    requires CanPump(cfg, st, p, a) && (a.Report? || a.Detach? || a.Enqueue? || a.Take? || a.Rearm?)
    ensures Same(cfg, st, DoPump(cfg, st, p, a), c)
  {
    var pump := PumpOf(st, p);
    match a
    case Take(i) => CarriedByOthers(pump.hands, i, Took(pump.ready[0]), c);
    case Rearm(i) => CarriedByOthers(pump.hands, i, Idle, c);
    case _ =>
  }

  /** Emptying the hand that carries c takes the first packet out of the pipe of c. */
  lemma PipeEmptied(cfg: Config, st: State, st': State, c: Conn, pkt: Packet)
    requires Carried(PumpOf(st, Owner(cfg, c)).hands, c) == [pkt] && Carried(PumpOf(st', Owner(cfg, c)).hands, c) == []
    requires At(st'.ring, c) == At(st.ring, c) && At(st'.inbox, c) == At(st.inbox, c)
    ensures Pipe(cfg, st, c) == [pkt] + Pipe(cfg, st', c)
  {
  }

  lemma ConsumedParts(st: State, p: Proc, i: nat, c: Conn)
    requires HandOf(st, p, i).Carries?
    ensures var h := HandOf(st, p, i); var st' := Consumed(st, p, i);
      && st'.pump == SetHand(st, p, i, Filled(h.conn)).pump
      && st'.inbox == st.inbox && st'.ring == st.ring && st'.log == st.log
      && At(st'.eaten, c) == (if c == h.conn then At(st.eaten, c) + [h.item.msg] else At(st.eaten, c))
  {
  }

  lemma FlowConsumed(cfg: Config, st: State, p: Proc, i: nat, c: Conn)
    requires ExclusiveAt(cfg, p, PumpOf(st, p)) && HandOf(st, p, i).Carries?
    ensures var h := HandOf(st, p, i); var st' := Consumed(st, p, i);
      && h.conn in cfg.conns && Owner(cfg, h.conn) == p
      && if c == h.conn then Loses(cfg, st, st', c, h.item) else Same(cfg, st, st', c)
  {
    var h := HandOf(st, p, i);
    HolderMoves(cfg, st, p, i, Filled(h.conn), c);
    ConsumedParts(st, p, i, c);
    if c == h.conn {
      PipeEmptied(cfg, st, Consumed(st, p, i), c, h.item);
    } else {
      PipeAcross(cfg, st, Consumed(st, p, i), c);
    }
  }

  lemma FlowPublish(cfg: Config, st: State, s: nat, i: nat, c: Conn)
    requires ExclusiveAt(cfg, AtServer(s), PumpOf(st, AtServer(s))) && HandOf(st, AtServer(s), i).Carries?
    ensures var h := HandOf(st, AtServer(s), i); var st' := DoPublish(st, s, i);
      && h.conn in cfg.conns && Owner(cfg, h.conn) == AtServer(s)
      && if c == h.conn then Loses(cfg, st, st', c, h.item) else Same(cfg, st, st', c)
  {
    FlowConsumed(cfg, st, AtServer(s), i, c);
    PipeAcross(cfg, Consumed(st, AtServer(s), i), DoPublish(st, s, i), c);
  }

  /** Writing to several connections adds to the pipes of exactly those. */
  lemma FlowSendAll(cfg: Config, st: State, targets: seq<Conn>, pkt: Packet, c: Conn)
    requires Distinct(targets)
    ensures var st' := DeliverAll(st, targets, pkt);
      if c in targets then Gains(cfg, st, st', c, pkt) else Same(cfg, st, st', c)
  {
    SendAllExact(st.inbox, targets, pkt, c);
    SendAllExact(st.log, targets, pkt.msg, c);
    Regroup(Carried(PumpOf(st, Owner(cfg, c)).hands, c) + At(st.ring, c), At(st.inbox, c), [pkt]);
  }

  predicate GoesTo(cfg: Config, m: nat, pkt: Packet, c: Conn) {
    pkt.Frame? && c in cfg.conns && c.Down? && c.m == m && Forwards(cfg, m, pkt.id, c.s)
  }

  lemma OnwardExact(cfg: Config, m: nat, pkt: Packet, c: Conn)
    requires Sane(cfg) && pkt.Frame?
    ensures var targets := ForwardTargets(cfg, m, pkt.id, At(cfg.servers, m));
      Distinct(targets) && (c in targets <==> GoesTo(cfg, m, pkt, c))
  {
    ForwardTargetsExact(cfg, m, pkt.id, At(cfg.servers, m));
    if c.Down? { assert c == Down(c.m, c.s); assert Up(c.s, c.m) in cfg.conns <==> c in cfg.conns; }
  }

  lemma FlowForward(cfg: Config, st: State, m: nat, i: nat, c: Conn)
    requires Sane(cfg) && ExclusiveAt(cfg, AtManager(m), PumpOf(st, AtManager(m)))
    requires HandOf(st, AtManager(m), i).Carries? && HandOf(st, AtManager(m), i).item.Frame?
    ensures var h := HandOf(st, AtManager(m), i); var st' := DoForward(cfg, st, m, i);
      && h.conn in cfg.conns && h.conn.Up? && h.conn.m == m
      && if c == h.conn then Loses(cfg, st, st', c, h.item)
         else if GoesTo(cfg, m, h.item, c) then Gains(cfg, st, st', c, h.item)
         else Same(cfg, st, st', c)
  {
    var h := HandOf(st, AtManager(m), i);
    var mid := Consumed(st, AtManager(m), i);
    FlowConsumed(cfg, st, AtManager(m), i, c);
    OnwardExact(cfg, m, h.item, c);
    FlowSendAll(cfg, mid, ForwardTargets(cfg, m, h.item.id, At(cfg.servers, m)), h.item, c);
  }

  // ---------------------------------------------------------------- what a step sends and finishes

  /** The packet that event e appends to connection c, if any. */
  function Arrives(cfg: Config, st: State, e: Event, c: Conn): seq<Packet> {
    match e
    case Send(u) => if c == FromUser(u) then [Text(Msg(u, Lookup(st.sent, u)))] else []
    case Casting(s, b) =>
      var cast := CastOf(st, s, b);
      if cast.Relaying? && cast.managers != [] && c == Up(s, cast.managers[0])
      then [Frame(cast.entry.msg, Lookup(cfg.stamp, s))] else []
    case Forward(m, i) =>
      var h := HandOf(st, AtManager(m), i);
      if h.Carries? && GoesTo(cfg, m, h.item, c) then [h.item] else []
    case _ => []
  }

  /** The packet of connection c that event e finishes with, if any. */
  function Departs(st: State, e: Event, c: Conn): seq<Packet> {
    match e
    case Publish(s, i) => Load(HandOf(st, AtServer(s), i), c)
    case Forward(m, i) => Load(HandOf(st, AtManager(m), i), c)
    case _ => []
  }

  predicate Moved(cfg: Config, st: State, st': State, c: Conn, arrives: seq<Packet>, departs: seq<Packet>) {
    && Pipe(cfg, st, c) + arrives == departs + Pipe(cfg, st', c)
    && At(st'.log, c) == At(st.log, c) + Msgs(arrives)
    && At(st'.eaten, c) == At(st.eaten, c) + Msgs(departs)
  }

  lemma MovedFrom(cfg: Config, st: State, st': State, c: Conn, pkt: Packet)
    ensures Same(cfg, st, st', c) ==> Moved(cfg, st, st', c, [], [])
    ensures Gains(cfg, st, st', c, pkt) ==> Moved(cfg, st, st', c, [pkt], [])
    ensures Loses(cfg, st, st', c, pkt) ==> Moved(cfg, st, st', c, [], [pkt])
  {
    assert Pipe(cfg, st, c) + [] == Pipe(cfg, st, c) && [] + Pipe(cfg, st', c) == Pipe(cfg, st', c);
    assert At(st.log, c) + Msgs([]) == At(st.log, c) && At(st.eaten, c) + Msgs([]) == At(st.eaten, c);
    assert Msgs([pkt]) == [pkt.msg];
  }

  lemma MovedPublish(cfg: Config, st: State, s: nat, i: nat, c: Conn)
    requires Exclusive(cfg, st) && HandOf(st, AtServer(s), i).Carries?
    ensures Moved(cfg, st, DoPublish(st, s, i), c, [], Load(HandOf(st, AtServer(s), i), c))
  {
    FlowPublish(cfg, st, s, i, c);
    MovedFrom(cfg, st, DoPublish(st, s, i), c, HandOf(st, AtServer(s), i).item);
  }

  lemma MovedForward(cfg: Config, st: State, m: nat, i: nat, c: Conn)
    requires Sane(cfg) && Exclusive(cfg, st) && HandOf(st, AtManager(m), i).Carries?
    requires HandOf(st, AtManager(m), i).item.Frame?
    ensures Moved(cfg, st, DoForward(cfg, st, m, i), c,
                  Arrives(cfg, st, Forward(m, i), c), Departs(st, Forward(m, i), c))
  {
    FlowForward(cfg, st, m, i, c);
    MovedFrom(cfg, st, DoForward(cfg, st, m, i), c, HandOf(st, AtManager(m), i).item);
  }

  lemma MovedSend(cfg: Config, st: State, u: nat, c: Conn)
    ensures Moved(cfg, st, DoSend(st, u), c, Arrives(cfg, st, Send(u), c), [])
  {
    FlowSend(cfg, st, u, c);
    MovedFrom(cfg, st, DoSend(st, u), c, Text(Msg(u, Lookup(st.sent, u))));
  }

  lemma MovedRelay(cfg: Config, st: State, s: nat, b: nat, c: Conn)
    requires CanCast(st, s, b) && CastOf(st, s, b).Relaying? && CastOf(st, s, b).managers != []
    ensures Moved(cfg, st, DoCast(cfg, st, s, b), c, Arrives(cfg, st, Casting(s, b), c), [])
  {
    var cast := CastOf(st, s, b);
    FlowRelay(cfg, st, s, b, c);
    MovedFrom(cfg, st, DoCast(cfg, st, s, b), c, Frame(cast.entry.msg, Lookup(cfg.stamp, s)));
  }

  lemma MovedCast(cfg: Config, st: State, s: nat, b: nat, c: Conn)
    requires CanCast(st, s, b)
    ensures Moved(cfg, st, DoCast(cfg, st, s, b), c, Arrives(cfg, st, Casting(s, b), c), [])
  {
    var cast := CastOf(st, s, b);
    if cast.Relaying? && cast.managers != [] {
      MovedRelay(cfg, st, s, b, c);
    } else {
      var st' := DoCast(cfg, st, s, b);
      FlowCast(cfg, st, st', c);
      MovedFrom(cfg, st, st', c, Text(Msg(0, 0)));
    }
  }

  /** Every event moves packets through the pipe of every connection, first in first out. */
  lemma Flow(cfg: Config, st: State, e: Event, c: Conn)
    requires Sane(cfg) && Exclusive(cfg, st) && CanStep(cfg, st, e)
    ensures Moved(cfg, st, Step(cfg, st, e), c, Arrives(cfg, st, e, c), Departs(st, e, c))
  {
    match e
    case Send(u) => MovedSend(cfg, st, u, c);
    case Pumping(p, a) => FlowPump(cfg, st, p, a, c); MovedFrom(cfg, st, DoPump(cfg, st, p, a), c, Text(Msg(0, 0)));
    case Read(p, i, k) => FlowRead(cfg, st, p, i, k, c); MovedFrom(cfg, st, DoRead(st, p, i, k), c, Text(Msg(0, 0)));
    case Cut(p, i) => FlowCut(cfg, st, p, i, c); MovedFrom(cfg, st, DoCut(st, p, i), c, Text(Msg(0, 0)));
    case Publish(s, i) => MovedPublish(cfg, st, s, i, c);
    case Forward(m, i) => MovedForward(cfg, st, m, i, c);
    case Casting(s, b) => MovedCast(cfg, st, s, b, c);
  }

  lemma FlowSend(cfg: Config, st: State, u: nat, c: Conn)
    ensures if c == FromUser(u) then Gains(cfg, st, DoSend(st, u), c, Text(Msg(u, Lookup(st.sent, u))))
            else Same(cfg, st, DoSend(st, u), c)
  {
    var n := Lookup(st.sent, u);
    var mid := st.(sent := st.sent[u := n + 1]);
    FlowCast(cfg, st, mid, c);
    FlowDeliver(cfg, mid, FromUser(u), Text(Msg(u, n)), c);
    assert DoSend(st, u) == Deliver(mid, FromUser(u), Text(Msg(u, n)));
  }

  lemma FlowRelay(cfg: Config, st: State, s: nat, b: nat, c: Conn)
    requires CanCast(st, s, b) && CastOf(st, s, b).Relaying? && CastOf(st, s, b).managers != []
    ensures var cast := CastOf(st, s, b); var st' := DoCast(cfg, st, s, b);
      if c == Up(s, cast.managers[0]) then Gains(cfg, st, st', c, Frame(cast.entry.msg, Lookup(cfg.stamp, s)))
      else Same(cfg, st, st', c)
  {
    var cast := CastOf(st, s, b);
    var mid := WireAfter(cfg, st, s, cast);
    FlowDeliver(cfg, st, Up(s, cast.managers[0]), Frame(cast.entry.msg, Lookup(cfg.stamp, s)), c);
    FlowCast(cfg, mid, DoCast(cfg, st, s, b), c);
  }

  lemma FlowCast(cfg: Config, st: State, st': State, c: Conn)
    requires st'.pump == st.pump && st'.inbox == st.inbox && st'.ring == st.ring
    requires st'.log == st.log && st'.eaten == st.eaten
    ensures Same(cfg, st, st', c)
  {
  }

  lemma MsgsConcat(a: seq<Packet>, b: seq<Packet>)
    ensures Msgs(a + b) == Msgs(a) + Msgs(b)
  {
  }

  lemma FifoMoves(cfg: Config, st: State, st': State, c: Conn, arrives: seq<Packet>, departs: seq<Packet>)
    requires FifoAt(cfg, st, c) && Moved(cfg, st, st', c, arrives, departs)
    requires forall pkt :: pkt in arrives ==> WellStamped(cfg, c, pkt)
    ensures FifoAt(cfg, st', c)
  {
    var before, after := Pipe(cfg, st, c), Pipe(cfg, st', c);
    calc {
      At(st'.log, c);
      (At(st.eaten, c) + Msgs(before)) + Msgs(arrives);
      {
        Regroup(At(st.eaten, c), Msgs(before), Msgs(arrives));
        MsgsConcat(before, arrives);
        MsgsConcat(departs, after);
      }
      At(st.eaten, c) + (Msgs(departs) + Msgs(after));
      { Regroup(At(st.eaten, c), Msgs(departs), Msgs(after)); }
      At(st'.eaten, c) + Msgs(after);
    }
    forall pkt | pkt in after ensures WellStamped(cfg, c, pkt) {
      assert pkt in departs + after;
      assert pkt in before || pkt in arrives;
    }
  }
}
