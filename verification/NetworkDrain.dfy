/** Everything in flight is delivered in a bounded number of steps: a weight of the whole network
  * that every step but a user's sending lowers.
  */
module NetworkDrain {
  import opened EventPump
  import opened Sequences
  import opened Network
  import opened NetworkFlow
  import opened NetworkHops
  import opened NetworkInv
  import opened NetworkDelivery
  import opened NetworkProgress

  // ---------------------------------------------------------------- sums

  function Total<T>(f: T -> int, q: seq<T>): int {
    if q == [] then 0 else f(q[0]) + Total(f, q[1..])
  }

  lemma {:induction false} TotalSame<T>(f: T -> int, g: T -> int, q: seq<T>)
    requires forall x :: x in q ==> f(x) == g(x)
    ensures Total(f, q) == Total(g, q)
  {
    if q != [] { TotalSame(f, g, q[1..]); }
  }

  lemma {:induction false} TotalChange<T>(f: T -> int, g: T -> int, q: seq<T>, x: T)
    requires Distinct(q) && x in q && forall y :: y in q && y != x ==> f(y) == g(y)
    ensures Total(g, q) == Total(f, q) + g(x) - f(x)
  {
    if q[0] == x {
      forall y | y in q[1..] ensures f(y) == g(y) {
        var i :| 0 <= i < |q[1..]| && q[1..][i] == y;
        assert q[i + 1] != q[0];
      }
      TotalSame(f, g, q[1..]);
    } else {
      TotalChange(f, g, q[1..], x);
    }
  }

  lemma {:induction false} TotalUpdate<T>(f: T -> int, q: seq<T>, i: nat, x: T)
    requires i < |q|
    ensures Total(f, q[i := x]) == Total(f, q) - f(q[i]) + f(x)
  {
    if i == 0 {
      assert q[i := x][1..] == q[1..];
    } else {
      assert q[i := x][1..] == q[1..][i - 1 := x];
      TotalUpdate(f, q[1..], i - 1, x);
    }
  }

  lemma {:induction false} TotalSnoc<T>(f: T -> int, q: seq<T>, x: T)
    ensures Total(f, q + [x]) == Total(f, q) + f(x)
  {
    if q == [] {
      assert q + [x] == [x];
    } else {
      assert (q + [x])[1..] == q[1..] + [x];
      TotalSnoc(f, q[1..], x);
    }
  }

  lemma {:induction false} TotalNatural<T>(f: T -> int, q: seq<T>)
    requires forall x :: x in q ==> f(x) >= 0
    ensures Total(f, q) >= 0
  {
    if q != [] { TotalNatural(f, q[1..]); }
  }

  /** A listing of a finite set. */
  lemma {:induction false} Listing<T(!new)>(s: set<T>) returns (q: seq<T>)
    ensures Distinct(q) && |q| == |s| && forall x {:trigger x in q} {:trigger x in s} :: x in q <==> x in s
  {
    if s == {} {
      q := [];
    } else {
      var x :| x in s;
      var rest := Listing(s - {x});
      q := [x] + rest;
    }
  }

  lemma {:induction false} FitsIn<T>(q: seq<T>, s: set<T>)
    requires Distinct(q) && forall x :: x in q ==> x in s
    ensures |q| <= |s|
  {
    if q != [] {
      forall x | x in q[1..] ensures x in s - {q[0]} {
        var i :| 0 <= i < |q[1..]| && q[1..][i] == x;
        assert q[i + 1] != q[0];
      }
      FitsIn(q[1..], s - {q[0]});
    }
  }

  // ---------------------------------------------------------------- weights

  /** No client list, manager list or server list is longer than b. */
  ghost predicate Within(cfg: Config, b: nat) {
    forall k {:trigger At(cfg.clients, k)} {:trigger At(cfg.managers, k)} {:trigger At(cfg.servers, k)} ::
      |At(cfg.clients, k)| <= b && |At(cfg.managers, k)| <= b && |At(cfg.servers, k)| <= b
  }

  /** What is still to be done for a packet on each kind of connection, once it is in a thread's hand. */
  function DownWeight(b: nat): nat { b + 4 }

  function UpWeight(b: nat): nat { b * (DownWeight(b) + 7) + 1 }

  function FromWeight(b: nat): nat { EntryWeight(b, false) + 1 }

  function EntryWeight(b: nat, relayed: bool): nat {
    (if relayed then 0 else b * (UpWeight(b) + 8)) + b + 3
  }

  function Weight(b: nat, c: Conn): nat {
    match c
    case FromUser(_) => FromWeight(b)
    case Up(_, _) => UpWeight(b)
    case Down(_, _) => DownWeight(b)
  }

  function EntryLoad(b: nat): Entry -> int { (e: Entry) => EntryWeight(b, e.relayed) }

  function CastWeight(b: nat, cast: Cast): nat {
    match cast
    case Resting => 0
    case Relaying(_, managers) => |managers| * (UpWeight(b) + 8) + b + 2
    case Writing(_, users) => |users| + 1
  }

  function CastLoad(b: nat): Cast -> int { (cast: Cast) => CastWeight(b, cast) }

  function HandWeight(h: Hand<Conn, Packet>): nat {
    match h
    case Idle => 0
    case Took(_) => 1
    case Filled(_) => 6
    case Carries(_, _) => 6
  }

  function HandLoad(): Hand<Conn, Packet> -> int { (h: Hand<Conn, Packet>) => HandWeight(h) }

  /** Reported connections that are still in the poll set. */
  function Unreached(pump: Pump<Conn, Packet>): int {
    |pump.batch| - if pump.detached then 1 else 0
  }

  function PumpWeight(pump: Pump<Conn, Packet>): int {
    5 * |pump.armed| - Unreached(pump) + (if pump.detached then 3 else 0) + 2 * |pump.ready|
    + Total(HandLoad(), pump.hands)
  }

  function ConnWeight(cfg: Config, st: State, b: nat, c: Conn): int {
    Weight(b, c) * |Pipe(cfg, st, c)| + |At(st.ring, c)| + 7 * |At(st.inbox, c)|
  }

  function ServerWeight(st: State, b: nat, s: nat): int {
    Total(EntryLoad(b), At(st.bqueue, s)) + Total(CastLoad(b), At(st.casts, s))
  }

  function ConnLoad(cfg: Config, st: State, b: nat): Conn -> int { (c: Conn) => ConnWeight(cfg, st, b, c) }

  function PumpLoad(st: State): Proc -> int { (p: Proc) => PumpWeight(PumpOf(st, p)) }

  function ServerLoad(st: State, b: nat): nat -> int { (s: nat) => ServerWeight(st, b, s) }

  /** Listings of the connections, of the processes that have a pump and of the servers that have broadcasters. */
  datatype Lists = Lists(conns: seq<Conn>, procs: seq<Proc>, servers: seq<nat>)

  ghost predicate Listed(cfg: Config, st: State, l: Lists) {
    && Distinct(l.conns) && Distinct(l.procs) && Distinct(l.servers)
    && (forall c {:trigger c in l.conns} {:trigger c in cfg.conns} :: c in l.conns <==> c in cfg.conns)
    && (forall p {:trigger p in l.procs} {:trigger p in st.pump} :: p in l.procs <==> p in st.pump)
    && (forall s {:trigger s in l.servers} {:trigger s in st.casts} :: s in l.servers <==> s in st.casts)
  }

  /** The work that is left in the network. */
  function WorkLeft(cfg: Config, st: State, b: nat, l: Lists): int {
    Total(ConnLoad(cfg, st, b), l.conns) + Total(PumpLoad(st), l.procs) + Total(ServerLoad(st, b), l.servers)
  }

  // ---------------------------------------------------------------- one part changes

  lemma ConnsChange(cfg: Config, st: State, st': State, b: nat, q: seq<Conn>, c: Conn)
    requires Distinct(q) && c in q
    requires forall d :: d in q && d != c ==> ConnWeight(cfg, st', b, d) == ConnWeight(cfg, st, b, d)
    ensures Total(ConnLoad(cfg, st', b), q)
      == Total(ConnLoad(cfg, st, b), q) + ConnWeight(cfg, st', b, c) - ConnWeight(cfg, st, b, c)
  {
    hide ConnWeight;
    TotalChange(ConnLoad(cfg, st, b), ConnLoad(cfg, st', b), q, c);
  }

  lemma ConnsStay(cfg: Config, st: State, st': State, b: nat, q: seq<Conn>)
    requires forall d :: d in q ==> ConnWeight(cfg, st', b, d) == ConnWeight(cfg, st, b, d)
    ensures Total(ConnLoad(cfg, st', b), q) == Total(ConnLoad(cfg, st, b), q)
  {
  }

  lemma PumpsChange(st: State, st': State, q: seq<Proc>, p: Proc)
    requires Distinct(q) && p in q && forall r :: r in q && r != p ==> PumpOf(st', r) == PumpOf(st, r)
    ensures Total(PumpLoad(st'), q) == Total(PumpLoad(st), q) + PumpWeight(PumpOf(st', p)) - PumpWeight(PumpOf(st, p))
  {
    hide PumpWeight;
    TotalChange(PumpLoad(st), PumpLoad(st'), q, p);
  }

  lemma PumpsStay(st: State, st': State, q: seq<Proc>)
    requires st'.pump == st.pump
    ensures Total(PumpLoad(st'), q) == Total(PumpLoad(st), q)
  {
  }

  lemma ServersChange(st: State, st': State, b: nat, q: seq<nat>, s: nat)
    requires Distinct(q) && s in q && forall t :: t in q && t != s ==> ServerWeight(st', b, t) == ServerWeight(st, b, t)
    ensures Total(ServerLoad(st', b), q)
      == Total(ServerLoad(st, b), q) + ServerWeight(st', b, s) - ServerWeight(st, b, s)
  {
    hide ServerWeight;
    TotalChange(ServerLoad(st, b), ServerLoad(st', b), q, s);
  }

  lemma ServersStay(st: State, st': State, b: nat, q: seq<nat>)
    requires forall t :: t in q ==> ServerWeight(st', b, t) == ServerWeight(st, b, t)
    ensures Total(ServerLoad(st', b), q) == Total(ServerLoad(st, b), q)
  {
  }

  // ---------------------------------------------------------------- the pump

  /** Every move of a connection through the pump uses some weight up. */
  lemma PumpFalls(pump: Pump<Conn, Packet>, capacity: nat, a: Act<Conn, Packet>)
    requires Owned(pump) && EventPump.Enabled(pump, capacity, a)
    requires a.Report? || a.Detach? || a.Enqueue? || a.Take? || a.Rearm?
    ensures PumpWeight(EventPump.Apply(pump, capacity, a)) < PumpWeight(pump)
  {
    match a
    case Take(i) => TotalUpdate(HandLoad(), pump.hands, i, Took(pump.ready[0]));
    case Rearm(i) => TotalUpdate(HandLoad(), pump.hands, i, Idle);
    case _ =>
  }

  lemma PumpRises(pump: Pump<Conn, Packet>, i: nat, h: Hand<Conn, Packet>)
    requires i < |pump.hands|
    ensures PumpWeight(pump.(hands := pump.hands[i := h]))
      == PumpWeight(pump) + HandWeight(h) - HandWeight(pump.hands[i])
  {
    TotalUpdate(HandLoad(), pump.hands, i, h);
  }

  lemma PumpNatural(pump: Pump<Conn, Packet>)
    requires Owned(pump)
    ensures PumpWeight(pump) >= 0
  {
    TotalNatural(HandLoad(), pump.hands);
    var d := if pump.detached then 1 else 0;
    var rest := pump.batch[d..];
    forall c | c in rest ensures c in pump.armed {
      var i :| 0 <= i < |rest| && rest[i] == c;
      assert pump.batch[i + d] in pump.armed;
    }
    FitsIn(rest, pump.armed);
  }

  lemma ShiftedPump(cfg: Config, st: State, p: Proc, a: Act<Conn, Packet>, b: nat, c: Conn)
    requires CanMove(cfg, st, p, a)
    ensures ConnWeight(cfg, DoPump(cfg, st, p, a), b, c) == ConnWeight(cfg, st, b, c)
  {
    FlowPump(cfg, st, p, a, c);
  }

  lemma MovedPumpExists(cfg: Config, st: State, p: Proc, a: Act<Conn, Packet>)
    requires CanMove(cfg, st, p, a)
    ensures p in st.pump
  {
    if a.Report? { assert a.events[0] in a.events; }
  }

  lemma PumpingFalls(cfg: Config, st: State, p: Proc, a: Act<Conn, Packet>, b: nat, l: Lists)
    requires Exclusive(cfg, st) && CanMove(cfg, st, p, a) && Listed(cfg, st, l)
    ensures WorkLeft(cfg, DoPump(cfg, st, p, a), b, l) < WorkLeft(cfg, st, b, l)
  {
    hide ConnWeight, PumpWeight;
    var st' := DoPump(cfg, st, p, a);
    MovedPumpExists(cfg, st, p, a);
    MoveNeeds(cfg, st, p, a, FromUser(0));
    assert ExclusiveAt(cfg, p, PumpOf(st, p));
    forall c ensures ConnWeight(cfg, st', b, c) == ConnWeight(cfg, st, b, c) { ShiftedPump(cfg, st, p, a, b, c); }
    ConnsStay(cfg, st, st', b, l.conns);
    PumpFalls(PumpOf(st, p), cfg.capacity, a);
    PumpsChange(st, st', l.procs, p);
    ServersStay(st, st', b, l.servers);
  }

  // ---------------------------------------------------------------- threads

  lemma HandExists(st: State, p: Proc, i: nat)
    requires !HandOf(st, p, i).Idle?
    ensures p in st.pump && i < |PumpOf(st, p).hands| && HandOf(st, p, i) == PumpOf(st, p).hands[i]
  {
  }

  /** A thread's step changes the weight of its pump by what its hand changes. */
  lemma HandChanges(st: State, st': State, p: Proc, i: nat, h: Hand<Conn, Packet>, q: seq<Proc>)
    requires Distinct(q) && p in q && i < |PumpOf(st, p).hands| && st'.pump == SetHand(st, p, i, h).pump
    ensures Total(PumpLoad(st'), q) == Total(PumpLoad(st), q) + HandWeight(h) - HandWeight(HandOf(st, p, i))
  {
    hide PumpWeight, HandWeight;
    PumpRises(PumpOf(st, p), i, h);
    PumpsChange(st, st', q, p);
  }

  /** Reading k packets moves them from the socket into the ring. */
  lemma ReadMoves(cfg: Config, st: State, p: Proc, i: nat, k: nat, b: nat, c: Conn)
    requires ExclusiveAt(cfg, p, PumpOf(st, p)) && CanStep(cfg, st, Read(p, i, k))
    ensures ConnWeight(cfg, DoRead(st, p, i, k), b, c)
      == ConnWeight(cfg, st, b, c) - if c == HandOf(st, p, i).conn then 6 * k else 0
  {
    FlowRead(cfg, st, p, i, k, c);
  }

  lemma ReadingFalls(cfg: Config, st: State, p: Proc, i: nat, k: nat, b: nat, l: Lists)
    requires Exclusive(cfg, st) && CanStep(cfg, st, Read(p, i, k)) && Listed(cfg, st, l)
    ensures WorkLeft(cfg, DoRead(st, p, i, k), b, l) < WorkLeft(cfg, st, b, l)
  {
    hide ConnWeight, Exclusive;
    var st', c := DoRead(st, p, i, k), HandOf(st, p, i).conn;
    HandExists(st, p, i);
    OwnConn(cfg, st, p, i);
    forall d ensures ConnWeight(cfg, st', b, d) == ConnWeight(cfg, st, b, d) - if d == c then 6 * k else 0 {
      ReadMoves(cfg, st, p, i, k, b, d);
    }
    ConnsChange(cfg, st, st', b, l.conns, c);
    HandChanges(st, st', p, i, Filled(c), l.procs);
    ServersStay(st, st', b, l.servers);
  }

  lemma OwnConn(cfg: Config, st: State, p: Proc, i: nat)
    requires Exclusive(cfg, st) && !HandOf(st, p, i).Idle?
    ensures ExclusiveAt(cfg, p, PumpOf(st, p)) && HandOf(st, p, i).conn in cfg.conns
    ensures Owner(cfg, HandOf(st, p, i).conn) == p
  {
    HolderCarries(cfg, p, PumpOf(st, p), i);
  }

  lemma CutMoves(cfg: Config, st: State, p: Proc, i: nat, b: nat, c: Conn)
    requires ExclusiveAt(cfg, p, PumpOf(st, p)) && CanStep(cfg, st, Cut(p, i))
    ensures ConnWeight(cfg, DoCut(st, p, i), b, c)
      == ConnWeight(cfg, st, b, c) - if c == HandOf(st, p, i).conn then 1 else 0
  {
    FlowCut(cfg, st, p, i, c);
  }

  lemma CuttingFalls(cfg: Config, st: State, p: Proc, i: nat, b: nat, l: Lists)
    requires Exclusive(cfg, st) && CanStep(cfg, st, Cut(p, i)) && Listed(cfg, st, l)
    ensures WorkLeft(cfg, DoCut(st, p, i), b, l) < WorkLeft(cfg, st, b, l)
  {
    hide ConnWeight, Exclusive;
    var st', c := DoCut(st, p, i), HandOf(st, p, i).conn;
    HandExists(st, p, i);
    OwnConn(cfg, st, p, i);
    forall d ensures ConnWeight(cfg, st', b, d) == ConnWeight(cfg, st, b, d) - if d == c then 1 else 0 {
      CutMoves(cfg, st, p, i, b, d);
    }
    ConnsChange(cfg, st, st', b, l.conns, c);
    HandChanges(st, st', p, i, Carries(c, At(st.ring, c)[0]), l.procs);
    ServersStay(st, st', b, l.servers);
  }

  lemma Times(w: nat, n: nat)
    ensures w * (n + 1) == w * n + w
  {
  }

  /** Finishing with a packet takes the weight of its connection off. */
  lemma ConsumedMoves(cfg: Config, st: State, p: Proc, i: nat, b: nat, c: Conn)
    requires ExclusiveAt(cfg, p, PumpOf(st, p)) && HandOf(st, p, i).Carries?
    ensures ConnWeight(cfg, Consumed(st, p, i), b, c)
      == ConnWeight(cfg, st, b, c) - if c == HandOf(st, p, i).conn then Weight(b, c) else 0
  {
    hide Weight;
    FlowConsumed(cfg, st, p, i, c);
    ConsumedParts(st, p, i, c);
    Times(Weight(b, c), |Pipe(cfg, Consumed(st, p, i), c)|);
  }

  lemma ConsumedFalls(cfg: Config, st: State, p: Proc, i: nat, b: nat, l: Lists)
    requires Exclusive(cfg, st) && HandOf(st, p, i).Carries? && Listed(cfg, st, l)
    ensures WorkLeft(cfg, Consumed(st, p, i), b, l) == WorkLeft(cfg, st, b, l) - Weight(b, HandOf(st, p, i).conn)
  {
    hide ConnWeight, Exclusive, Weight;
    var st', c := Consumed(st, p, i), HandOf(st, p, i).conn;
    HandExists(st, p, i);
    OwnConn(cfg, st, p, i);
    forall d ensures ConnWeight(cfg, st', b, d) == ConnWeight(cfg, st, b, d) - if d == c then Weight(b, d) else 0 {
      ConsumedMoves(cfg, st, p, i, b, d);
    }
    ConnsChange(cfg, st, st', b, l.conns, c);
    HandChanges(st, st', p, i, Filled(c), l.procs);
    ServersStay(st, st', b, l.servers);
  }

  // ---------------------------------------------------------------- queueing, writing, broadcasting

  lemma QueueingRaises(cfg: Config, st: State, st': State, s: nat, e: Entry, b: nat, l: Lists)
    requires Listed(cfg, st, l) && st' == st.(bqueue := st.bqueue[s := At(st.bqueue, s) + [e]], enq := st'.enq)
    ensures WorkLeft(cfg, st', b, l) <= WorkLeft(cfg, st, b, l) + EntryWeight(b, e.relayed)
  {
    hide EntryWeight, Weight;
    forall d ensures ConnWeight(cfg, st', b, d) == ConnWeight(cfg, st, b, d) { FlowCast(cfg, st, st', d); }
    ConnsStay(cfg, st, st', b, l.conns);
    PumpsStay(st, st', l.procs);
    TotalSnoc(EntryLoad(b), At(st.bqueue, s), e);
    if s in l.servers {
      ServersChange(st, st', b, l.servers, s);
    } else {
      ServersStay(st, st', b, l.servers);
    }
  }

  lemma ListedSame(cfg: Config, st: State, st': State, l: Lists)
    requires Listed(cfg, st, l) && st'.pump.Keys == st.pump.Keys && st'.casts.Keys == st.casts.Keys
    ensures Listed(cfg, st', l)
  {
  }

  lemma PublishingFalls(cfg: Config, st: State, s: nat, i: nat, b: nat, l: Lists)
    requires Exclusive(cfg, st) && CanStep(cfg, st, Publish(s, i)) && Listed(cfg, st, l)
    ensures WorkLeft(cfg, DoPublish(st, s, i), b, l) < WorkLeft(cfg, st, b, l)
  {
    hide WorkLeft, UpWeight, Exclusive, Listed;
    var h, mid := HandOf(st, AtServer(s), i), Consumed(st, AtServer(s), i);
    ConsumedFalls(cfg, st, AtServer(s), i, b, l);
    OwnConn(cfg, st, AtServer(s), i);
    HandExists(st, AtServer(s), i);
    assert mid.pump.Keys == st.pump.Keys;
    ListedSame(cfg, st, mid, l);
    QueueingRaises(cfg, mid, DoPublish(st, s, i), s, EntryOf(h.conn, h.item), b, l);
  }

  /** Writing a packet to a connection adds what will be done for it there. */
  lemma DeliveryMoves(cfg: Config, st: State, c: Conn, pkt: Packet, b: nat, d: Conn)
    ensures ConnWeight(cfg, Deliver(st, c, pkt), b, d)
      == ConnWeight(cfg, st, b, d) + if d == c then Weight(b, c) + 7 else 0
  {
    hide Weight;
    FlowDeliver(cfg, st, c, pkt, d);
    Times(Weight(b, d), |Pipe(cfg, st, d)|);
  }

  lemma DeliveryRaises(cfg: Config, st: State, c: Conn, pkt: Packet, b: nat, l: Lists)
    requires Listed(cfg, st, l)
    ensures WorkLeft(cfg, Deliver(st, c, pkt), b, l) <= WorkLeft(cfg, st, b, l) + Weight(b, c) + 7
    ensures Listed(cfg, Deliver(st, c, pkt), l)
  {
    hide ConnWeight, Weight;
    var st' := Deliver(st, c, pkt);
    forall d ensures ConnWeight(cfg, st', b, d) == ConnWeight(cfg, st, b, d) + if d == c then Weight(b, c) + 7 else 0 {
      DeliveryMoves(cfg, st, c, pkt, b, d);
    }
    if c in l.conns {
      ConnsChange(cfg, st, st', b, l.conns, c);
    } else {
      ConnsStay(cfg, st, st', b, l.conns);
    }
    PumpsStay(st, st', l.procs);
    ServersStay(st, st', b, l.servers);
  }

  lemma {:induction false} DeliveriesRaise(cfg: Config, st: State, targets: seq<Conn>, pkt: Packet, b: nat, l: Lists)
    requires Listed(cfg, st, l) && forall c :: c in targets ==> c.Down?
    ensures WorkLeft(cfg, DeliverAll(st, targets, pkt), b, l)
      <= WorkLeft(cfg, st, b, l) + |targets| * (DownWeight(b) + 7)
    decreases |targets|
  {
    hide WorkLeft, DownWeight, Listed;
    if targets == [] {
      assert DeliverAll(st, targets, pkt) == st;
    } else {
      assert targets[0] in targets;
      DeliveryRaises(cfg, st, targets[0], pkt, b, l);
      DeliveriesRaise(cfg, Deliver(st, targets[0], pkt), targets[1..], pkt, b, l);
      assert DeliverAll(Deliver(st, targets[0], pkt), targets[1..], pkt) == DeliverAll(st, targets, pkt);
      Times(DownWeight(b) + 7, |targets[1..]|);
    }
  }

  lemma {:induction false} ForwardTargetsFew(cfg: Config, m: nat, id: nat, servers: seq<nat>)
    ensures |ForwardTargets(cfg, m, id, servers)| <= |servers|
    ensures forall c :: c in ForwardTargets(cfg, m, id, servers) ==> c.Down?
  {
    if servers != [] { ForwardTargetsFew(cfg, m, id, servers[1..]); }
  }

  lemma {:induction false} TargetsFew(clients: seq<Conn>, src: Conn)
    ensures |Targets(clients, src)| <= |clients|
  {
    if clients != [] { TargetsFew(clients[1..], src); }
  }

  lemma AtMost(n: nat, b: nat, w: nat)
    requires n <= b
    ensures n * w <= b * w
  {
  }

  lemma ForwardingFalls(cfg: Config, st: State, m: nat, i: nat, b: nat, l: Lists)
    requires Exclusive(cfg, st) && CanStep(cfg, st, Forward(m, i)) && Listed(cfg, st, l) && Within(cfg, b)
    ensures WorkLeft(cfg, DoForward(cfg, st, m, i), b, l) < WorkLeft(cfg, st, b, l)
  {
    hide WorkLeft, Exclusive, Listed, DownWeight, DeliverAll;
    var h, mid := HandOf(st, AtManager(m), i), Consumed(st, AtManager(m), i);
    var targets := ForwardTargets(cfg, m, h.item.id, At(cfg.servers, m));
    ConsumedFalls(cfg, st, AtManager(m), i, b, l);
    OwnConn(cfg, st, AtManager(m), i);
    HandExists(st, AtManager(m), i);
    assert mid.pump.Keys == st.pump.Keys;
    ListedSame(cfg, st, mid, l);
    ForwardTargetsFew(cfg, m, h.item.id, At(cfg.servers, m));
    DeliveriesRaise(cfg, mid, targets, h.item, b, l);
    AtMost(|targets|, b, DownWeight(b) + 7);
  }

  /** What a broadcaster's step takes off the queue and puts on itself, and what it writes. */
  lemma CastFalls(cfg: Config, s: nat, cast: Cast, bqueue: seq<Entry>, b: nat)
    requires Within(cfg, b) && (cast.Resting? ==> bqueue != [])
    ensures Total(EntryLoad(b), QueueAfter(cast, bqueue)) + CastWeight(b, NextCast(cfg, s, cast, bqueue))
        + (if cast.Relaying? && cast.managers != [] then UpWeight(b) + 7 else 0)
      < Total(EntryLoad(b), bqueue) + CastWeight(b, cast)
  {
    hide UpWeight;
    match cast
    case Resting =>
      assert |At(cfg.managers, s)| <= b;
      AtMost(|At(cfg.managers, s)|, b, UpWeight(b) + 8);
    case Relaying(e, managers) =>
      if managers != [] {
        Times(UpWeight(b) + 8, |managers[1..]|);
      } else {
        assert |At(cfg.clients, s)| <= b;
        TargetsFew(At(cfg.clients, s), e.src);
      }
    case Writing(_, _) =>
  }

  lemma CastServer(cfg: Config, st: State, st': State, s: nat, k: nat, b: nat)
    requires Within(cfg, b) && CanCast(st, s, k)
    requires At(st'.casts, s) == At(st.casts, s)[k := NextCast(cfg, s, CastOf(st, s, k), At(st.bqueue, s))]
    requires At(st'.bqueue, s) == QueueAfter(CastOf(st, s, k), At(st.bqueue, s))
    ensures var cast := CastOf(st, s, k);
      ServerWeight(st', b, s) + (if cast.Relaying? && cast.managers != [] then UpWeight(b) + 7 else 0)
      < ServerWeight(st, b, s)
  {
    hide UpWeight, CastWeight, NextCast, QueueAfter, Within;
    var cast := CastOf(st, s, k);
    CastFalls(cfg, s, cast, At(st.bqueue, s), b);
    TotalUpdate(CastLoad(b), At(st.casts, s), k, NextCast(cfg, s, cast, At(st.bqueue, s)));
  }

  lemma WireRaises(cfg: Config, st: State, s: nat, cast: Cast, b: nat, l: Lists)
    requires Listed(cfg, st, l)
    ensures WorkLeft(cfg, WireAfter(cfg, st, s, cast), b, l) <= WorkLeft(cfg, st, b, l)
      + if cast.Relaying? && cast.managers != [] then UpWeight(b) + 7 else 0
    ensures Listed(cfg, WireAfter(cfg, st, s, cast), l)
    ensures WireAfter(cfg, st, s, cast).casts == st.casts && WireAfter(cfg, st, s, cast).bqueue == st.bqueue
  {
    hide WorkLeft, Listed, UpWeight;
    if cast.Relaying? && cast.managers != [] {
      DeliveryRaises(cfg, st, Up(s, cast.managers[0]), Frame(cast.entry.msg, Lookup(cfg.stamp, s)), b, l);
    }
  }

  /** The server's own change, once the wires have been written. */
  lemma OneServerChanges(cfg: Config, st: State, st': State, s: nat, b: nat, l: Lists)
    requires Listed(cfg, st, l) && s in l.servers
    requires st'.pump == st.pump && st'.inbox == st.inbox && st'.ring == st.ring
    requires st'.log == st.log && st'.eaten == st.eaten
    requires forall t :: t != s ==> At(st'.bqueue, t) == At(st.bqueue, t) && At(st'.casts, t) == At(st.casts, t)
    ensures WorkLeft(cfg, st', b, l) == WorkLeft(cfg, st, b, l) + ServerWeight(st', b, s) - ServerWeight(st, b, s)
  {
    forall d ensures ConnWeight(cfg, st', b, d) == ConnWeight(cfg, st, b, d) { FlowCast(cfg, st, st', d); }
    ConnsStay(cfg, st, st', b, l.conns);
    PumpsStay(st, st', l.procs);
    ServersChange(st, st', b, l.servers, s);
  }

  lemma CastParts(cfg: Config, st: State, s: nat, k: nat, t: nat)
    requires CanCast(st, s, k)
    ensures var st', mid := DoCast(cfg, st, s, k), WireAfter(cfg, st, s, CastOf(st, s, k));
      && st'.pump == mid.pump && st'.inbox == mid.inbox && st'.ring == mid.ring
      && st'.log == mid.log && st'.eaten == mid.eaten
      && (t != s ==> At(st'.bqueue, t) == At(st.bqueue, t) && At(st'.casts, t) == At(st.casts, t))
      && At(st'.casts, s) == At(st.casts, s)[k := NextCast(cfg, s, CastOf(st, s, k), At(st.bqueue, s))]
      && At(st'.bqueue, s) == QueueAfter(CastOf(st, s, k), At(st.bqueue, s))
      && s in st.casts && st'.casts.Keys == st.casts.Keys
  {
  }

  lemma CasterListed(cfg: Config, st: State, s: nat, k: nat, l: Lists)
    requires CanCast(st, s, k) && Listed(cfg, st, l)
    ensures s in l.servers
  {
  }

  lemma CastingFalls(cfg: Config, st: State, s: nat, k: nat, b: nat, l: Lists)
    requires CanCast(st, s, k) && Listed(cfg, st, l) && Within(cfg, b)
    ensures WorkLeft(cfg, DoCast(cfg, st, s, k), b, l) < WorkLeft(cfg, st, b, l)
  {
    hide WorkLeft, Listed, UpWeight, DoCast, WireAfter, NextCast, QueueAfter, Within;
    var st', cast := DoCast(cfg, st, s, k), CastOf(st, s, k);
    var mid := WireAfter(cfg, st, s, cast);
    CasterListed(cfg, st, s, k, l);
    WireRaises(cfg, st, s, cast, b, l);
    forall t ensures t != s ==> At(st'.bqueue, t) == At(mid.bqueue, t) && At(st'.casts, t) == At(mid.casts, t) {
      CastParts(cfg, st, s, k, t);
    }
    CastParts(cfg, st, s, k, s);
    OneServerChanges(cfg, mid, st', s, b, l);
    CastServer(cfg, st, st', s, k, b);
    assert ServerWeight(mid, b, s) == ServerWeight(st, b, s);
  }

  // ---------------------------------------------------------------- every step

  lemma WorkFalls(cfg: Config, st: State, e: Event, b: nat, l: Lists)
    requires Exclusive(cfg, st) && CanGoOn(cfg, st, e) && Listed(cfg, st, l) && Within(cfg, b)
    ensures WorkLeft(cfg, Step(cfg, st, e), b, l) < WorkLeft(cfg, st, b, l)
  {
    hide WorkLeft, Listed, Exclusive, Within, DoPump, DoRead, DoCut, DoPublish, DoForward, DoCast;
    match e
    case Pumping(p, a) => PumpingFalls(cfg, st, p, a, b, l);
    case Read(p, i, k) => ReadingFalls(cfg, st, p, i, k, b, l);
    case Cut(p, i) => CuttingFalls(cfg, st, p, i, b, l);
    case Publish(s, i) => PublishingFalls(cfg, st, s, i, b, l);
    case Forward(m, i) => ForwardingFalls(cfg, st, m, i, b, l);
    case Casting(s, k) => CastingFalls(cfg, st, s, k, b, l);
  }

  lemma KeysStay(cfg: Config, st: State, e: Event)
    requires CanStep(cfg, st, e)
    ensures Step(cfg, st, e).casts.Keys == st.casts.Keys && Step(cfg, st, e).pump.Keys == st.pump.Keys
  {
    match e
    case Send(u) =>
    case Pumping(p, a) => MovedPumpExists(cfg, st, p, a);
    case Read(p, i, _) => HandExists(st, p, i);
    case Cut(p, i) => HandExists(st, p, i);
    case Publish(s, i) => HandExists(st, AtServer(s), i);
    case Forward(m, i) => HandExists(st, AtManager(m), i);
    case Casting(s, k) => CastParts(cfg, st, s, k, s);
  }

  lemma WorkNatural(cfg: Config, st: State, b: nat, l: Lists)
    requires Exclusive(cfg, st)
    ensures WorkLeft(cfg, st, b, l) >= 0
  {
    hide EntryWeight;
    TotalNatural(ConnLoad(cfg, st, b), l.conns);
    forall p ensures PumpWeight(PumpOf(st, p)) >= 0 {
      assert ExclusiveAt(cfg, p, PumpOf(st, p));
      PumpNatural(PumpOf(st, p));
    }
    TotalNatural(PumpLoad(st), l.procs);
    forall s ensures ServerWeight(st, b, s) >= 0 {
      TotalNatural(EntryLoad(b), At(st.bqueue, s));
      TotalNatural(CastLoad(b), At(st.casts, s));
    }
    TotalNatural(ServerLoad(st, b), l.servers);
  }

  predicate NobodySends(run: seq<Event>) {
    forall e {:trigger e.Send?} :: e in run ==> !e.Send?
  }

  lemma {:induction false} RunsAreShort(cfg: Config, st: State, run: seq<Event>, b: nat, l: Lists)
    requires Sane(cfg) && Exclusive(cfg, st) && Listed(cfg, st, l) && Within(cfg, b)
    requires IsRun(cfg, st, run) && NobodySends(run)
    ensures |run| <= WorkLeft(cfg, st, b, l)
    decreases |run|
  {
    hide WorkLeft, Listed, Exclusive, Within, Sane, CanStep, Step;
    WorkNatural(cfg, st, b, l);
    if run != [] {
      var e := run[0];
      assert e in run;
      WorkFalls(cfg, st, e, b, l);
      ExclusiveKept(cfg, st, e);
      KeysStay(cfg, st, e);
      ListedSame(cfg, st, Step(cfg, st, e), l);
      assert forall f :: f in run[1..] ==> f in run;
      RunsAreShort(cfg, Step(cfg, st, e), run[1..], b, l);
    }
  }

  // ---------------------------------------------------------------- main results

  lemma MapUps(s: nat, ms: seq<nat>, conns: set<Conn>)
    requires Distinct(ms) && forall m :: m in ms ==> Up(s, m) in conns
    ensures |ms| <= |conns|
  {
    FitsIn(seq(|ms|, i requires 0 <= i < |ms| => Up(s, ms[i])), conns);
  }

  lemma MapDowns(m: nat, ss: seq<nat>, conns: set<Conn>)
    requires Distinct(ss) && forall s :: s in ss ==> Up(s, m) in conns
    ensures |ss| <= |conns|
  {
    FitsIn(seq(|ss|, i requires 0 <= i < |ss| => Up(ss[i], m)), conns);
  }

  lemma ConfigWithin(cfg: Config)
    requires Sane(cfg)
    ensures Within(cfg, |cfg.conns|)
  {
    forall k
      ensures |At(cfg.clients, k)| <= |cfg.conns| && |At(cfg.managers, k)| <= |cfg.conns|
      ensures |At(cfg.servers, k)| <= |cfg.conns|
    {
      FitsIn(At(cfg.clients, k), cfg.conns);
      MapUps(k, At(cfg.managers, k), cfg.conns);
      MapDowns(k, At(cfg.servers, k), cfg.conns);
    }
  }

  lemma ListAll(cfg: Config, st: State) returns (l: Lists)
    ensures Listed(cfg, st, l)
  {
    var conns := Listing(cfg.conns);
    var procs := Listing(st.pump.Keys);
    var servers := Listing(st.casts.Keys);
    l := Lists(conns, procs, servers);
    forall p ensures p in procs <==> p in st.pump { assert p in procs <==> p in st.pump.Keys; }
    forall s ensures s in servers <==> s in st.casts { assert s in servers <==> s in st.casts.Keys; }
  }

  /** No livelock: after any run from the start there is a bound on how many steps can follow
    * before a user sends again. */
  lemma WorkRunsOut(cfg: Config, start: State, run: seq<Event>) returns (bound: nat)
    requires Sane(cfg) && Initial(cfg, start) && IsRun(cfg, start, run)
    ensures forall more :: IsRun(cfg, StateAfter(cfg, start, run), more) && NobodySends(more) ==> |more| <= bound
  {
    hide WorkLeft, Within, Listed, Initial;
    Reachable(cfg, start, run);
    var st := StateAfter(cfg, start, run);
    ConfigWithin(cfg);
    var l := ListAll(cfg, st);
    WorkNatural(cfg, st, |cfg.conns|, l);
    bound := WorkLeft(cfg, st, |cfg.conns|, l);
    forall more | IsRun(cfg, st, more) && NobodySends(more) ensures |more| <= bound {
      RunsAreShort(cfg, st, more, |cfg.conns|, l);
    }
  }

  /** So every message arrives: however the steps are scheduled, once users stop sending a state
    * is reached, within that bound, that no step leaves, and there every user has exactly as many
    * copies of each message as there are routes from its sender. */
  lemma EveryMessageArrives(cfg: Config, start: State, run: seq<Event>, u: nat, x: Msg)
    requires Sane(cfg) && Initial(cfg, start) && Staffed(cfg, start) && IsRun(cfg, start, run)
    requires FromUser(u) in cfg.conns && FromUser(x.u) in cfg.conns
    requires forall e :: !CanGoOn(cfg, StateAfter(cfg, start, run), e)
    ensures var st := StateAfter(cfg, start, run);
      Copies(st, u, x) == if x.n < Lookup(st.sent, x.u) then Routes(cfg, x.u, u) else 0
  {
    hide CanGoOn, Initial, Staffed, Copies, Routes, Quiescent;
    NoDeadlock(cfg, start, run);
    DeliveredAtQuiescence(cfg, start, run, u, x);
  }
}
