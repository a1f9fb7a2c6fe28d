/** The chat network as a step system: ChatServer processes with their pumps, broadcast
  * queues and broadcasters, ChatManager processes with their pumps, and the sockets between.
  *
  * Membership is fixed, a frame write is one step, and a user message is what one fill reads.
  */
module Network {
  import opened EventPump
  import opened Sequences

  /** A connection, named by what the process at its reading end reads from it. */
  datatype Conn =
    | FromUser(u: nat)            // read by the user's server
    | Up(s: nat, m: nat)          // server s to manager m, read by the manager
    | Down(m: nat, s: nat)        // manager m to server s, read by the server

  datatype Proc = AtServer(s: nat) | AtManager(m: nat)

  /** The n-th message of user u. */
  datatype Msg = Msg(u: nat, n: nat)

  /** What travels on a connection: plain text, or a relay frame with the sending server's id. */
  datatype Packet = Text(msg: Msg) | Frame(msg: Msg, id: nat)

  /** A BroadcastMessage: `src` stands for its socket field, `relayed` for its type field. */
  datatype Entry = Entry(src: Conn, relayed: bool, msg: Msg)

  /** What one broadcaster thread is doing. */
  datatype Cast =
    | Resting
    | Relaying(entry: Entry, managers: seq<nat>)   // managers still to be written to
    | Writing(entry: Entry, users: seq<nat>)       // users still to be written to

  datatype Config = Config(
    conns: set<Conn>,                   // all connections
    home: map<nat, nat>,                // the server of each user
    clients: map<nat, seq<Conn>>,       // the client list of each server
    managers: map<nat, seq<nat>>,       // the manager sockets of each server
    servers: map<nat, seq<nat>>,        // the server list of each manager
    stamp: map<nat, nat>,               // the id each server puts into its frames
    hello: map<(nat, nat), nat>,        // the id manager m recorded for server s, under (m, s)
    capacity: nat)                      // QSIZE

  datatype State = State(
    inbox: map<Conn, seq<Packet>>,      // sent, not yet read from the socket
    ring: map<Conn, seq<Packet>>,       // in the connection's ring buffer
    pump: map<Proc, Pump<Conn, Packet>>,
    bqueue: map<nat, seq<Entry>>,       // the broadcast queue of each server
    casts: map<nat, seq<Cast>>,         // the broadcaster threads of each server
    got: map<nat, seq<Entry>>,          // what has been written to each user
    // history
    sent: map<nat, nat>,                // how many messages each user has sent
    log: map<Conn, seq<Msg>>,           // everything ever sent on a connection
    eaten: map<Conn, seq<Msg>>,         // everything fully dealt with at its reading end
    enq: map<nat, seq<Entry>>)          // everything ever put on the broadcast queue

  type Hands = seq<Hand<Conn, Packet>>

  // ---------------------------------------------------------------- configuration

  function Lookup<K>(m: map<K, nat>, k: K): nat {
    if k in m then m[k] else 0
  }

  /** The process that reads connection `c`. */
  function Owner(cfg: Config, c: Conn): Proc {
    match c
    case FromUser(u) => AtServer(Lookup(cfg.home, u))
    case Up(_, m) => AtManager(m)
    case Down(_, s) => AtServer(s)
  }

  function PumpOf(st: State, p: Proc): Pump<Conn, Packet> {
    if p in st.pump then st.pump[p] else Pump({}, [], false, [], [], {}, {}, {})
  }

  ghost predicate Sane(cfg: Config) {
    && cfg.capacity > 0
    && (forall s :: Distinct(At(cfg.managers, s)) && Distinct(At(cfg.clients, s)))
    && (forall m :: Distinct(At(cfg.servers, m)))
    && (forall s, c {:trigger c in At(cfg.clients, s)} ::
          c in At(cfg.clients, s) <==> c in cfg.conns && Owner(cfg, c) == AtServer(s))
    && (forall s, m {:trigger m in At(cfg.managers, s)} {:trigger Up(s, m)} ::
          m in At(cfg.managers, s) <==> Up(s, m) in cfg.conns)
    && (forall s, m {:trigger s in At(cfg.servers, m)} {:trigger Up(s, m)} ::
          s in At(cfg.servers, m) <==> Up(s, m) in cfg.conns)
    && (forall s, m {:trigger Up(s, m)} {:trigger Down(m, s)} :: Up(s, m) in cfg.conns <==> Down(m, s) in cfg.conns)
  }

  /** What `GetUniqId` yields when compared with a 64-bit id: the low 32 bits as a signed
    * `int`, widened again. */
  function Narrow(id: nat): nat {
    var low := id % 0x1_0000_0000;
    if low < 0x8000_0000 then low else 0xFFFF_FFFF_0000_0000 + low
  }

  /** Manager `m` passes a frame with this id on to server `t`. */
  predicate Forwards(cfg: Config, m: nat, id: nat, t: nat) {
    Narrow(Lookup(cfg.hello, (m, t))) != id
  }

  /** A narrowed id equals the id itself exactly for ids whose upper 33 bits all agree. */
  lemma NarrowExact(id: nat)
    requires id < 0x1_0000_0000_0000_0000
    ensures Narrow(id) == id <==> id < 0x8000_0000 || id >= 0xFFFF_FFFF_8000_0000
  {
  }

  // ---------------------------------------------------------------- broadcasting

  /** The users in a client list that a message from `src` is written to, in list order. */
  function Targets(clients: seq<Conn>, src: Conn): seq<nat> {
    if clients == [] then []
    else (if clients[0].FromUser? && clients[0] != src then [clients[0].u] else []) + Targets(clients[1..], src)
  }

  /** The connections to the servers in `servers` that manager `m` passes a frame on to. */
  function ForwardTargets(cfg: Config, m: nat, id: nat, servers: seq<nat>): seq<Conn> {
    if servers == [] then []
    else (if Forwards(cfg, m, id, servers[0]) then [Down(m, servers[0])] else [])
         + ForwardTargets(cfg, m, id, servers[1..])
  }

  /** `x` written to each connection of `targets` in turn. */
  function SendAll<T>(wires: map<Conn, seq<T>>, targets: seq<Conn>, x: T): map<Conn, seq<T>>
    decreases |targets|
  {
    if targets == [] then wires
    else SendAll(wires[targets[0] := At(wires, targets[0]) + [x]], targets[1..], x)
  }

  lemma {:induction false} SendAllExact<T>(wires: map<Conn, seq<T>>, targets: seq<Conn>, x: T, c: Conn)
    requires Distinct(targets)
    ensures At(SendAll(wires, targets, x), c) == At(wires, c) + (if c in targets then [x] else [])
    decreases |targets|
  {
    if targets != [] {
      SendAllExact(wires[targets[0] := At(wires, targets[0]) + [x]], targets[1..], x, c);
    }
  }

  lemma {:induction false} TargetsExact(clients: seq<Conn>, src: Conn)
    requires Distinct(clients)
    ensures Distinct(Targets(clients, src))
    ensures forall u :: u in Targets(clients, src) <==> FromUser(u) in clients && FromUser(u) != src
  {
    if clients != [] {
      var rest := clients[1..];
      TargetsExact(rest, src);
      assert forall c :: c in clients <==> c == clients[0] || c in rest;
      assert clients[0] !in rest;
    }
  }

  lemma {:induction false} ForwardTargetsExact(cfg: Config, m: nat, id: nat, servers: seq<nat>)
    requires Distinct(servers)
    ensures Distinct(ForwardTargets(cfg, m, id, servers))
    ensures forall c :: c in ForwardTargets(cfg, m, id, servers) <==>
      c.Down? && c.m == m && c.s in servers && Forwards(cfg, m, id, c.s)
  {
    if servers != [] {
      var rest := servers[1..];
      ForwardTargetsExact(cfg, m, id, rest);
      assert forall t :: t in servers <==> t == servers[0] || t in rest;
      assert servers[0] !in rest;
    }
  }

  // ---------------------------------------------------------------- steps

  datatype Event =
    | Send(u: nat)                               // a user types a message
    | Pumping(p: Proc, a: Act<Conn, Packet>)     // the poll loop or a thread moves a connection
    | Read(p: Proc, i: nat, k: nat)              // thread i reads k packets into the ring
    | Cut(p: Proc, i: nat)                       // thread i cuts one packet from the ring
    | Publish(s: nat, i: nat)                    // receiver i puts it on the broadcast queue
    | Forward(m: nat, i: nat)                    // worker i passes it on to the other servers
    | Casting(s: nat, b: nat)                    // broadcaster b takes its next step

  /** The broadcast message made from a packet read from connection `c`. */
  function EntryOf(c: Conn, pkt: Packet): Entry {
    Entry(c, c.Down?, pkt.msg)
  }

  predicate CanPump(cfg: Config, st: State, p: Proc, a: Act<Conn, Packet>) {
    EventPump.Enabled(PumpOf(st, p), cfg.capacity, a)
  }

  function HandOf(st: State, p: Proc, i: nat): Hand<Conn, Packet> {
    if i < |PumpOf(st, p).hands| then PumpOf(st, p).hands[i] else Idle
  }

  function CastOf(st: State, s: nat, b: nat): Cast {
    if b < |At(st.casts, s)| then At(st.casts, s)[b] else Resting
  }

  /** The pump actions of a network whose membership is fixed. Events are reported for
    * connections with something to read; a thread re-arms once it has drained the ring. */
  predicate CanMove(cfg: Config, st: State, p: Proc, a: Act<Conn, Packet>) {
    && CanPump(cfg, st, p, a)
    && match a
       case Report(events) => forall c :: c in events ==> At(st.inbox, c) != []
       case Detach => true
       case Enqueue => true
       case Take(_) => true
       case Rearm(i) => At(st.ring, HandOf(st, p, i).conn) == []
       case _ => false
  }

  predicate CanCast(st: State, s: nat, b: nat) {
    b < |At(st.casts, s)| && (At(st.casts, s)[b].Resting? ==> At(st.bqueue, s) != [])
  }

  predicate CanStep(cfg: Config, st: State, e: Event) {
    match e
    case Send(u) => FromUser(u) in cfg.conns
    case Pumping(p, a) => CanMove(cfg, st, p, a)
    case Read(p, i, k) =>
      && HandOf(st, p, i).Took?
      && var c := HandOf(st, p, i).conn; 1 <= k <= |At(st.inbox, c)| && (c.FromUser? ==> k == 1)
    case Cut(p, i) => HandOf(st, p, i).Filled? && At(st.ring, HandOf(st, p, i).conn) != []
    case Publish(s, i) => HandOf(st, AtServer(s), i).Carries? && |At(st.bqueue, s)| < cfg.capacity
    case Forward(m, i) => HandOf(st, AtManager(m), i).Carries? && HandOf(st, AtManager(m), i).item.Frame?
    case Casting(s, b) => CanCast(st, s, b)
  }

  function DoPump(cfg: Config, st: State, p: Proc, a: Act<Conn, Packet>): State
    requires CanPump(cfg, st, p, a)
  {
    st.(pump := st.pump[p := EventPump.Apply(PumpOf(st, p), cfg.capacity, a)])
  }

  /** One packet written to connection `c`. */
  function Deliver(st: State, c: Conn, pkt: Packet): State
  {
    st.(inbox := st.inbox[c := At(st.inbox, c) + [pkt]], log := st.log[c := At(st.log, c) + [pkt.msg]])
  }

  function DoSend(st: State, u: nat): State {
    var n := Lookup(st.sent, u);
    Deliver(st.(sent := st.sent[u := n + 1]), FromUser(u), Text(Msg(u, n)))
  }

  function SetHand(st: State, p: Proc, i: nat, h: Hand<Conn, Packet>): State
    requires i < |PumpOf(st, p).hands|
  {
    st.(pump := st.pump[p := PumpOf(st, p).(hands := PumpOf(st, p).hands[i := h])])
  }

  function DoRead(st: State, p: Proc, i: nat, k: nat): State
    requires HandOf(st, p, i).Took? && k <= |At(st.inbox, HandOf(st, p, i).conn)|
  {
    var c := HandOf(st, p, i).conn;
    SetHand(st, p, i, Filled(c)).(
      inbox := st.inbox[c := At(st.inbox, c)[k..]],
      ring := st.ring[c := At(st.ring, c) + At(st.inbox, c)[..k]])
  }

  function DoCut(st: State, p: Proc, i: nat): State
    requires HandOf(st, p, i).Filled? && At(st.ring, HandOf(st, p, i).conn) != []
  {
    var c := HandOf(st, p, i).conn;
    SetHand(st, p, i, Carries(c, At(st.ring, c)[0])).(ring := st.ring[c := At(st.ring, c)[1..]])
  }

  /** Thread i is done with the packet it carries. */
  function Consumed(st: State, p: Proc, i: nat): State
    requires HandOf(st, p, i).Carries?
  {
    var h := HandOf(st, p, i);
    SetHand(st, p, i, Filled(h.conn)).(eaten := st.eaten[h.conn := At(st.eaten, h.conn) + [h.item.msg]])
  }

  function DoPublish(st: State, s: nat, i: nat): State
    requires HandOf(st, AtServer(s), i).Carries?
  {
    var h := HandOf(st, AtServer(s), i);
    var entry := EntryOf(h.conn, h.item);
    Consumed(st, AtServer(s), i).(
      bqueue := st.bqueue[s := At(st.bqueue, s) + [entry]],
      enq := st.enq[s := At(st.enq, s) + [entry]])
  }

  /** One packet written to each of several connections. */
  function DeliverAll(st: State, targets: seq<Conn>, pkt: Packet): State {
    st.(inbox := SendAll(st.inbox, targets, pkt), log := SendAll(st.log, targets, pkt.msg))
  }

  function DoForward(cfg: Config, st: State, m: nat, i: nat): State
    requires HandOf(st, AtManager(m), i).Carries? && HandOf(st, AtManager(m), i).item.Frame?
  {
    var pkt := HandOf(st, AtManager(m), i).item;
    DeliverAll(Consumed(st, AtManager(m), i), ForwardTargets(cfg, m, pkt.id, At(cfg.servers, m)), pkt)
  }

  /** What a broadcaster does next: take a message, write it to the next manager, copy the
    * target list under the lock, write to the next user, or delete the message. */
  function NextCast(cfg: Config, s: nat, cast: Cast, bqueue: seq<Entry>): Cast
    requires cast.Resting? ==> bqueue != []
  {
    match cast
    case Resting => Relaying(bqueue[0], if bqueue[0].relayed then [] else At(cfg.managers, s))
    case Relaying(e, managers) =>
      if managers != [] then Relaying(e, managers[1..]) else Writing(e, Targets(At(cfg.clients, s), e.src))
    case Writing(e, users) => if users != [] then Writing(e, users[1..]) else Resting
  }

  function QueueAfter(cast: Cast, bqueue: seq<Entry>): seq<Entry>
    requires cast.Resting? ==> bqueue != []
  {
    if cast.Resting? then bqueue[1..] else bqueue
  }

  /** The broadcaster's step, as far as the manager sockets go. */
  function WireAfter(cfg: Config, st: State, s: nat, cast: Cast): (r: State)
    ensures r.pump == st.pump && r.ring == st.ring && r.eaten == st.eaten && r.enq == st.enq && r.sent == st.sent
    ensures !(cast.Relaying? && cast.managers != []) ==> r == st
  {
    if cast.Relaying? && cast.managers != []
    then Deliver(st, Up(s, cast.managers[0]), Frame(cast.entry.msg, Lookup(cfg.stamp, s)))
    else st
  }

  function DoCast(cfg: Config, st: State, s: nat, b: nat): State
    requires CanCast(st, s, b)
  {
    var cast := CastOf(st, s, b);
    WireAfter(cfg, st, s, cast).(
      casts := st.casts[s := At(st.casts, s)[b := NextCast(cfg, s, cast, At(st.bqueue, s))]],
      bqueue := st.bqueue[s := QueueAfter(cast, At(st.bqueue, s))],
      got := if cast.Writing? && cast.users != []
             then st.got[cast.users[0] := At(st.got, cast.users[0]) + [cast.entry]] else st.got)
  }

  function Step(cfg: Config, st: State, e: Event): State
    requires CanStep(cfg, st, e)
  {
    match e
    case Send(u) => DoSend(st, u)
    case Pumping(p, a) => DoPump(cfg, st, p, a)
    case Read(p, i, k) => DoRead(st, p, i, k)
    case Cut(p, i) => DoCut(st, p, i)
    case Publish(s, i) => DoPublish(st, s, i)
    case Forward(m, i) => DoForward(cfg, st, m, i)
    case Casting(s, b) => DoCast(cfg, st, s, b)
  }
}
