/** The methods of ChatServer and ChatManager that write a message out and that keep the client
  * lists, as they run without interruption, and the proof that a broadcaster's single steps in
  * the network model add up to the same writes.
  */
module Broadcasting {
  import opened EventPump
  import opened Sequences
  import opened Network
  import opened NetworkFlow
  import opened NetworkDelivery

  // ---------------------------------------------------------------- specification

  /** The connections from server s to its managers. */
  function Uplinks(s: nat, managers: seq<nat>): seq<Conn> {
    if managers == [] then [] else [Up(s, managers[0])] + Uplinks(s, managers[1..])
  }

  /** Entry e written to each user in turn. */
  function WriteAll(got: map<nat, seq<Entry>>, users: seq<nat>, e: Entry): map<nat, seq<Entry>>
    decreases |users|
  {
    if users == [] then got else WriteAll(got[users[0] := At(got, users[0]) + [e]], users[1..], e)
  }

  lemma {:induction false} WriteAllExact(got: map<nat, seq<Entry>>, users: seq<nat>, e: Entry, u: nat)
    requires Distinct(users)
    ensures At(WriteAll(got, users, e), u) == At(got, u) + (if u in users then [e] else [])
    decreases |users|
  {
    if users != [] { WriteAllExact(got[users[0] := At(got, users[0]) + [e]], users[1..], e, u); }
  }

  lemma {:induction false} UplinksExact(s: nat, managers: seq<nat>, c: Conn)
    requires Distinct(managers)
    ensures Distinct(Uplinks(s, managers)) && (c in Uplinks(s, managers) <==> c.Up? && c.s == s && c.m in managers)
  {
    if managers != [] {
      UplinksExact(s, managers[1..], c);
      UplinksExact(s, managers[1..], Up(s, managers[0]));
      assert managers[0] !in managers[1..];
      assert c.Up? ==> (c.m in managers <==> c.m == managers[0] || c.m in managers[1..]);
    }
  }

  /** Each client but the sender is written to if it is a user, and the targets of a list are those of
    * its parts, in order. */
  lemma {:induction false} TargetsInOrder(a: seq<Conn>, b: seq<Conn>, src: Conn, c: Conn)
    ensures Targets(a + b, src) == Targets(a, src) + Targets(b, src)
    ensures Targets([c], src) == if c.FromUser? && c != src then [c.u] else []
  {
    if a == [] {
      assert a + b == b && Targets(b, src) == [] + Targets(b, src);
    } else {
      var first := if a[0].FromUser? && a[0] != src then [a[0].u] else [];
      TargetsFirst(a + b, src);
      TargetsFirst(a, src);
      assert (a + b)[1..] == a[1..] + b && (a + b)[0] == a[0];
      TargetsInOrder(a[1..], b, src, c);
      hide Targets;
      Regroup(first, Targets(a[1..], src), Targets(b, src));
    }
    TargetsFirst([c], src);
    TargetsNone(src);
  }

  lemma TargetsFirst(q: seq<Conn>, src: Conn)
    requires q != []
    ensures Targets(q, src)
      == (if q[0].FromUser? && q[0] != src then [q[0].u] else []) + Targets(q[1..], src)
  {
  }

  lemma TargetsNone(src: Conn)
    ensures Targets([], src) == []
  {
  }

  // ---------------------------------------------------------------- ChatServer

  /** How the negotiation with one manager goes: no connection, the hello not written, no answer to
    * it, or an answer with the number of users that the manager allows. */
  datatype Negotiation = Refused | Unsent | Unanswered | Answered(maxUser: int)

  /** A pointer in m_lstChatManagerSocket. */
  datatype Link = Null | To(manager: nat)

  /** The pointers that the negotiations return, in the order of the addresses. */
  function Links(addresses: seq<nat>, talks: seq<Negotiation>): seq<Link>
    requires |talks| == |addresses|
  {
    seq(|addresses|, i requires 0 <= i < |addresses| => if talks[i].Answered? then To(addresses[i]) else Null)
  }

  function Managers(links: seq<Link>): seq<nat>
    requires Null !in links
  {
    seq<nat>(|links|, i requires 0 <= i < |links| => links[i].manager)
  }

  /** When all managers answer, the list holds them all, in the order of the addresses. */
  lemma AllAnswer(addresses: seq<nat>, talks: seq<Negotiation>)
    requires |talks| == |addresses|
    ensures Null !in Links(addresses, talks)
      <==> forall i {:trigger talks[i]} :: 0 <= i < |talks| ==> talks[i].Answered?
    ensures Null !in Links(addresses, talks) ==> Managers(Links(addresses, talks)) == addresses
  {
    var links := Links(addresses, talks);
    forall i | 0 <= i < |talks| && Null !in links ensures talks[i].Answered? {
      assert links[i] != Null;
    }
  }

  class ChatServer {
    const id: nat                        // the number of this process in the model
    var uniqId: nat                      // m_uniqId, the id it puts into its frames
    var maxUser: int                     // m_iMaxUser
    var clients: seq<Conn>               // m_lstClient; a manager's client is a Down connection
    var links: seq<Link>                 // m_lstChatManagerSocket
    var connCount: int                   // m_iConnCount
    var armed: set<Conn>                 // the poll set
    var wires: map<Conn, seq<Packet>>    // written to the manager sockets
    var got: map<nat, seq<Entry>>        // written to the users' sockets

    constructor (id: nat, uniqId: nat, maxUser: int, links: seq<Link>)
      ensures this.id == id && this.uniqId == uniqId && this.maxUser == maxUser && this.links == links
      ensures clients == [] && connCount == 0 && armed == {} && wires == map[] && got == map[]
    {
      this.id, this.uniqId, this.maxUser, this.links := id, uniqId, maxUser, links;
      clients, connCount, armed, wires, got := [], 0, {}, map[], map[];
    }

    /** No client twice, the counter in step with the list, only listed clients armed. */
    predicate Valid()
      reads this
    {
      Distinct(clients) && connCount == |clients| && forall c {:trigger c in armed} :: c in armed ==> c in clients
    }

    /** The id that NegotiationWithManager takes and sends as its hello: clock plus process number. */
    method TakeUniqId(time: nat, pid: nat) returns (hello: nat)
      modifies this`uniqId
      ensures hello == uniqId == (time + pid) % 0x1_0000_0000_0000_0000
    {
      uniqId := (time + pid) % 0x1_0000_0000_0000_0000;
      hello := uniqId;
    }

    /** ConnectToMgr: a new id for every manager, read off the clock when its turn comes, whether the
      * negotiation succeeds or not. Frames will carry the last one. */
    method ConnectToMgr(addresses: seq<nat>, times: seq<nat>, pid: nat, talks: seq<Negotiation>)
      returns (hellos: seq<nat>)
      requires |times| == |talks| == |addresses|
      modifies this`uniqId, this`links, this`maxUser
      ensures links == old(links) + Links(addresses, talks)
      ensures forall i {:trigger talks[i]} :: 0 <= i < |talks| && talks[i].Answered? ==>
        (forall j {:trigger talks[j]} :: i < j < |talks| ==> !talks[j].Answered?) ==> maxUser == talks[i].maxUser
      ensures (forall i {:trigger talks[i]} :: 0 <= i < |talks| ==> !talks[i].Answered?) ==> maxUser == old(maxUser)
      ensures hellos == seq(|times|, i requires 0 <= i < |times| => (times[i] + pid) % 0x1_0000_0000_0000_0000)
      ensures uniqId == if addresses == [] then old(uniqId) else hellos[|hellos| - 1]
    {
      hellos := [];
      var i := 0;
      while i < |addresses|
        invariant i <= |addresses| && links == old(links) + Links(addresses[..i], talks[..i])
        invariant forall k {:trigger talks[k]} :: 0 <= k < i && talks[k].Answered? ==>
          (forall j {:trigger talks[j]} :: k < j < i ==> !talks[j].Answered?) ==> maxUser == talks[k].maxUser
        invariant (forall k {:trigger talks[k]} :: 0 <= k < i ==> !talks[k].Answered?) ==> maxUser == old(maxUser)
        invariant hellos == seq(i, j requires 0 <= j < i => (times[j] + pid) % 0x1_0000_0000_0000_0000)
        invariant uniqId == if i == 0 then old(uniqId) else hellos[i - 1]
      {
        var hello := TakeUniqId(times[i], pid);
        hellos := hellos + [hello];
        if talks[i].Answered? { maxUser := talks[i].maxUser; }
        links := links + [if talks[i].Answered? then To(addresses[i]) else Null];
        i := i + 1;
      }
      assert talks[..i] == talks && addresses[..i] == addresses;
    }

    /** MessageBroadcastToManagers: one frame to each manager, in list order. */
    method MessageBroadcastToManagers(message: Entry)
      requires Null !in links
      modifies this`wires
      ensures wires == SendAll(old(wires), Uplinks(id, Managers(links)), Frame(message.msg, uniqId))
    {
      var packet := Frame(message.msg, uniqId);
      ghost var managers := Managers(links);
      var i := 0;
      while i < |links|
        invariant i <= |links|
        invariant SendAll(wires, Uplinks(id, managers[i..]), packet)
          == SendAll(old(wires), Uplinks(id, managers), packet)
      {
        var socket := Up(id, links[i].manager);
        wires := wires[socket := At(wires, socket) + [packet]];
        i := i + 1;
      }
    }

    /** GetBroadcastTargets: the users other than the sender, in list order. */
    method GetBroadcastTargets(message: Entry) returns (targets: seq<nat>)
      ensures targets == Targets(clients, message.src)
    {
      targets := [];
      var i := 0;
      while i < |clients|
        invariant i <= |clients| && targets + Targets(clients[i..], message.src) == Targets(clients, message.src)
      {
        if clients[i].FromUser? && clients[i] != message.src { targets := targets + [clients[i].u]; }
        i := i + 1;
      }
    }

    /** MessageBroadcast: to the managers unless it was relayed, then to the other users. */
    method MessageBroadcast(message: Entry)
      requires message.relayed || Null !in links
      modifies this`wires, this`got
      ensures wires == if message.relayed then old(wires)
        else SendAll(old(wires), Uplinks(id, Managers(links)), Frame(message.msg, uniqId))
      ensures got == WriteAll(old(got), Targets(clients, message.src), message)
    {
      if !message.relayed {
        MessageBroadcastToManagers(message);
      }
      ghost var written := wires;
      var sockets := GetBroadcastTargets(message);
      var i := 0;
      while i < |sockets|
        invariant i <= |sockets| && WriteAll(got, sockets[i..], message) == WriteAll(old(got), sockets, message)
        invariant wires == written
      {
        got := got[sockets[i] := At(got, sockets[i]) + [message]];
        i := i + 1;
      }
    }

    /** AcceptClient; `arms` says whether the poll set takes the connection. */
    method AcceptClient(c: Conn, arms: bool)
      requires Valid() && c !in clients
      modifies this`clients, this`connCount, this`armed
      ensures Valid() && armed == old(armed) + if arms then {c} else {}
      ensures clients == old(clients) + if arms then [c] else []
    {
      connCount := connCount + 1;
      clients := clients + [c];
      if arms {
        armed := armed + {c};
      } else {
        ghost var before := old(clients);
        CloseClient(c);
        WithoutBetween(before, c, []);
      }
    }

    /** CloseClient: out of the poll set and the list, and counted off. */
    method CloseClient(c: Conn)
      requires Valid() && c in clients
      modifies this`clients, this`connCount, this`armed
      ensures Valid() && clients == Without(old(clients), c) && armed == old(armed) - {c}
      ensures forall a, b :: old(clients) == a + [c] + b ==> clients == a + b
    {
      armed := armed - {c};
      WithoutExact(clients, c);
      forall a, b | clients == a + [c] + b ensures Without(clients, c) == a + b {
        AppearsOnce(a, c, b);
        WithoutBetween(a, c, b);
      }
      clients := Without(clients, c);
      connCount := connCount - 1;
    }

    /** One round of ThreadAcceptor::Run with a connection waiting. */
    method AcceptorRound(c: Conn, arms: bool) returns (accepted: bool)
      requires Valid() && c !in clients && c.FromUser?
      modifies this`clients, this`connCount, this`armed
      ensures Valid() && accepted == (|old(clients)| < maxUser)
      ensures clients == old(clients) + if accepted && arms then [c] else []
      ensures |old(clients)| <= maxUser ==> |clients| <= maxUser
    {
      accepted := !(connCount >= maxUser);
      if accepted { AcceptClient(c, arms); }
    }

    /** RegisterManager: every manager socket that the poll set takes becomes a client, with no test
      * of the limit; `arms` says which it takes. */
    method RegisterManager(arms: nat -> bool)
      requires Valid() && Null !in links && Distinct(Managers(links))
      requires forall m :: m in Managers(links) ==> Down(m, id) !in clients
      modifies this`clients, this`connCount, this`armed
      ensures Valid() && clients == old(clients) + Downlinks(id, Filter(arms, Managers(links)))
    {
      ghost var managers := Managers(links);
      var i := 0;
      assert managers[..0] == [];
      while i < |links|
        invariant i <= |links| && Valid() && clients == old(clients) + Downlinks(id, Filter(arms, managers[..i]))
        invariant forall j {:trigger managers[j]} :: i <= j < |managers| ==> Down(managers[j], id) !in clients
      {
        RegisterNext(id, arms, managers, i, old(clients));
        AcceptClient(Down(links[i].manager, id), arms(links[i].manager));
        i := i + 1;
      }
      assert managers[..i] == managers;
    }
  }

  lemma RegisterNext(s: nat, arms: nat -> bool, managers: seq<nat>, i: nat, clients: seq<Conn>)
    requires i < |managers|
    ensures clients + Downlinks(s, Filter(arms, managers[..i + 1]))
      == clients + Downlinks(s, Filter(arms, managers[..i])) + if arms(managers[i]) then [Down(managers[i], s)] else []
  {
    var kept := Filter(arms, managers[..i]);
    assert managers[..i + 1] == managers[..i] + [managers[i]];
    FilterSnoc(arms, managers[..i], managers[i]);
    assert kept + [] == kept;
    DownlinksSnoc(s, kept, managers[i]);
  }

  lemma {:induction false} DownlinksSnoc(s: nat, managers: seq<nat>, m: nat)
    ensures Downlinks(s, managers + [m]) == Downlinks(s, managers) + [Down(m, s)]
  {
    if managers == [] {
      assert managers + [m] == [m];
    } else {
      DownlinksSnoc(s, managers[1..], m);
      assert (managers + [m])[1..] == managers[1..] + [m];
    }
  }

  function Downlinks(s: nat, managers: seq<nat>): seq<Conn> {
    if managers == [] then [] else [Down(managers[0], s)] + Downlinks(s, managers[1..])
  }

  // ---------------------------------------------------------------- ChatManager

  lemma ForwardNext(wires: map<Conn, seq<Packet>>, cfg: Config, m: nat, packet: Packet, servers: seq<nat>)
    requires packet.Frame? && servers != []
    ensures SendAll(wires, ForwardTargets(cfg, m, packet.id, servers), packet)
      == SendAll(if Forwards(cfg, m, packet.id, servers[0])
                 then wires[Down(m, servers[0]) := At(wires, Down(m, servers[0])) + [packet]] else wires,
                 ForwardTargets(cfg, m, packet.id, servers[1..]), packet)
  {
    var rest := ForwardTargets(cfg, m, packet.id, servers[1..]);
    assert [] + rest == rest && ([Down(m, servers[0])] + rest)[1..] == rest;
  }

  class ChatManager {
    const id: nat
    var servers: seq<nat>                // m_lstChatServer
    var uniqIds: map<(nat, nat), nat>    // m_uniqId of each ClientChatServer, under (id, server)
    var wires: map<Conn, seq<Packet>>    // written to the servers' sockets

    constructor (id: nat)
      ensures this.id == id && servers == [] && uniqIds == map[] && wires == map[]
    {
      this.id := id;
      servers, uniqIds, wires := [], map[], map[];
    }

    /** The part of WorkChatServerHello that records the server's id. */
    method WorkChatServerHello(s: nat, uniqId: nat)
      modifies this`uniqIds
      ensures uniqIds == old(uniqIds)[(id, s) := uniqId]
    {
      uniqIds := uniqIds[(id, s) := uniqId];
    }

    /** MessageBroadcast: the frame goes on to each server whose recorded id, through the `int` of
      * GetUniqId, differs from the id in the frame. */
    method MessageBroadcast(packet: Packet, ghost cfg: Config)
      requires packet.Frame? && cfg.hello == uniqIds
      modifies this`wires
      ensures wires == SendAll(old(wires), ForwardTargets(cfg, id, packet.id, servers), packet)
    {
      var i := 0;
      while i < |servers|
        invariant i <= |servers|
        invariant SendAll(wires, ForwardTargets(cfg, id, packet.id, servers[i..]), packet)
          == SendAll(old(wires), ForwardTargets(cfg, id, packet.id, servers), packet)
      {
        ForwardNext(wires, cfg, id, packet, servers[i..]);
        if Narrow(Lookup(uniqIds, (id, servers[i]))) != packet.id {
          var socket := Down(id, servers[i]);
          wires := wires[socket := At(wires, socket) + [packet]];
        }
        i := i + 1;
      }
    }
  }

  lemma RecordedId(cfg: Config, before: map<(nat, nat), nat>, m: nat, s: nat, uniqId: nat, id: nat)
    requires cfg.hello == before[(m, s) := uniqId]
    ensures Forwards(cfg, m, id, s) <==> Narrow(uniqId) != id
    ensures uniqId < 0x8000_0000 ==> Narrow(uniqId) == uniqId
  {
  }

  /** After a hello, frames with some id reach that server through this manager exactly when the id is
    * not the recorded one as GetUniqId yields it; so with a recorded id below 2^31 the server's own
    * frames are not sent back to it. */
  lemma HelloStopsEcho(cfg: Config, before: map<(nat, nat), nat>, m: nat, s: nat, uniqId: nat, packet: Packet,
                       wires: map<Conn, seq<Packet>>, servers: seq<nat>)
    requires packet.Frame? && Distinct(servers) && s in servers && cfg.hello == before[(m, s) := uniqId]
    ensures var after := SendAll(wires, ForwardTargets(cfg, m, packet.id, servers), packet);
      && At(after, Down(m, s)) == At(wires, Down(m, s)) + (if Narrow(uniqId) != packet.id then [packet] else [])
      && (uniqId < 0x8000_0000 && packet.id == uniqId ==> At(after, Down(m, s)) == At(wires, Down(m, s)))
  {
    RecordedId(cfg, before, m, s, uniqId, packet.id);
    hide Forwards, Narrow, SendAll, ForwardTargets, Distinct, At;
    var targets := ForwardTargets(cfg, m, packet.id, servers);
    ForwardTargetsExact(cfg, m, packet.id, servers);
    assert Down(m, s) in targets <==> Forwards(cfg, m, packet.id, s);
    SendAllExact(wires, targets, packet, Down(m, s));
    assert At(wires, Down(m, s)) + [] == At(wires, Down(m, s));
  }

  /** With ids below 2^31, a manager echoes a server's frames exactly when the id in the hello that it
    * got is not the id in the last hello, which is the one stamped. */
  lemma EchoAfterConnect(cfg: Config, s: nat, addresses: seq<nat>, hellos: seq<nat>, i: nat)
    requires i < |addresses| == |hellos|
    requires forall j {:trigger hellos[j]} :: 0 <= j < |hellos| ==> hellos[j] < 0x8000_0000
    requires Lookup(cfg.hello, (addresses[i], s)) == hellos[i] && Lookup(cfg.stamp, s) == hellos[|hellos| - 1]
    ensures Forwards(cfg, addresses[i], Lookup(cfg.stamp, s), s) <==> hellos[i] != hellos[|hellos| - 1]
  {
    EchoExact(cfg, addresses[i], s);
  }

  // ---------------------------------------------------------------- single steps add up

  /** Broadcaster b of server s takes n steps in a row. */
  function Steps(s: nat, b: nat, n: nat): seq<Event> {
    if n == 0 then [] else [Casting(s, b)] + Steps(s, b, n - 1)
  }

  /** Everything but the sockets written to and broadcaster b is as before. */
  predicate OnlyWrites(st: State, st': State, s: nat, b: nat, cast: Cast) {
    && st'.pump == st.pump && st'.ring == st.ring && st'.eaten == st.eaten && st'.enq == st.enq && st'.sent == st.sent
    && b < |At(st.casts, s)| && At(st'.casts, s) == At(st.casts, s)[b := cast] && At(st'.bqueue, s) == At(st.bqueue, s)
  }

  lemma StepsFirst(cfg: Config, st: State, s: nat, b: nat, n: nat)
    requires CanStep(cfg, st, Casting(s, b)) && IsRun(cfg, Step(cfg, st, Casting(s, b)), Steps(s, b, n))
    ensures IsRun(cfg, st, Steps(s, b, n + 1))
    ensures StateAfter(cfg, st, Steps(s, b, n + 1)) == StateAfter(cfg, Step(cfg, st, Casting(s, b)), Steps(s, b, n))
  {
  }

  lemma {:induction false} StepsJoin(cfg: Config, st: State, s: nat, b: nat, i: nat, j: nat)
    requires IsRun(cfg, st, Steps(s, b, i)) && IsRun(cfg, StateAfter(cfg, st, Steps(s, b, i)), Steps(s, b, j))
    ensures IsRun(cfg, st, Steps(s, b, i + j))
    ensures StateAfter(cfg, st, Steps(s, b, i + j))
      == StateAfter(cfg, StateAfter(cfg, st, Steps(s, b, i)), Steps(s, b, j))
    decreases i
  {
    hide CanStep, Step;
    if i > 0 {
      assert Steps(s, b, i)[1..] == Steps(s, b, i - 1) && Steps(s, b, i)[0] == Casting(s, b);
      StepsJoin(cfg, Step(cfg, st, Casting(s, b)), s, b, i - 1, j);
      StepsFirst(cfg, st, s, b, i - 1 + j);
    }
  }

  lemma WriteStep(cfg: Config, st: State, s: nat, b: nat, e: Entry, users: seq<nat>)
    requires b < |At(st.casts, s)| && CastOf(st, s, b) == Writing(e, users)
    ensures CanCast(st, s, b)
    ensures var st' := DoCast(cfg, st, s, b);
      && OnlyWrites(st, st', s, b, if users == [] then Resting else Writing(e, users[1..]))
      && st'.inbox == st.inbox
      && st'.got == if users == [] then st.got else st.got[users[0] := At(st.got, users[0]) + [e]]
  {
  }

  /** From st to st' broadcaster b has written e to `users` and deleted it. */
  predicate WriteDone(st: State, st': State, s: nat, b: nat, e: Entry, users: seq<nat>) {
    OnlyWrites(st, st', s, b, Resting) && st'.inbox == st.inbox && st'.got == WriteAll(st.got, users, e)
  }

  lemma WriteThenWrite(st: State, mid: State, st': State, s: nat, b: nat, e: Entry, users: seq<nat>)
    requires users != [] && OnlyWrites(st, mid, s, b, Writing(e, users[1..])) && mid.inbox == st.inbox
    requires mid.got == st.got[users[0] := At(st.got, users[0]) + [e]] && WriteDone(mid, st', s, b, e, users[1..])
    ensures WriteDone(st, st', s, b, e, users)
  {
  }

  /** From the copied target list to the end, one user at a time. */
  lemma {:induction false} WritingSteps(cfg: Config, st: State, s: nat, b: nat, e: Entry, users: seq<nat>)
    requires b < |At(st.casts, s)| && CastOf(st, s, b) == Writing(e, users)
    ensures IsRun(cfg, st, Steps(s, b, |users| + 1))
    ensures WriteDone(st, StateAfter(cfg, st, Steps(s, b, |users| + 1)), s, b, e, users)
    decreases |users|
  {
    WriteStep(cfg, st, s, b, e, users);
    var next := DoCast(cfg, st, s, b);
    assert CanStep(cfg, st, Casting(s, b)) && Step(cfg, st, Casting(s, b)) == next;
    hide DoCast, CanStep, Step, SendAll;
    if users != [] {
      WritingSteps(cfg, next, s, b, e, users[1..]);
      WriteThenWrite(st, next, StateAfter(cfg, next, Steps(s, b, |users|)), s, b, e, users);
    }
    StepsFirst(cfg, st, s, b, |users|);
  }

  lemma RelayStep(cfg: Config, st: State, s: nat, b: nat, e: Entry, managers: seq<nat>)
    requires b < |At(st.casts, s)| && CastOf(st, s, b) == Relaying(e, managers)
    ensures CanCast(st, s, b)
    ensures var st' := DoCast(cfg, st, s, b);
      && OnlyWrites(st, st', s, b,
           if managers == [] then Writing(e, Targets(At(cfg.clients, s), e.src)) else Relaying(e, managers[1..]))
      && st'.got == st.got
      && st'.inbox == if managers == [] then st.inbox
           else st.inbox[Up(s, managers[0]) := At(st.inbox, Up(s, managers[0])) + [Frame(e.msg, Lookup(cfg.stamp, s))]]
  {
  }

  /** From st to st' broadcaster b has written e to `managers` and copied its target list. */
  predicate RelayDone(cfg: Config, st: State, st': State, s: nat, b: nat, e: Entry, managers: seq<nat>) {
    && OnlyWrites(st, st', s, b, Writing(e, Targets(At(cfg.clients, s), e.src))) && st'.got == st.got
    && st'.inbox == SendAll(st.inbox, Uplinks(s, managers), Frame(e.msg, Lookup(cfg.stamp, s)))
  }

  lemma RelayThenRelay(cfg: Config, st: State, mid: State, st': State, s: nat, b: nat, e: Entry, managers: seq<nat>)
    requires managers != [] && OnlyWrites(st, mid, s, b, Relaying(e, managers[1..])) && mid.got == st.got
    requires mid.inbox
      == st.inbox[Up(s, managers[0]) := At(st.inbox, Up(s, managers[0])) + [Frame(e.msg, Lookup(cfg.stamp, s))]]
    requires RelayDone(cfg, mid, st', s, b, e, managers[1..])
    ensures RelayDone(cfg, st, st', s, b, e, managers)
  {
  }

  /** The broadcaster's next step, when there are managers left to write to and when there are none. */
  lemma RelayNext(cfg: Config, st: State, s: nat, b: nat, e: Entry, managers: seq<nat>) returns (next: State)
    requires b < |At(st.casts, s)| && CastOf(st, s, b) == Relaying(e, managers)
    ensures CanStep(cfg, st, Casting(s, b)) && next == Step(cfg, st, Casting(s, b))
    ensures managers == [] ==> RelayDone(cfg, st, next, s, b, e, [])
    ensures managers != [] ==>
      && b < |At(next.casts, s)| && CastOf(next, s, b) == Relaying(e, managers[1..])
      && forall st' :: RelayDone(cfg, next, st', s, b, e, managers[1..]) ==> RelayDone(cfg, st, st', s, b, e, managers)
  {
    RelayStep(cfg, st, s, b, e, managers);
    next := DoCast(cfg, st, s, b);
    hide DoCast, Targets;
    forall st' | managers != [] && RelayDone(cfg, next, st', s, b, e, managers[1..])
      ensures RelayDone(cfg, st, st', s, b, e, managers)
    {
      RelayThenRelay(cfg, st, next, st', s, b, e, managers);
    }
  }

  /** The frames to the managers, one at a time, and copying the target list. */
  lemma {:induction false} RelayingSteps(cfg: Config, st: State, s: nat, b: nat, e: Entry, managers: seq<nat>)
    requires b < |At(st.casts, s)| && CastOf(st, s, b) == Relaying(e, managers)
    ensures IsRun(cfg, st, Steps(s, b, |managers| + 1))
    ensures RelayDone(cfg, st, StateAfter(cfg, st, Steps(s, b, |managers| + 1)), s, b, e, managers)
    decreases |managers|
  {
    hide CastOf, CanStep, Step, RelayDone;
    var next := RelayNext(cfg, st, s, b, e, managers);
    if managers != [] { RelayingSteps(cfg, next, s, b, e, managers[1..]); }
    StepsFirst(cfg, st, s, b, |managers|);
  }

  lemma TakeStep(cfg: Config, st: State, s: nat, b: nat)
    requires b < |At(st.casts, s)| && CastOf(st, s, b).Resting? && At(st.bqueue, s) != []
    ensures var e, st' := At(st.bqueue, s)[0], DoCast(cfg, st, s, b);
      && st'.inbox == st.inbox && st'.got == st.got && At(st'.bqueue, s) == At(st.bqueue, s)[1..]
      && |At(st'.casts, s)| == |At(st.casts, s)|
      && CastOf(st', s, b) == Relaying(e, if e.relayed then [] else At(cfg.managers, s))
  {
  }

  /** What MessageBroadcast does with the first entry of the queue. */
  predicate Broadcast(cfg: Config, st: State, st': State, s: nat, b: nat)
    requires At(st.bqueue, s) != []
  {
    var e := At(st.bqueue, s)[0];
    var managers := if e.relayed then [] else At(cfg.managers, s);
    && st'.inbox == SendAll(st.inbox, Uplinks(s, managers), Frame(e.msg, Lookup(cfg.stamp, s)))
    && st'.got == WriteAll(st.got, Targets(At(cfg.clients, s), e.src), e)
    && CastOf(st', s, b).Resting? && At(st'.bqueue, s) == At(st.bqueue, s)[1..]
  }

  lemma PartsMakeBroadcast(cfg: Config, st: State, copied: State, st': State, s: nat, b: nat)
    requires b < |At(st.casts, s)| && CastOf(st, s, b).Resting? && At(st.bqueue, s) != []
    requires var e := At(st.bqueue, s)[0];
      && RelayDone(cfg, DoCast(cfg, st, s, b), copied, s, b, e, if e.relayed then [] else At(cfg.managers, s))
      && WriteDone(copied, st', s, b, e, Targets(At(cfg.clients, s), e.src))
    ensures Broadcast(cfg, st, st', s, b)
  {
  }

  lemma RelayedCast(cfg: Config, st: State, st': State, s: nat, b: nat, e: Entry, managers: seq<nat>)
    requires RelayDone(cfg, st, st', s, b, e, managers)
    ensures b < |At(st'.casts, s)| && CastOf(st', s, b) == Writing(e, Targets(At(cfg.clients, s), e.src))
  {
  }

  lemma AfterTaking(cfg: Config, st: State, s: nat, b: nat, e: Entry, managers: seq<nat>)
    returns (n: nat, copied: State)
    requires b < |At(st.casts, s)| && CastOf(st, s, b) == Relaying(e, managers)
    ensures IsRun(cfg, st, Steps(s, b, n)) && RelayDone(cfg, st, copied, s, b, e, managers)
    ensures WriteDone(copied, StateAfter(cfg, st, Steps(s, b, n)), s, b, e, Targets(At(cfg.clients, s), e.src))
  {
    hide Targets, CastOf, WriteDone, RelayDone, IsRun, StateAfter, Steps;
    RelayingSteps(cfg, st, s, b, e, managers);
    copied := StateAfter(cfg, st, Steps(s, b, |managers| + 1));
    RelayedCast(cfg, st, copied, s, b, e, managers);
    var users := Targets(At(cfg.clients, s), e.src);
    WritingSteps(cfg, copied, s, b, e, users);
    StepsJoin(cfg, st, s, b, |managers| + 1, |users| + 1);
    n := |managers| + 1 + (|users| + 1);
  }

  /** From taking a message to deleting it, a broadcaster's single steps write exactly what
    * MessageBroadcast writes. */
  lemma StepsMatchMethod(cfg: Config, st: State, s: nat, b: nat) returns (n: nat)
    requires b < |At(st.casts, s)| && CastOf(st, s, b).Resting? && At(st.bqueue, s) != []
    ensures IsRun(cfg, st, Steps(s, b, n)) && Broadcast(cfg, st, StateAfter(cfg, st, Steps(s, b, n)), s, b)
  {
    var e := At(st.bqueue, s)[0];
    TakeStep(cfg, st, s, b);
    var taken := DoCast(cfg, st, s, b);
    assert CanStep(cfg, st, Casting(s, b)) && Step(cfg, st, Casting(s, b)) == taken;
    hide DoCast, Targets, CanStep, Step, RelayDone, WriteDone, Broadcast, IsRun, StateAfter, Steps;
    var k, copied := AfterTaking(cfg, taken, s, b, e, if e.relayed then [] else At(cfg.managers, s));
    StepsFirst(cfg, st, s, b, k);
    n := k + 1;
    PartsMakeBroadcast(cfg, st, copied, StateAfter(cfg, st, Steps(s, b, n)), s, b);
  }
}
