/** Per-sender order: when each server has one broadcaster thread, and any number of receivers
  * and workers run beside it, what a user receives from another user over one route is always a
  * gap-free beginning of what that user sent, in sending order, in every interleaving.
  */
module NetworkOrder {
  import opened EventPump
  import opened Sequences
  import opened Network
  import opened NetworkFlow
  import opened NetworkHops
  import opened NetworkInv
  import opened NetworkDelivery

  function Unrelayed(): Entry -> bool { (e: Entry) => !e.relayed }

  function NotFrom(u: nat): Entry -> bool { (e: Entry) => e.src != FromUser(u) }

  // ---------------------------------------------------------------- one broadcaster

  /** What has left the broadcast queue. */
  function Done(enq: seq<Entry>, bqueue: seq<Entry>): seq<Entry>
    requires |bqueue| <= |enq|
  {
    enq[..|enq| - |bqueue|]
  }

  /** `done` without its last entry while the broadcaster still owes that one. */
  function Settled(done: seq<Entry>, owes: bool): seq<Entry> {
    if owes && done != [] then done[..|done| - 1] else done
  }

  predicate OwesManager(cast: Cast, m: nat) {
    cast.Relaying? && m in cast.managers
  }

  predicate OwesUser(cast: Cast, u: nat) {
    cast.Relaying? || (cast.Writing? && u in cast.users)
  }

  /** The broadcaster works on the entry that left the queue last. */
  predicate OnLast(done: seq<Entry>, cast: Cast) {
    !cast.Resting? ==> done != [] && done[|done| - 1] == cast.entry
  }

  /** Manager m has been sent the server's own messages, in queue order. */
  predicate ManagerInOrder(m: nat, log: seq<Msg>, done: seq<Entry>, cast: Cast) {
    log == EntryMsgs(Filter(Unrelayed(), Settled(done, OwesManager(cast, m))))
  }

  /** User u has been sent the entries that are not its own, in queue order. */
  predicate UserInOrder(u: nat, got: seq<Entry>, done: seq<Entry>, cast: Cast) {
    got == Filter(NotFrom(u), Settled(done, OwesUser(cast, u)))
  }

  function DoneAfter(done: seq<Entry>, cast: Cast, bqueue: seq<Entry>): seq<Entry>
    requires cast.Resting? ==> bqueue != []
  {
    if cast.Resting? then done + [bqueue[0]] else done
  }

  lemma DoneStep(enq: seq<Entry>, bqueue: seq<Entry>, cast: Cast)
    requires |bqueue| <= |enq| && bqueue == enq[|enq| - |bqueue|..] && (cast.Resting? ==> bqueue != [])
    ensures Done(enq, QueueAfter(cast, bqueue)) == DoneAfter(Done(enq, bqueue), cast, bqueue)
  {
  }

  lemma OnLastStep(cfg: Config, s: nat, done: seq<Entry>, cast: Cast, bqueue: seq<Entry>)
    requires OnLast(done, cast) && (cast.Resting? ==> bqueue != [])
    ensures OnLast(DoneAfter(done, cast, bqueue), NextCast(cfg, s, cast, bqueue))
  {
  }

  lemma ManagerStep(cfg: Config, s: nat, m: nat, log: seq<Msg>, done: seq<Entry>, cast: Cast, bqueue: seq<Entry>)
    requires WellCast(cfg, s, cast) && m in At(cfg.managers, s) && OnLast(done, cast)
    requires cast.Resting? ==> bqueue != []
    requires ManagerInOrder(m, log, done, cast)
    ensures ManagerInOrder(m, log + RelayedTo(cast, m), DoneAfter(done, cast, bqueue), NextCast(cfg, s, cast, bqueue))
  {
    var f := Unrelayed();
    assert log + [] == log;
    match cast
    case Resting =>
      FilterSnoc(f, done, bqueue[0]);
      assert Settled(done + [bqueue[0]], true) == done;
      assert Filter(f, done) + [] == Filter(f, done);
    case Relaying(e, managers) =>
      if managers != [] { ManagerWritten(m, log, done, e, managers); }
    case Writing(_, _) =>
  }

  lemma SettleLast(done: seq<Entry>)
    requires done != [] && !done[|done| - 1].relayed
    ensures EntryMsgs(Filter(Unrelayed(), done))
      == EntryMsgs(Filter(Unrelayed(), done[..|done| - 1])) + [done[|done| - 1].msg]
  {
    var before, e := done[..|done| - 1], done[|done| - 1];
    assert done == before + [e];
    FilterSnoc(Unrelayed(), before, e);
    EntryMsgsSnoc(Filter(Unrelayed(), before), e);
  }

  /** Writing to the next manager settles the message for that manager and for no other. */
  lemma ManagerWritten(m: nat, log: seq<Msg>, done: seq<Entry>, e: Entry, managers: seq<nat>)
    requires managers != [] && Distinct(managers) && done != [] && done[|done| - 1] == e && !e.relayed
    requires ManagerInOrder(m, log, done, Relaying(e, managers))
    ensures ManagerInOrder(m, log + RelayedTo(Relaying(e, managers), m), done, Relaying(e, managers[1..]))
  {
    SettleLast(done);
    hide Filter, EntryMsgs, Unrelayed;
    assert m in managers <==> m == managers[0] || m in managers[1..];
    assert managers[0] !in managers[1..];
    assert log + [] == log;
  }

  lemma UserStep(cfg: Config, s: nat, u: nat, got: seq<Entry>, done: seq<Entry>, cast: Cast, bqueue: seq<Entry>)
    requires Sane(cfg) && WellCast(cfg, s, cast) && FromUser(u) in At(cfg.clients, s) && OnLast(done, cast)
    requires cast.Resting? ==> bqueue != []
    requires UserInOrder(u, got, done, cast)
    ensures UserInOrder(u, got + WrittenTo(cast, u), DoneAfter(done, cast, bqueue), NextCast(cfg, s, cast, bqueue))
  {
    assert got + [] == got;
    match cast
    case Resting =>
      assert Settled(done + [bqueue[0]], true) == done;
    case Relaying(e, managers) =>
      if managers == [] { UserAimed(cfg, s, u, done, e); }
    case Writing(e, users) =>
      if users != [] { UserWritten(u, got, done, e, users); }
  }

  /** Writing to the next user settles the entry for that user and for no other. */
  lemma UserWritten(u: nat, got: seq<Entry>, done: seq<Entry>, e: Entry, users: seq<nat>)
    requires users != [] && Distinct(users) && done != [] && done[|done| - 1] == e
    requires users[0] == u ==> e.src != FromUser(u)
    requires UserInOrder(u, got, done, Writing(e, users))
    ensures UserInOrder(u, got + WrittenTo(Writing(e, users), u), done, Writing(e, users[1..]))
  {
    assert u in users <==> u == users[0] || u in users[1..];
    assert users[0] !in users[1..];
    var before := done[..|done| - 1];
    assert done == before + [e];
    FilterSnoc(NotFrom(u), before, e);
    assert got + [] == got;
  }

  /** Copying the target list owes the entry to exactly the users that it is not from. */
  lemma UserAimed(cfg: Config, s: nat, u: nat, done: seq<Entry>, e: Entry)
    requires Sane(cfg) && FromUser(u) in At(cfg.clients, s) && done != [] && done[|done| - 1] == e
    ensures Filter(NotFrom(u), Settled(done, true))
      == Filter(NotFrom(u), Settled(done, OwesUser(Writing(e, Targets(At(cfg.clients, s), e.src)), u)))
  {
    var before := done[..|done| - 1];
    TargetsExact(At(cfg.clients, s), e.src);
    assert done == before + [e];
    FilterSnoc(NotFrom(u), before, e);
    assert Filter(NotFrom(u), before) + [] == Filter(NotFrom(u), before);
  }

  // ---------------------------------------------------------------- the invariant

  ghost predicate OneCaster(st: State) {
    forall s {:trigger At(st.casts, s)} :: |At(st.casts, s)| <= 1
  }

  predicate ServerInOrder(st: State, s: nat) {
    |At(st.bqueue, s)| <= |At(st.enq, s)| && OnLast(Done(At(st.enq, s), At(st.bqueue, s)), CastOf(st, s, 0))
  }

  predicate ManagerSettled(st: State, s: nat, m: nat) {
    && ServerInOrder(st, s)
    && ManagerInOrder(m, At(st.log, Up(s, m)), Done(At(st.enq, s), At(st.bqueue, s)), CastOf(st, s, 0))
  }

  predicate UserSettled(st: State, s: nat, u: nat) {
    && ServerInOrder(st, s)
    && UserInOrder(u, At(st.got, u), Done(At(st.enq, s), At(st.bqueue, s)), CastOf(st, s, 0))
  }

  ghost predicate InOrder(cfg: Config, st: State) {
    && OneCaster(st)
    && (forall s {:trigger ServerInOrder(st, s)} :: ServerInOrder(st, s))
    && (forall s, m {:trigger Up(s, m)} :: Up(s, m) in cfg.conns ==> ManagerSettled(st, s, m))
    && (forall u {:trigger FromUser(u)} :: FromUser(u) in cfg.conns ==> UserSettled(st, Lookup(cfg.home, u), u))
  }

  lemma DoneQueued(enq: seq<Entry>, bqueue: seq<Entry>, queued: seq<Entry>)
    requires |bqueue| <= |enq|
    ensures Done(enq + queued, bqueue + queued) == Done(enq, bqueue)
  {
  }

  /** The broadcaster's step, in terms of what has left the queue. */
  predicate CastMoves(cfg: Config, st: State, st': State, s: nat)
    requires |At(st.bqueue, s)| <= |At(st.enq, s)| && |At(st'.bqueue, s)| <= |At(st'.enq, s)|
  {
    var bqueue, cast := At(st.bqueue, s), CastOf(st, s, 0);
    && (cast.Resting? ==> bqueue != [])
    && Done(At(st'.enq, s), At(st'.bqueue, s)) == DoneAfter(Done(At(st.enq, s), bqueue), cast, bqueue)
    && CastOf(st', s, 0) == NextCast(cfg, s, cast, bqueue)
  }

  lemma DoneWhenCast(cfg: Config, st: State, st': State, s: nat, b: nat)
    requires |At(st.casts, s)| <= 1 && ServerMoves(cfg, st, st', s, [], b)
    requires TypedAt(cfg, s, At(st.enq, s), At(st.bqueue, s), At(st.casts, s))
    ensures b == 0 && |At(st.casts, s)| == 1 && |At(st'.casts, s)| == 1
    ensures |At(st'.bqueue, s)| <= |At(st'.enq, s)| && CastMoves(cfg, st, st', s)
  {
    assert At(st.enq, s) + [] == At(st.enq, s);
    DoneStep(At(st.enq, s), At(st.bqueue, s), At(st.casts, s)[0]);
  }

  lemma DoneWhenQueued(cfg: Config, st: State, st': State, s: nat, queued: seq<Entry>, b: int)
    requires b < 0 && ServerMoves(cfg, st, st', s, queued, b) && |At(st.bqueue, s)| <= |At(st.enq, s)|
    ensures |At(st'.bqueue, s)| <= |At(st'.enq, s)| && At(st'.casts, s) == At(st.casts, s)
    ensures Done(At(st'.enq, s), At(st'.bqueue, s)) == Done(At(st.enq, s), At(st.bqueue, s))
  {
    DoneQueued(At(st.enq, s), At(st.bqueue, s), queued);
  }

  /** The state of server s after an event, in terms of its one broadcaster. */
  lemma DoneMoves(cfg: Config, st: State, st': State, s: nat, queued: seq<Entry>, b: int)
    requires |At(st.casts, s)| <= 1 && ServerMoves(cfg, st, st', s, queued, b)
    requires TypedAt(cfg, s, At(st.enq, s), At(st.bqueue, s), At(st.casts, s))
    ensures |At(st'.bqueue, s)| <= |At(st'.enq, s)| && |At(st'.casts, s)| <= 1
    ensures b < 0 ==>
      && Done(At(st'.enq, s), At(st'.bqueue, s)) == Done(At(st.enq, s), At(st.bqueue, s))
      && CastOf(st', s, 0) == CastOf(st, s, 0)
    ensures b >= 0 ==> b == 0 && |At(st.casts, s)| == 1 && CastMoves(cfg, st, st', s)
  {
    if b < 0 {
      DoneWhenQueued(cfg, st, st', s, queued, b);
    } else {
      DoneWhenCast(cfg, st, st', s, b);
    }
  }

  lemma ServerInOrderKept(cfg: Config, st: State, e: Event, s: nat)
    requires Inv(cfg, st) && InOrder(cfg, st) && CanStep(cfg, st, e)
    ensures ServerInOrder(Step(cfg, st, e), s) && |At(Step(cfg, st, e).casts, s)| <= 1
  {
    var st' := Step(cfg, st, e);
    assert ServerInOrder(st, s);
    assert TypedAt(cfg, s, At(st.enq, s), At(st.bqueue, s), At(st.casts, s));
    ServerStep(cfg, st, e, s);
    DoneMoves(cfg, st, st', s, QueuedBy(st, e, s), CasterAt(e, s));
    if CasterAt(e, s) >= 0 {
      OnLastStep(cfg, s, Done(At(st.enq, s), At(st.bqueue, s)), CastOf(st, s, 0), At(st.bqueue, s));
    }
  }

  lemma ManagerMoves(cfg: Config, st: State, st': State, s: nat, m: nat, queued: seq<Entry>, b: int)
    requires ServerInOrder(st, s) && ServerInOrder(st', s) && |At(st.casts, s)| <= 1 && m in At(cfg.managers, s)
    requires TypedAt(cfg, s, At(st.enq, s), At(st.bqueue, s), At(st.casts, s))
    requires ServerMoves(cfg, st, st', s, queued, b)
    requires At(st'.log, Up(s, m)) == At(st.log, Up(s, m)) + ToManager(st, s, b, m)
    requires ManagerInOrder(m, At(st.log, Up(s, m)), Done(At(st.enq, s), At(st.bqueue, s)), CastOf(st, s, 0))
    ensures ManagerInOrder(m, At(st'.log, Up(s, m)), Done(At(st'.enq, s), At(st'.bqueue, s)), CastOf(st', s, 0))
  {
    DoneMoves(cfg, st, st', s, queued, b);
    if b >= 0 {
      ManagerStep(cfg, s, m, At(st.log, Up(s, m)), Done(At(st.enq, s), At(st.bqueue, s)), CastOf(st, s, 0),
                  At(st.bqueue, s));
    } else {
      assert At(st.log, Up(s, m)) + [] == At(st.log, Up(s, m));
    }
  }

  lemma UserMoves(cfg: Config, st: State, st': State, s: nat, u: nat, queued: seq<Entry>, b: int)
    requires Sane(cfg) && ServerInOrder(st, s) && ServerInOrder(st', s)
    requires |At(st.casts, s)| <= 1 && FromUser(u) in At(cfg.clients, s)
    requires TypedAt(cfg, s, At(st.enq, s), At(st.bqueue, s), At(st.casts, s))
    requires ServerMoves(cfg, st, st', s, queued, b)
    requires At(st'.got, u) == At(st.got, u) + ToUser(st, s, b, u)
    requires UserInOrder(u, At(st.got, u), Done(At(st.enq, s), At(st.bqueue, s)), CastOf(st, s, 0))
    ensures UserInOrder(u, At(st'.got, u), Done(At(st'.enq, s), At(st'.bqueue, s)), CastOf(st', s, 0))
  {
    DoneMoves(cfg, st, st', s, queued, b);
    if b >= 0 {
      UserStep(cfg, s, u, At(st.got, u), Done(At(st.enq, s), At(st.bqueue, s)), CastOf(st, s, 0), At(st.bqueue, s));
    } else {
      assert At(st.got, u) + [] == At(st.got, u);
    }
  }

  lemma ManagerInOrderKept(cfg: Config, st: State, e: Event, s: nat, m: nat)
    requires Inv(cfg, st) && InOrder(cfg, st) && CanStep(cfg, st, e) && Up(s, m) in cfg.conns
    ensures ManagerSettled(Step(cfg, st, e), s, m)
  {
    ServerInOrderKept(cfg, st, e, s);
    assert ManagerSettled(st, s, m);
    assert TypedAt(cfg, s, At(st.enq, s), At(st.bqueue, s), At(st.casts, s));
    UplinkLog(cfg, st, e, s, m);
    ServerStep(cfg, st, e, s);
    ManagerMoves(cfg, st, Step(cfg, st, e), s, m, QueuedBy(st, e, s), CasterAt(e, s));
  }

  lemma UserBefore(cfg: Config, st: State, s: nat, u: nat)
    requires Inv(cfg, st) && InOrder(cfg, st) && FromUser(u) in cfg.conns && s == Lookup(cfg.home, u)
    ensures Sane(cfg) && ServerInOrder(st, s) && |At(st.casts, s)| <= 1 && FromUser(u) in At(cfg.clients, s)
    ensures TypedAt(cfg, s, At(st.enq, s), At(st.bqueue, s), At(st.casts, s))
    ensures UserInOrder(u, At(st.got, u), Done(At(st.enq, s), At(st.bqueue, s)), CastOf(st, s, 0))
  {
    assert UserSettled(st, s, u);
    assert TypedAt(cfg, s, At(st.enq, s), At(st.bqueue, s), At(st.casts, s));
  }

  lemma UserInOrderKept(cfg: Config, st: State, e: Event, u: nat)
    requires Inv(cfg, st) && InOrder(cfg, st) && CanStep(cfg, st, e) && FromUser(u) in cfg.conns
    ensures UserSettled(Step(cfg, st, e), Lookup(cfg.home, u), u)
  {
    var s := Lookup(cfg.home, u);
    ServerInOrderKept(cfg, st, e, s);
    UserBefore(cfg, st, s, u);
    UsersAfter(cfg, st, e, u);
    ServerStep(cfg, st, e, s);
    hide Inv, InOrder, Sane, Step, CanStep, ServerMoves, ToUser, UserInOrder, CastOf, TypedAt;
    UserMoves(cfg, st, Step(cfg, st, e), s, u, QueuedBy(st, e, s), CasterAt(e, s));
  }

  lemma InOrderKept(cfg: Config, st: State, e: Event)
    requires Inv(cfg, st) && InOrder(cfg, st) && CanStep(cfg, st, e)
    ensures InOrder(cfg, Step(cfg, st, e))
  {
    var st' := Step(cfg, st, e);
    forall s ensures ServerInOrder(st', s) && |At(st'.casts, s)| <= 1 { ServerInOrderKept(cfg, st, e, s); }
    forall s, m | Up(s, m) in cfg.conns ensures ManagerSettled(st', s, m) {
      ManagerInOrderKept(cfg, st, e, s, m);
    }
    forall u | FromUser(u) in cfg.conns ensures UserSettled(st', Lookup(cfg.home, u), u) {
      UserInOrderKept(cfg, st, e, u);
    }
  }

  lemma InitialInOrder(cfg: Config, st: State)
    requires Initial(cfg, st) && OneCaster(st)
    ensures InOrder(cfg, st)
  {
    forall s ensures ServerInOrder(st, s) && CastOf(st, s, 0).Resting? {
      if |At(st.casts, s)| > 0 { assert At(st.casts, s)[0].Resting?; }
    }
    assert forall s :: At(st.enq, s) == [] && At(st.bqueue, s) == [];
  }

  lemma {:induction false} InOrderAlong(cfg: Config, st: State, run: seq<Event>)
    requires Inv(cfg, st) && InOrder(cfg, st) && IsRun(cfg, st, run)
    ensures Inv(cfg, StateAfter(cfg, st, run)) && InOrder(cfg, StateAfter(cfg, st, run))
    decreases |run|
  {
    if run != [] {
      InvKept(cfg, st, run[0]);
      InOrderKept(cfg, st, run[0]);
      InOrderAlong(cfg, Step(cfg, st, run[0]), run[1..]);
    }
  }

  // ---------------------------------------------------------------- end to end

  function ByUser(v: nat): Msg -> bool { (x: Msg) => x.u == v }

  /** The messages of user v that user u has received over connection c, in order of receipt. */
  function ReceivedOver(st: State, u: nat, c: Conn, v: nat): seq<Msg> {
    Filter(ByUser(v), EntryMsgs(Filter(SrcIs(c), At(st.got, u))))
  }

  lemma SentPrefix(v: nat, n: nat, q: seq<Msg>)
    requires q <= Sent(v, n)
    ensures q == Sent(v, |q|) && |q| <= n
  {
  }

  lemma EntryMsgsPrefix(a: seq<Entry>, b: seq<Entry>)
    requires a <= b
    ensures EntryMsgs(a) <= EntryMsgs(b)
  {
  }

  lemma SettledPrefix(enq: seq<Entry>, bqueue: seq<Entry>, owes: bool)
    requires |bqueue| <= |enq|
    ensures Settled(Done(enq, bqueue), owes) <= enq
  {
  }

  /** What u received over c is a beginning of what its server finished reading from c. */
  lemma ReceivedIsEaten(cfg: Config, st: State, u: nat, c: Conn)
    requires Inv(cfg, st) && InOrder(cfg, st) && FromUser(u) in cfg.conns
    requires c in cfg.conns && Owner(cfg, c) == AtServer(Lookup(cfg.home, u)) && c != FromUser(u)
    ensures EntryMsgs(Filter(SrcIs(c), At(st.got, u))) <= At(st.eaten, c)
  {
    var s, f := Lookup(cfg.home, u), SrcIs(c);
    var settled := Settled(Done(At(st.enq, s), At(st.bqueue, s)), OwesUser(CastOf(st, s, 0), u));
    assert UserSettled(st, s, u);
    FilterTwice(f, NotFrom(u), f, settled);
    SettledPrefix(At(st.enq, s), At(st.bqueue, s), OwesUser(CastOf(st, s, 0), u));
    FilterPrefix(f, settled, At(st.enq, s));
    EntryMsgsPrefix(Filter(f, settled), Filter(f, At(st.enq, s)));
    assert IntakeAt(At(st.enq, s), At(st.eaten, c), c);
  }

  lemma EatenIsLogged(cfg: Config, st: State, c: Conn)
    requires Fifo(cfg, st) && c in cfg.conns
    ensures At(st.eaten, c) <= At(st.log, c)
  {
    assert FifoAt(cfg, st, c);
  }

  lemma {:induction false} FilterAll<T>(f: T -> bool, q: seq<T>)
    requires forall x :: x in q ==> f(x)
    ensures Filter(f, q) == q
  {
    if q != [] {
      var n := |q| - 1;
      assert q == q[..n] + [q[n]];
      assert forall x :: x in q[..n] ==> x in q;
      FilterAll(f, q[..n]);
    }
  }

  lemma SentByUser(v: nat, n: nat)
    ensures Filter(ByUser(v), Sent(v, n)) == Sent(v, n)
  {
    FilterAll(ByUser(v), Sent(v, n));
  }

  /** The messages of v among a server's own ones are what it took from v's connection. */
  lemma {:induction false} OwnByUser(cfg: Config, s: nat, q: seq<Entry>, v: nat)
    requires forall e {:trigger e in q} :: e in q ==> WellTyped(cfg, s, e)
    ensures Filter(ByUser(v), EntryMsgs(Filter(Unrelayed(), q))) == EntryMsgs(Filter(SrcIs(FromUser(v)), q))
  {
    if q != [] {
      var n := |q| - 1;
      var before, e := q[..n], q[n];
      assert forall f :: f in before ==> f in q;
      OwnByUser(cfg, s, before, v);
      assert q == before + [e] && e in q;
      assert WellTyped(cfg, s, e);
      FilterSnoc(Unrelayed(), before, e);
      FilterSnoc(SrcIs(FromUser(v)), before, e);
      EntryMsgsSnoc(Filter(Unrelayed(), before), e);
      EntryMsgsSnoc(Filter(SrcIs(FromUser(v)), before), e);
      FilterSnoc(ByUser(v), EntryMsgs(Filter(Unrelayed(), before)), e.msg);
      assert Filter(Unrelayed(), before) + [] == Filter(Unrelayed(), before);
      assert Filter(SrcIs(FromUser(v)), before) + [] == Filter(SrcIs(FromUser(v)), before);
    }
  }

  /** What the broadcaster of server s has settled for manager m. */
  function SettledFor(st: State, s: nat, m: nat): seq<Entry>
    requires |At(st.bqueue, s)| <= |At(st.enq, s)|
  {
    Settled(Done(At(st.enq, s), At(st.bqueue, s)), OwesManager(CastOf(st, s, 0), m))
  }

  lemma UplinkIsSettled(cfg: Config, st: State, m: nat, v: nat)
    requires Inv(cfg, st) && InOrder(cfg, st) && Up(Lookup(cfg.home, v), m) in cfg.conns
    ensures var s := Lookup(cfg.home, v);
      && |At(st.bqueue, s)| <= |At(st.enq, s)| && SettledFor(st, s, m) <= At(st.enq, s)
      && Filter(ByUser(v), At(st.log, Up(s, m))) == EntryMsgs(Filter(SrcIs(FromUser(v)), SettledFor(st, s, m)))
  {
    var s := Lookup(cfg.home, v);
    assert ManagerSettled(st, s, m);
    assert TypedAt(cfg, s, At(st.enq, s), At(st.bqueue, s), At(st.casts, s));
    var settled := SettledFor(st, s, m);
    SettledPrefix(At(st.enq, s), At(st.bqueue, s), OwesManager(CastOf(st, s, 0), m));
    assert forall e :: e in settled ==> e in At(st.enq, s);
    OwnByUser(cfg, s, settled, v);
  }

  /** What v's server has written to manager m of v's messages is a beginning of what v sent. */
  lemma UplinkInOrder(cfg: Config, st: State, m: nat, v: nat)
    requires Inv(cfg, st) && InOrder(cfg, st) && FromUser(v) in cfg.conns && Up(Lookup(cfg.home, v), m) in cfg.conns
    ensures Filter(ByUser(v), At(st.log, Up(Lookup(cfg.home, v), m))) <= Sent(v, Lookup(st.sent, v))
  {
    hide InOrder, SettledFor;
    var s, c := Lookup(cfg.home, v), FromUser(v);
    UplinkIsSettled(cfg, st, m, v);
    var settled := SettledFor(st, s, m);
    FilterPrefix(SrcIs(c), settled, At(st.enq, s));
    EntryMsgsPrefix(Filter(SrcIs(c), settled), Filter(SrcIs(c), At(st.enq, s)));
    assert IntakeAt(At(st.enq, s), At(st.eaten, c), c);
    EatenIsLogged(cfg, st, c);
  }

  /** What manager m has written to server s of v's messages is a beginning of what v sent. */
  lemma DownlinkInOrder(cfg: Config, st: State, m: nat, s: nat, v: nat)
    requires Inv(cfg, st) && InOrder(cfg, st) && FromUser(v) in cfg.conns
    requires Up(Lookup(cfg.home, v), m) in cfg.conns && Down(m, s) in cfg.conns
    ensures Filter(ByUser(v), At(st.log, Down(m, s))) <= Sent(v, Lookup(st.sent, v))
  {
    var s0 := Lookup(cfg.home, v);
    var log, up := At(st.log, Down(m, s)), Up(s0, m);
    assert OnwardAt(cfg, m, s0, s, log, At(st.eaten, up));
    FilterTwice(ByUser(v), OriginIs(cfg, s0), ByUser(v), log);
    EatenIsLogged(cfg, st, up);
    FilterPrefix(ByUser(v), At(st.eaten, up), At(st.log, up));
    UplinkInOrder(cfg, st, m, v);
  }

  /** On every route, in every state, user u has received exactly the first k messages of v, in
    * sending order, for some k. */
  lemma RouteInOrder(cfg: Config, st: State, u: nat, v: nat, c: Conn)
    requires Inv(cfg, st) && InOrder(cfg, st) && FromUser(u) in cfg.conns && FromUser(v) in cfg.conns
    requires c in cfg.conns && Owner(cfg, c) == AtServer(Lookup(cfg.home, u)) && c != FromUser(u)
    requires c == FromUser(v) || (c.Down? && Up(Lookup(cfg.home, v), c.m) in cfg.conns)
    ensures var r := ReceivedOver(st, u, c, v); r == Sent(v, |r|) && |r| <= Lookup(st.sent, v)
  {
    ReceivedIsEaten(cfg, st, u, c);
    EatenIsLogged(cfg, st, c);
    FilterPrefix(ByUser(v), EntryMsgs(Filter(SrcIs(c), At(st.got, u))), At(st.log, c));
    if c == FromUser(v) {
      assert At(st.log, c) == Sent(v, Lookup(st.sent, v));
      SentByUser(v, Lookup(st.sent, v));
    } else {
      assert c == Down(c.m, c.s);
      DownlinkInOrder(cfg, st, c.m, c.s, v);
    }
    SentPrefix(v, Lookup(st.sent, v), ReceivedOver(st, u, c, v));
  }

  // ---------------------------------------------------------------- one manager

  function AuthorIs(v: nat): Entry -> bool { (e: Entry) => e.msg.u == v }

  /** All messages of user v that user u has received, in order of receipt. */
  function Received(st: State, u: nat, v: nat): seq<Msg> {
    EntryMsgs(Filter(AuthorIs(v), At(st.got, u)))
  }

  /** The connection over which v's messages reach u when there is one manager. */
  function OnlyRoute(cfg: Config, u: nat, v: nat, m: nat): Conn {
    if Lookup(cfg.home, u) == Lookup(cfg.home, v) then FromUser(v) else Down(m, Lookup(cfg.home, u))
  }

  lemma OnlyOneRoute(cfg: Config, st: State, u: nat, v: nat, m: nat, e: Entry)
    requires Inv(cfg, st) && PlainIds(cfg) && FromUser(u) in cfg.conns && FromUser(v) in cfg.conns
    requires forall s, n {:trigger Up(s, n)} :: Up(s, n) in cfg.conns ==> n == m
    requires e in At(st.got, u) && e.msg.u == v
    ensures e.src == OnlyRoute(cfg, u, v, m) && e.src in cfg.conns
    ensures e.src.Down? ==> Up(Lookup(cfg.home, v), m) in cfg.conns
  {
    var s := Lookup(cfg.home, u);
    GotArrived(cfg, st, u, e);
    var w := Writes(u, e);
    assert DeliverAt(u, e, At(st.got, u), At(st.enq, s), At(st.bqueue, s), At(st.casts, s));
    assert multiset(At(st.got, u))[e] > 0;
    assert e in At(st.enq, s);
    assert TypedAt(cfg, s, At(st.enq, s), At(st.bqueue, s), At(st.casts, s));
    assert WellTyped(cfg, s, e);
    if e.src.Down? {
      assert Up(s, e.src.m) in cfg.conns && e.src.m == m;
      if s == Lookup(cfg.home, v) {
        RouteVia(cfg, st, u, e.msg, m);
        ForwardsToOthers(cfg, m, s, s);
        assert false;
      }
    }
  }

  lemma {:induction false} FilterByRoute(q: seq<Entry>, c: Conn, v: nat)
    requires forall e {:trigger e in q} :: e in q && e.msg.u == v ==> e.src == c
    ensures EntryMsgs(Filter(AuthorIs(v), q)) == Filter(ByUser(v), EntryMsgs(Filter(SrcIs(c), q)))
  {
    if q != [] {
      var n := |q| - 1;
      var before, e := q[..n], q[n];
      assert forall f :: f in before ==> f in q;
      FilterByRoute(before, c, v);
      assert q == before + [e] && e in q;
      FilterSnoc(AuthorIs(v), before, e);
      FilterSnoc(SrcIs(c), before, e);
      EntryMsgsSnoc(Filter(AuthorIs(v), before), e);
      EntryMsgsSnoc(Filter(SrcIs(c), before), e);
      FilterSnoc(ByUser(v), EntryMsgs(Filter(SrcIs(c), before)), e.msg);
      assert Filter(AuthorIs(v), before) + [] == Filter(AuthorIs(v), before);
      assert Filter(SrcIs(c), before) + [] == Filter(SrcIs(c), before);
    }
  }

  lemma {:induction false} FilterEmpty<T>(f: T -> bool, q: seq<T>)
    requires forall x :: x in q ==> !f(x)
    ensures Filter(f, q) == []
  {
    if q != [] {
      assert q == q[..|q| - 1] + [q[|q| - 1]];
      assert forall x :: x in q[..|q| - 1] ==> x in q;
      FilterEmpty(f, q[..|q| - 1]);
    }
  }

  /** With one manager, one broadcaster per server and any number of receivers and workers: after
    * every run, what user u has received from another user v is exactly the first k messages of
    * v, in sending order, for some k. */
  lemma SenderOrder(cfg: Config, start: State, run: seq<Event>, m: nat, u: nat, v: nat)
    requires Sane(cfg) && Initial(cfg, start) && OneCaster(start) && IsRun(cfg, start, run)
    requires PlainIds(cfg) && forall s, n {:trigger Up(s, n)} :: Up(s, n) in cfg.conns ==> n == m
    requires FromUser(u) in cfg.conns && FromUser(v) in cfg.conns && u != v
    ensures var st := StateAfter(cfg, start, run); var r := Received(st, u, v);
      r == Sent(v, |r|) && |r| <= Lookup(st.sent, v)
  {
    var st := StateAfter(cfg, start, run);
    InitialConnections(cfg, start);
    InitialServers(cfg, start);
    InitialInOrder(cfg, start);
    InOrderAlong(cfg, start, run);
    SenderOrderIn(cfg, st, m, u, v);
  }

  lemma AllOverOneRoute(cfg: Config, st: State, m: nat, u: nat, v: nat, e: Entry)
    requires Inv(cfg, st) && PlainIds(cfg) && FromUser(u) in cfg.conns && FromUser(v) in cfg.conns
    requires forall s, n {:trigger Up(s, n)} :: Up(s, n) in cfg.conns ==> n == m
    requires e in At(st.got, u) && e.msg.u == v
    ensures var c := OnlyRoute(cfg, u, v, m);
      && c in cfg.conns && (c.Down? ==> Up(Lookup(cfg.home, v), m) in cfg.conns)
      && Received(st, u, v) == ReceivedOver(st, u, c, v)
  {
    var c := OnlyRoute(cfg, u, v, m);
    OnlyOneRoute(cfg, st, u, v, m, e);
    forall f | f in At(st.got, u) && f.msg.u == v ensures f.src == c { OnlyOneRoute(cfg, st, u, v, m, f); }
    FilterByRoute(At(st.got, u), c, v);
  }

  lemma SenderOrderIn(cfg: Config, st: State, m: nat, u: nat, v: nat)
    requires Inv(cfg, st) && InOrder(cfg, st)
    requires PlainIds(cfg) && forall s, n {:trigger Up(s, n)} :: Up(s, n) in cfg.conns ==> n == m
    requires FromUser(u) in cfg.conns && FromUser(v) in cfg.conns && u != v
    ensures var r := Received(st, u, v); r == Sent(v, |r|) && |r| <= Lookup(st.sent, v)
  {
    hide Inv, InOrder, PlainIds;
    if e :| e in At(st.got, u) && e.msg.u == v {
      AllOverOneRoute(cfg, st, m, u, v, e);
      RouteInOrder(cfg, st, u, v, OnlyRoute(cfg, u, v, m));
    } else {
      FilterEmpty(AuthorIs(v), At(st.got, u));
    }
  }
}
