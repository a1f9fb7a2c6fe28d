/** What happens to a message inside a server and inside a manager, hop by hop. */
module NetworkHops {
  import opened EventPump
  import opened Sequences
  import opened Network

  /** The entry that carries a message of one of the server's own users. */
  function OwnEntry(x: Msg): Entry { Entry(FromUser(x.u), false, x) }

  /** An entry of server s's broadcast queue: its source is a connection of s, it is marked
    * relayed exactly when that is a manager's, a user's entry is that
    * user's message, and a manager's entry comes from a server of that manager. */
  predicate WellTyped(cfg: Config, s: nat, e: Entry) {
    && FromUser(e.msg.u) in cfg.conns && e.src in cfg.conns && Owner(cfg, e.src) == AtServer(s)
    && e.relayed == e.src.Down? && (e.src.FromUser? ==> e.src.u == e.msg.u)
    && (e.src.Down? ==> Up(Lookup(cfg.home, e.msg.u), e.src.m) in cfg.conns)
  }

  predicate WellCast(cfg: Config, s: nat, cast: Cast) {
    match cast
    case Resting => true
    case Relaying(e, managers) =>
      && WellTyped(cfg, s, e) && Distinct(managers) && (e.relayed ==> managers == [])
      && (forall m :: m in managers ==> m in At(cfg.managers, s))
    case Writing(e, users) =>
      && WellTyped(cfg, s, e) && Distinct(users)
      && (forall u :: u in users ==> FromUser(u) in At(cfg.clients, s) && FromUser(u) != e.src)
  }

  /** Queue and broadcasters hold entries that were put on the queue; the queue is its last part. */
  ghost predicate TypedAt(cfg: Config, s: nat, enq: seq<Entry>, bqueue: seq<Entry>, casts: seq<Cast>) {
    && (forall e {:trigger e in enq} :: e in enq ==> WellTyped(cfg, s, e))
    && |bqueue| <= |enq| && bqueue == enq[|enq| - |bqueue|..]
    && (forall i {:trigger casts[i]} :: 0 <= i < |casts| ==> WellCast(cfg, s, casts[i]))
  }

  /** The broadcaster has yet to write message x to manager m. */
  function Relays(m: nat, x: Msg): Cast -> bool {
    (cast: Cast) => cast.Relaying? && cast.entry.msg == x && m in cast.managers
  }

  /** Each of a server's own messages goes to manager m exactly once. */
  predicate UplinkAt(m: nat, x: Msg, log: seq<Msg>, enq: seq<Entry>, bqueue: seq<Entry>, casts: seq<Cast>) {
    multiset(log)[x] + Tally(Relays(m, x), casts) + multiset(bqueue)[OwnEntry(x)] == multiset(enq)[OwnEntry(x)]
  }

  /** The broadcaster has yet to write entry e to user u. */
  function Writes(u: nat, e: Entry): Cast -> bool {
    (cast: Cast) => (cast.Relaying? && cast.entry == e && e.src != FromUser(u))
                    || (cast.Writing? && cast.entry == e && u in cast.users)
  }

  /** Entry e goes to user u exactly as often as it was queued, or never if u sent it. */
  predicate DeliverAt(u: nat, e: Entry, got: seq<Entry>, enq: seq<Entry>, bqueue: seq<Entry>, casts: seq<Cast>) {
    var mine := e.src == FromUser(u);
    multiset(got)[e] + Tally(Writes(u, e), casts) + (if mine then 0 else multiset(bqueue)[e])
      == if mine then 0 else multiset(enq)[e]
  }

  // ---------------------------------------------------------------- queueing

  lemma TypedPublish(cfg: Config, s: nat, enq: seq<Entry>, bqueue: seq<Entry>, casts: seq<Cast>, e: Entry)
    requires TypedAt(cfg, s, enq, bqueue, casts) && WellTyped(cfg, s, e)
    ensures TypedAt(cfg, s, enq + [e], bqueue + [e], casts)
  {
  }

  lemma UplinkPublish(m: nat, x: Msg, log: seq<Msg>, enq: seq<Entry>, bqueue: seq<Entry>, casts: seq<Cast>,
                      queued: seq<Entry>)
    requires UplinkAt(m, x, log, enq, bqueue, casts)
    ensures UplinkAt(m, x, log + [], enq + queued, bqueue + queued, casts)
  {
  }

  lemma DeliverPublish(u: nat, f: Entry, got: seq<Entry>, enq: seq<Entry>, bqueue: seq<Entry>, casts: seq<Cast>,
                       queued: seq<Entry>)
    requires DeliverAt(u, f, got, enq, bqueue, casts)
    ensures DeliverAt(u, f, got + [], enq + queued, bqueue + queued, casts)
  {
  }

  // ---------------------------------------------------------------- broadcasting

  /** What the broadcaster's step writes to manager m. */
  function RelayedTo(cast: Cast, m: nat): seq<Msg> {
    if cast.Relaying? && cast.managers != [] && cast.managers[0] == m then [cast.entry.msg] else []
  }

  /** What the broadcaster's step writes to user u. */
  function WrittenTo(cast: Cast, u: nat): seq<Entry> {
    if cast.Writing? && cast.users != [] && cast.users[0] == u then [cast.entry] else []
  }

  lemma NextWellCast(cfg: Config, s: nat, cast: Cast, enq: seq<Entry>, bqueue: seq<Entry>)
    requires Sane(cfg) && WellCast(cfg, s, cast) && (cast.Resting? ==> bqueue != [] && WellTyped(cfg, s, bqueue[0]))
    ensures WellCast(cfg, s, NextCast(cfg, s, cast, bqueue))
  {
    match cast
    case Resting =>
    case Relaying(e, managers) => TargetsExact(At(cfg.clients, s), e.src);
    case Writing(_, _) =>
  }

  lemma TypedCast(cfg: Config, s: nat, enq: seq<Entry>, bqueue: seq<Entry>, casts: seq<Cast>, b: nat)
    requires Sane(cfg) && TypedAt(cfg, s, enq, bqueue, casts) && b < |casts| && (casts[b].Resting? ==> bqueue != [])
    ensures TypedAt(cfg, s, enq, QueueAfter(casts[b], bqueue), casts[b := NextCast(cfg, s, casts[b], bqueue)])
  {
    if casts[b].Resting? { assert bqueue[0] == enq[|enq| - |bqueue|]; assert bqueue[0] in enq; }
    NextWellCast(cfg, s, casts[b], enq, bqueue);
  }

  /** The broadcaster's step writes to manager m exactly what it owes manager m less afterwards. */
  lemma NextRelays(cfg: Config, s: nat, cast: Cast, bqueue: seq<Entry>, m: nat, x: Msg)
    requires WellCast(cfg, s, cast) && m in At(cfg.managers, s)
    requires cast.Resting? ==> bqueue != [] && WellTyped(cfg, s, bqueue[0])
    ensures (if Relays(m, x)(NextCast(cfg, s, cast, bqueue)) then 1 else 0) + multiset(RelayedTo(cast, m))[x]
      == (if Relays(m, x)(cast) then 1 else 0) + (if cast.Resting? && bqueue[0] == OwnEntry(x) then 1 else 0)
  {
  }

  lemma UplinkCast(cfg: Config, s: nat, m: nat, x: Msg, log: seq<Msg>, enq: seq<Entry>, bqueue: seq<Entry>,
                   casts: seq<Cast>, b: nat)
    requires TypedAt(cfg, s, enq, bqueue, casts) && b < |casts| && (casts[b].Resting? ==> bqueue != [])
    requires m in At(cfg.managers, s) && UplinkAt(m, x, log, enq, bqueue, casts)
    ensures UplinkAt(m, x, log + RelayedTo(casts[b], m), enq, QueueAfter(casts[b], bqueue),
                     casts[b := NextCast(cfg, s, casts[b], bqueue)])
  {
    if casts[b].Resting? {
      assert bqueue[0] == enq[|enq| - |bqueue|];
      assert bqueue[0] in enq;
      CountTail(bqueue, OwnEntry(x));
    }
    NextRelays(cfg, s, casts[b], bqueue, m, x);
    TallyUpdate(Relays(m, x), casts, b, NextCast(cfg, s, casts[b], bqueue));
  }

  lemma NextWrites(cfg: Config, s: nat, cast: Cast, bqueue: seq<Entry>, u: nat, e: Entry)
    requires Sane(cfg) && WellCast(cfg, s, cast) && FromUser(u) in At(cfg.clients, s)
    requires cast.Resting? ==> bqueue != []
    ensures (if Writes(u, e)(NextCast(cfg, s, cast, bqueue)) then 1 else 0) + multiset(WrittenTo(cast, u))[e]
      == (if Writes(u, e)(cast) then 1 else 0)
        + (if cast.Resting? && bqueue[0] == e && e.src != FromUser(u) then 1 else 0)
  {
    match cast
    case Resting =>
    case Relaying(f, managers) => TargetsExact(At(cfg.clients, s), f.src);
    case Writing(f, users) =>
      if users != [] {
        assert u in users <==> u == users[0] || u in users[1..];
        assert users[0] !in users[1..];
      }
  }

  lemma DeliverCast(cfg: Config, s: nat, u: nat, e: Entry, got: seq<Entry>, enq: seq<Entry>, bqueue: seq<Entry>,
                    casts: seq<Cast>, b: nat)
    requires Sane(cfg) && TypedAt(cfg, s, enq, bqueue, casts) && b < |casts| && (casts[b].Resting? ==> bqueue != [])
    requires FromUser(u) in At(cfg.clients, s) && DeliverAt(u, e, got, enq, bqueue, casts)
    ensures DeliverAt(u, e, got + WrittenTo(casts[b], u), enq, QueueAfter(casts[b], bqueue),
                      casts[b := NextCast(cfg, s, casts[b], bqueue)])
  {
    if casts[b].Resting? { CountTail(bqueue, e); }
    NextWrites(cfg, s, casts[b], bqueue, u, e);
    TallyUpdate(Writes(u, e), casts, b, NextCast(cfg, s, casts[b], bqueue));
  }
}
