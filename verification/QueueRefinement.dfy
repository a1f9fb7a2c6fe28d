/** The bounded queue as its users see it, and the proofs that the monitor implements it and that
  * the event pump and the network use it as such.
  */
module QueueRefinement {
  import opened Sequences
  import opened Network
  import EventPump
  import Monitor

  datatype Op<V> = Put(value: V) | TakeFirst

  predicate Legal<V>(q: seq<V>, capacity: nat, op: Op<V>) {
    match op
    case Put(_) => |q| < capacity
    case TakeFirst => q != []
  }

  function Do<V>(q: seq<V>, op: Op<V>): seq<V>
    requires op.TakeFirst? ==> q != []
  {
    match op
    case Put(v) => q + [v]
    case TakeFirst => q[1..]
  }

  /** Carrying out `ops` one after the other turns q into r, each when the queue allows it. */
  predicate Leads<V(==)>(q: seq<V>, capacity: nat, ops: seq<Op<V>>, r: seq<V>)
    decreases |ops|
  {
    if ops == [] then q == r else Legal(q, capacity, ops[0]) && Leads(Do(q, ops[0]), capacity, ops[1..], r)
  }

  lemma {:induction false} LeadsOn<V>(q: seq<V>, capacity: nat, a: seq<Op<V>>, mid: seq<V>, b: seq<Op<V>>, r: seq<V>)
    requires Leads(q, capacity, a, mid) && Leads(mid, capacity, b, r)
    ensures Leads(q, capacity, a + b, r)
    decreases |a|
  {
    if a == [] {
      assert a + b == b;
    } else {
      LeadsOn(Do(q, a[0]), capacity, a[1..], mid, b, r);
      assert (a + b)[1..] == a[1..] + b;
    }
  }

  // ---------------------------------------------------------------- the monitor implements it

  /** What a step of a thread in EnQueue or DeQueue does to the queue. */
  function MonitorOps<V>(s: Monitor.State<V>, e: Monitor.Event<V>): seq<Op<V>> {
    if e.Proceed? && e.i < |s.threads| && s.threads[e.i].Testing?
    then [if s.threads[e.i].role.Producer? then Put(s.threads[e.i].role.value) else TakeFirst]
    else []
  }

  /** One step of any thread is at most one legal step of the queue, and a consumer gets its first value. */
  lemma MonitorStep<V>(s: Monitor.State<V>, e: Monitor.Event<V>)
    requires Monitor.Linear(s) && Monitor.Enabled(s, e)
    ensures var t := Monitor.Apply(s, e); var q := Monitor.Contents(s.slots);
      && Monitor.Linear(t) && |t.slots.data| == |s.slots.data|
      && Leads(q, |s.slots.data|, MonitorOps(s, e), Monitor.Contents(t.slots))
      && t.left == s.left + if MonitorOps(s, e) == [TakeFirst] then [q[0]] else []
  {
    Monitor.LinearKept(s, e);
    if e.Proceed? {
      var role := s.threads[e.i].role;
      if role.Producer? {
        Monitor.DepositAppends(s.slots, role.value);
      } else {
        Monitor.WithdrawRemoves(s.slots);
        var q := Monitor.Contents(s.slots);
        assert q[1..] == Monitor.Contents(Monitor.Withdrawn(s.slots));
      }
    } else {
      assert s.left + [] == s.left;
    }
  }

  function MonitorOpsAlong<V>(s: Monitor.State<V>, run: seq<Monitor.Event<V>>): seq<Op<V>>
    requires Monitor.Runs(s, run)
    decreases |run|
  {
    if run == [] then [] else MonitorOps(s, run[0]) + MonitorOpsAlong(Monitor.Apply(s, run[0]), run[1..])
  }

  lemma {:induction false} MonitorLeads<V>(s: Monitor.State<V>, run: seq<Monitor.Event<V>>)
    requires Monitor.Linear(s) && Monitor.Runs(s, run)
    ensures Monitor.Linear(Monitor.After(s, run))
    ensures Leads(Monitor.Contents(s.slots), |s.slots.data|, MonitorOpsAlong(s, run),
                  Monitor.Contents(Monitor.After(s, run).slots))
    decreases |run|
  {
    if run != [] {
      var t := Monitor.Apply(s, run[0]);
      MonitorStep(s, run[0]);
      MonitorLeads(t, run[1..]);
      hide Monitor.Contents, Monitor.Apply, Monitor.Enabled, MonitorOps;
      LeadsOn(Monitor.Contents(s.slots), |s.slots.data|, MonitorOps(s, run[0]), Monitor.Contents(t.slots),
              MonitorOpsAlong(t, run[1..]), Monitor.Contents(Monitor.After(s, run).slots));
    }
  }

  /** Every interleaving of threads in EnQueue and DeQueue is a sequence of legal steps of one bounded
    * queue that starts empty. */
  lemma MonitorRefinesQueue<V>(s: Monitor.State<V>, run: seq<Monitor.Event<V>>)
    requires Monitor.Initial(s) && Monitor.Runs(s, run)
    ensures var t := Monitor.After(s, run);
      Monitor.Sound(t.slots) && Leads([], |s.slots.data|, MonitorOpsAlong(s, run), Monitor.Contents(t.slots))
  {
    Monitor.InitialInv(s);
    MonitorLeads(s, run);
    assert Monitor.Contents(s.slots) == [];
  }

  // ---------------------------------------------------------------- pump and network use it

  /** What an action of the pump does to its queue. */
  function PumpOps<C, M>(p: EventPump.Pump<C, M>, a: EventPump.Act<C, M>): seq<Op<C>> {
    if a.Enqueue? && p.batch != [] then [Put(p.batch[0])] else if a.Take? then [TakeFirst] else []
  }

  /** The pump's queue changes by legal queue steps only, and a thread takes its first connection. */
  lemma PumpUsesQueue<C, M>(p: EventPump.Pump<C, M>, capacity: nat, a: EventPump.Act<C, M>)
    requires EventPump.Enabled(p, capacity, a)
    ensures var q := EventPump.Apply(p, capacity, a);
      && Leads(p.ready, capacity, PumpOps(p, a), q.ready)
      && (a.Take? ==> q.hands[a.i] == EventPump.Took(p.ready[0]))
  {
  }

  /** What an event does to the broadcast queue of server s. */
  function BroadcastOps(st: State, e: Event, s: nat): seq<Op<Entry>> {
    match e
    case Publish(t, i) =>
      var h := HandOf(st, AtServer(t), i); if t == s && h.Carries? then [Put(EntryOf(h.conn, h.item))] else []
    case Casting(t, b) => if t == s && CastOf(st, t, b).Resting? then [TakeFirst] else []
    case _ => []
  }

  lemma CastUsesQueue(cfg: Config, st: State, t: nat, b: nat, s: nat)
    requires CanCast(st, t, b)
    ensures Leads(At(st.bqueue, s), cfg.capacity, BroadcastOps(st, Casting(t, b), s),
                  At(DoCast(cfg, st, t, b).bqueue, s))
    ensures var next := CastOf(DoCast(cfg, st, t, b), t, b);
      CastOf(st, t, b).Resting? ==> next.Relaying? && next.entry == At(st.bqueue, t)[0]
  {
    hide WireAfter;
    var q := At(st.bqueue, s);
    if t == s && CastOf(st, t, b).Resting? {
      assert Do(q, TakeFirst) == q[1..];
    }
  }

  lemma PublishUsesQueue(cfg: Config, st: State, t: nat, i: nat, s: nat)
    requires CanStep(cfg, st, Publish(t, i))
    ensures Leads(At(st.bqueue, s), cfg.capacity, BroadcastOps(st, Publish(t, i), s), At(DoPublish(st, t, i).bqueue, s))
  {
    hide Consumed;
  }

  /** Every event changes the broadcast queue of every server by at most one legal queue step. */
  lemma NetworkUsesQueue(cfg: Config, st: State, e: Event, s: nat)
    requires CanStep(cfg, st, e)
    ensures Leads(At(st.bqueue, s), cfg.capacity, BroadcastOps(st, e, s), At(Step(cfg, st, e).bqueue, s))
  {
    hide DoCast, DoPublish, HandOf;
    match e
    case Publish(t, i) => PublishUsesQueue(cfg, st, t, i, s);
    case Casting(t, b) => CastUsesQueue(cfg, st, t, b, s);
    case _ => assert At(Step(cfg, st, e).bqueue, s) == At(st.bqueue, s);
  }
}
