/** The event pump that ChatServer and ChatManager share: the poll loop reports armed
  * connections in batches, takes each reported connection out of the poll set and puts it
  * on a bounded queue; receiver (or worker) threads take connections from the queue, fill
  * their rings, execute what is buffered and arm the connection again, or close it.
  *
  * The states below keep the poll set, the batch, the queue and the threads as separate
  * structures, as the program does, so that "one holder per connection" is something to prove.
  */
module EventPump {
  import opened Sequences

  /** What one receiver or worker thread is doing. */
  datatype Hand<C, M> =
    | Idle                        // waiting for a connection
    | Took(conn: C)               // has a connection, has not read its socket yet
    | Filled(conn: C)             // executing what is buffered
    | Carries(conn: C, item: M)   // has cut one message from the buffer, has not passed it on

  datatype Pump<C(==), M> = Pump(
    armed: set<C>,                // the poll set
    batch: seq<C>,                // reported events not yet dealt with
    detached: bool,               // the first event's connection has left the poll set
    ready: seq<C>,                // the receive (or work) queue
    hands: seq<Hand<C, M>>,       // the threads
    entering: set<C>,             // accepted and registered, not yet armed
    stranded: set<C>,             // arming again failed; the program ignores that error
    open: set<C>)                 // live registered connections

  datatype Act<C, M> =
    | Report(events: seq<C>)      // the poll call returns events
    | Detach                      // first event readable: leave the poll set ...
    | Enqueue                     // ... and be put on the queue
    | Skip                        // first event neither readable nor an error
    | Hangup                      // first event an error: close the connection
    | Take(i: nat)
    | Fill(i: nat)
    | Leave(i: nat)               // the socket is finished: close the connection
    | Pop(i: nat, item: M)
    | Push(i: nat)
    | Rearm(i: nat)
    | Strand(i: nat)
    | Accept(conn: C)
    | Arm(conn: C)
    | Refuse(conn: C)             // first arming failed: close the connection

  predicate Enabled<C, M>(p: Pump<C, M>, capacity: nat, a: Act<C, M>) {
    match a
    case Report(events) => p.batch == [] && events != [] && Distinct(events) && forall c :: c in events ==> c in p.armed
    case Detach => p.batch != [] && !p.detached
    case Enqueue => p.detached && p.batch != [] && |p.ready| < capacity
    case Skip => p.batch != [] && !p.detached
    case Hangup => p.batch != [] && !p.detached
    case Take(i) => i < |p.hands| && p.hands[i].Idle? && p.ready != []
    case Fill(i) => i < |p.hands| && p.hands[i].Took?
    case Leave(i) => i < |p.hands| && p.hands[i].Took?
    case Pop(i, _) => i < |p.hands| && p.hands[i].Filled?
    case Push(i) => i < |p.hands| && p.hands[i].Carries?
    case Rearm(i) => i < |p.hands| && p.hands[i].Filled?
    case Strand(i) => i < |p.hands| && p.hands[i].Filled?
    case Accept(c) => c !in p.open
    case Arm(c) => c in p.entering
    case Refuse(c) => c in p.entering
  }

  function Apply<C, M>(p: Pump<C, M>, capacity: nat, a: Act<C, M>): Pump<C, M>
    requires Enabled(p, capacity, a)
  {
    match a
    case Report(events) => p.(batch := events, detached := false)
    case Detach => p.(armed := p.armed - {p.batch[0]}, detached := true)
    case Enqueue => p.(ready := p.ready + [p.batch[0]], batch := p.batch[1..], detached := false)
    case Skip => p.(batch := p.batch[1..])
    case Hangup =>
      p.(armed := p.armed - {p.batch[0]}, batch := p.batch[1..], open := p.open - {p.batch[0]})
    case Take(i) => p.(ready := p.ready[1..], hands := p.hands[i := Took(p.ready[0])])
    case Fill(i) => p.(hands := p.hands[i := Filled(p.hands[i].conn)])
    case Leave(i) => p.(hands := p.hands[i := Idle], open := p.open - {p.hands[i].conn})
    case Pop(i, item) => p.(hands := p.hands[i := Carries(p.hands[i].conn, item)])
    case Push(i) => p.(hands := p.hands[i := Filled(p.hands[i].conn)])
    case Rearm(i) => p.(hands := p.hands[i := Idle], armed := p.armed + {p.hands[i].conn})
    case Strand(i) => p.(hands := p.hands[i := Idle], stranded := p.stranded + {p.hands[i].conn})
    case Accept(c) => p.(entering := p.entering + {c}, open := p.open + {c})
    case Arm(c) => p.(entering := p.entering - {c}, armed := p.armed + {c})
    case Refuse(c) => p.(entering := p.entering - {c}, open := p.open - {c})
  }

  /** The connections that an action reads, writes or frees. */
  function Touched<C, M>(p: Pump<C, M>, capacity: nat, a: Act<C, M>): set<C>
    requires Enabled(p, capacity, a)
  {
    match a
    case Report(events) => set c | c in events
    case Detach => {p.batch[0]}
    case Enqueue => {p.batch[0]}
    case Skip => {p.batch[0]}
    case Hangup => {p.batch[0]}
    case Take(i) => {p.ready[0]}
    case Fill(i) => {p.hands[i].conn}
    case Leave(i) => {p.hands[i].conn}
    case Pop(i, _) => {p.hands[i].conn}
    case Push(i) => {p.hands[i].conn}
    case Rearm(i) => {p.hands[i].conn}
    case Strand(i) => {p.hands[i].conn}
    case Accept(c) => {}
    case Arm(c) => {c}
    case Refuse(c) => {c}
  }

  predicate Holds<C(==), M>(h: Hand<C, M>, c: C) {
    !h.Idle? && h.conn == c
  }

  /** How many threads hold `c`. */
  function InHands<C(==), M>(hands: seq<Hand<C, M>>, c: C): nat {
    if hands == [] then 0
    else (if Holds(hands[0], c) then 1 else 0) + InHands(hands[1..], c)
  }

  function Polled<C, M>(p: Pump<C, M>, c: C): nat {
    if c in p.armed || c in p.batch then 1 else 0
  }

  /** How many holders connection `c` has: the poll loop, each slot of the queue, each thread,
    * the accept step that registered it, or nobody any more after a failed re-arm. */
  function Holders<C, M>(p: Pump<C, M>, c: C): nat {
    Polled(p, c) + multiset(p.ready)[c] + InHands(p.hands, c)
    + (if c in p.entering then 1 else 0) + (if c in p.stranded then 1 else 0)
  }

  ghost predicate Owned<C(!new), M>(p: Pump<C, M>) {
    && (forall c {:trigger Holders(p, c)} :: Holders(p, c) == if c in p.open then 1 else 0)
    && Distinct(p.batch)
    && (p.detached ==> p.batch != [] && p.batch[0] !in p.armed)
    && (forall i {:trigger p.batch[i]} :: (if p.detached then 1 else 0) <= i < |p.batch| ==> p.batch[i] in p.armed)
  }

  lemma {:induction false} InHandsUpdate<C, M>(hands: seq<Hand<C, M>>, i: nat, h: Hand<C, M>, c: C)
    requires i < |hands|
    ensures InHands(hands[i := h], c) + (if Holds(hands[i], c) then 1 else 0)
         == InHands(hands, c) + (if Holds(h, c) then 1 else 0)
  {
    if i == 0 {
      assert hands[i := h][1..] == hands[1..];
    } else {
      assert hands[i := h][1..] == hands[1..][i - 1 := h];
      InHandsUpdate(hands[1..], i - 1, h, c);
    }
  }

  lemma {:induction false} InHandsAt<C, M>(hands: seq<Hand<C, M>>, i: nat, c: C)
    requires i < |hands| && Holds(hands[i], c)
    ensures InHands(hands, c) >= 1
  {
    if i != 0 { InHandsAt(hands[1..], i - 1, c); }
  }

  /** Two different threads never hold the same connection. */
  lemma OneThreadPerConnection<C(!new), M>(p: Pump<C, M>, i: nat, j: nat)
    requires Owned(p) && i < |p.hands| && j < |p.hands| && i != j
    requires !p.hands[i].Idle? && !p.hands[j].Idle?
    ensures p.hands[i].conn != p.hands[j].conn
  {
    var c := p.hands[i].conn;
    assert Holders(p, c) <= 1;
    if p.hands[j].conn == c {
      InHandsUpdate(p.hands, i, Idle, c);
      InHandsAt(p.hands[i := Idle], j, c);
    }
  }

  /** A connection that the poll loop, the queue or a thread has is not anywhere else. */
  lemma HolderIsExclusive<C(!new), M>(p: Pump<C, M>, c: C)
    requires Owned(p)
    ensures (c in p.armed || c in p.batch) ==> c in p.open && c !in p.ready && InHands(p.hands, c) == 0
    ensures c in p.ready ==> c in p.open && c !in p.armed && c !in p.batch && InHands(p.hands, c) == 0
    ensures forall i :: 0 <= i < |p.hands| && Holds(p.hands[i], c) ==>
      c in p.open && c !in p.armed && c !in p.batch && c !in p.ready && c !in p.entering && c !in p.stranded
  {
    assert Holders(p, c) <= 1;
    assert c in p.ready <==> multiset(p.ready)[c] > 0;
    forall i | 0 <= i < |p.hands| && Holds(p.hands[i], c)
      ensures c in p.open && c !in p.armed && c !in p.batch && c !in p.ready && c !in p.entering && c !in p.stranded
    {
      InHandsAt(p.hands, i, c);
    }
  }

  /** No action touches a connection that has been closed. */
  lemma TouchedIsOpen<C(!new), M>(p: Pump<C, M>, capacity: nat, a: Act<C, M>)
    requires Owned(p) && Enabled(p, capacity, a)
    ensures Touched(p, capacity, a) <= p.open
  {
    forall c | c in Touched(p, capacity, a) ensures c in p.open {
      HolderIsExclusive(p, c);
      assert Holders(p, c) >= 1;
    }
  }

  lemma InBatch<C>(batch: seq<C>, c: C)
    requires batch != [] && Distinct(batch)
    ensures c in batch[1..] <==> c in batch && c != batch[0]
  {
  }

  /** The number of holders of each connection follows the set of open connections. */
  lemma HoldersStep<C(!new), M>(p: Pump<C, M>, capacity: nat, a: Act<C, M>, c: C)
    requires Owned(p) && Enabled(p, capacity, a)
    ensures var q := Apply(p, capacity, a); Holders(q, c) == if c in q.open then 1 else 0
  {
    var q := Apply(p, capacity, a);
    HolderIsExclusive(p, c);
    assert Holders(p, c) == if c in p.open then 1 else 0;
    match a
    case Report(events) =>
    case Detach =>
    case Enqueue => InBatch(p.batch, c); CountTail(p.batch, c);
    case Skip => InBatch(p.batch, c);
    case Hangup => InBatch(p.batch, c);
    case Take(i) => CountTail(p.ready, c); InHandsUpdate(p.hands, i, q.hands[i], c);
    case Fill(i) => InHandsUpdate(p.hands, i, q.hands[i], c);
    case Leave(i) => InHandsUpdate(p.hands, i, q.hands[i], c);
    case Pop(i, _) => InHandsUpdate(p.hands, i, q.hands[i], c);
    case Push(i) => InHandsUpdate(p.hands, i, q.hands[i], c);
    case Rearm(i) => InHandsUpdate(p.hands, i, q.hands[i], c);
    case Strand(i) => InHandsUpdate(p.hands, i, q.hands[i], c);
    case Accept(d) =>
    case Arm(d) =>
    case Refuse(d) =>
  }

  /** Every action keeps exclusive ownership. */
  lemma OwnershipStep<C(!new), M>(p: Pump<C, M>, capacity: nat, a: Act<C, M>)
    requires Owned(p) && Enabled(p, capacity, a)
    ensures Owned(Apply(p, capacity, a))
  {
    var q := Apply(p, capacity, a);
    forall c ensures Holders(q, c) == if c in q.open then 1 else 0 {
      HoldersStep(p, capacity, a, c);
    }
    if p.batch != [] { BatchHeadStays(p, capacity, a); }
  }

  /** Nobody puts the event being dealt with back into the poll set. */
  lemma BatchHeadStays<C(!new), M>(p: Pump<C, M>, capacity: nat, a: Act<C, M>)
    requires Owned(p) && Enabled(p, capacity, a) && p.batch != []
    ensures p.batch[0] in Apply(p, capacity, a).armed ==> p.batch[0] in p.armed
  {
    HolderIsExclusive(p, p.batch[0]);
    assert Holders(p, p.batch[0]) <= 1;
  }

  /** The start: threads idle, nothing registered. */
  function Start<C, M>(threads: nat): Pump<C, M> {
    Pump({}, [], false, [], seq(threads, _ => Idle), {}, {}, {})
  }

  /** `run` is a possible sequence of actions from `p`. */
  predicate Runs<C, M>(p: Pump<C, M>, capacity: nat, run: seq<Act<C, M>>)
    decreases |run|
  {
    run == [] || (Enabled(p, capacity, run[0]) && Runs(Apply(p, capacity, run[0]), capacity, run[1..]))
  }

  function After<C, M>(p: Pump<C, M>, capacity: nat, run: seq<Act<C, M>>): Pump<C, M>
    requires Runs(p, capacity, run)
    decreases |run|
  {
    if run == [] then p else After(Apply(p, capacity, run[0]), capacity, run[1..])
  }

  lemma {:induction false} OwnedAlong<C(!new), M>(p: Pump<C, M>, capacity: nat, run: seq<Act<C, M>>)
    requires Owned(p) && Runs(p, capacity, run)
    ensures Owned(After(p, capacity, run))
    decreases |run|
  {
    if run != [] {
      OwnershipStep(p, capacity, run[0]);
      OwnedAlong(Apply(p, capacity, run[0]), capacity, run[1..]);
    }
  }

  lemma {:induction false} IdleHandsHoldNothing<C, M>(hands: seq<Hand<C, M>>, c: C)
    requires forall i :: 0 <= i < |hands| ==> hands[i].Idle?
    ensures InHands(hands, c) == 0
  {
    if hands != [] { IdleHandsHoldNothing(hands[1..], c); }
  }

  /** In every state that any interleaving of the poll loop, the threads and the acceptor can
    * reach, each open connection has exactly one holder, a closed one has none, and whatever
    * action comes next touches open connections only. */
  lemma Ownership<C(!new), M>(threads: nat, capacity: nat, run: seq<Act<C, M>>, next: Act<C, M>)
    requires Runs(Start<C, M>(threads), capacity, run)
    ensures var p := After(Start<C, M>(threads), capacity, run);
      && (forall c :: Holders(p, c) == if c in p.open then 1 else 0)
      && (Enabled(p, capacity, next) ==> Touched(p, capacity, next) <= p.open)
  {
    var s := Start<C, M>(threads);
    forall c ensures Holders(s, c) == 0 { IdleHandsHoldNothing(s.hands, c); }
    OwnedAlong(s, capacity, run);
    var p := After(s, capacity, run);
    if Enabled(p, capacity, next) { TouchedIsOpen(p, capacity, next); }
  }
}
