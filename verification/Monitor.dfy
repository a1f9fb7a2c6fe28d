/** CircularQueue: a bounded ring of pointers under one mutex and two condition variables. The
  * threads are modelled one by one, with their place in EnQueue or DeQueue; a signal wakes one
  * sleeper, a woken thread competes for the mutex with newcomers and tests again, and sleepers
  * may wake without a signal.
  */
module Monitor {
  import opened Sequences

  const QSIZE := 1024

  // ---------------------------------------------------------------- the ring

  /** start_idx, num_full and the slots. */
  datatype Slots<V> = Slots(start: nat, num: nat, data: seq<V>)

  predicate Sound<V>(q: Slots<V>) {
    q.data != [] && q.start < |q.data| && q.num <= |q.data|
  }

  /** The full slots, oldest first. */
  function Contents<V>(q: Slots<V>): (r: seq<V>)
    requires Sound(q)
    ensures |r| == q.num
  {
    seq(q.num, i requires 0 <= i < q.num => q.data[(q.start + i) % |q.data|])
  }

  /** The critical section of EnQueue, after its wait loop. */
  function Deposited<V>(q: Slots<V>, v: V): Slots<V>
    requires Sound(q)
  {
    q.(data := q.data[(q.start + q.num) % |q.data| := v], num := q.num + 1)
  }

  /** The critical section of DeQueue, after its wait loop. */
  function Withdrawn<V>(q: Slots<V>): Slots<V>
    requires Sound(q) && q.num > 0
  {
    q.(start := (q.start + 1) % |q.data|, num := q.num - 1)
  }

  lemma SlotsDiffer(n: nat, start: nat, i: nat, j: nat)
    requires start < n && i < j < n
    ensures (start + i) % n != (start + j) % n
  {
    WrapOnce(n, start + i);
    WrapOnce(n, start + j);
  }

  lemma WrapOnce(n: nat, i: nat)
    requires 0 < n && i < 2 * n
    ensures i % n == if i < n then i else i - n
  {
    if i >= n { assert i == n + (i - n); }
  }

  /** A deposit goes behind the contents and overwrites none of them. */
  lemma DepositAppends<V>(q: Slots<V>, v: V)
    requires Sound(q) && q.num < |q.data|
    ensures Sound(Deposited(q, v)) && Contents(Deposited(q, v)) == Contents(q) + [v]
  {
    var r := Deposited(q, v);
    forall i | 0 <= i < q.num ensures Contents(r)[i] == Contents(q)[i] {
      SlotsDiffer(|q.data|, q.start, i, q.num);
    }
  }

  lemma WithdrawRemoves<V>(q: Slots<V>)
    requires Sound(q) && q.num > 0
    ensures Sound(Withdrawn(q)) && Contents(q) == [q.data[q.start]] + Contents(Withdrawn(q))
  {
    var n := |q.data|;
    WrapOnce(n, q.start);
    WrapOnce(n, q.start + 1);
    forall i | 0 <= i < q.num - 1 ensures Contents(Withdrawn(q))[i] == Contents(q)[i + 1] {
      WrapOnce(n, q.start + (i + 1));
      WrapOnce(n, Withdrawn(q).start + i);
    }
  }

  class CircularQueue<V(0)> {
    var startIdx: nat
    var numFull: nat
    const data: array<V>

    function View(): Slots<V>
      reads this, data
    {
      Slots(startIdx, numFull, data[..])
    }

    constructor ()
      ensures Sound(View()) && Contents(View()) == [] && data.Length == QSIZE && fresh(data)
    {
      startIdx, numFull := 0, 0;
      data := new V[QSIZE];
    }

    /** EnQueue between its wait loop and its signal. */
    method Deposit(v: V)
      requires Sound(View()) && numFull < data.Length
      modifies this, data
      ensures View() == Deposited(old(View()), v)
      ensures Sound(View()) && Contents(View()) == old(Contents(View())) + [v]
    {
      DepositAppends(View(), v);
      data[(startIdx + numFull) % data.Length] := v;
      numFull := numFull + 1;
    }

    /** DeQueue between its wait loop and its signal. */
    method Withdraw() returns (v: V)
      requires Sound(View()) && numFull > 0
      modifies this
      ensures View() == Withdrawn(old(View()))
      ensures Sound(View()) && old(Contents(View())) == [v] + Contents(View())
    {
      WithdrawRemoves(View());
      v := data[startIdx];
      startIdx := (startIdx + 1) % data.Length;
      numFull := numFull - 1;
    }
  }

  // ---------------------------------------------------------------- threads

  datatype Role<V> = Producer(value: V) | Consumer

  /** Where a thread is. `signalled` says that a signal, not chance, ended its last sleep. */
  datatype Place<V> =
    | Outside
    | Entering(role: Role<V>)                     // at pthread_mutex_lock
    | Testing(role: Role<V>, signalled: bool)     // has the mutex, at the loop test
    | Asleep(role: Role<V>)                       // in pthread_cond_wait, without the mutex
    | Woken(role: Role<V>, signalled: bool)       // must get the mutex back before the test
    | Acted(role: Role<V>)                        // has the mutex, before the signal
    | Exiting(role: Role<V>)                      // has the mutex, before unlocking

  datatype State<V> = State(
    slots: Slots<V>,
    owner: int,                   // the thread that has the mutex, or -1
    threads: seq<Place<V>>,
    entered: seq<V>,              // history: values in the order they were put in
    left: seq<V>)                 // history: values in the order they were taken out

  datatype Event<V> =
    | Call(i: nat, role: Role<V>)
    | Lock(i: nat)
    | Wait(i: nat)
    | Proceed(i: nat)
    | Signal(i: nat, j: nat)      // thread i signals and thread j wakes
    | SignalNobody(i: nat)        // thread i signals and nobody sleeps
    | Unlock(i: nat)
    | Spurious(j: nat)            // thread j wakes without a signal

  predicate Blocked<V>(q: Slots<V>, role: Role<V>) {
    if role.Producer? then q.num == |q.data| else q.num == 0
  }

  predicate SleepsAs<V>(p: Place<V>, producer: bool) {
    p.Asleep? && p.role.Producer? == producer
  }

  predicate Enabled<V>(s: State<V>, e: Event<V>) {
    match e
    case Call(i, _) => i < |s.threads| && s.threads[i].Outside?
    case Lock(i) => i < |s.threads| && (s.threads[i].Entering? || s.threads[i].Woken?) && s.owner == -1
    case Wait(i) => i < |s.threads| && s.threads[i].Testing? && Blocked(s.slots, s.threads[i].role)
    case Proceed(i) => i < |s.threads| && s.threads[i].Testing? && !Blocked(s.slots, s.threads[i].role)
    case Signal(i, j) =>
      && i < |s.threads| && j < |s.threads| && s.threads[i].Acted?
      && SleepsAs(s.threads[j], !s.threads[i].role.Producer?)
    case SignalNobody(i) =>
      && i < |s.threads| && s.threads[i].Acted?
      && forall j :: 0 <= j < |s.threads| ==> !SleepsAs(s.threads[j], !s.threads[i].role.Producer?)
    case Unlock(i) => i < |s.threads| && s.threads[i].Exiting?
    case Spurious(j) => j < |s.threads| && s.threads[j].Asleep?
  }

  function Move<V>(s: State<V>, i: nat, p: Place<V>): State<V>
    requires i < |s.threads|
  {
    s.(threads := s.threads[i := p])
  }

  function Apply<V>(s: State<V>, e: Event<V>): State<V>
    requires Sound(s.slots) && Enabled(s, e)
  {
    match e
    case Call(i, role) => Move(s, i, Entering(role))
    case Lock(i) =>
      Move(s, i, Testing(s.threads[i].role, s.threads[i].Woken? && s.threads[i].signalled)).(owner := i)
    case Wait(i) => Move(s, i, Asleep(s.threads[i].role)).(owner := -1)
    case Proceed(i) =>
      var role := s.threads[i].role;
      if role.Producer?
      then Move(s, i, Acted(role)).(slots := Deposited(s.slots, role.value), entered := s.entered + [role.value])
      else Move(s, i, Acted(role)).(slots := Withdrawn(s.slots), left := s.left + [s.slots.data[s.slots.start]])
    case Signal(i, j) => Move(Move(s, i, Exiting(s.threads[i].role)), j, Woken(s.threads[j].role, true))
    case SignalNobody(i) => Move(s, i, Exiting(s.threads[i].role))
    case Unlock(i) => Move(s, i, Outside).(owner := -1)
    case Spurious(j) => Move(s, j, Woken(s.threads[j].role, false))
  }

  predicate HasMutex<V>(p: Place<V>) {
    p.Testing? || p.Acted? || p.Exiting?
  }

  /** Mutual exclusion. */
  predicate OwnerIsInside<V>(s: State<V>) {
    && -1 <= s.owner < |s.threads|
    && forall i {:trigger s.threads[i]} :: 0 <= i < |s.threads| ==> (HasMutex(s.threads[i]) <==> s.owner == i)
  }

  /** A sleeper of the role, a signalled one that has not acted yet, and one of the other role that
    * still owes its signal. */
  function Sleeper<V>(producer: bool): Place<V> -> bool {
    (p: Place<V>) => SleepsAs(p, producer)
  }

  function Summoned<V>(producer: bool): Place<V> -> bool {
    (p: Place<V>) => (p.Woken? || p.Testing?) && p.signalled && p.role.Producer? == producer
  }

  function Owing<V>(producer: bool): Place<V> -> bool {
    (p: Place<V>) => p.Acted? && p.role.Producer? != producer
  }

  /** How many threads of the role could proceed one after the other. */
  function Work<V>(q: Slots<V>, producer: bool): int {
    if producer then |q.data| - q.num else q.num
  }

  /** Somebody sleeps only if every piece of work has a signalled thread coming for it, or a signal
    * still to be sent. */
  predicate NoLostWakeup<V>(s: State<V>, producer: bool) {
    Tally(Sleeper(producer), s.threads) > 0 ==>
      Work(s.slots, producer) <= Tally(Summoned(producer), s.threads) + Tally(Owing(producer), s.threads)
  }

  /** What went in is what came out followed by what is in the ring. */
  predicate Linear<V(==)>(s: State<V>) {
    Sound(s.slots) && s.entered == s.left + Contents(s.slots)
  }

  ghost predicate Inv<V>(s: State<V>) {
    Linear(s) && OwnerIsInside(s) && NoLostWakeup(s, true) && NoLostWakeup(s, false)
  }

  // ---------------------------------------------------------------- every step keeps the invariant

  function Bit(b: bool): int { if b then 1 else 0 }

  /** How the three counts of a role change when thread i moves to p. */
  lemma CountsMove<V>(threads: seq<Place<V>>, i: nat, p: Place<V>, producer: bool)
    requires i < |threads|
    ensures Tally(Sleeper(producer), threads[i := p])
      == Tally(Sleeper(producer), threads) - Bit(Sleeper(producer)(threads[i])) + Bit(Sleeper(producer)(p))
    ensures Tally(Summoned(producer), threads[i := p])
      == Tally(Summoned(producer), threads) - Bit(Summoned(producer)(threads[i])) + Bit(Summoned(producer)(p))
    ensures Tally(Owing(producer), threads[i := p])
      == Tally(Owing(producer), threads) - Bit(Owing(producer)(threads[i])) + Bit(Owing(producer)(p))
  {
    TallyUpdate(Sleeper(producer), threads, i, p);
    TallyUpdate(Summoned(producer), threads, i, p);
    TallyUpdate(Owing(producer), threads, i, p);
  }

  lemma WakeupAfterSignal<V>(s: State<V>, i: nat, j: nat, producer: bool)
    requires Sound(s.slots) && Enabled(s, Signal(i, j)) && NoLostWakeup(s, producer)
    ensures NoLostWakeup(Apply(s, Signal(i, j)), producer)
  {
    var mid := Move(s, i, Exiting(s.threads[i].role));
    CountsMove(s.threads, i, Exiting(s.threads[i].role), producer);
    CountsMove(mid.threads, j, Woken(s.threads[j].role, true), producer);
  }

  lemma WakeupAfterProceed<V>(s: State<V>, i: nat, producer: bool)
    requires Sound(s.slots) && Enabled(s, Proceed(i)) && NoLostWakeup(s, producer)
    ensures NoLostWakeup(Apply(s, Proceed(i)), producer)
  {
    CountsMove(s.threads, i, Acted(s.threads[i].role), producer);
  }

  lemma WakeupAfterSilence<V>(s: State<V>, i: nat, producer: bool)
    requires Sound(s.slots) && Enabled(s, SignalNobody(i)) && NoLostWakeup(s, producer)
    ensures NoLostWakeup(Apply(s, SignalNobody(i)), producer)
  {
    CountsMove(s.threads, i, Exiting(s.threads[i].role), producer);
    if producer != s.threads[i].role.Producer? { TallyNone(Sleeper(producer), s.threads); }
  }

  lemma WakeupKept<V>(s: State<V>, e: Event<V>, producer: bool)
    requires Sound(s.slots) && OwnerIsInside(s) && Enabled(s, e) && NoLostWakeup(s, producer)
    ensures NoLostWakeup(Apply(s, e), producer)
  {
    match e
    case Call(i, role) => CountsMove(s.threads, i, Entering(role), producer);
    case Lock(i) => CountsMove(s.threads, i, Apply(s, e).threads[i], producer);
    case Wait(i) => CountsMove(s.threads, i, Asleep(s.threads[i].role), producer);
    case Proceed(i) => WakeupAfterProceed(s, i, producer);
    case Signal(i, j) => WakeupAfterSignal(s, i, j, producer);
    case SignalNobody(i) => WakeupAfterSilence(s, i, producer);
    case Unlock(i) => CountsMove(s.threads, i, Outside, producer);
    case Spurious(j) => CountsMove(s.threads, j, Woken(s.threads[j].role, false), producer);
  }

  lemma LinearKept<V>(s: State<V>, e: Event<V>)
    requires Linear(s) && Enabled(s, e)
    ensures Linear(Apply(s, e))
  {
    if e.Proceed? {
      var role := s.threads[e.i].role;
      if role.Producer? {
        DepositAppends(s.slots, role.value);
      } else {
        WithdrawRemoves(s.slots);
      }
    }
  }

  lemma InvStep<V>(s: State<V>, e: Event<V>)
    requires Inv(s) && Enabled(s, e)
    ensures Inv(Apply(s, e))
  {
    LinearKept(s, e);
    WakeupKept(s, e, true);
    WakeupKept(s, e, false);
  }

  /** The start: an empty ring, all threads outside. */
  predicate Initial<V(==)>(s: State<V>) {
    && Sound(s.slots) && s.slots.num == 0 && s.owner == -1 && s.entered == [] && s.left == []
    && forall i :: 0 <= i < |s.threads| ==> s.threads[i].Outside?
  }

  predicate Runs<V(==)>(s: State<V>, run: seq<Event<V>>)
    decreases |run|
  {
    run == [] || (Sound(s.slots) && Enabled(s, run[0]) && Runs(Apply(s, run[0]), run[1..]))
  }

  function After<V(==)>(s: State<V>, run: seq<Event<V>>): State<V>
    requires Runs(s, run)
    decreases |run|
  {
    if run == [] then s else After(Apply(s, run[0]), run[1..])
  }

  lemma {:induction false} InvAlong<V>(s: State<V>, run: seq<Event<V>>)
    requires Inv(s) && Runs(s, run)
    ensures Inv(After(s, run))
    decreases |run|
  {
    if run != [] {
      InvStep(s, run[0]);
      InvAlong(Apply(s, run[0]), run[1..]);
    }
  }

  lemma InitialInv<V>(s: State<V>)
    requires Initial(s)
    ensures Inv(s)
  {
    TallyNone(Sleeper(true), s.threads);
    TallyNone(Sleeper(false), s.threads);
  }

  // ---------------------------------------------------------------- main results

  /** In every interleaving, values leave in the order they entered, nothing is lost, repeated or
    * overwritten, and the count stays within the ring. */
  lemma Linearisation<V>(s: State<V>, run: seq<Event<V>>)
    requires Initial(s) && Runs(s, run)
    ensures var t := After(s, run);
      Sound(t.slots) && t.entered == t.left + Contents(t.slots) && t.slots.num <= |t.slots.data|
  {
    InitialInv(s);
    InvAlong(s, run);
  }

  /** In every reachable state with the mutex free: if a consumer sleeps there are no more values
    * than signalled consumers on their way, and if a producer sleeps no more free slots than
    * signalled producers on theirs. */
  lemma WakeupsCoverWork<V>(s: State<V>, run: seq<Event<V>>, producer: bool)
    requires Initial(s) && Runs(s, run) && After(s, run).owner == -1
    ensures var t := After(s, run);
      Tally(Sleeper(producer), t.threads) > 0 ==> Work(t.slots, producer) <= Tally(Summoned(producer), t.threads)
  {
    InitialInv(s);
    InvAlong(s, run);
    var t := After(s, run);
    TallyNone(Owing(producer), t.threads);
  }

  /** A thread that can take its next step by itself. */
  ghost predicate CanGoOn<V>(s: State<V>, i: nat) {
    && i < |s.threads|
    && match s.threads[i]
       case Outside => false
       case Asleep(_) => false
       case Testing(_, _) => Enabled(s, Wait(i)) || Enabled(s, Proceed(i))
       case Acted(_) => Enabled(s, SignalNobody(i)) || exists j: nat :: Enabled(s, Signal(i, j))
       case Exiting(_) => Enabled(s, Unlock(i))
       case _ => Enabled(s, Lock(i))
  }

  lemma {:induction false} TallyWitness<T>(f: T -> bool, q: seq<T>) returns (i: nat)
    requires Tally(f, q) > 0
    ensures i < |q| && f(q[i])
  {
    if f(q[0]) {
      i := 0;
    } else {
      i := TallyWitness(f, q[1..]);
      i := i + 1;
    }
  }

  /** A consumer asleep while there are values, or a producer asleep while there is room, never has
    * to wait for a further call: some thread can go on. */
  lemma SleepersAreServed<V>(s: State<V>, run: seq<Event<V>>, k: nat)
    requires Initial(s) && Runs(s, run)
    requires var t := After(s, run); k < |t.threads| && t.threads[k].Asleep? && !Blocked(t.slots, t.threads[k].role)
    ensures exists i :: CanGoOn(After(s, run), i)
  {
    InitialInv(s);
    InvAlong(s, run);
    var t := After(s, run);
    var producer := t.threads[k].role.Producer?;
    if t.owner >= 0 {
      OwnerGoesOn(t);
    } else {
      TallyAt(Sleeper(producer), t.threads, k);
      WakeupsCoverWork(s, run, producer);
      var i := TallyWitness(Summoned(producer), t.threads);
      assert CanGoOn(t, i);
    }
  }

  /** When every thread is outside or asleep, the sleepers are rightly asleep, so producers and
    * consumers never sleep side by side. */
  lemma SleepersAgree<V>(s: State<V>, run: seq<Event<V>>, j: nat, k: nat)
    requires Initial(s) && Runs(s, run)
    requires var t := After(s, run);
      && (forall i :: 0 <= i < |t.threads| ==> t.threads[i].Outside? || t.threads[i].Asleep?)
      && j < |t.threads| && k < |t.threads| && t.threads[j].Asleep? && t.threads[k].Asleep?
    ensures var t := After(s, run);
      Blocked(t.slots, t.threads[j].role) && t.threads[j].role.Producer? == t.threads[k].role.Producer?
  {
    var t := After(s, run);
    Linearisation(s, run);
    forall i: nat ensures !CanGoOn(t, i) {}
    if !Blocked(t.slots, t.threads[j].role) { SleepersAreServed(s, run, j); }
    if !Blocked(t.slots, t.threads[k].role) { SleepersAreServed(s, run, k); }
  }

  /** The owner of the mutex is never stuck inside. */
  lemma OwnerGoesOn<V>(t: State<V>)
    requires OwnerIsInside(t) && t.owner >= 0
    ensures CanGoOn(t, t.owner)
  {
    var i := t.owner;
    assert HasMutex(t.threads[i]);
    if t.threads[i].Acted? && !Enabled(t, SignalNobody(i)) {
      var j :| 0 <= j < |t.threads| && SleepsAs(t.threads[j], !t.threads[i].role.Producer?);
      assert Enabled(t, Signal(i, j));
    }
  }
}
