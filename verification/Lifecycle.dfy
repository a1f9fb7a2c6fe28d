/** Registration and closing of clients in a ChatServer: the connection counter, the client list
  * and its mutex, with the acceptor, the thread that registers the managers, the threads that
  * close clients and the broadcasters that read the list, step by step.
  */
module Lifecycle {
  import opened Sequences

  /** A client object; `manager` is its type. */
  datatype Client = Client(id: nat, manager: bool)

  /** Where a thread is in AcceptClient, CloseClient or GetBroadcastTargets. */
  datatype Stage =
    | Resting
    | Checked                        // acceptor: the limit test passed
    | Counted(manager: bool)         // m_iConnCount incremented
    | Made(client: Client)           // object created
    | Pushing(client: Client)        // has the mutex, before push_back
    | Pushed(client: Client)         // has the mutex, after push_back
    | Arming(client: Client)         // mutex released, before the poll set
    | Detaching(client: Client)      // CloseClient: before leaving the poll set
    | Closing(client: Client)        // before the mutex
    | Removing(client: Client)       // has the mutex, before remove
    | Removed(client: Client)        // has the mutex, before delete
    | Deleted                        // has the mutex, after delete
    | Uncounting                     // mutex released, before the decrement
    | Reading                        // has the mutex, copying the targets

  const ACCEPTOR := 0
  const REGISTRAR := 1

  datatype State = State(
    count: int,                      // m_iConnCount
    list: seq<Client>,               // m_lstClient
    owner: int,                      // the thread that has m_lockClient, or -1
    live: set<Client>,               // allocated and not deleted
    served: set<Client>,             // in the hands of the event pump
    toRegister: nat,                 // manager sockets still to be registered
    threads: seq<Stage>)

  datatype Event =
    | Check | Refuse | Count
    | Register
    | Make(i: nat, id: nat)
    | LockToPush(i: nat) | Push(i: nat) | UnlockPushed(i: nat)
    | ArmOk(i: nat) | ArmFails(i: nat)
    | StartClose(i: nat, client: Client)
    | Detach(i: nat) | LockToClose(i: nat) | Remove(i: nat) | Delete(i: nat) | UnlockClosed(i: nat) | Uncount(i: nat)
    | StartReading(i: nat) | StopReading(i: nat)

  function ActorOf(e: Event): nat {
    match e
    case Check => ACCEPTOR
    case Refuse => ACCEPTOR
    case Count => ACCEPTOR
    case Register => REGISTRAR
    case _ => e.i
  }

  function StageOf(s: State, i: nat): Stage {
    if i < |s.threads| then s.threads[i] else Resting
  }

  predicate Enabled(s: State, max: int, e: Event) {
    var i := ActorOf(e);
    i < |s.threads| && match e
      case Check => s.threads[i].Resting? && s.count < max
      case Refuse => s.threads[i].Resting? && s.count >= max
      case Count => s.threads[i].Checked?
      case Register => s.threads[i].Resting? && s.toRegister > 0
      case Make(_, id) => s.threads[i].Counted? && Client(id, s.threads[i].manager) !in s.live
      case LockToPush(_) => s.threads[i].Made? && s.owner == -1
      case Push(_) => s.threads[i].Pushing?
      case UnlockPushed(_) => s.threads[i].Pushed?
      case ArmOk(_) => s.threads[i].Arming?
      case ArmFails(_) => s.threads[i].Arming?
      case StartClose(_, c) => i != ACCEPTOR && s.threads[i].Resting? && c in s.served
      case Detach(_) => s.threads[i].Detaching?
      case LockToClose(_) => s.threads[i].Closing? && s.owner == -1
      case Remove(_) => s.threads[i].Removing?
      case Delete(_) => s.threads[i].Removed?
      case UnlockClosed(_) => s.threads[i].Deleted?
      case Uncount(_) => s.threads[i].Uncounting?
      case StartReading(_) => i != ACCEPTOR && s.threads[i].Resting? && s.owner == -1
      case StopReading(_) => s.threads[i].Reading?
  }

  function Next(s: State, e: Event): Stage
    requires ActorOf(e) < |s.threads|
  {
    var p := s.threads[ActorOf(e)];
    match e
    case Check => Checked
    case Refuse => Resting
    case Count => Counted(false)
    case Register => Counted(true)
    case Make(_, id) => Made(Client(id, p.Counted? && p.manager))
    case LockToPush(_) => if p.Made? then Pushing(p.client) else p
    case Push(_) => if p.Pushing? then Pushed(p.client) else p
    case UnlockPushed(_) => if p.Pushed? then Arming(p.client) else p
    case ArmOk(_) => Resting
    case ArmFails(_) => if p.Arming? then Detaching(p.client) else p
    case StartClose(_, c) => Detaching(c)
    case Detach(_) => if p.Detaching? then Closing(p.client) else p
    case LockToClose(_) => if p.Closing? then Removing(p.client) else p
    case Remove(_) => if p.Removing? then Removed(p.client) else p
    case Delete(_) => Deleted
    case UnlockClosed(_) => Uncounting
    case Uncount(_) => Resting
    case StartReading(_) => Reading
    case StopReading(_) => Resting
  }

  function Apply(s: State, max: int, e: Event): State
    requires Enabled(s, max, e)
  {
    var i := ActorOf(e);
    var p := s.threads[i];
    var t := s.(threads := s.threads[i := Next(s, e)]);
    match e
    case Check => t
    case Refuse => t
    case Count => t.(count := s.count + 1)
    case Register => t.(count := s.count + 1, toRegister := s.toRegister - 1)
    case Make(_, id) => t.(live := s.live + {Client(id, p.manager)})
    case LockToPush(_) => t.(owner := i)
    case Push(_) => t.(list := s.list + [p.client])
    case UnlockPushed(_) => t.(owner := -1)
    case ArmOk(_) => t.(served := s.served + {p.client})
    case ArmFails(_) => t
    case StartClose(_, c) => t.(served := s.served - {c})
    case Detach(_) => t
    case LockToClose(_) => t.(owner := i)
    case Remove(_) => t.(list := Without(s.list, p.client))
    case Delete(_) => t.(live := s.live - {p.client})
    case UnlockClosed(_) => t.(owner := -1)
    case Uncount(_) => t.(count := s.count - 1)
    case StartReading(_) => t.(owner := i)
    case StopReading(_) => t.(owner := -1)
  }

  // ---------------------------------------------------------------- the invariant

  predicate HasMutex(p: Stage) {
    p.Pushing? || p.Pushed? || p.Removing? || p.Removed? || p.Deleted? || p.Reading?
  }

  /** The thread's client is in the list. */
  predicate InList(p: Stage) {
    p.Pushed? || p.Arming? || p.Detaching? || p.Closing? || p.Removing?
  }

  predicate OffList(p: Stage) {
    p.Made? || p.Pushing? || p.Removed?
  }

  predicate HasClient(p: Stage) { InList(p) || OffList(p) }

  function Holds(c: Client): Stage -> bool { (p: Stage) => HasClient(p) && p.client == c }

  /** An accept that has been counted and is not in the list yet, or a close that has left it and
    * is still counted. */
  function InProgress(): Stage -> bool {
    (p: Stage) => p.Counted? || p.Made? || p.Pushing? || p.Removed? || p.Deleted? || p.Uncounting?
  }

  function Coming(manager: bool): Stage -> bool {
    (p: Stage) => (!manager && p.Checked?) || (p.Counted? && p.manager == manager)
                  || ((p.Made? || p.Pushing?) && p.client.manager == manager)
  }

  function Kind(manager: bool): Client -> bool { (c: Client) => c.manager == manager }

  /** One holder per live client: the event pump or one thread. */
  ghost predicate Held(s: State) {
    forall c {:trigger Holds(c)} ::
      (if c in s.served then 1 else 0) + Tally(Holds(c), s.threads) == if c in s.live then 1 else 0
  }

  ghost predicate Placed(s: State) {
    && Distinct(s.list)
    && (forall c {:trigger c in s.list} :: c in s.list ==> c in s.live)
    && (forall c {:trigger c in s.served} :: c in s.served ==> c in s.list)
    && (forall i {:trigger s.threads[i]} :: 0 <= i < |s.threads| ==>
          && (InList(s.threads[i]) ==> s.threads[i].client in s.list)
          && (OffList(s.threads[i]) ==> s.threads[i].client !in s.list))
  }

  /** The counter is the list size plus the accepts and closes in progress. */
  predicate Balanced(s: State) {
    s.count == |s.list| + Tally(InProgress(), s.threads)
  }

  predicate Guarded(s: State) {
    && -1 <= s.owner < |s.threads|
    && forall i {:trigger s.threads[i]} :: 0 <= i < |s.threads| ==> (HasMutex(s.threads[i]) <==> s.owner == i)
  }

  /** Only the acceptor brings users; they stay within the limit, managers within their number. */
  predicate Limited(s: State, max: int, managers: nat) {
    && (forall i {:trigger s.threads[i]} :: 0 < i < |s.threads| ==> !Coming(false)(s.threads[i]))
    && Tally(Kind(false), s.list) + Tally(Coming(false), s.threads) <= max
    && Tally(Kind(true), s.list) + Tally(Coming(true), s.threads) + s.toRegister <= managers
  }

  ghost predicate Inv(s: State, max: int, managers: nat) {
    Held(s) && Placed(s) && Balanced(s) && Guarded(s) && Limited(s, max, managers)
  }

  // ---------------------------------------------------------------- lists

  lemma {:induction false} KindsWithout(q: seq<Client>, c: Client, m: bool)
    ensures Tally(Kind(m), Without(q, c)) <= Tally(Kind(m), q)
  {
    if q != [] {
      KindsWithout(q[1..], c, m);
      var rest := Without(q[1..], c);
      assert ([q[0]] + rest)[1..] == rest && [] + rest == rest;
    }
  }

  lemma KindsPush(q: seq<Client>, c: Client, m: bool)
    ensures Tally(Kind(m), q + [c]) == Tally(Kind(m), q) + if c.manager == m then 1 else 0
  {
    TallySnoc(Kind(m), q, c);
  }

  lemma {:induction false} KindsAll(q: seq<Client>)
    ensures Tally(Kind(false), q) + Tally(Kind(true), q) == |q|
  {
    if q != [] { KindsAll(q[1..]); }
  }

  // ---------------------------------------------------------------- every step keeps it

  /** A thread that has a client is its only holder, and the client is live. */
  lemma SoleHolder(s: State, i: nat)
    requires Held(s) && i < |s.threads| && HasClient(s.threads[i])
    ensures s.threads[i].client in s.live && s.threads[i].client !in s.served
    ensures forall j {:trigger s.threads[j]} :: 0 <= j < |s.threads| && j != i && HasClient(s.threads[j]) ==>
      s.threads[j].client != s.threads[i].client
  {
    var c := s.threads[i].client;
    TallyAt(Holds(c), s.threads, i);
    forall j | 0 <= j < |s.threads| && j != i && HasClient(s.threads[j]) ensures s.threads[j].client != c {
      if s.threads[j].client == c {
        TallyUpdate(Holds(c), s.threads, i, Resting);
        TallyAt(Holds(c), s.threads[i := Resting], j);
      }
    }
  }

  lemma HeldKept(s: State, max: int, e: Event)
    requires Held(s) && Enabled(s, max, e)
    ensures Held(Apply(s, max, e))
  {
    var t := Apply(s, max, e);
    var i := ActorOf(e);
    forall c ensures (if c in t.served then 1 else 0) + Tally(Holds(c), t.threads) == if c in t.live then 1 else 0 {
      TallyUpdate(Holds(c), s.threads, i, Next(s, e));
    }
  }

  lemma GuardedKept(s: State, max: int, e: Event)
    requires Guarded(s) && Enabled(s, max, e)
    ensures Guarded(Apply(s, max, e))
  {
  }

  lemma PlacedAfterPush(s: State, max: int, i: nat)
    requires Held(s) && Placed(s) && Enabled(s, max, Push(i))
    ensures Placed(Apply(s, max, Push(i)))
  {
    SoleHolder(s, i);
  }

  lemma PlacedAfterRemove(s: State, max: int, i: nat)
    requires Held(s) && Placed(s) && Enabled(s, max, Remove(i))
    ensures Placed(Apply(s, max, Remove(i)))
  {
    SoleHolder(s, i);
    WithoutExact(s.list, s.threads[i].client);
  }

  lemma PlacedAfterMake(s: State, max: int, i: nat, id: nat)
    requires Placed(s) && Enabled(s, max, Make(i, id))
    ensures Placed(Apply(s, max, Make(i, id)))
  {
  }

  lemma PlacedKept(s: State, max: int, e: Event)
    requires Held(s) && Placed(s) && Enabled(s, max, e)
    ensures Placed(Apply(s, max, e))
  {
    match e
    case Push(i) => PlacedAfterPush(s, max, i);
    case Remove(i) => PlacedAfterRemove(s, max, i);
    case Make(i, id) => PlacedAfterMake(s, max, i, id);
    case _ =>
  }

  lemma BalancedKept(s: State, max: int, e: Event)
    requires Placed(s) && Balanced(s) && Enabled(s, max, e)
    ensures Balanced(Apply(s, max, e))
  {
    TallyUpdate(InProgress(), s.threads, ActorOf(e), Next(s, e));
    if e.Remove? { WithoutExact(s.list, s.threads[e.i].client); }
  }

  lemma NobodyComing(s: State, max: int, managers: nat)
    requires Limited(s, max, managers) && |s.threads| > 0 && s.threads[0].Resting?
    ensures Tally(Coming(false), s.threads) == 0
  {
    TallyNone(Coming(false), s.threads);
  }

  lemma OthersBringNobody(s: State, max: int, e: Event)
    requires Enabled(s, max, e)
    requires forall i {:trigger s.threads[i]} :: 0 < i < |s.threads| ==> !Coming(false)(s.threads[i])
    ensures var t := Apply(s, max, e);
      forall i {:trigger t.threads[i]} :: 0 < i < |t.threads| ==> !Coming(false)(t.threads[i])
  {
  }

  /** Clients of one kind, in the list or coming: only the acceptor's test and a registration add one. */
  lemma KindGrows(s: State, max: int, e: Event, m: bool)
    requires Enabled(s, max, e)
    ensures var t := Apply(s, max, e);
      Tally(Kind(m), t.list) + Tally(Coming(m), t.threads) <= Tally(Kind(m), s.list) + Tally(Coming(m), s.threads)
        + if (m && e.Register?) || (!m && e.Check?) then 1 else 0
  {
    TallyUpdate(Coming(m), s.threads, ActorOf(e), Next(s, e));
    if e.Push? {
      KindsPush(s.list, s.threads[e.i].client, m);
    } else if e.Remove? {
      KindsWithout(s.list, s.threads[e.i].client, m);
    }
  }

  /** The acceptor's test leaves room for one user although managers are registered beside it. */
  lemma LimitedKept(s: State, max: int, managers: nat, e: Event)
    requires Balanced(s) && Limited(s, max, managers) && Enabled(s, max, e)
    ensures Limited(Apply(s, max, e), max, managers)
  {
    OthersBringNobody(s, max, e);
    KindGrows(s, max, e, false);
    KindGrows(s, max, e, true);
    hide Coming, Kind, InProgress, Next;
    if e.Check? {
      NobodyComing(s, max, managers);
      TallyBound(Kind(false), s.list);
    }
  }

  lemma InvStep(s: State, max: int, managers: nat, e: Event)
    requires Inv(s, max, managers) && Enabled(s, max, e)
    ensures Inv(Apply(s, max, e), max, managers)
  {
    hide Held, Placed, Balanced, Guarded, Limited, Enabled, Apply;
    HeldKept(s, max, e);
    PlacedKept(s, max, e);
    BalancedKept(s, max, e);
    GuardedKept(s, max, e);
    LimitedKept(s, max, managers, e);
  }

  /** The start of a server process with `managers` manager sockets. */
  predicate Initial(s: State, managers: nat) {
    && s.count == 0 && s.list == [] && s.owner == -1 && s.live == {} && s.served == {} && s.toRegister == managers
    && forall i :: 0 <= i < |s.threads| ==> s.threads[i].Resting?
  }

  predicate Runs(s: State, max: int, run: seq<Event>)
    decreases |run|
  {
    run == [] || (Enabled(s, max, run[0]) && Runs(Apply(s, max, run[0]), max, run[1..]))
  }

  function After(s: State, max: int, run: seq<Event>): State
    requires Runs(s, max, run)
    decreases |run|
  {
    if run == [] then s else After(Apply(s, max, run[0]), max, run[1..])
  }

  lemma {:induction false} InvAlong(s: State, max: int, managers: nat, run: seq<Event>)
    requires Inv(s, max, managers) && Runs(s, max, run)
    ensures Inv(After(s, max, run), max, managers)
    decreases |run|
  {
    hide Inv, Enabled, Apply;
    if run != [] {
      InvStep(s, max, managers, run[0]);
      InvAlong(Apply(s, max, run[0]), max, managers, run[1..]);
    }
  }

  lemma InitialInv(s: State, max: int, managers: nat)
    requires Initial(s, managers) && max >= 0
    ensures Inv(s, max, managers)
  {
    forall c ensures Tally(Holds(c), s.threads) == 0 { TallyNone(Holds(c), s.threads); }
    TallyNone(InProgress(), s.threads);
    TallyNone(Coming(false), s.threads);
    TallyNone(Coming(true), s.threads);
  }

  // ---------------------------------------------------------------- main results

  /** In every interleaving: the counter is the list size plus the accepts and closes in progress;
    * every pointer in the list is live; users never exceed the maximum, although managers are
    * registered without a test beside the acceptor; and all clients together never exceed the
    * maximum plus the managers. */
  lemma CountingAndLimit(s: State, max: int, managers: nat, run: seq<Event>)
    requires Initial(s, managers) && max >= 0 && Runs(s, max, run)
    ensures var t := After(s, max, run);
      && t.count == |t.list| + Tally(InProgress(), t.threads)
      && (forall c :: c in t.list ==> c in t.live)
      && Tally(Kind(false), t.list) <= max && |t.list| <= max + managers
  {
    InitialInv(s, max, managers);
    InvAlong(s, max, managers, run);
    KindsAll(After(s, max, run).list);
  }

  /** While one thread copies the targets, no step of another thread changes the list or deletes a
    * client that is in it. */
  lemma ReaderIsSafe(s: State, max: int, managers: nat, run: seq<Event>, i: nat, e: Event)
    requires Initial(s, managers) && max >= 0 && Runs(s, max, run)
    requires StageOf(After(s, max, run), i).Reading? && Enabled(After(s, max, run), max, e) && ActorOf(e) != i
    ensures var t := After(s, max, run); var t' := Apply(t, max, e);
      t'.list == t.list && forall c :: c in t.list ==> c in t'.live
  {
    InitialInv(s, max, managers);
    InvAlong(s, max, managers, run);
    var t := After(s, max, run);
    assert HasMutex(t.threads[i]);
    assert !HasMutex(t.threads[ActorOf(e)]);
  }

  /** Each client is closed once: a thread that closes a client is the only one that has it. */
  lemma ClosedOnce(s: State, max: int, managers: nat, run: seq<Event>, i: nat, j: nat)
    requires Initial(s, managers) && max >= 0 && Runs(s, max, run) && i != j
    requires InList(StageOf(After(s, max, run), i)) && HasClient(StageOf(After(s, max, run), j))
    ensures var t := After(s, max, run);
      && StageOf(t, i).client != StageOf(t, j).client
      && StageOf(t, i).client !in t.served && StageOf(t, i).client in t.list
  {
    InitialInv(s, max, managers);
    InvAlong(s, max, managers, run);
    SoleHolder(After(s, max, run), i);
  }

  // ---------------------------------------------------------------- nobody is stuck

  /** The event begins a new call, of a thread that was resting. */
  predicate NewCall(e: Event) {
    e.Check? || e.Refuse? || e.Register? || e.StartClose? || e.StartReading?
  }

  /** How many steps a thread that has the mutex is from releasing it. */
  function StepsToRelease(p: Stage): nat {
    match p
    case Removing(_) => 3
    case Pushing(_) => 2
    case Removed(_) => 2
    case Pushed(_) => 1
    case Deleted => 1
    case Reading => 1
    case _ => 0
  }

  /** Inside the mutex nothing blocks: its holder has an enabled step that releases the mutex or
    * brings the release nearer. */
  lemma HolderReleases(s: State, max: int) returns (e: Event)
    requires Guarded(s) && s.owner >= 0
    ensures ActorOf(e) == s.owner && !NewCall(e) && Enabled(s, max, e)
    ensures var t := Apply(s, max, e);
      t.owner == -1 || (t.owner == s.owner && StepsToRelease(t.threads[s.owner]) < StepsToRelease(s.threads[s.owner]))
  {
    var i := s.owner;
    assert HasMutex(s.threads[i]);
    match s.threads[i] {
      case Pushing(_) => e := Push(i);
      case Pushed(_) => e := UnlockPushed(i);
      case Removing(_) => e := Remove(i);
      case Removed(_) => e := Delete(i);
      case Deleted => e := UnlockClosed(i);
      case Reading => e := StopReading(i);
      case _ => assert false;
    }
  }

  /** There is always an address that no live client has. */
  lemma {:induction false} FreshId(live: set<Client>, manager: bool) returns (id: nat)
    ensures forall n {:trigger Client(n, manager)} :: n >= id ==> Client(n, manager) !in live
  {
    if live == {} {
      id := 0;
    } else {
      var c :| c in live;
      id := FreshId(live - {c}, manager);
      id := if id <= c.id then c.id + 1 else id;
      forall n | n >= id ensures Client(n, manager) !in live {
        assert Client(n, manager) !in live - {c};
      }
    }
  }

  /** With the mutex free, a thread in the middle of a call can take its next step. */
  lemma CallerGoesOn(s: State, max: int, managers: nat, i: nat) returns (e: Event)
    requires Guarded(s) && Limited(s, max, managers) && s.owner == -1
    requires i < |s.threads| && !s.threads[i].Resting?
    ensures ActorOf(e) == i && !NewCall(e) && Enabled(s, max, e)
  {
    assert !HasMutex(s.threads[i]);
    match s.threads[i] {
      case Checked => assert Coming(false)(s.threads[i]); e := Count;
      case Counted(manager) =>
        var id := FreshId(s.live, manager);
        assert Client(id, manager) !in s.live;
        e := Make(i, id);
      case Made(_) => e := LockToPush(i);
      case Arming(_) => e := ArmOk(i);
      case Detaching(_) => e := Detach(i);
      case Closing(_) => e := LockToClose(i);
      case Uncounting => e := Uncount(i);
      case _ => assert false;
    }
  }

  /** In every reachable state with a thread in the middle of accepting, closing or reading, a step
    * is enabled that is not the start of a new call: the mutex blocks nobody for good. */
  lemma NobodyStuck(s: State, max: int, managers: nat, run: seq<Event>, i: nat)
    requires Initial(s, managers) && max >= 0 && Runs(s, max, run)
    requires !StageOf(After(s, max, run), i).Resting?
    ensures exists e :: !NewCall(e) && Enabled(After(s, max, run), max, e)
  {
    InitialInv(s, max, managers);
    InvAlong(s, max, managers, run);
    var t := After(s, max, run);
    var e: Event;
    if t.owner >= 0 {
      e := HolderReleases(t, max);
    } else {
      e := CallerGoesOn(t, max, managers, i);
    }
    assert !NewCall(e) && Enabled(t, max, e);
  }
}
