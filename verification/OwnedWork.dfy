/** The awaits behind owned work: owned_thread, and the drains that end operation and lease. Any of these
    awaits may be interrupted by a cancellation, again and again, and any task may run in between. Nothing
    here asks whether a thread is still at work before it is let go: that this is never so is proved. */
module OwnedWork {
  import opened Common
  import opened Admission
  import opened AdmissionInvariant
  import opened AdmissionTheorems
  import opened AdmissionOwnership

  // -------- one turn of _drain --------

  /** _drain inside its await. The set it loops over belongs to its caller. */
  datatype Drain = Drain(current: ThreadId, cancelled: bool)

  datatype DrainEnd = Again(drain: Drain) | Finished(cancelled: bool)

  /** The test of the loop, and the future that next(iter(futures)) picks when it passes. */
  function Loop(futures: set<ThreadId>, next: ThreadId, cancelled: bool): DrainEnd {
    if futures == {} then Finished(cancelled) else Again(Drain(next, cancelled))
  }

  predicate MayPick(futures: set<ThreadId>, next: ThreadId) {
    futures == {} || next in futures
  }

  /** The await of a shielded future ends when the future is done, be it by its own cancellation, or at any time by
      a cancellation of the waiting task. */
  predicate Wakes(running: set<ThreadId>, future: ThreadId, cancelled: bool) {
    cancelled || future !in running
  }

  // -------- tasks --------

  /** An owned_thread call behind run_in_executor. The futures that it drains are its own. */
  datatype CallState = Awaiting | Draining(futures: set<ThreadId>, drain: Drain) | Returned

  datatype Call = Call(owner: OwnerId, future: ThreadId, state: CallState)

  /** The manager, the operations and the leases that are inside the drain of their finally clause,
      and all owned_thread calls. */
  datatype World = World(m: Manager, closing: map<OwnerId, Drain>, dropping: map<OwnerId, Drain>, calls: seq<Call>)

  /** What may happen next; next is what the loop would pick. cancelled says whether the await raised CancelledError:
      because its task was cancelled, or because the future itself was cancelled before it ran. */
  datatype Happening =
    | Other(e: Event)
    | Exits(o: OwnerId, cancelled: bool, next: ThreadId)
    | ExitWakes(o: OwnerId, cancelled: bool, next: ThreadId)
    | LeaseExits(o: OwnerId, next: ThreadId)
    | LeaseWakes(o: OwnerId, cancelled: bool, next: ThreadId)
    | Calls(o: OwnerId)
    | CallWakes(c: nat, cancelled: bool, next: ThreadId)

  predicate Sound(w: World) {
    Shape(w.m) && HasSharedLanes(w.m)
  }

  function CancelIf(m: Manager, o: OwnerId, cancelled: bool): (after: Manager)
    requires Shape(m) && o < |m.life|
    ensures Shape(after) && SameAdmission(m, after)
  {
    if cancelled then Cancel(m, o) else m
  }

  /** The finally clause of operation, from the result of its loop on. */
  function EndOperation(w: World, o: OwnerId, end: DrainEnd): (after: World)
    requires Sound(w) && o < |w.m.life|
    ensures Sound(after)
  {
    match end
    case Again(drain) => w.(closing := w.closing[o := drain])
    case Finished(cancelled) => w.(m := Release(CancelIf(w.m, o, cancelled), o), closing := w.closing - {o})
  }

  predicate CanExit(w: World, o: OwnerId, next: ThreadId)
    requires Sound(w)
  {
    o < |w.m.life| && w.m.phase[o] == Entered && o !in w.closing && MayPick(w.m.life[o].threads, next)
  }

  /** The body of an operation ends, by itself or by a cancellation. */
  function Exit(w: World, o: OwnerId, cancelled: bool, next: ThreadId): (after: World)
    requires Sound(w)
    ensures Sound(after)
  {
    if CanExit(w, o, next) then
      EndOperation(w.(m := CancelIf(w.m, o, cancelled)), o, Loop(w.m.life[o].threads, next, false))
    else w
  }

  /** Whether a drain over an owner's live set wakes up, and what it may pick then. */
  predicate CanWake(w: World, drains: map<OwnerId, Drain>, o: OwnerId, cancelled: bool, next: ThreadId)
    requires Sound(w)
  {
    && o in drains && o < |w.m.life| && Wakes(w.m.running, drains[o].current, cancelled)
    && MayPick(Reap(w.m, o, drains[o].current).life[o].threads, next)
  }

  function ExitWake(w: World, o: OwnerId, cancelled: bool, next: ThreadId): (after: World)
    requires Sound(w)
    ensures Sound(after)
  {
    if CanWake(w, w.closing, o, cancelled, next) then
      var m := Reap(w.m, o, w.closing[o].current);
      EndOperation(w.(m := m), o, Loop(m.life[o].threads, next, w.closing[o].cancelled || cancelled))
    else w
  }

  /** The finally clause of lease, from the result of its loop on. */
  function EndLease(w: World, o: OwnerId, end: DrainEnd): (after: World)
    requires Sound(w) && o < |w.m.life|
    ensures Sound(after)
  {
    match end
    case Again(drain) => w.(dropping := w.dropping[o := drain])
    case Finished(cancelled) => w.(m := CancelIf(Unlease(w.m, o), o, cancelled), dropping := w.dropping - {o})
  }

  predicate CanDrop(w: World, o: OwnerId, next: ThreadId)
    requires Sound(w)
  {
    o < |w.m.life| && w.m.life[o].lease && o !in w.dropping && MayPick(w.m.life[o].threads, next)
  }

  function LeaseExit(w: World, o: OwnerId, next: ThreadId): (after: World)
    requires Sound(w)
    ensures Sound(after)
  {
    if CanDrop(w, o, next) then EndLease(w, o, Loop(w.m.life[o].threads, next, false)) else w
  }

  function LeaseWake(w: World, o: OwnerId, cancelled: bool, next: ThreadId): (after: World)
    requires Sound(w)
    ensures Sound(after)
  {
    if CanWake(w, w.dropping, o, cancelled, next) then
      var m := Reap(w.m, o, w.dropping[o].current);
      EndLease(w.(m := m), o, Loop(m.life[o].threads, next, w.dropping[o].cancelled || cancelled))
    else w
  }

  predicate CanCall(m: Manager, o: OwnerId)
    requires Shape(m)
  {
    IsCurrent(m, o) && !m.life[o].released && m.life[o].threads == {}
  }

  /** owned_thread up to its await, when it does not raise. */
  function StartCall(w: World, o: OwnerId): (after: World)
    requires Sound(w)
    ensures Sound(after)
  {
    if CanCall(w.m, o) then
      World(StartThread(w.m, o), w.closing, w.dropping, w.calls + [Call(o, w.m.threadCount, Awaiting)])
    else w
  }

  predicate ValidCall(w: World, c: nat) {
    c < |w.calls| && w.calls[c].owner < |w.m.life|
  }

  /** The finally clause of owned_thread, which discards its future unconditionally. */
  function FinishCall(w: World, c: nat): (after: World)
    requires Sound(w) && ValidCall(w, c)
    ensures Sound(after)
  {
    var call := w.calls[c];
    w.(m := Discard(w.m, call.owner, call.future), calls := w.calls[c := call.(state := Returned)])
  }

  function EndCall(w: World, c: nat, futures: set<ThreadId>, end: DrainEnd): (after: World)
    requires Sound(w) && ValidCall(w, c)
    ensures Sound(after)
  {
    match end
    case Again(drain) => w.(calls := w.calls[c := w.calls[c].(state := Draining(futures, drain))])
    case Finished(_) => FinishCall(w, c)
  }

  /** What is left of a drain's own set when it wakes. */
  function Left(futures: set<ThreadId>, current: ThreadId, running: set<ThreadId>): set<ThreadId> {
    if current in running then futures else futures - {current}
  }

  predicate CanReturn(w: World, c: nat, cancelled: bool, next: ThreadId) {
    && ValidCall(w, c)
    && match w.calls[c].state
       case Awaiting => Wakes(w.m.running, w.calls[c].future, cancelled) && (cancelled ==> next == w.calls[c].future)
       case Draining(futures, drain) =>
         Wakes(w.m.running, drain.current, cancelled) && MayPick(Left(futures, drain.current, w.m.running), next)
       case Returned => false
  }

  /** A call wakes: in its first await, where a cancellation makes it drain its future, or in that drain. */
  function CallWake(w: World, c: nat, cancelled: bool, next: ThreadId): (after: World)
    requires Sound(w)
    ensures Sound(after)
  {
    if !CanReturn(w, c, cancelled, next) then w
    else
      var call := w.calls[c];
      match call.state
      case Awaiting =>
        if cancelled then
          EndCall(w.(m := Cancel(w.m, call.owner)), c, {call.future}, Loop({call.future}, next, false))
        else FinishCall(w, c)
      case Draining(futures, drain) =>
        var left := Left(futures, drain.current, w.m.running);
        EndCall(w, c, left, Loop(left, next, drain.cancelled || cancelled))
      case Returned => w
  }

  /** The steps of the manager that are not made by these three constructs. */
  predicate IsOther(e: Event) {
    !(e.EvLeave? || e.EvDropLease? || e.EvStartThread? || e.EvReap? || e.EvCancel?)
  }

  function Happen(w: World, h: Happening): (after: World)
    requires Sound(w)
    ensures Sound(after)
  {
    match h
    case Other(e) => if IsOther(e) then w.(m := Step(w.m, e)) else w
    case Exits(o, cancelled, next) => Exit(w, o, cancelled, next)
    case ExitWakes(o, cancelled, next) => ExitWake(w, o, cancelled, next)
    case LeaseExits(o, next) => LeaseExit(w, o, next)
    case LeaseWakes(o, cancelled, next) => LeaseWake(w, o, cancelled, next)
    case Calls(o) => StartCall(w, o)
    case CallWakes(c, cancelled, next) => CallWake(w, c, cancelled, next)
  }

  function Course(w: World, happenings: seq<Happening>): (after: World)
    requires Sound(w)
    ensures Sound(after)
  {
    if happenings == [] then w
    else Happen(Course(w, happenings[..|happenings| - 1]), happenings[|happenings| - 1])
  }

  function Quiet(m: Manager): World {
    World(m, map[], map[], [])
  }

  // -------- one manager step, seen by an owner --------

  /** The future is done, or the owner has it. */
  predicate Keeps(m: Manager, o: OwnerId, t: ThreadId) {
    o < |m.life| && t < m.threadCount && (t in m.running ==> t in m.life[o].threads)
  }

  predicate Done(m: Manager, t: ThreadId) {
    t < m.threadCount && t !in m.running
  }

  /** What an owner's asyncio tasks rely on from one state of the manager to the next. */
  ghost predicate Onward(m: Manager, after: Manager, o: OwnerId, leaves: bool, drops: bool)
    requires Shape(m) && Shape(after)
  {
    && o < |m.life| <= |after.life|
    && (IsCurrent(m, o) ==> IsCurrent(after, o))
    && (m.phase[o] == Entered && !leaves ==> after.phase[o] == Entered)
    && (m.life[o].lease && !drops ==> after.life[o].lease)
    && (m.life[o].cancelled ==> after.life[o].cancelled)
    && (forall t :: Keeps(m, o, t) ==> Keeps(after, o, t))
    && (forall t :: Done(m, t) ==> Done(after, t))
  }

  lemma SameLifeOnward(m: Manager, after: Manager, o: OwnerId)
    requires Shape(m) && Shape(after) && o < |m.life| <= |after.life|
    requires after.life[o] == m.life[o] && after.running == m.running && after.threadCount == m.threadCount
    requires m.phase[o] == Entered ==> after.phase[o] == Entered
    ensures Onward(m, after, o, false, false)
  {
  }

  lemma AcquireOnward(m: Manager, owner: Owner, parentLane: Option<LaneName>, o: OwnerId)
    requires Shape(m) && HasSharedLanes(m) && Inv(m) && o < |m.life|
    ensures Onward(m, Acquire(m, owner, parentLane).0, o, false, false)
  {
    hide Inv, Acquire, Onward;
    AcquireKeepsHoldings(m, owner, parentLane);
    AcquiredPhases(m, owner, parentLane, o);
    SameLifeOnward(m, Acquire(m, owner, parentLane).0, o);
  }

  lemma FailOnward(m: Manager, x: OwnerId, o: OwnerId)
    requires Shape(m) && Inv(m) && o < |m.life| && x < |m.life|
    ensures Onward(m, Fail(m, x), o, false, false)
  {
    hide Inv, Vacate, Onward;
    VacateKeepsLife(m, x);
    VacatedPhases(m, x, o);
    SameLifeOnward(m, Fail(m, x), o);
  }

  lemma LeaveOnward(m: Manager, x: OwnerId, o: OwnerId)
    requires Shape(m) && Inv(m) && o < |m.life| && x < |m.life|
    ensures Onward(m, Leave(m, x), o, o == x, false)
  {
    hide Inv, Vacate;
    var released := m.(life := m.life[x := m.life[x].(released := true)]);
    SameAdmissionKeepsInv(m, released);
    VacateKeepsLife(released, x);
    VacatedPhases(released, x, o);
  }

  lemma ShutdownOnward(m: Manager, o: OwnerId)
    requires Shape(m) && o < |m.life|
    ensures Onward(m, Shutdown(m), o, false, false)
  {
    hide AllEmpty, Onward;
    SameLifeOnward(m, Shutdown(m), o);
  }

  lemma FlagsOnward(m: Manager, x: OwnerId, l: Lifetime, o: OwnerId)
    requires Shape(m) && x < |m.life| && o < |m.life|
    requires l.threads == m.life[x].threads && l.lease == m.life[x].lease && l.released == m.life[x].released
    requires m.life[x].cancelled ==> l.cancelled
    ensures Onward(m, Update(m, x, l), o, false, false)
  {
  }

  lemma BorrowOnward(m: Manager, e: Event, o: OwnerId)
    requires Shape(m) && |m.life| == |m.phase| && o < |m.life|
    requires e.EvBorrow? || e.EvGiveBack? || e.EvConnect? || e.EvDisconnect? || e.EvCancel?
    ensures Onward(m, StepLife(m, e), o, false, false)
  {
    hide Shape, Onward, Update;
    SameLifeOnward(m, m, o);
    if IsCurrent(m, e.o) {
      var l := m.life[e.o];
      match e
      case EvBorrow(x, _) =>
        FlagsOnward(m, x, l.(runtime := true), o);
        FlagsOnward(m, x, l.(control := true), o);
      case EvGiveBack(x) => FlagsOnward(m, x, l.(runtime := false, control := false), o);
      case EvConnect(x, _, _) => FlagsOnward(m, x, l.(connected := true), o);
      case EvDisconnect(x) => FlagsOnward(m, x, l.(connected := false), o);
      case EvCancel(x) => FlagsOnward(m, x, l.(cancelled := true), o);
    }
  }

  lemma ThreadOnward(m: Manager, e: Event, o: OwnerId)
    requires Shape(m) && |m.life| == |m.phase| && o < |m.life|
    requires e.EvStartThread? || e.EvEndThread? || e.EvReap?
    ensures Onward(m, StepLife(m, e), o, false, false)
  {
    hide Shape, Onward, StartThread, EndThread, Reap;
    SameLifeOnward(m, m, o);
    match e
    case EvStartThread(x) => if IsCurrent(m, x) { StartOnward(m, x, o); }
    case EvEndThread(t) => EndOnward(m, t, o);
    case EvReap(x, t) => if IsCurrent(m, x) { ReapOnward(m, x, t, o); }
  }

  lemma StartOnward(m: Manager, x: OwnerId, o: OwnerId)
    requires Shape(m) && |m.life| == |m.phase| && o < |m.life| && IsCurrent(m, x)
    ensures Onward(m, StartThread(m, x), o, false, false)
  {
    hide Shape;
  }

  lemma EndOnward(m: Manager, t: ThreadId, o: OwnerId)
    requires Shape(m) && |m.life| == |m.phase| && o < |m.life|
    ensures Onward(m, EndThread(m, t), o, false, false)
  {
    hide Shape;
  }

  lemma ReapOnward(m: Manager, x: OwnerId, t: ThreadId, o: OwnerId)
    requires Shape(m) && |m.life| == |m.phase| && o < |m.life| && IsCurrent(m, x)
    ensures Onward(m, Reap(m, x, t), o, false, false)
  {
    hide Shape;
  }

  lemma LeaseOnward(m: Manager, e: Event, o: OwnerId)
    requires Shape(m) && |m.life| == |m.phase| && o < |m.life|
    requires e.EvLease? || e.EvDropLease?
    ensures Onward(m, StepLife(m, e), o, false, e == EvDropLease(o))
  {
    hide Shape, Onward, Lease, DropLease;
    if IsCurrent(m, e.o) {
      match e
      case EvLease(x, accounts) => TakeOnward(m, x, accounts, o);
      case EvDropLease(x) => DropOnward(m, x, o);
    } else {
      SameLifeOnward(m, m, o);
      DropsOnward(m, m, o, e == EvDropLease(o));
    }
  }

  lemma DropsOnward(m: Manager, after: Manager, o: OwnerId, drops: bool)
    requires Shape(m) && Shape(after) && Onward(m, after, o, false, false)
    ensures Onward(m, after, o, false, drops)
  {
  }

  lemma TakeOnward(m: Manager, x: OwnerId, accounts: set<int>, o: OwnerId)
    requires Shape(m) && |m.life| == |m.phase| && o < |m.life| && IsCurrent(m, x)
    ensures Onward(m, Lease(m, x, accounts), o, false, false)
  {
    hide Shape;
  }

  lemma DropOnward(m: Manager, x: OwnerId, o: OwnerId)
    requires Shape(m) && |m.life| == |m.phase| && o < |m.life| && IsCurrent(m, x)
    ensures Onward(m, DropLease(m, x), o, false, x == o)
  {
    hide Shape;
  }

  lemma UseOnward(m: Manager, e: Event, o: OwnerId)
    requires Shape(m) && |m.life| == |m.phase| && o < |m.life|
    ensures Onward(m, StepLife(m, e), o, false, e == EvDropLease(o))
  {
    hide Shape, Onward, Borrow, GiveBack, Connect, Disconnect, Cancel, Lease, DropLease, StartThread, EndThread, Reap;
    if e.EvBorrow? || e.EvGiveBack? || e.EvConnect? || e.EvDisconnect? || e.EvCancel? {
      BorrowOnward(m, e, o);
    } else if e.EvStartThread? || e.EvEndThread? || e.EvReap? {
      ThreadOnward(m, e, o);
    } else if e.EvLease? || e.EvDropLease? {
      LeaseOnward(m, e, o);
    } else {
      SameLifeOnward(m, m, o);
    }
  }

  lemma StepOnward(m: Manager, e: Event, o: OwnerId)
    requires Shape(m) && HasSharedLanes(m) && Inv(m) && o < |m.life| == |m.phase|
    ensures Onward(m, Step(m, e), o, e == EvLeave(o), e == EvDropLease(o))
  {
    hide Inv, Shape, Acquire, Leave, Fail, Shutdown, StepLife, Onward;
    match e
    case EvAcquire(owner, parentLane) => AcquireOnward(m, owner, parentLane, o);
    case EvFail(x) => if x < |m.phase| { FailOnward(m, x, o); } else { SameLifeOnward(m, m, o); }
    case EvLeave(x) =>
      if x < |m.phase| { LeaveOnward(m, x, o); } else { SameLifeOnward(m, m, o); }
    case EvShutdown => ShutdownOnward(m, o);
    case EvResume(_) => SameLifeOnward(m, Step(m, e), o);
    case EvTick(_) => SameLifeOnward(m, Step(m, e), o);
    case _ => UseOnward(m, e, o);
  }

  lemma OnlyCallsStartThreads(m: Manager, e: Event)
    requires Shape(m) && HasSharedLanes(m) && Inv(m) && |m.life| == |m.phase| && !e.EvStartThread?
    ensures Step(m, e).running <= m.running
  {
    hide Inv, Shape, Acquire, Vacate, Shutdown;
    match e
    case EvAcquire(owner, parentLane) => AcquireKeepsHoldings(m, owner, parentLane);
    case EvFail(x) => if x < |m.phase| { FailStartsNothing(m, x); }
    case EvLeave(x) =>
      if x < |m.phase| { LeaveStartsNothing(m, x); }
    case EvShutdown => ShutdownStartsNothing(m);
    case _ =>
  }

  lemma FailStartsNothing(m: Manager, x: OwnerId)
    requires Shape(m) && x < |m.phase|
    ensures Fail(m, x).running == m.running
  {
    hide Vacate;
    VacateKeepsLife(m, x);
  }

  lemma LeaveStartsNothing(m: Manager, x: OwnerId)
    requires Shape(m) && x < |m.phase|
    ensures Leave(m, x).running == m.running
  {
    hide Vacate;
    VacateKeepsLife(m.(life := m.life[x := m.life[x].(released := true)]), x);
  }

  lemma ShutdownStartsNothing(m: Manager)
    requires Shape(m)
    ensures Shutdown(m).running == m.running
  {
  }

  // -------- what asyncio tasks rely on --------

  ghost predicate ClosingOk(m: Manager, o: OwnerId, d: Drain)
    requires Shape(m)
  {
    o < |m.life| && m.phase[o] == Entered && Keeps(m, o, d.current)
  }

  ghost predicate DroppingOk(m: Manager, o: OwnerId, d: Drain)
    requires Shape(m)
  {
    o < |m.life| && IsCurrent(m, o) && m.life[o].lease && Keeps(m, o, d.current)
  }

  /** A call that drains was cancelled and drains its own future; one that returned left no work behind. */
  ghost predicate CallOk(m: Manager, call: Call)
    requires Shape(m)
  {
    && call.owner < |m.life| && IsCurrent(m, call.owner) && Keeps(m, call.owner, call.future)
    && match call.state
       case Awaiting => true
       case Draining(futures, drain) =>
         futures == {call.future} && drain.current == call.future && m.life[call.owner].cancelled
       case Returned => Done(m, call.future)
  }

  ghost predicate IsOf(calls: seq<Call>, c: int, t: ThreadId) {
    0 <= c < |calls| && calls[c].future == t
  }

  ghost predicate Attended(running: set<ThreadId>, calls: seq<Call>) {
    forall t :: t in running ==> exists c :: IsOf(calls, c, t)
  }

  ghost predicate PlacesOk(w: World)
    requires Sound(w)
  {
    && (forall o :: o in w.closing ==> ClosingOk(w.m, o, w.closing[o]))
    && (forall o :: o in w.dropping ==> DroppingOk(w.m, o, w.dropping[o]))
    && (forall c :: 0 <= c < |w.calls| ==> CallOk(w.m, w.calls[c]))
  }

  /** And every unfinished future is that of a call. */
  ghost predicate TasksOk(w: World)
    requires Sound(w)
  {
    PlacesOk(w) && Attended(w.m.running, w.calls)
  }

  /** Some run of guarded steps leads from one state of the manager to the other. */
  ghost predicate Follows(m: Manager, after: Manager)
    requires Shape(m) && HasSharedLanes(m)
  {
    exists events :: after == Run(m, events)
  }

  ghost predicate WorldOk(start: Manager, w: World) {
    Reachable(start) && Sound(w) && Follows(start, w.m) && TasksOk(w)
  }

  lemma FollowsStep(start: Manager, m: Manager, e: Event)
    requires Shape(start) && HasSharedLanes(start) && Follows(start, m)
    ensures Shape(m) && HasSharedLanes(m) && Follows(start, Step(m, e))
  {
    hide Step, Shape, Run;
    var events :| m == Run(start, events);
    RunSnoc(start, events, e);
  }

  lemma FollowsOk(start: Manager, m: Manager)
    requires Reachable(start) && Follows(start, m)
    ensures Shape(m) && HasSharedLanes(m) && Inv(m) && OwnershipOk(m)
  {
    hide Reachable, Inv, OwnershipOk, Run;
    ReachableOwnership(start);
    var events :| m == Run(start, events);
    RunKeepsInv(start, events);
    RunKeepsOwnership(start, events);
  }

  lemma FollowsReachable(start: Manager, m: Manager)
    requires Reachable(start) && Follows(start, m)
    ensures Reachable(m)
  {
    hide Run, Initial;
    var lanes, first :| SpecsOk(lanes) && start == Run(Initial(lanes), first);
    var rest :| m == Run(start, rest);
    RunOn(Initial(lanes), first, rest);
    assert m == Run(Initial(lanes), first + rest);
  }

  // -------- guarded steps keep drains and calls as they should be --------

  lemma ClosingStays(m: Manager, after: Manager, o: OwnerId, d: Drain, drops: bool)
    requires Shape(m) && Shape(after) && ClosingOk(m, o, d) && Onward(m, after, o, false, drops)
    ensures ClosingOk(after, o, d)
  {
  }

  lemma DroppingStays(m: Manager, after: Manager, o: OwnerId, d: Drain, leaves: bool)
    requires Shape(m) && Shape(after) && DroppingOk(m, o, d) && Onward(m, after, o, leaves, false)
    ensures DroppingOk(after, o, d)
  {
  }

  lemma CallStays(m: Manager, after: Manager, call: Call, leaves: bool, drops: bool)
    requires Shape(m) && Shape(after) && CallOk(m, call) && Onward(m, after, call.owner, leaves, drops)
    ensures CallOk(after, call)
  {
  }

  lemma PlacesStay(w: World, e: Event)
    requires Sound(w) && PlacesOk(w) && Inv(w.m) && |w.m.life| == |w.m.phase|
    requires (e.EvLeave? ==> e.o !in w.closing) && (e.EvDropLease? ==> e.o !in w.dropping)
    ensures PlacesOk(w.(m := Step(w.m, e)))
  {
    hide Inv, Shape, Step, ClosingOk, DroppingOk, CallOk, Onward, Keeps, Done;
    var m, after := w.m, Step(w.m, e);
    forall o | o in w.closing
      ensures ClosingOk(after, o, w.closing[o])
    {
      ClosingIsThere(m, o, w.closing[o]);
      StepOnward(m, e, o);
      ClosingStays(m, after, o, w.closing[o], e == EvDropLease(o));
    }
    forall o | o in w.dropping
      ensures DroppingOk(after, o, w.dropping[o])
    {
      DroppingIsThere(m, o, w.dropping[o]);
      StepOnward(m, e, o);
      DroppingStays(m, after, o, w.dropping[o], e == EvLeave(o));
    }
    forall c | 0 <= c < |w.calls|
      ensures CallOk(after, w.calls[c])
    {
      StepCall(m, e, w.calls[c]);
    }
  }

  lemma TasksStay(w: World, e: Event)
    requires Sound(w) && TasksOk(w) && Inv(w.m) && |w.m.life| == |w.m.phase| && !e.EvStartThread?
    requires (e.EvLeave? ==> e.o !in w.closing) && (e.EvDropLease? ==> e.o !in w.dropping)
    ensures TasksOk(w.(m := Step(w.m, e)))
  {
    hide Inv, Shape, Step, PlacesOk, IsOf;
    PlacesStay(w, e);
    OnlyCallsStartThreads(w.m, e);
  }

  lemma ClosingIsThere(m: Manager, o: OwnerId, d: Drain)
    requires Shape(m) && ClosingOk(m, o, d)
    ensures o < |m.life|
  {
  }

  lemma DroppingIsThere(m: Manager, o: OwnerId, d: Drain)
    requires Shape(m) && DroppingOk(m, o, d)
    ensures o < |m.life|
  {
  }

  lemma StepCall(m: Manager, e: Event, call: Call)
    requires Shape(m) && HasSharedLanes(m) && Inv(m) && |m.life| == |m.phase| && CallOk(m, call)
    ensures CallOk(Step(m, e), call)
  {
    hide Inv, Shape, Step, Onward, Keeps, Done;
    StepOnward(m, e, call.owner);
    CallStays(m, Step(m, e), call, e == EvLeave(call.owner), e == EvDropLease(call.owner));
  }

  lemma WorldStep(start: Manager, w: World, e: Event)
    requires WorldOk(start, w) && !e.EvStartThread?
    requires (e.EvLeave? ==> e.o !in w.closing) && (e.EvDropLease? ==> e.o !in w.dropping)
    ensures WorldOk(start, w.(m := Step(w.m, e)))
  {
    hide Reachable, Inv, OwnershipOk, Step, TasksOk, Follows, Shape;
    ReachableInv(start);
    FollowsOk(start, w.m);
    FollowsStep(start, w.m, e);
    SameLengths(w.m);
    TasksStay(w, e);
  }

  lemma SameLengths(m: Manager)
    requires Shape(m)
    ensures |m.life| == |m.phase| == |m.owners|
  {
  }

  // -------- the finally clauses --------

  lemma ReleaseOk(start: Manager, w: World, o: OwnerId, cancelled: bool)
    requires WorldOk(start, w) && o < |w.m.life| && w.m.phase[o] == Entered && w.m.life[o].threads == {} && o !in w.closing
    ensures WorldOk(start, w.(m := Release(CancelIf(w.m, o, cancelled), o)))
  {
    hide Reachable, Follows, Release, TasksOk;
    var marked := w.(m := CancelIf(w.m, o, cancelled));
    if cancelled {
      WorldStep(start, w, EvCancel(o));
    }
    WorldStep(start, marked, EvLeave(o));
    assert Step(marked.m, EvLeave(o)) == Release(marked.m, o);
  }

  lemma EndOperationOk(start: Manager, w: World, o: OwnerId, next: ThreadId, cancelled: bool)
    requires WorldOk(start, w) && o < |w.m.life| && w.m.phase[o] == Entered && o !in w.closing
    requires MayPick(w.m.life[o].threads, next)
    ensures WorldOk(start, EndOperation(w, o, Loop(w.m.life[o].threads, next, cancelled)))
  {
    hide Reachable, Follows, Release, CancelIf, Inv, TasksOk, OwnershipOk;
    if w.m.life[o].threads == {} {
      ReleaseOk(start, w, o, cancelled);
      assert w.closing - {o} == w.closing;
    } else {
      FollowsOk(start, w.m);
      HeldIsKept(w.m, o, next);
      PutClosing(w, o, Drain(next, cancelled));
    }
  }

  lemma HeldIsKept(m: Manager, o: OwnerId, t: ThreadId)
    requires Shape(m) && OwnershipOk(m) && o < |m.life| && t in m.life[o].threads
    ensures Keeps(m, o, t)
  {
    assert HoldsThread(m, o, t);
  }

  lemma PutClosing(w: World, o: OwnerId, d: Drain)
    requires Sound(w) && TasksOk(w) && ClosingOk(w.m, o, d)
    ensures TasksOk(w.(closing := w.closing[o := d]))
  {
  }

  lemma PutDropping(w: World, o: OwnerId, d: Drain)
    requires Sound(w) && TasksOk(w) && DroppingOk(w.m, o, d)
    ensures TasksOk(w.(dropping := w.dropping[o := d]))
  {
  }

  lemma ExitOk(start: Manager, w: World, o: OwnerId, cancelled: bool, next: ThreadId)
    requires WorldOk(start, w)
    ensures WorldOk(start, Exit(w, o, cancelled, next))
  {
    hide Reachable, Follows, TasksOk, EndOperation;
    if CanExit(w, o, next) {
      if cancelled {
        WorldStep(start, w, EvCancel(o));
      }
      EndOperationOk(start, w.(m := CancelIf(w.m, o, cancelled)), o, next, false);
    }
  }

  lemma WithoutClosing(start: Manager, w: World, o: OwnerId)
    requires WorldOk(start, w) && o in w.closing
    ensures WorldOk(start, w.(closing := w.closing - {o})) && ClosingOk(w.m, o, w.closing[o])
  {
  }

  /** A drain over the live set takes one future off it, if that is done. */
  lemma ReapOk(start: Manager, w: World, o: OwnerId, t: ThreadId)
    requires WorldOk(start, w) && o < |w.m.life| && IsCurrent(w.m, o)
    ensures var m := Reap(w.m, o, t);
            && WorldOk(start, w.(m := m)) && |m.life| == |w.m.life| && m.phase == w.m.phase && IsCurrent(m, o)
            && m.life[o].lease == w.m.life[o].lease
  {
    hide Reachable, Follows, TasksOk;
    WorldStep(start, w, EvReap(o, t));
  }

  lemma ExitWakeOk(start: Manager, w: World, o: OwnerId, cancelled: bool, next: ThreadId)
    requires WorldOk(start, w)
    ensures WorldOk(start, ExitWake(w, o, cancelled, next))
  {
    hide Reachable, Follows, TasksOk, EndOperation;
    if CanWake(w, w.closing, o, cancelled, next) {
      var d, rest := w.closing[o], w.(closing := w.closing - {o});
      WithoutClosing(start, w, o);
      ReapOk(start, rest, o, d.current);
      var reaped := rest.(m := Reap(w.m, o, d.current));
      hide Reap, WorldOk;
      EndOperationOk(start, reaped, o, next, d.cancelled || cancelled);
      SameEnd(w.(m := reaped.m), o, Loop(reaped.m.life[o].threads, next, d.cancelled || cancelled));
    }
  }

  /** The end of an operation does not depend on where its drain stood. */
  lemma SameEnd(w: World, o: OwnerId, end: DrainEnd)
    requires Sound(w) && o < |w.m.life|
    ensures EndOperation(w, o, end) == EndOperation(w.(closing := w.closing - {o}), o, end)
  {
    hide Release, CancelIf;
    assert w.closing - {o} - {o} == w.closing - {o};
    assert end.Again? ==> (w.closing - {o})[o := end.drain] == w.closing[o := end.drain];
  }

  lemma DropIsUnlease(m: Manager, o: OwnerId)
    requires Shape(m) && HasSharedLanes(m) && o < |m.life| && IsCurrent(m, o) && m.life[o].lease && m.life[o].threads == {}
    ensures Step(m, EvDropLease(o)) == Unlease(m, o) && IsCurrent(Unlease(m, o), o)
  {
  }

  lemma UnleaseOk(start: Manager, w: World, o: OwnerId, cancelled: bool)
    requires WorldOk(start, w) && o < |w.m.life| && IsCurrent(w.m, o) && w.m.life[o].lease && o !in w.dropping
    requires w.m.life[o].threads == {}
    ensures WorldOk(start, w.(m := CancelIf(Unlease(w.m, o), o, cancelled)))
  {
    hide Reachable, Follows, TasksOk, Unlease;
    var dropped := w.(m := Unlease(w.m, o));
    DropIsUnlease(w.m, o);
    WorldStep(start, w, EvDropLease(o));
    if cancelled {
      WorldStep(start, dropped, EvCancel(o));
    }
  }

  lemma EndLeaseOk(start: Manager, w: World, o: OwnerId, next: ThreadId, cancelled: bool)
    requires WorldOk(start, w) && o < |w.m.life| && IsCurrent(w.m, o) && w.m.life[o].lease && o !in w.dropping
    requires MayPick(w.m.life[o].threads, next)
    ensures WorldOk(start, EndLease(w, o, Loop(w.m.life[o].threads, next, cancelled)))
  {
    hide Reachable, Follows, Unlease, CancelIf, Inv, TasksOk, OwnershipOk;
    if w.m.life[o].threads == {} {
      UnleaseOk(start, w, o, cancelled);
      assert w.dropping - {o} == w.dropping;
    } else {
      FollowsOk(start, w.m);
      HeldIsKept(w.m, o, next);
      PutDropping(w, o, Drain(next, cancelled));
    }
  }

  lemma LeaseIsCurrent(m: Manager, o: OwnerId)
    requires Shape(m) && OwnershipOk(m) && o < |m.life| && m.life[o].lease
    ensures IsCurrent(m, o)
  {
    hide LeasesOk, ThreadsOk;
    assert LifeOk(m.owners[o].lane, m.phase[o], m.life[o]);
  }

  lemma LeaseExitOk(start: Manager, w: World, o: OwnerId, next: ThreadId)
    requires WorldOk(start, w)
    ensures WorldOk(start, LeaseExit(w, o, next))
  {
    hide Reachable, Follows, TasksOk, EndLease, OwnershipOk, Inv;
    if CanDrop(w, o, next) {
      FollowsOk(start, w.m);
      LeaseIsCurrent(w.m, o);
      EndLeaseOk(start, w, o, next, false);
    }
  }

  lemma WithoutDropping(start: Manager, w: World, o: OwnerId)
    requires WorldOk(start, w) && o in w.dropping
    ensures WorldOk(start, w.(dropping := w.dropping - {o})) && DroppingOk(w.m, o, w.dropping[o])
  {
  }

  lemma LeaseWakeOk(start: Manager, w: World, o: OwnerId, cancelled: bool, next: ThreadId)
    requires WorldOk(start, w)
    ensures WorldOk(start, LeaseWake(w, o, cancelled, next))
  {
    hide Reachable, Follows, TasksOk, EndLease;
    if CanWake(w, w.dropping, o, cancelled, next) {
      var d, rest := w.dropping[o], w.(dropping := w.dropping - {o});
      WithoutDropping(start, w, o);
      ReapOk(start, rest, o, d.current);
      var reaped := rest.(m := Reap(w.m, o, d.current));
      hide Reap, WorldOk;
      EndLeaseOk(start, reaped, o, next, d.cancelled || cancelled);
      SameLeaseEnd(w.(m := reaped.m), o, Loop(reaped.m.life[o].threads, next, d.cancelled || cancelled));
    }
  }

  lemma SameLeaseEnd(w: World, o: OwnerId, end: DrainEnd)
    requires Sound(w) && o < |w.m.life|
    ensures EndLease(w, o, end) == EndLease(w.(dropping := w.dropping - {o}), o, end)
  {
    hide Unlease, CancelIf;
    assert w.dropping - {o} - {o} == w.dropping - {o};
    assert end.Again? ==> (w.dropping - {o})[o := end.drain] == w.dropping[o := end.drain];
  }

  // -------- calls --------

  lemma StartCallOk(start: Manager, w: World, o: OwnerId)
    requires WorldOk(start, w)
    ensures WorldOk(start, StartCall(w, o))
  {
    hide Reachable, Follows, TasksOk, OwnershipOk, Inv;
    if CanCall(w.m, o) {
      FollowsOk(start, w.m);
      ReachableInv(start);
      FollowsStep(start, w.m, EvStartThread(o));
      StartedTasksOk(w, o);
    }
  }

  lemma StartedTasksOk(w: World, o: OwnerId)
    requires Sound(w) && TasksOk(w) && Inv(w.m) && CanCall(w.m, o)
    ensures TasksOk(StartCall(w, o))
  {
    hide Inv, Shape, PlacesOk, Attended, StartThread;
    SameLengths(w.m);
    PlacesStay(w, EvStartThread(o));
    assert Step(w.m, EvStartThread(o)) == StartThread(w.m, o);
    NewCallOk(w.m, o);
    PlacesWithCall(w.(m := StartThread(w.m, o)), Call(o, w.m.threadCount, Awaiting));
    AttendedWithCall(w.m, o, w.calls);
  }

  lemma NewCallOk(m: Manager, o: OwnerId)
    requires Shape(m) && CanCall(m, o)
    ensures CallOk(StartThread(m, o), Call(o, m.threadCount, Awaiting))
  {
  }

  lemma PlacesWithCall(w: World, call: Call)
    requires Sound(w) && PlacesOk(w) && CallOk(w.m, call)
    ensures PlacesOk(w.(calls := w.calls + [call]))
  {
  }

  lemma AttendedWithCall(m: Manager, o: OwnerId, calls: seq<Call>)
    requires Shape(m) && CanCall(m, o) && Attended(m.running, calls)
    ensures Attended(StartThread(m, o).running, calls + [Call(o, m.threadCount, Awaiting)])
  {
    var more := calls + [Call(o, m.threadCount, Awaiting)];
    forall t | t in StartThread(m, o).running
      ensures exists c :: IsOf(more, c, t)
    {
      if t == m.threadCount {
        assert IsOf(more, |calls|, t);
      } else {
        var c :| IsOf(calls, c, t);
        assert IsOf(more, c, t);
      }
    }
  }

  /** A call in another state. */
  lemma PutCall(w: World, c: nat, state: CallState)
    requires Sound(w) && TasksOk(w) && c < |w.calls| && CallOk(w.m, w.calls[c].(state := state))
    ensures TasksOk(w.(calls := w.calls[c := w.calls[c].(state := state)]))
  {
    hide CallOk;
    var calls := w.calls[c := w.calls[c].(state := state)];
    forall t | t in w.m.running
      ensures exists k :: IsOf(calls, k, t)
    {
      var k :| IsOf(w.calls, k, t);
      assert IsOf(calls, k, t);
    }
  }

  lemma OneCall(w: World, c: nat)
    requires Sound(w) && TasksOk(w) && c < |w.calls|
    ensures CallOk(w.m, w.calls[c])
  {
  }

  /** The unconditional discard does no harm where the future is done. */
  lemma FinishCallOk(start: Manager, w: World, c: nat)
    requires WorldOk(start, w) && ValidCall(w, c) && w.calls[c].future !in w.m.running
    ensures WorldOk(start, FinishCall(w, c))
  {
    hide Reachable, Follows, TasksOk, CallOk;
    var call := w.calls[c];
    OneCall(w, c);
    CallIsCurrent(w.m, call);
    ReapOk(start, w, call.owner, call.future);
    var after := w.(m := Discard(w.m, call.owner, call.future));
    assert Reap(w.m, call.owner, call.future) == after.m;
    assert Done(after.m, call.future);
    hide Reap, Discard;
    OneCall(after, c);
    ReturnedOk(after.m, call);
    PutCall(after, c, Returned);
  }

  lemma CallIsCurrent(m: Manager, call: Call)
    requires Shape(m) && CallOk(m, call)
    ensures IsCurrent(m, call.owner) && (call.future !in m.running ==> Done(m, call.future))
  {
  }

  lemma ReturnedOk(m: Manager, call: Call)
    requires Shape(m) && CallOk(m, call) && Done(m, call.future)
    ensures CallOk(m, call.(state := Returned))
  {
  }

  lemma DrainingOk(m: Manager, call: Call, cancelled: bool)
    requires Shape(m) && CallOk(m, call) && m.life[call.owner].cancelled
    ensures CallOk(m, call.(state := Draining({call.future}, Drain(call.future, cancelled))))
  {
  }

  lemma CallWakeOk(start: Manager, w: World, c: nat, cancelled: bool, next: ThreadId)
    requires WorldOk(start, w)
    ensures WorldOk(start, CallWake(w, c, cancelled, next))
  {
    hide Reachable, Follows, TasksOk, FinishCall, CallOk;
    if CanReturn(w, c, cancelled, next) {
      var call := w.calls[c];
      OneCall(w, c);
      match call.state
      case Awaiting =>
        if cancelled { CancelledCallOk(start, w, c); } else { FinishCallOk(start, w, c); }
      case Draining(futures, drain) =>
        DrainsItsOwn(w.m, call);
        if call.future in w.m.running {
          DrainingOk(w.m, call, drain.cancelled || cancelled);
          PutCall(w, c, Draining({call.future}, Drain(call.future, drain.cancelled || cancelled)));
        } else {
          assert {call.future} - {call.future} == {};
          FinishCallOk(start, w, c);
        }
    }
  }

  lemma DrainsItsOwn(m: Manager, call: Call)
    requires Shape(m) && CallOk(m, call) && call.state.Draining?
    ensures call.state.futures == {call.future} && call.state.drain.current == call.future
    ensures m.life[call.owner].cancelled
  {
  }

  lemma CancelOk(start: Manager, w: World, o: OwnerId)
    requires WorldOk(start, w) && o < |w.m.life| && IsCurrent(w.m, o)
    ensures var m := Cancel(w.m, o); WorldOk(start, w.(m := m)) && o < |m.life| && m.life[o].cancelled
  {
    hide Reachable, Follows, TasksOk;
    WorldStep(start, w, EvCancel(o));
  }

  lemma CancelledCallOk(start: Manager, w: World, c: nat)
    requires WorldOk(start, w) && ValidCall(w, c)
    ensures var call := w.calls[c];
            WorldOk(start, EndCall(w.(m := Cancel(w.m, call.owner)), c, {call.future}, Again(Drain(call.future, false))))
  {
    hide Reachable, Follows, TasksOk, CallOk, Cancel;
    var call := w.calls[c];
    var marked := w.(m := Cancel(w.m, call.owner));
    OneCall(w, c);
    CallIsCurrent(w.m, call);
    CancelOk(start, w, call.owner);
    OneCall(marked, c);
    DrainingOk(marked.m, call, false);
    PutCall(marked, c, Draining({call.future}, Drain(call.future, false)));
  }

  /** Every happening is a run of guarded manager steps and leaves drains and calls as they should be. */
  lemma HappenOk(start: Manager, w: World, h: Happening)
    requires WorldOk(start, w)
    ensures WorldOk(start, Happen(w, h))
  {
    hide WorldOk, Exit, ExitWake, LeaseExit, LeaseWake, StartCall, CallWake, Step;
    match h
    case Other(e) => if IsOther(e) { WorldStep(start, w, e); }
    case Exits(o, cancelled, next) => ExitOk(start, w, o, cancelled, next);
    case ExitWakes(o, cancelled, next) => ExitWakeOk(start, w, o, cancelled, next);
    case LeaseExits(o, next) => LeaseExitOk(start, w, o, next);
    case LeaseWakes(o, cancelled, next) => LeaseWakeOk(start, w, o, cancelled, next);
    case Calls(o) => StartCallOk(start, w, o);
    case CallWakes(c, cancelled, next) => CallWakeOk(start, w, c, cancelled, next);
  }
}
