/** What whole runs of the awaits behind owned work guarantee, under any cancellations. */
module OwnedWorkTheorems {
  import opened Common
  import opened Admission
  import opened AdmissionInvariant
  import opened AdmissionTheorems
  import opened AdmissionOwnership
  import opened OwnedWork

  ghost predicate Starts(lanes: map<LaneName, LaneSpec>) {
    SpecsOk(lanes) && HasSharedLanes(Initial(lanes))
  }

  /** A world that some course of events leads to from the start. */
  ghost predicate Attainable(w: World) {
    Sound(w) && exists lanes, happenings :: Starts(lanes) && w == Course(Quiet(Initial(lanes)), happenings)
  }

  lemma {:induction false} CourseOk(start: Manager, w: World, happenings: seq<Happening>)
    requires WorldOk(start, w)
    ensures WorldOk(start, Course(w, happenings))
  {
    hide Reachable, Follows, TasksOk, Happen;
    if happenings != [] {
      CourseOk(start, w, happenings[..|happenings| - 1]);
      HappenOk(start, Course(w, happenings[..|happenings| - 1]), happenings[|happenings| - 1]);
    }
  }

  lemma FollowsItself(m: Manager)
    requires Shape(m) && HasSharedLanes(m)
    ensures Follows(m, m)
  {
    hide Run;
    RunNone(m);
    assert m == Run(m, []);
  }

  lemma StartOk(lanes: map<LaneName, LaneSpec>)
    requires Starts(lanes)
    ensures WorldOk(Initial(lanes), Quiet(Initial(lanes)))
  {
    var m := Initial(lanes);
    RunNone(m);
    assert m == Run(Initial(lanes), []);
    FollowsItself(m);
  }

  lemma AttainableOk(w: World)
    requires Attainable(w)
    ensures Sound(w) && Reachable(w.m) && WorldOk(w.m, w)
  {
    hide Reachable, Follows, TasksOk, Initial, Course;
    var lanes, happenings :| Starts(lanes) && w == Course(Quiet(Initial(lanes)), happenings);
    StartOk(lanes);
    CourseOk(Initial(lanes), Quiet(Initial(lanes)), happenings);
    FollowsReachable(Initial(lanes), w.m);
    FollowsItself(w.m);
  }

  // -------- refinement --------

  /** Whatever happens, and however often it is cancelled, the manager only makes steps in which a future is
      discarded when it is done, and an owner leaves or drops its lease when it has no threads. */
  lemma CoursesAreGuarded(w: World, happenings: seq<Happening>)
    requires Attainable(w)
    ensures Sound(w) && Reachable(Course(w, happenings).m)
    ensures exists events :: Course(w, happenings).m == Run(w.m, events)
  {
    hide Reachable, TasksOk, Course, Run;
    AttainableOk(w);
    CourseOk(w.m, w, happenings);
    FollowsReachable(w.m, Course(w, happenings).m);
  }

  // -------- work that is still running --------

  /** An unfinished future is awaited by exactly one call, which has not returned; its owner has it,
      is inside its operation and occupies its slot. */
  lemma RunningWorkIsOwned(w: World, t: ThreadId)
    requires Attainable(w) && t in w.m.running
    ensures exists c: nat :: IsOf(w.calls, c, t) && w.calls[c].state != Returned
              && HoldsSlot(w.m, w.calls[c].owner, t)
    ensures forall o: OwnerId, p: OwnerId :: HoldsThread(w.m, o, t) && HoldsThread(w.m, p, t) ==> o == p
  {
    hide Reachable, Inv, OwnershipOk, PlacesOk, HoldsSlot, Follows;
    AttainableOk(w);
    ReachableOwnership(w.m);
    var c :| IsOf(w.calls, c, t);
    OneCall(w, c);
    NotReturned(w.m, w.calls[c]);
    HolderHasSlot(w.m, w.calls[c].owner, t);
  }

  ghost predicate HoldsSlot(m: Manager, o: OwnerId, t: ThreadId)
    requires Shape(m)
  {
    HoldsThread(m, o, t) && m.phase[o] == Entered && !m.life[o].released && o in m.active[m.owners[o].lane]
  }

  lemma NotReturned(m: Manager, call: Call)
    requires Shape(m) && CallOk(m, call) && call.future in m.running
    ensures call.state != Returned && HoldsThread(m, call.owner, call.future)
  {
  }

  lemma HolderHasSlot(m: Manager, o: OwnerId, t: ThreadId)
    requires Shape(m) && Inv(m) && OwnershipOk(m) && HoldsThread(m, o, t)
    ensures HoldsSlot(m, o, t)
    ensures forall p: OwnerId, q: OwnerId :: HoldsThread(m, p, t) && HoldsThread(m, q, t) ==> p == q
  {
    hide Inv, LifeOk, LeasesOk;
    assert LifeOk(m.owners[o].lane, m.phase[o], m.life[o]);
    ThreadMeansEntered(m.owners[o].lane, m.phase[o], m.life[o]);
    OneLane(m, m.owners[o].lane);
  }

  /** The finally clause of owned_thread, which discards its future unconditionally, is only ever entered
      with a future that is done. */
  lemma CallsReturnAfterTheirThread(w: World, h: Happening, c: nat)
    requires Attainable(w) && c < |w.calls| && w.calls[c].state != Returned
    requires c < |Happen(w, h).calls| && Happen(w, h).calls[c].state == Returned
    ensures w.calls[c].future !in w.m.running
    ensures ValidCall(w, c) && Happen(w, h).m == Discard(w.m, w.calls[c].owner, w.calls[c].future)
  {
    hide Reachable, Inv, Follows, TasksOk, Step, Release, Discard, Shape;
    AttainableOk(w);
    OneCall(w, c);
    if h.CallWakes? && h.c == c && w.calls[c].state.Draining? {
      DrainsItsOwn(w.m, w.calls[c]);
    }
  }

  /** A call that has returned left no work behind. */
  lemma NoWorkBehindACall(w: World, c: nat)
    requires Attainable(w) && c < |w.calls| && w.calls[c].state == Returned
    ensures w.calls[c].future !in w.m.running
  {
    hide Reachable, Follows, TasksOk;
    AttainableOk(w);
    OneCall(w, c);
  }

  /** None of an owner's work is still running. */
  ghost predicate AllDone(w: World, o: OwnerId) {
    forall c :: 0 <= c < |w.calls| && w.calls[c].owner == o ==> w.calls[c].future !in w.m.running
  }

  lemma WithoutThreadsAllIsDone(w: World, o: OwnerId)
    requires Sound(w) && TasksOk(w) && o < |w.m.life| && w.m.life[o].threads == {}
    ensures AllDone(w, o)
  {
    hide Attended;
  }

  /** When an operation is over, all work that was ever started under it is done, and it stays so. */
  lemma ReleasedOnlyWhenAllIsDone(w: World, o: OwnerId)
    requires Attainable(w) && o < |w.m.life| && w.m.life[o].released
    ensures w.m.life[o].threads == {} && AllDone(w, o) && o !in w.closing
    ensures Sound(w) && o !in w.m.active[w.m.owners[o].lane]
  {
    hide Reachable, Inv, OwnershipOk, TasksOk, Follows, AllDone;
    AttainableOk(w);
    ReachableOwnership(w.m);
    OneThreadEach(w.m, o);
    WithoutThreadsAllIsDone(w, o);
    ReleasedIsNotClosing(w, o);
  }

  lemma ReleasedIsNotClosing(w: World, o: OwnerId)
    requires Sound(w) && TasksOk(w) && OwnershipOk(w.m) && o < |w.m.life| && w.m.life[o].released
    ensures o !in w.closing
  {
    hide Attended, LeasesOk, ThreadsOk;
    assert LifeOk(w.m.owners[o].lane, w.m.phase[o], w.m.life[o]);
  }

  // -------- leases --------

  lemma CancelKeepsLeases(m: Manager, o: OwnerId, cancelled: bool)
    requires Shape(m) && o < |m.life|
    ensures CancelIf(m, o, cancelled).leases == m.leases && |CancelIf(m, o, cancelled).life| == |m.life|
  {
  }

  lemma ReleaseKeepsLeases(m: Manager, o: OwnerId)
    requires Shape(m) && o < |m.life|
    ensures Release(m, o).leases == m.leases
  {
    hide Vacate;
    VacateKeepsLife(m.(life := m.life[o := m.life[o].(released := true)]), o);
  }

  lemma EndOperationKeepsLeases(w: World, o: OwnerId, end: DrainEnd)
    requires Sound(w) && o < |w.m.life|
    ensures EndOperation(w, o, end).m.leases == w.m.leases
  {
    hide Release, CancelIf, Shape;
    if end.Finished? {
      CancelKeepsLeases(w.m, o, end.cancelled);
      ReleaseKeepsLeases(CancelIf(w.m, o, end.cancelled), o);
    }
  }

  lemma EndLeaseDrops(w: World, x: OwnerId, end: DrainEnd, o: OwnerId)
    requires Sound(w) && x < |w.m.life| && o in w.m.leases && o !in EndLease(w, x, end).m.leases
    ensures o == x && end.Finished? && o < |EndLease(w, x, end).m.life|
    ensures EndLease(w, x, end).m.life[o].threads == w.m.life[o].threads
  {
  }

  lemma OtherKeepsLeases(m: Manager, e: Event, o: OwnerId)
    requires Shape(m) && HasSharedLanes(m) && Inv(m) && IsOther(e) && o in m.leases
    ensures o in Step(m, e).leases
  {
    hide Inv, Step, Shape;
    SameLengths(m);
    if o !in Step(m, e).leases {
      LeasesOnlyDropWithoutThreads(m, e, o);
    }
  }

  lemma CallWakeKeepsLeases(w: World, c: nat, cancelled: bool, next: ThreadId)
    requires Sound(w)
    ensures CallWake(w, c, cancelled, next).m.leases == w.m.leases
  {
  }

  lemma StartCallKeepsLeases(w: World, o: OwnerId)
    requires Sound(w)
    ensures StartCall(w, o).m.leases == w.m.leases
  {
  }

  lemma LeaseDropFindsNoThread(w: World, h: Happening, o: OwnerId)
    requires Sound(w) && Inv(w.m) && o in w.m.leases && o !in Happen(w, h).m.leases
    ensures o < |Happen(w, h).m.life| && Happen(w, h).m.life[o].threads == {}
  {
    hide Inv, Step, Shape, EndOperation, EndLease, CallWake, StartCall, CancelIf, Reap;
    match h
    case Other(e) => if IsOther(e) { OtherKeepsLeases(w.m, e, o); }
    case Exits(x, cancelled, next) => ExitKeepsLeases(w, x, cancelled, next);
    case ExitWakes(x, cancelled, next) => ExitWakeKeepsLeases(w, x, cancelled, next);
    case LeaseExits(x, next) =>
      if CanDrop(w, x, next) { EndLeaseDrops(w, x, Loop(w.m.life[x].threads, next, false), o); }
    case LeaseWakes(x, cancelled, next) => LeaseWakeDrops(w, x, cancelled, next, o);
    case Calls(x) => StartCallKeepsLeases(w, x);
    case CallWakes(c, cancelled, next) => CallWakeKeepsLeases(w, c, cancelled, next);
  }

  lemma ExitKeepsLeases(w: World, o: OwnerId, cancelled: bool, next: ThreadId)
    requires Sound(w)
    ensures Exit(w, o, cancelled, next).m.leases == w.m.leases
  {
    hide EndOperation, CancelIf;
    if CanExit(w, o, next) {
      CancelKeepsLeases(w.m, o, cancelled);
      EndOperationKeepsLeases(w.(m := CancelIf(w.m, o, cancelled)), o, Loop(w.m.life[o].threads, next, false));
    }
  }

  lemma ExitWakeKeepsLeases(w: World, o: OwnerId, cancelled: bool, next: ThreadId)
    requires Sound(w)
    ensures ExitWake(w, o, cancelled, next).m.leases == w.m.leases
  {
    hide EndOperation;
    if CanWake(w, w.closing, o, cancelled, next) {
      var m := Reap(w.m, o, w.closing[o].current);
      EndOperationKeepsLeases(w.(m := m), o, Loop(m.life[o].threads, next, w.closing[o].cancelled || cancelled));
    }
  }

  lemma LeaseWakeDrops(w: World, x: OwnerId, cancelled: bool, next: ThreadId, o: OwnerId)
    requires Sound(w) && o in w.m.leases && o !in LeaseWake(w, x, cancelled, next).m.leases
    ensures o < |LeaseWake(w, x, cancelled, next).m.life|
    ensures LeaseWake(w, x, cancelled, next).m.life[o].threads == {}
  {
    hide EndLease;
    var m := Reap(w.m, x, w.dropping[x].current);
    EndLeaseDrops(w.(m := m), x, Loop(m.life[x].threads, next, w.dropping[x].cancelled || cancelled), o);
  }

  /** A lease is dropped only when all work that was ever started under its owner is done. */
  lemma LeasesDropOnlyWhenAllIsDone(w: World, h: Happening, o: OwnerId)
    requires Attainable(w) && o in w.m.leases && o !in Happen(w, h).m.leases
    ensures o < |Happen(w, h).m.life| && Happen(w, h).m.life[o].threads == {} && AllDone(Happen(w, h), o)
  {
    hide Reachable, Inv, OwnershipOk, TasksOk, Follows, Happen, AllDone;
    AttainableOk(w);
    ReachableInv(w.m);
    HappenOk(w.m, w, h);
    LeaseDropFindsNoThread(w, h, o);
    WithoutThreadsAllIsDone(Happen(w, h), o);
  }

  // -------- shutdown --------

  /** Once shutdown returns, no thread of this manager is running, and none ever will. */
  lemma ShutdownLeavesNoWork(w: World, happenings: seq<Happening>)
    requires Attainable(w) && w.m.closed && w.m.drained
    ensures Sound(w) && Course(w, happenings).m.running == {}
  {
    hide Reachable, Inv, OwnershipOk, TasksOk, Course, Run, AllEmpty;
    AttainableOk(w);
    CourseOk(w.m, w, happenings);
    var after := Course(w, happenings).m;
    var events :| after == Run(w.m, events);
    ShutdownReturnsEmpty(w.m, events);
    FollowsReachable(w.m, after);
    if after.running != {} {
      var t :| t in after.running;
      RunningThreadsHoldTheirSlot(after, t);
      EmptyHasNoHolder(after);
    }
  }

  lemma EmptyHasNoHolder(m: Manager)
    requires Shape(m) && AllEmpty(m)
    ensures forall l, o: OwnerId :: l in m.active ==> o !in m.active[l]
  {
  }

  // -------- cancellations --------

  /** The happening is a cancellation that reaches an await under this owner: in the body of its operation,
      in an owned_thread call, or in one of the drains. */
  predicate Interrupts(w: World, h: Happening, o: OwnerId)
    requires Sound(w)
  {
    match h
    case Exits(x, cancelled, next) => cancelled && x == o && CanExit(w, x, next)
    case ExitWakes(x, cancelled, next) => cancelled && x == o && CanWake(w, w.closing, x, cancelled, next)
    case LeaseWakes(x, cancelled, next) => cancelled && x == o && CanWake(w, w.dropping, x, cancelled, next)
    case CallWakes(c, cancelled, next) => cancelled && CanReturn(w, c, cancelled, next) && w.calls[c].owner == o
    case _ => false
  }

  ghost predicate WasInterrupted(w: World, happenings: seq<Happening>, o: OwnerId)
    requires Sound(w)
  {
    happenings != [] &&
    var front := happenings[..|happenings| - 1];
    WasInterrupted(w, front, o) || Interrupts(Course(w, front), happenings[|happenings| - 1], o)
  }

  predicate Flagged(m: Manager, o: OwnerId) {
    o < |m.life| && m.life[o].cancelled
  }

  predicate Remembered(drains: map<OwnerId, Drain>, o: OwnerId) {
    o in drains && drains[o].cancelled
  }

  /** The owner is marked as cancelled, or a drain that is not over remembers it. */
  predicate Marked(w: World, o: OwnerId) {
    Flagged(w.m, o) || Remembered(w.closing, o) || Remembered(w.dropping, o)
  }

  lemma SameLifeSameFlag(m: Manager, after: Manager, o: OwnerId)
    requires m.life <= after.life && forall x :: |m.life| <= x < |after.life| ==> after.life[x] == NEW_LIFETIME
    ensures Flagged(after, o) <==> Flagged(m, o)
  {
  }

  lemma OtherKeepsFlag(m: Manager, e: Event, o: OwnerId)
    requires Shape(m) && HasSharedLanes(m) && Inv(m) && IsOther(e) && |m.life| == |m.phase| == |m.owners|
    ensures Flagged(Step(m, e), o) <==> Flagged(m, o)
  {
    hide Inv, Shape, Acquire, Fail, Shutdown, StepLife, Flagged;
    SameLifeSameFlag(m, m, o);
    match e
    case EvAcquire(owner, parentLane) =>
      AcquireKeepsHoldings(m, owner, parentLane);
      SameLifeSameFlag(m, Step(m, e), o);
    case EvResume(x) => SameLifeSameFlag(m, Step(m, e), o);
    case EvFail(x) =>
      if x < |m.phase| {
        FailKeepsLife(m, x);
        SameLifeSameFlag(m, Step(m, e), o);
      }
    case EvShutdown =>
      ShutdownKeepsLives(m);
      SameLifeSameFlag(m, Step(m, e), o);
    case EvTick(now) => SameLifeSameFlag(m, Step(m, e), o);
    case _ => UseKeepsFlag(m, e, o);
  }

  lemma UseKeepsFlag(m: Manager, e: Event, o: OwnerId)
    requires Shape(m) && IsOther(e) && |m.life| == |m.phase| == |m.owners|
    ensures Flagged(StepLife(m, e), o) <==> Flagged(m, o)
  {
    hide Shape;
  }

  lemma FailKeepsLife(m: Manager, o: OwnerId)
    requires Shape(m) && o < |m.phase|
    ensures Fail(m, o).life == m.life
  {
    hide Vacate;
    VacateKeepsLife(m, o);
  }

  lemma ShutdownKeepsLives(m: Manager)
    requires Shape(m)
    ensures Shutdown(m).life == m.life
  {
  }

  lemma ReleaseKeepsFlag(m: Manager, x: OwnerId, o: OwnerId)
    requires Shape(m) && x < |m.life|
    ensures Flagged(Release(m, x), o) <==> Flagged(m, o)
  {
    hide Vacate;
    VacateKeepsLife(m.(life := m.life[x := m.life[x].(released := true)]), x);
  }

  lemma UnleaseKeepsFlag(m: Manager, x: OwnerId, o: OwnerId)
    requires Shape(m) && x < |m.life|
    ensures |Unlease(m, x).life| == |m.life| && (Flagged(Unlease(m, x), o) <==> Flagged(m, o))
  {
  }

  lemma CancelMarks(m: Manager, x: OwnerId, cancelled: bool, o: OwnerId)
    requires Shape(m) && x < |m.life|
    ensures |CancelIf(m, x, cancelled).life| == |m.life|
    ensures Flagged(CancelIf(m, x, cancelled), o) <==> Flagged(m, o) || (cancelled && x == o)
    ensures CancelIf(m, x, cancelled).life[x].threads == m.life[x].threads
  {
  }

  /** At its end a drain passes on what it remembers. */
  lemma EndOperationMarks(w: World, x: OwnerId, next: ThreadId, cancelled: bool, o: OwnerId)
    requires Sound(w) && x < |w.m.life|
    requires Remembered(w.closing, x) ==> cancelled
    ensures Marked(EndOperation(w, x, Loop(w.m.life[x].threads, next, cancelled)), o)
            <==> Marked(w, o) || (cancelled && x == o)
  {
    hide Release, CancelIf, Flagged, Shape;
    CancelMarks(w.m, x, cancelled, o);
    ReleaseKeepsFlag(CancelIf(w.m, x, cancelled), x, o);
  }

  lemma EndLeaseMarks(w: World, x: OwnerId, next: ThreadId, cancelled: bool, o: OwnerId)
    requires Sound(w) && x < |w.m.life|
    requires Remembered(w.dropping, x) ==> cancelled
    ensures Marked(EndLease(w, x, Loop(w.m.life[x].threads, next, cancelled)), o)
            <==> Marked(w, o) || (cancelled && x == o)
  {
    hide Unlease, CancelIf, Flagged, Shape;
    UnleaseKeepsFlag(w.m, x, o);
    CancelMarks(Unlease(w.m, x), x, cancelled, o);
  }

  lemma ReapMarks(m: Manager, x: OwnerId, t: ThreadId, o: OwnerId)
    requires Shape(m) && x < |m.life|
    ensures Flagged(Reap(m, x, t), o) <==> Flagged(m, o)
    ensures Flagged(Discard(m, x, t), o) <==> Flagged(m, o)
  {
  }

  lemma ExitMarks(w: World, x: OwnerId, cancelled: bool, next: ThreadId, o: OwnerId)
    requires Sound(w)
    ensures Marked(Exit(w, x, cancelled, next), o) <==> Marked(w, o) || Interrupts(w, Exits(x, cancelled, next), o)
  {
    hide EndOperation, CancelIf, Flagged;
    if CanExit(w, x, next) {
      CancelMarks(w.m, x, cancelled, o);
      EndOperationMarks(w.(m := CancelIf(w.m, x, cancelled)), x, next, false, o);
    }
  }

  lemma ExitWakeMarks(w: World, x: OwnerId, cancelled: bool, next: ThreadId, o: OwnerId)
    requires Sound(w)
    ensures Marked(ExitWake(w, x, cancelled, next), o) <==> Marked(w, o) || Interrupts(w, ExitWakes(x, cancelled, next), o)
  {
    hide EndOperation, Reap, Flagged;
    if CanWake(w, w.closing, x, cancelled, next) {
      var m := Reap(w.m, x, w.closing[x].current);
      ReapMarks(w.m, x, w.closing[x].current, o);
      EndOperationMarks(w.(m := m), x, next, w.closing[x].cancelled || cancelled, o);
    }
  }

  lemma LeaseMarks(w: World, x: OwnerId, cancelled: bool, next: ThreadId, o: OwnerId)
    requires Sound(w)
    ensures Marked(LeaseExit(w, x, next), o) <==> Marked(w, o)
    ensures Marked(LeaseWake(w, x, cancelled, next), o)
            <==> Marked(w, o) || Interrupts(w, LeaseWakes(x, cancelled, next), o)
  {
    hide EndLease, Reap, Flagged;
    if CanDrop(w, x, next) {
      EndLeaseMarks(w, x, next, false, o);
    }
    if CanWake(w, w.dropping, x, cancelled, next) {
      var m := Reap(w.m, x, w.dropping[x].current);
      ReapMarks(w.m, x, w.dropping[x].current, o);
      EndLeaseMarks(w.(m := m), x, next, w.dropping[x].cancelled || cancelled, o);
    }
  }

  lemma StartCallMarks(w: World, x: OwnerId, o: OwnerId)
    requires Sound(w)
    ensures Marked(StartCall(w, x), o) <==> Marked(w, o)
  {
  }

  lemma CallWakeMarks(w: World, c: nat, cancelled: bool, next: ThreadId, o: OwnerId)
    requires Sound(w) && TasksOk(w)
    ensures Marked(CallWake(w, c, cancelled, next), o) <==> Marked(w, o) || Interrupts(w, CallWakes(c, cancelled, next), o)
  {
    hide Cancel, Discard, Flagged, TasksOk, Shape;
    if CanReturn(w, c, cancelled, next) {
      var call := w.calls[c];
      OneCall(w, c);
      ReapMarks(w.m, call.owner, call.future, o);
      CancelMarks(w.m, call.owner, true, o);
      if call.state.Draining? {
        DrainsItsOwn(w.m, call);
        assert Flagged(w.m, call.owner) by { DrainingIsFlagged(w.m, call); }
      }
    }
  }

  lemma DrainingIsFlagged(m: Manager, call: Call)
    requires Shape(m) && CallOk(m, call) && call.state.Draining?
    ensures Flagged(m, call.owner)
  {
  }

  lemma HappenMarks(start: Manager, w: World, h: Happening, o: OwnerId)
    requires WorldOk(start, w)
    ensures Marked(Happen(w, h), o) <==> Marked(w, o) || Interrupts(w, h, o)
  {
    hide Reachable, Follows, TasksOk, Inv, OwnershipOk, Shape, Step, Flagged, Remembered;
    hide Exit, ExitWake, LeaseExit, LeaseWake, StartCall, CallWake, CanExit, CanWake, CanReturn;
    match h
    case Other(e) =>
      FollowsOk(start, w.m);
      SameLengths(w.m);
      if IsOther(e) { OtherKeepsFlag(w.m, e, o); }
    case Exits(x, cancelled, next) => ExitMarks(w, x, cancelled, next, o);
    case ExitWakes(x, cancelled, next) => ExitWakeMarks(w, x, cancelled, next, o);
    case LeaseExits(x, next) => LeaseMarks(w, x, false, next, o);
    case LeaseWakes(x, cancelled, next) => LeaseMarks(w, x, cancelled, next, o);
    case Calls(x) => StartCallMarks(w, x, o);
    case CallWakes(c, cancelled, next) => CallWakeMarks(w, c, cancelled, next, o);
  }

  /** No cancellation is lost, and none is made up: in every run an owner is marked, or a pending drain
      remembers that it is to be, exactly when a cancellation has reached one of its awaits. */
  lemma {:induction false} CancellationsAreRemembered(lanes: map<LaneName, LaneSpec>, happenings: seq<Happening>, o: OwnerId)
    requires Starts(lanes)
    ensures Marked(Course(Quiet(Initial(lanes)), happenings), o)
            <==> WasInterrupted(Quiet(Initial(lanes)), happenings, o)
  {
    hide Happen, WorldOk, Interrupts;
    var start := Quiet(Initial(lanes));
    if happenings != [] {
      var front := happenings[..|happenings| - 1];
      CancellationsAreRemembered(lanes, front, o);
      StartOk(lanes);
      CourseOk(start.m, start, front);
      HappenMarks(start.m, Course(start, front), happenings[|happenings| - 1], o);
    }
  }

  // -------- the drain comes to its end --------

  /** The futures that the drain of an operation still has to see. */
  function Backlog(w: World, o: OwnerId): nat
    requires o in w.closing && o < |w.m.life|
  {
    |w.m.life[o].threads + {w.closing[o].current}|
  }

  /** When the future that a drain awaits is done, the next wakeup, cancelled or not, takes it off a backlog of
      at most two, and it ends the operation exactly when nothing else is left. */
  lemma DrainsMakeProgress(w: World, o: OwnerId, cancelled: bool, next: ThreadId)
    requires Attainable(w) && o in w.closing && w.closing[o].current !in w.m.running
    requires CanWake(w, w.closing, o, cancelled, next)
    ensures Backlog(w, o) <= 2
    ensures var after := ExitWake(w, o, cancelled, next);
            && (o !in after.closing <==> w.m.life[o].threads <= {w.closing[o].current})
            && (o in after.closing ==> o < |after.m.life| && Backlog(after, o) < Backlog(w, o))
  {
    hide Reachable, Follows, Release, CancelIf, TasksOk;
    AttainableOk(w);
    OneThreadEach(w.m, o);
    Discarded(w.m.life[o].threads, w.closing[o].current, next);
  }

  lemma Discarded(futures: set<ThreadId>, current: ThreadId, next: ThreadId)
    requires |futures| <= 1
    ensures |futures + {current}| <= 2
    ensures futures - {current} == {} <==> futures <= {current}
    ensures next in futures - {current} ==> |futures - {current} + {next}| < |futures + {current}|
  {
    assert futures + {current} == (futures - {current}) + {current};
    assert next in futures - {current} ==> futures - {current} + {next} == futures - {current};
  }

  /** And there always is such a wakeup: no drain waits for work that nobody does. */
  lemma DrainsMayWake(w: World, o: OwnerId, cancelled: bool)
    requires Attainable(w) && o in w.closing
    ensures Sound(w) && o < |w.m.life|
    ensures w.closing[o].current in w.m.running ==> HoldsThread(w.m, o, w.closing[o].current)
    ensures w.closing[o].current !in w.m.running ==> exists next :: CanWake(w, w.closing, o, cancelled, next)
  {
    hide Reachable, Follows;
    AttainableOk(w);
    var current := w.closing[o].current;
    var left := Reap(w.m, o, current).life[o].threads;
    if current !in w.m.running {
      assert left == {} ==> CanWake(w, w.closing, o, cancelled, 0);
      assert left != {} ==> exists next :: next in left;
      assert forall next :: next in left ==> CanWake(w, w.closing, o, cancelled, next);
    }
  }
}
