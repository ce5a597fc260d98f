/** Who holds threads, leases and connections, in every run of the admission manager. */
module AdmissionOwnership {
  import opened Common
  import opened Admission
  import opened AdmissionInvariant
  import opened AdmissionTheorems

  // -------- what an owner may have in use --------

  /** Only an owner inside its operation has a thread; one that never entered has nothing at all. */
  ghost predicate LifeOk(lane: LaneName, p: Phase, l: Lifetime) {
    && (p == Queued || p == Granted || p == Refused ==> l == NEW_LIFETIME)
    && (p == Gone && !l.released ==> l == NEW_LIFETIME)
    && (l.released ==> p == Gone && l.threads == {})
    && |l.threads| <= 1
    && (l.runtime ==> IsRuntimeLane(lane)) && (l.control ==> IsControlLane(lane))
    && (l.connected ==> l.runtime || l.control)
    && (l.lease ==> TakesLeases(lane))
  }

  ghost predicate LivesOk(m: Manager)
    requires Shape(m)
  {
    forall o :: 0 <= o < |m.life| ==> LifeOk(m.owners[o].lane, m.phase[o], m.life[o])
  }

  ghost predicate LeasesOk(m: Manager) {
    |m.leases| <= MAX_LEASES && forall o: OwnerId :: o in m.leases <==> o < |m.life| && m.life[o].lease
  }

  ghost predicate HoldsThread(m: Manager, o: OwnerId, t: ThreadId) {
    o < |m.life| && t in m.life[o].threads
  }

  /** Every unfinished future is held, and no future is held twice. */
  ghost predicate ThreadsOk(m: Manager) {
    && (forall t :: t in m.running ==> exists o: OwnerId :: HoldsThread(m, o, t))
    && (forall o: OwnerId, t: ThreadId :: HoldsThread(m, o, t) ==> t < m.threadCount)
    && (forall o: OwnerId, p: OwnerId, t: ThreadId :: HoldsThread(m, o, t) && HoldsThread(m, p, t) ==> o == p)
  }

  ghost predicate OwnershipOk(m: Manager)
    requires Shape(m)
  {
    LivesOk(m) && LeasesOk(m) && ThreadsOk(m)
  }

  // -------- admission steps --------

  lemma NudgedLifeOk(lane: LaneName, p: Phase, q: Phase, l: Lifetime)
    requires LifeOk(lane, p, l) && (Nudged(p, q) || (p == Granted && q == Entered))
    ensures LifeOk(lane, q, l)
  {
  }

  /** The threads and leases that owners hold are as they were. */
  ghost predicate SameHoldings(m: Manager, after: Manager) {
    && |m.life| <= |after.life| && after.leases == m.leases
    && after.running == m.running && after.threadCount == m.threadCount
    && (forall o :: 0 <= o < |m.life| ==>
          after.life[o].threads == m.life[o].threads && after.life[o].lease == m.life[o].lease)
    && (forall o :: |m.life| <= o < |after.life| ==> after.life[o] == NEW_LIFETIME)
  }

  lemma SameHoldingsStayOk(m: Manager, after: Manager)
    requires LeasesOk(m) && ThreadsOk(m) && SameHoldings(m, after)
    ensures LeasesOk(after) && ThreadsOk(after)
  {
    forall t | t in m.running
      ensures exists o: OwnerId :: HoldsThread(after, o, t)
    {
      var o: OwnerId :| HoldsThread(m, o, t);
      assert HoldsThread(after, o, t);
    }
    forall o: OwnerId, t: ThreadId | HoldsThread(after, o, t)
      ensures HoldsThread(m, o, t)
    {
    }
  }

  lemma AcquireKeepsHoldings(m: Manager, owner: Owner, parentLane: Option<LaneName>)
    requires Shape(m) && HasSharedLanes(m) && Inv(m)
    ensures Newcomers(m, Acquire(m, owner, parentLane).0)
  {
    hide Inv, Place, PromoteForAcquire, Newcomers;
    NobodyNew(m, m);
    if owner.lane in m.lanes {
      PreparedLife(m, owner.lane);
      AcquireLooksAtLiveTickets(m, owner.lane);
      NobodyNew(m, PromoteForAcquire(m, owner.lane));
      PlaceKeepsHoldings(m, PromoteForAcquire(m, owner.lane), owner);
    }
  }

  /** Everybody's lifetime as before; newcomers are queued or inside, with nothing in use. */
  ghost predicate Newcomers(m: Manager, after: Manager)
    requires Shape(m) && Shape(after)
  {
    && SameHoldings(m, after) && m.owners <= after.owners && m.life <= after.life
    && forall o :: |m.phase| <= o < |after.phase| ==> after.phase[o] == Entered || after.phase[o] == Queued
  }

  lemma NobodyNew(m: Manager, after: Manager)
    requires Shape(m) && Shape(after)
    requires after.life == m.life && after.owners == m.owners && after.leases == m.leases
    requires after.running == m.running && after.threadCount == m.threadCount
    ensures Newcomers(m, after)
  {
  }

  lemma PlaceKeepsHoldings(m: Manager, p: Manager, owner: Owner)
    requires Shape(m) && Shape(p) && owner.lane in p.lanes
    requires p.life == m.life && p.owners == m.owners && p.leases == m.leases
    requires p.running == m.running && p.threadCount == m.threadCount
    ensures Newcomers(m, Place(p, owner).0)
  {
    hide AccountIsTaken, Newcomers;
    NobodyNew(m, p);
    SameNewcomers(m, p, Admit(p, owner), owner, Entered);
    SameNewcomers(m, p, Enqueue(p, owner), owner, Queued);
  }

  lemma SameNewcomers(m: Manager, p: Manager, after: Manager, owner: Owner, phase: Phase)
    requires Shape(m) && Shape(p) && Shape(after) && (phase == Entered || phase == Queued)
    requires p.life == m.life && p.owners == m.owners && p.leases == m.leases
    requires p.running == m.running && p.threadCount == m.threadCount
    requires after.life == p.life + [NEW_LIFETIME] && after.owners == p.owners + [owner] && after.phase == p.phase + [phase]
    requires after.leases == p.leases && after.running == p.running && after.threadCount == p.threadCount
    ensures Newcomers(m, after)
  {
  }

  lemma PreparedLife(m: Manager, lane: LaneName)
    requires Shape(m) && HasSharedLanes(m) && lane in m.lanes
    ensures var p := PromoteForAcquire(m, lane);
            && p.life == m.life && p.owners == m.owners && p.leases == m.leases
            && p.running == m.running && p.threadCount == m.threadCount
  {
    hide PromoteLane;
  }

  lemma AcquireKeepsOwnership(m: Manager, owner: Owner, parentLane: Option<LaneName>)
    requires Shape(m) && HasSharedLanes(m) && Inv(m) && OwnershipOk(m)
    ensures OwnershipOk(Acquire(m, owner, parentLane).0)
  {
    hide Inv, Acquire, LifeOk, LeasesOk, ThreadsOk, Nudged;
    var after := Acquire(m, owner, parentLane).0;
    AcquireKeepsHoldings(m, owner, parentLane);
    SameHoldingsStayOk(m, after);
    forall o | 0 <= o < |after.life|
      ensures LifeOk(after.owners[o].lane, after.phase[o], after.life[o])
    {
      if o < |m.life| {
        AcquiredPhases(m, owner, parentLane, o);
        NudgedLifeOk(m.owners[o].lane, m.phase[o], after.phase[o], m.life[o]);
      } else {
        NewLifeOk(after.owners[o].lane, after.phase[o]);
      }
    }
  }

  lemma NewLifeOk(lane: LaneName, p: Phase)
    requires p == Entered || p == Queued
    ensures LifeOk(lane, p, NEW_LIFETIME)
  {
  }

  lemma VacateKeepsLife(m: Manager, o: OwnerId)
    requires Shape(m) && o < |m.owners|
    ensures var v := Vacate(m, o);
            && v.life == m.life && v.owners == m.owners && v.leases == m.leases
            && v.running == m.running && v.threadCount == m.threadCount
  {
    hide PromoteLane, WithoutOwner, AllEmpty;
  }

  /** An owner that is gone for good, and everyone else as before or nudged. */
  lemma VacateKeepsOwnership(m: Manager, o: OwnerId)
    requires Shape(m) && Inv(m) && o < |m.phase|
    requires LeasesOk(m) && ThreadsOk(m)
    requires forall p :: 0 <= p < |m.life| && p != o ==> LifeOk(m.owners[p].lane, m.phase[p], m.life[p])
    requires LifeOk(m.owners[o].lane, Gone, m.life[o])
    ensures OwnershipOk(Vacate(m, o))
  {
    hide Inv, Vacate, LifeOk, LeasesOk, ThreadsOk, Nudged;
    VacateKeepsLife(m, o);
    SameHoldingsStayOk(m, Vacate(m, o));
    forall p | 0 <= p < |m.life|
      ensures LifeOk(m.owners[p].lane, Vacate(m, o).phase[p], m.life[p])
    {
      VacatedPhases(m, o, p);
      if p != o {
        NudgedLifeOk(m.owners[p].lane, m.phase[p], Vacate(m, o).phase[p], m.life[p]);
      }
    }
  }

  lemma FailKeepsOwnership(m: Manager, o: OwnerId)
    requires Shape(m) && Inv(m) && OwnershipOk(m) && o < |m.phase|
    ensures OwnershipOk(Fail(m, o))
  {
    hide Inv, Vacate, LeasesOk, ThreadsOk;
    if m.phase[o] == Queued || m.phase[o] == Granted || m.phase[o] == Refused {
      assert LifeOk(m.owners[o].lane, m.phase[o], m.life[o]);
      VacateKeepsOwnership(m, o);
    }
  }

  lemma LeaveKeepsOwnership(m: Manager, o: OwnerId)
    requires Shape(m) && Inv(m) && OwnershipOk(m) && o < |m.phase|
    ensures OwnershipOk(Leave(m, o))
  {
    hide Inv, Vacate, LeasesOk, ThreadsOk;
    if m.phase[o] == Entered && m.life[o].threads == {} {
      assert LifeOk(m.owners[o].lane, m.phase[o], m.life[o]);
      var released := m.(life := m.life[o := m.life[o].(released := true)]);
      SameAdmissionKeepsInv(m, released);
      SameHoldingsStayOk(m, released);
      VacateKeepsOwnership(released, o);
    }
  }

  lemma ResumeKeepsOwnership(m: Manager, o: OwnerId)
    requires Shape(m) && OwnershipOk(m) && o < |m.phase|
    ensures OwnershipOk(Resume(m, o))
  {
    hide LifeOk, LeasesOk, ThreadsOk;
    SameHoldingsStayOk(m, Resume(m, o));
    NudgedLifeOk(m.owners[o].lane, m.phase[o], Resume(m, o).phase[o], m.life[o]);
  }

  lemma ShutdownKeepsOwnership(m: Manager)
    requires Shape(m) && OwnershipOk(m)
    ensures OwnershipOk(Shutdown(m))
  {
    hide LifeOk, LeasesOk, ThreadsOk, AllEmpty;
    SameHoldingsStayOk(m, Shutdown(m));
    forall o | 0 <= o < |m.life|
      ensures LifeOk(m.owners[o].lane, Shutdown(m).phase[o], m.life[o])
    {
      NudgedLifeOk(m.owners[o].lane, m.phase[o], Shutdown(m).phase[o], m.life[o]);
    }
  }

  // -------- steps inside an operation --------

  /** A change of flags that leaves threads and lease alone. */
  lemma FlagsKeepOwnership(m: Manager, o: OwnerId, l: Lifetime)
    requires Shape(m) && OwnershipOk(m) && o < |m.life|
    requires l.threads == m.life[o].threads && l.lease == m.life[o].lease
    requires LifeOk(m.owners[o].lane, m.phase[o], l)
    ensures OwnershipOk(Update(m, o, l))
  {
    hide LifeOk, LeasesOk, ThreadsOk;
    SameHoldingsStayOk(m, Update(m, o, l));
  }

  lemma BorrowKeepsOwnership(m: Manager, o: OwnerId, r: BorrowRequest)
    requires Shape(m) && OwnershipOk(m) && IsCurrent(m, o)
    ensures OwnershipOk(Borrow(m, o, r)) && OwnershipOk(GiveBack(m, o))
  {
    hide LeasesOk, ThreadsOk, Update;
    var l := m.life[o];
    assert LifeOk(m.owners[o].lane, m.phase[o], l);
    if GrantsBorrow(m.owners[o], l, r) {
      FlagsKeepOwnership(m, o, if r.ForRuntime? then l.(runtime := true) else l.(control := true));
    }
    if !l.connected {
      FlagsKeepOwnership(m, o, l.(runtime := false, control := false));
    }
  }

  lemma ConnectKeepsOwnership(m: Manager, o: OwnerId, runtime: bool, ownTask: bool)
    requires Shape(m) && OwnershipOk(m) && IsCurrent(m, o)
    ensures OwnershipOk(Connect(m, o, runtime, ownTask)) && OwnershipOk(Disconnect(m, o))
  {
    hide LeasesOk, ThreadsOk, Update;
    var l := m.life[o];
    assert LifeOk(m.owners[o].lane, m.phase[o], l);
    if GrantsConnection(l, runtime, ownTask) {
      FlagsKeepOwnership(m, o, l.(connected := true));
    }
    FlagsKeepOwnership(m, o, l.(connected := false));
  }

  lemma CancelKeepsOwnership(m: Manager, o: OwnerId)
    requires Shape(m) && OwnershipOk(m) && IsCurrent(m, o)
    ensures OwnershipOk(Cancel(m, o))
  {
    hide LeasesOk, ThreadsOk, Update;
    assert LifeOk(m.owners[o].lane, m.phase[o], m.life[o]);
    FlagsKeepOwnership(m, o, m.life[o].(cancelled := true));
  }

  lemma LeaseKeepsOwnership(m: Manager, o: OwnerId, accounts: set<int>)
    requires Shape(m) && OwnershipOk(m) && IsCurrent(m, o)
    ensures OwnershipOk(Lease(m, o, accounts))
  {
    hide LifeOk, ThreadsOk, LeasesOk;
    LeasedLifeOk(m.owners[o].lane, m.phase[o], m.life[o]);
    SameThreadsStayOk(m, Lease(m, o, accounts));
    LeaseKeepsLeases(m, o, accounts);
  }

  lemma LeaseKeepsLeases(m: Manager, o: OwnerId, accounts: set<int>)
    requires Shape(m) && LeasesOk(m) && IsCurrent(m, o)
    ensures LeasesOk(Lease(m, o, accounts))
  {
  }

  lemma LeasedLifeOk(lane: LaneName, p: Phase, l: Lifetime)
    requires LifeOk(lane, p, l) && (p == Entered || l.released)
    ensures TakesLeases(lane) ==> LifeOk(lane, p, l.(lease := true))
    ensures LifeOk(lane, p, l.(lease := false))
  {
  }

  lemma SameThreadsStayOk(m: Manager, after: Manager)
    requires ThreadsOk(m) && after.running == m.running && after.threadCount == m.threadCount
    requires |after.life| == |m.life| && forall o :: 0 <= o < |m.life| ==> after.life[o].threads == m.life[o].threads
    ensures ThreadsOk(after)
  {
    forall t | t in m.running
      ensures exists o: OwnerId :: HoldsThread(after, o, t)
    {
      var o: OwnerId :| HoldsThread(m, o, t);
      assert HoldsThread(after, o, t);
    }
    forall o: OwnerId, t: ThreadId | HoldsThread(after, o, t)
      ensures HoldsThread(m, o, t)
    {
    }
  }

  lemma DropLeaseKeepsOwnership(m: Manager, o: OwnerId)
    requires Shape(m) && OwnershipOk(m) && IsCurrent(m, o)
    ensures OwnershipOk(DropLease(m, o))
  {
    hide LifeOk, ThreadsOk;
    assert LifeOk(m.owners[o].lane, m.phase[o], m.life[o]);
    LeasedLifeOk(m.owners[o].lane, m.phase[o], m.life[o]);
    SameThreadsStayOk(m, DropLease(m, o));
  }

  function WithNewThread(m: Manager, o: OwnerId): (after: Manager)
    requires Shape(m) && o < |m.life|
    ensures Shape(after) && SameAdmission(m, after)
  {
    Update(m, o, m.life[o].(threads := {m.threadCount})).(
      running := m.running + {m.threadCount}, threadCount := m.threadCount + 1)
  }

  lemma StartThreadKeepsOwnership(m: Manager, o: OwnerId)
    requires Shape(m) && OwnershipOk(m) && IsCurrent(m, o)
    ensures OwnershipOk(StartThread(m, o))
  {
    hide LifeOk, ThreadsOk;
    if !m.life[o].released && m.life[o].threads == {} {
      StartedThreadsOk(m, o);
      ThreadedLifeOk(m.owners[o].lane, m.phase[o], m.life[o], m.threadCount);
      assert StartThread(m, o) == WithNewThread(m, o);
    }
  }

  lemma ThreadedLifeOk(lane: LaneName, p: Phase, l: Lifetime, t: ThreadId)
    requires LifeOk(lane, p, l) && p == Entered
    ensures LifeOk(lane, p, l.(threads := {t}))
  {
  }

  lemma StartedThreadsOk(m: Manager, o: OwnerId)
    requires Shape(m) && ThreadsOk(m) && o < |m.life| && m.life[o].threads == {}
    ensures ThreadsOk(WithNewThread(m, o))
  {
    var after := WithNewThread(m, o);
    assert HoldsThread(after, o, m.threadCount);
    forall t | t in m.running
      ensures exists p: OwnerId :: HoldsThread(after, p, t)
    {
      var p: OwnerId :| HoldsThread(m, p, t);
      assert HoldsThread(after, p, t);
    }
    forall p: OwnerId, t: ThreadId | HoldsThread(after, p, t)
      ensures HoldsThread(m, p, t) || (p == o && t == m.threadCount)
    {
    }
  }

  lemma EndThreadKeepsOwnership(m: Manager, t: ThreadId)
    requires Shape(m) && OwnershipOk(m)
    ensures OwnershipOk(EndThread(m, t))
  {
    var after := EndThread(m, t);
    forall u | u in after.running
      ensures exists o: OwnerId :: HoldsThread(after, o, u)
    {
      var o: OwnerId :| HoldsThread(m, o, u);
      assert HoldsThread(after, o, u);
    }
    forall o: OwnerId, u: ThreadId | HoldsThread(after, o, u)
      ensures HoldsThread(m, o, u)
    {
    }
  }

  lemma ReapKeepsOwnership(m: Manager, o: OwnerId, t: ThreadId)
    requires Shape(m) && OwnershipOk(m) && IsCurrent(m, o)
    ensures OwnershipOk(Reap(m, o, t))
  {
    hide LifeOk, ThreadsOk;
    ReapedLifeOk(m.owners[o].lane, m.phase[o], m.life[o], t);
    ReapedThreadsOk(m, o, t);
  }

  lemma ReapedThreadsOk(m: Manager, o: OwnerId, t: ThreadId)
    requires Shape(m) && ThreadsOk(m) && IsCurrent(m, o)
    ensures ThreadsOk(Reap(m, o, t))
  {
    var after := Reap(m, o, t);
    forall u | u in after.running
      ensures exists p: OwnerId :: HoldsThread(after, p, u)
    {
      var p: OwnerId :| HoldsThread(m, p, u);
      assert HoldsThread(after, p, u);
    }
    forall p: OwnerId, u: ThreadId | HoldsThread(after, p, u)
      ensures HoldsThread(m, p, u)
    {
    }
  }

  lemma ReapedLifeOk(lane: LaneName, p: Phase, l: Lifetime, t: ThreadId)
    requires LifeOk(lane, p, l) && (p == Entered || l.released)
    ensures LifeOk(lane, p, l.(threads := l.threads - {t}))
  {
    if t !in l.threads {
      assert l.threads - {t} == l.threads;
    }
  }

  lemma StepLifeKeepsOwnership(m: Manager, e: Event)
    requires Shape(m) && OwnershipOk(m) && |m.phase| == |m.life|
    ensures OwnershipOk(StepLife(m, e))
  {
    hide OwnershipOk, Shape, Borrow, GiveBack, Connect, Disconnect, Cancel, Lease, DropLease, StartThread, EndThread, Reap;
    match e
    case EvBorrow(o, request) => if IsCurrent(m, o) { BorrowKeepsOwnership(m, o, request); }
    case EvGiveBack(o) => if IsCurrent(m, o) { BorrowKeepsOwnership(m, o, ForRuntime(None, true)); }
    case EvConnect(o, runtime, ownTask) =>
      if IsCurrent(m, o) { ConnectKeepsOwnership(m, o, runtime, ownTask); }
    case EvDisconnect(o) => if IsCurrent(m, o) { ConnectKeepsOwnership(m, o, false, false); }
    case EvCancel(o) => if IsCurrent(m, o) { CancelKeepsOwnership(m, o); }
    case EvLease(o, accounts) => if IsCurrent(m, o) { LeaseKeepsOwnership(m, o, accounts); }
    case EvDropLease(o) => if IsCurrent(m, o) { DropLeaseKeepsOwnership(m, o); }
    case EvStartThread(o) => if IsCurrent(m, o) { StartThreadKeepsOwnership(m, o); }
    case EvEndThread(t) => EndThreadKeepsOwnership(m, t);
    case EvReap(o, t) => if IsCurrent(m, o) { ReapKeepsOwnership(m, o, t); }
    case _ =>
  }

  lemma TickKeepsOwnership(m: Manager, now: real)
    requires Shape(m) && OwnershipOk(m)
    ensures OwnershipOk(Tick(m, now))
  {
    hide LifeOk, LeasesOk, ThreadsOk;
    SameHoldingsStayOk(m, Tick(m, now));
  }

  lemma StepKeepsOwnership(m: Manager, e: Event)
    requires Shape(m) && HasSharedLanes(m) && Inv(m) && OwnershipOk(m) && |m.owners| == |m.phase| == |m.life|
    ensures OwnershipOk(Step(m, e))
  {
    hide Inv, OwnershipOk, Shape, Acquire, Resume, Fail, Leave, Shutdown, Tick, StepLife;
    match e
    case EvAcquire(owner, parentLane) => AcquireKeepsOwnership(m, owner, parentLane);
    case EvResume(o) => if o < |m.phase| { ResumeKeepsOwnership(m, o); }
    case EvFail(o) => if o < |m.phase| { FailKeepsOwnership(m, o); }
    case EvLeave(o) => if o < |m.phase| { LeaveKeepsOwnership(m, o); }
    case EvShutdown => ShutdownKeepsOwnership(m);
    case EvTick(now) => TickKeepsOwnership(m, now);
    case _ => StepLifeKeepsOwnership(m, e);
  }

  lemma {:induction false} RunKeepsOwnership(m: Manager, events: seq<Event>)
    requires Shape(m) && HasSharedLanes(m) && Inv(m) && OwnershipOk(m)
    ensures OwnershipOk(Run(m, events))
  {
    hide Inv, OwnershipOk, Step;
    if events != [] {
      var front := events[..|events| - 1];
      RunKeepsOwnership(m, front);
      RunKeepsInv(m, front);
      StepKeepsOwnership(Run(m, front), events[|events| - 1]);
    }
  }

  lemma InitialOwnership(lanes: map<LaneName, LaneSpec>)
    ensures OwnershipOk(Initial(lanes))
  {
  }

  lemma ReachableOwnership(m: Manager)
    requires Reachable(m)
    ensures Shape(m) && HasSharedLanes(m) && Inv(m) && OwnershipOk(m)
  {
    hide Run, Initial, Inv, OwnershipOk;
    var lanes, events :| SpecsOk(lanes) && m == Run(Initial(lanes), events);
    InitialInv(lanes);
    InitialOwnership(lanes);
    RunKeepsInv(Initial(lanes), events);
    RunKeepsOwnership(Initial(lanes), events);
  }

  // -------- threads and leases --------

  /** An unfinished future belongs to exactly one owner, which is inside its operation and still
      occupies its slot, whatever was cancelled meanwhile. */
  lemma RunningThreadsHoldTheirSlot(m: Manager, t: ThreadId)
    requires Reachable(m) && t in m.running
    ensures exists o: OwnerId :: HoldsThread(m, o, t) && m.phase[o] == Entered && o in m.active[m.owners[o].lane]
              && forall p: OwnerId :: HoldsThread(m, p, t) ==> p == o
  {
    hide Reachable, Inv, LifeOk;
    ReachableOwnership(m);
    var o: OwnerId :| HoldsThread(m, o, t);
    assert LifeOk(m.owners[o].lane, m.phase[o], m.life[o]);
    ThreadMeansEntered(m.owners[o].lane, m.phase[o], m.life[o]);
    OneLane(m, m.owners[o].lane);
  }

  lemma ThreadMeansEntered(lane: LaneName, p: Phase, l: Lifetime)
    requires LifeOk(lane, p, l) && l.threads != {}
    ensures p == Entered && !l.released
  {
  }

  /** No owner has two threads, and a released one has none. */
  lemma OneThreadEach(m: Manager, o: OwnerId)
    requires Reachable(m) && o < |m.life|
    ensures |m.life[o].threads| <= 1 && (m.life[o].released ==> m.life[o].threads == {} && o !in m.active[m.owners[o].lane])
  {
    hide Reachable, Inv;
    ReachableOwnership(m);
    assert LifeOk(m.owners[o].lane, m.phase[o], m.life[o]);
    OneLane(m, m.owners[o].lane);
  }

  lemma LeasesOnlyDropWithoutThreads(m: Manager, e: Event, o: OwnerId)
    requires Shape(m) && HasSharedLanes(m) && Inv(m) && |m.owners| == |m.phase| == |m.life|
    requires o in m.leases && o !in Step(m, e).leases
    ensures e == EvDropLease(o) && o < |m.life| && m.life[o].threads == {}
  {
    hide Inv, Shape, Acquire, Vacate, Shutdown, Leave;
    match e
    case EvAcquire(owner, parentLane) => AcquireKeepsHoldings(m, owner, parentLane);
    case EvFail(x) => if x < |m.phase| { VacateKeepsLife(m, x); }
    case EvLeave(x) =>
      if x < |m.phase| { LeaveKeepsLeases(m, x); }
    case EvShutdown => ShutdownKeepsLeases(m);
    case _ =>
  }

  lemma LeaveKeepsLeases(m: Manager, o: OwnerId)
    requires Shape(m) && o < |m.phase|
    ensures Leave(m, o).leases == m.leases
  {
    hide Vacate;
    if m.phase[o] == Entered && m.life[o].threads == {} {
      VacateKeepsLife(m.(life := m.life[o := m.life[o].(released := true)]), o);
    }
  }

  lemma ShutdownKeepsLeases(m: Manager)
    requires Shape(m)
    ensures Shutdown(m).leases == m.leases
  {
  }

  /** The end of what was granted undoes it: a borrow, a connection, a lease, and a thread that has run. */
  lemma EndsUndoGrants(m: Manager, o: OwnerId, r: BorrowRequest, runtime: bool, accounts: set<int>)
    requires Shape(m) && OwnershipOk(m) && o < |m.life| && IsCurrent(m, o) && m.phase[o] == Entered
    ensures GrantsBorrow(m.owners[o], m.life[o], r) && !m.life[o].connected && !m.life[o].runtime && !m.life[o].control ==>
              Borrow(m, o, r) != m && GiveBack(Borrow(m, o, r), o) == m
    ensures GrantsConnection(m.life[o], runtime, true) ==>
              Connect(m, o, runtime, true) != m && Disconnect(Connect(m, o, runtime, true), o) == m
    ensures Lease(m, o, accounts) != m && m.life[o].threads == {} ==> DropLease(Lease(m, o, accounts), o) == m
    ensures !m.life[o].released && m.life[o].threads == {} ==>
              Reap(EndThread(StartThread(m, o), m.threadCount), o, m.threadCount) == m.(threadCount := m.threadCount + 1)
  {
    hide ThreadsOk, LifeOk, LivesOk;
    BorrowUndone(m, o, r);
    ConnectUndone(m, o, runtime);
    LeaseUndone(m, o, accounts);
    ThreadUndone(m, o);
  }

  lemma SameElement<T>(s: seq<T>, i: nat, x: T)
    requires i < |s|
    ensures s[i := x][i := s[i]] == s
  {
  }

  lemma BorrowUndone(m: Manager, o: OwnerId, r: BorrowRequest)
    requires Shape(m) && o < |m.life| && IsCurrent(m, o)
    ensures GrantsBorrow(m.owners[o], m.life[o], r) && !m.life[o].connected && !m.life[o].runtime && !m.life[o].control ==>
              Borrow(m, o, r) != m && IsCurrent(Borrow(m, o, r), o) && GiveBack(Borrow(m, o, r), o) == m
  {
    SameElement(m.life, o, m.life[o].(runtime := true));
    SameElement(m.life, o, m.life[o].(control := true));
  }

  lemma ConnectUndone(m: Manager, o: OwnerId, runtime: bool)
    requires Shape(m) && o < |m.life| && IsCurrent(m, o)
    ensures GrantsConnection(m.life[o], runtime, true) ==>
              && Connect(m, o, runtime, true) != m && IsCurrent(Connect(m, o, runtime, true), o)
              && Disconnect(Connect(m, o, runtime, true), o) == m
  {
    SameElement(m.life, o, m.life[o].(connected := true));
  }

  lemma LeaseUndone(m: Manager, o: OwnerId, accounts: set<int>)
    requires Shape(m) && LeasesOk(m) && o < |m.life| && IsCurrent(m, o)
    ensures Lease(m, o, accounts) != m && m.life[o].threads == {} ==>
              IsCurrent(Lease(m, o, accounts), o) && DropLease(Lease(m, o, accounts), o) == m
  {
    SameElement(m.life, o, m.life[o].(lease := true));
    if !m.life[o].lease {
      assert o !in m.leases;
      assert m.leases + {o} - {o} == m.leases;
    }
  }

  lemma ThreadUndone(m: Manager, o: OwnerId)
    requires Shape(m) && ThreadsOk(m) && o < |m.life| && IsCurrent(m, o) && m.phase[o] == Entered
    ensures !m.life[o].released && m.life[o].threads == {} ==>
              Reap(EndThread(StartThread(m, o), m.threadCount), o, m.threadCount) == m.(threadCount := m.threadCount + 1)
  {
    NewThreadIsNew(m);
    var t := m.threadCount;
    assert m.running + {t} - {t} == m.running && {t} - {t} == {};
    SameElement(m.life, o, m.life[o].(threads := {t}));
  }

  lemma NewThreadIsNew(m: Manager)
    requires ThreadsOk(m)
    ensures m.threadCount !in m.running
  {
    assert forall o: OwnerId :: !HoldsThread(m, o, m.threadCount);
  }

  /** What an owner is granted in one step, whatever the step is. */
  ghost predicate GivenOnlySo(e: Event, o: OwnerId, owner: Owner, leases: nat, l: Lifetime, after: Lifetime) {
    && (after.runtime && !l.runtime ==>
          && e.EvBorrow? && e.o == o && e.request.ForRuntime? && !e.request.nested && !l.released && IsRuntimeLane(owner.lane)
          && (owner.lane == Routine || e.request.principal == owner.principal))
    && (after.control && !l.control ==>
          && e.EvBorrow? && e.o == o && e.request.ForControl? && !e.request.nested && IsControlLane(owner.lane)
          && (owner.lane == e.request.lane || (owner.lane == Mail && e.request.lane == Identity)))
    && (after.connected && !l.connected ==>
          && e.EvConnect? && e.o == o && e.ownTask && !l.released && if e.runtime then l.runtime else l.control)
    && (after.lease && !l.lease ==>
          && e.EvLease? && e.o == o && leases < 5
          && (owner.principal.Some? ==> owner.principal.value.accountId in e.accounts))
    && (!(after.threads <= l.threads) ==> e == EvStartThread(o) && !l.released && l.threads == {})
  }

  lemma UseGivesOnlySo(m: Manager, e: Event, o: OwnerId)
    requires Shape(m) && o < |m.life| == |m.owners| == |m.phase|
    ensures o < |StepLife(m, e).life| && GivenOnlySo(e, o, m.owners[o], |m.leases|, m.life[o], StepLife(m, e).life[o])
  {
    hide Shape, GivenOnlySo, Borrow, GiveBack, Connect, Disconnect, Lease, DropLease, StartThread, EndThread, Reap, Cancel;
    SameLifeGivesNothing(m, m, e, o);
    if (e.EvBorrow? || e.EvGiveBack?) && IsCurrent(m, e.o) {
      BorrowGivesOnlySo(m, e, o);
    } else if (e.EvConnect? || e.EvDisconnect?) && IsCurrent(m, e.o) {
      ConnectGivesOnlySo(m, e, o);
    } else if e.EvLease? && IsCurrent(m, e.o) {
      LeaseGivesOnlySo(m, e, o);
    } else if (e.EvDropLease? || e.EvCancel?) && IsCurrent(m, e.o) {
      DropGivesNothing(m, e, o);
    } else if ((e.EvStartThread? || e.EvReap?) && IsCurrent(m, e.o)) || e.EvEndThread? {
      ThreadGivesOnlySo(m, e, o);
    }
  }

  lemma BorrowGivesOnlySo(m: Manager, e: Event, o: OwnerId)
    requires Shape(m) && o < |m.life| == |m.owners| == |m.phase|
    requires (e.EvBorrow? || e.EvGiveBack?) && IsCurrent(m, e.o)
    ensures o < |StepLife(m, e).life| && GivenOnlySo(e, o, m.owners[o], |m.leases|, m.life[o], StepLife(m, e).life[o])
  {
    hide Shape, GivenOnlySo, GrantsBorrow;
    BorrowGiven(e, o, m.owners[o], |m.leases|, m.life[o]);
  }

  lemma BorrowGiven(e: Event, o: OwnerId, owner: Owner, leases: nat, l: Lifetime)
    ensures GivenOnlySo(e, o, owner, leases, l, l)
    ensures GivenOnlySo(e, o, owner, leases, l, l.(runtime := false, control := false))
    ensures e.EvBorrow? && e.o == o && GrantsBorrow(owner, l, e.request) ==>
              GivenOnlySo(e, o, owner, leases, l,
                          if e.request.ForRuntime? then l.(runtime := true) else l.(control := true))
  {
  }

  lemma ConnectGivesOnlySo(m: Manager, e: Event, o: OwnerId)
    requires Shape(m) && o < |m.life| == |m.owners| == |m.phase|
    requires (e.EvConnect? || e.EvDisconnect?) && IsCurrent(m, e.o)
    ensures o < |StepLife(m, e).life| && GivenOnlySo(e, o, m.owners[o], |m.leases|, m.life[o], StepLife(m, e).life[o])
  {
    hide Shape;
  }

  lemma LeaseGivesOnlySo(m: Manager, e: Event, o: OwnerId)
    requires Shape(m) && o < |m.life| == |m.owners| == |m.phase|
    requires e.EvLease? && IsCurrent(m, e.o)
    ensures o < |StepLife(m, e).life| && GivenOnlySo(e, o, m.owners[o], |m.leases|, m.life[o], StepLife(m, e).life[o])
  {
    hide Shape;
  }

  lemma DropGivesNothing(m: Manager, e: Event, o: OwnerId)
    requires Shape(m) && o < |m.life| == |m.owners| == |m.phase|
    requires (e.EvDropLease? || e.EvCancel?) && IsCurrent(m, e.o)
    ensures o < |StepLife(m, e).life| && GivenOnlySo(e, o, m.owners[o], |m.leases|, m.life[o], StepLife(m, e).life[o])
  {
    hide Shape;
  }

  lemma ThreadGivesOnlySo(m: Manager, e: Event, o: OwnerId)
    requires Shape(m) && o < |m.life| == |m.owners| == |m.phase|
    requires ((e.EvStartThread? || e.EvReap?) && IsCurrent(m, e.o)) || e.EvEndThread?
    ensures o < |StepLife(m, e).life| && GivenOnlySo(e, o, m.owners[o], |m.leases|, m.life[o], StepLife(m, e).life[o])
  {
    hide Shape;
  }

  lemma SameLifeGivesNothing(m: Manager, after: Manager, e: Event, o: OwnerId)
    requires o < |m.owners| && o < |m.life| && m.life <= after.life
    ensures o < |after.life| && GivenOnlySo(e, o, m.owners[o], |m.leases|, m.life[o], after.life[o])
  {
  }

  lemma LeaveGivesNothing(m: Manager, x: OwnerId, e: Event, o: OwnerId)
    requires Shape(m) && x < |m.phase| && o < |m.life|
    ensures o < |Leave(m, x).life| && o < |m.owners|
    ensures GivenOnlySo(e, o, m.owners[o], |m.leases|, m.life[o], Leave(m, x).life[o])
  {
    hide Vacate;
    VacateKeepsLife(m.(life := m.life[x := m.life[x].(released := true)]), x);
  }

  /** Whichever step gives an owner a borrow, a connection, a lease or a thread is its own request for it: the borrow for
      its principal or lane and not inside another, the connection by the asyncio task that borrowed, the lease for its
      account and while there are fewer than five, and neither connections nor threads once its operation is over. */
  lemma RightsAreGivenOnlySo(m: Manager, e: Event, o: OwnerId)
    requires Reachable(m) && o < |m.life| && o < |m.owners|
    ensures o < |Step(m, e).life| && GivenOnlySo(e, o, m.owners[o], |m.leases|, m.life[o], Step(m, e).life[o])
  {
    hide Reachable, Inv, Shape, OwnershipOk, GivenOnlySo, Acquire, Resume, Fail, Leave, Shutdown, Tick, StepLife;
    ReachableOwnership(m);
    LengthsAgree(m);
    match e
    case EvAcquire(owner, parentLane) =>
      AcquireKeepsHoldings(m, owner, parentLane);
      SameLifeGivesNothing(m, Step(m, e), e, o);
    case EvLeave(x) => if x < |m.phase| { LeaveGivesNothing(m, x, e, o); } else { SameLifeGivesNothing(m, m, e, o); }
    case EvFail(x) =>
      FailedLife(m, x);
      SameLifeGivesNothing(m, Step(m, e), e, o);
    case EvResume(x) =>
      ResumedLife(m, x);
      SameLifeGivesNothing(m, Step(m, e), e, o);
    case EvTick(now) =>
      assert Tick(m, now).life == m.life by { TickedLife(m, now); }
      SameLifeGivesNothing(m, Step(m, e), e, o);
    case EvShutdown =>
      ClosedLife(m);
      SameLifeGivesNothing(m, Step(m, e), e, o);
    case _ => UseGivesOnlySo(m, e, o);
  }

  lemma LengthsAgree(m: Manager)
    requires Shape(m)
    ensures |m.life| == |m.owners| == |m.phase|
  {
  }

  lemma FailedLife(m: Manager, x: OwnerId)
    requires Shape(m)
    ensures x < |m.phase| ==> x < |m.owners| && Fail(m, x).life == m.life
  {
    hide Vacate;
    if x < |m.phase| {
      VacateKeepsLife(m, x);
    }
  }

  lemma ResumedLife(m: Manager, x: OwnerId)
    requires Shape(m)
    ensures x < |m.phase| ==> Resume(m, x).life == m.life
  {
  }

  lemma TickedLife(m: Manager, now: real)
    ensures Tick(m, now).life == m.life
  {
  }

  lemma ClosedLife(m: Manager)
    requires Shape(m)
    ensures Shutdown(m).life == m.life
  {
    hide AllEmpty, RefuseAll, EmptyQueues;
  }

  /** At most five leases, each held by an owner that may take one. */
  lemma LeasesAreBounded(m: Manager)
    requires Reachable(m)
    ensures |m.leases| <= MAX_LEASES
    ensures forall o :: o in m.leases ==> o < |m.life| && TakesLeases(m.owners[o].lane)
  {
    hide Reachable, Inv, ThreadsOk;
    ReachableOwnership(m);
    forall o | o in m.leases
      ensures o < |m.life| && TakesLeases(m.owners[o].lane)
    {
      assert LifeOk(m.owners[o].lane, m.phase[o], m.life[o]);
    }
  }
}
