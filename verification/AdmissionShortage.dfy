/** When a pool that is configured to the last slot can be asked for more than it has. */
module AdmissionShortage {
  import opened Common
  import opened Admission
  import opened AdmissionInvariant
  import opened AdmissionTheorems
  import opened AdmissionOwnership
  import opened CapacityConfig
  import opened AdmissionConnections

  // -------- nested operations leave nothing behind --------

  lemma LeftBehind(m: Manager, runtime: bool)
    ensures LeftGrants(m, runtime) == {} <==> NoneLeftOf(m, runtime)
  {
    assert forall o :: 0 <= o < |m.life| && Uses(m.life[o], runtime) && m.life[o].released ==> o in LeftGrants(m, runtime);
  }

  ghost predicate NoneLeftOf(m: Manager, runtime: bool) {
    forall o :: 0 <= o < |m.life| && m.life[o].released ==> !Uses(m.life[o], runtime)
  }

  lemma SameLivesNoneLeft(m: Manager, after: Manager, runtime: bool)
    requires NoneLeftOf(m, runtime) && m.life <= after.life
    requires forall o :: |m.life| <= o < |after.life| ==> after.life[o] == NEW_LIFETIME
    ensures NoneLeftOf(after, runtime)
  {
  }

  lemma LeaveNoneLeft(m: Manager, o: OwnerId, runtime: bool)
    requires Shape(m) && o < |m.phase| && NoneLeftOf(m, runtime) && NestedStep(m, EvLeave(o))
    ensures NoneLeftOf(Leave(m, o), runtime)
  {
    hide Vacate;
    VacateKeepsLife(m.(life := m.life[o := m.life[o].(released := true)]), o);
  }

  /** A borrow of the other kind is refused to whoever has a connection. */
  lemma BorrowNoneLeft(m: Manager, o: OwnerId, r: BorrowRequest, runtime: bool)
    requires Shape(m) && OwnershipOk(m) && IsCurrent(m, o) && NoneLeftOf(m, runtime)
    ensures NoneLeftOf(Borrow(m, o, r), runtime)
  {
    hide LeasesOk, ThreadsOk;
    assert LifeOk(m.owners[o].lane, m.phase[o], m.life[o]);
  }

  lemma UseNoneLeft(m: Manager, e: Event, runtime: bool)
    requires Shape(m) && OwnershipOk(m) && |m.phase| == |m.life| && NoneLeftOf(m, runtime)
    ensures NoneLeftOf(StepLife(m, e), runtime)
  {
    hide Shape, OwnershipOk, Borrow;
    if e.EvBorrow? && IsCurrent(m, e.o) {
      BorrowNoneLeft(m, e.o, e.request, runtime);
    }
  }

  lemma StepNoneLeft(m: Manager, e: Event, runtime: bool)
    requires Shape(m) && HasSharedLanes(m) && Inv(m) && OwnershipOk(m) && |m.phase| == |m.life| == |m.owners|
    requires NoneLeftOf(m, runtime) && NestedStep(m, e)
    ensures NoneLeftOf(Step(m, e), runtime)
  {
    hide Shape, Inv, OwnershipOk, NoneLeftOf, Acquire, Resume, Fail, Leave, Shutdown, Tick, StepLife, NestedStep;
    match e
    case EvAcquire(owner, parentLane) =>
      AcquireKeepsHoldings(m, owner, parentLane);
      SameLivesNoneLeft(m, Step(m, e), runtime);
    case EvLeave(o) => if o < |m.phase| { LeaveNoneLeft(m, o, runtime); }
    case EvFail(_) => QuietLife(m, e); SameLivesNoneLeft(m, Step(m, e), runtime);
    case EvShutdown => QuietLife(m, e); SameLivesNoneLeft(m, Step(m, e), runtime);
    case EvResume(_) => QuietLife(m, e); SameLivesNoneLeft(m, Step(m, e), runtime);
    case EvTick(_) => QuietLife(m, e); SameLivesNoneLeft(m, Step(m, e), runtime);
    case _ => UseNoneLeft(m, e, runtime);
  }

  lemma QuietLife(m: Manager, e: Event)
    requires Shape(m) && HasSharedLanes(m) && (e.EvFail? || e.EvShutdown? || e.EvResume? || e.EvTick?)
    ensures Step(m, e).life == m.life
  {
    hide Vacate, AllEmpty;
    match e
    case EvFail(o) => if o < |m.phase| { VacateKeepsLife(m, o); }
    case EvShutdown => ShutdownKeepsLife(m);
    case _ =>
  }

  lemma ServingStep(m: Manager, e: Event)
    requires Serving(m)
    ensures Serving(Step(m, e))
  {
    hide Run, Step, Accepts, Lanes, Initial;
    var lanes, events :| SpecsOk(lanes) && m == Run(Initial(lanes), events);
    RunSnoc(Initial(lanes), events, e);
    assert Step(m, e) == Run(Initial(lanes), events + [e]);
  }

  lemma {:induction false} NestedLeavesNone(m: Manager, events: seq<Event>, runtime: bool)
    requires Serving(m) && NoneLeftOf(m, runtime) && NestedRun(m, events)
    ensures Serving(Run(m, events)) && NoneLeftOf(Run(m, events), runtime)
  {
    hide Serving, Reachable, NoneLeftOf, Step, NestedStep, Inv, OwnershipOk, Shape;
    ServingKnown(m);
    if events != [] {
      var front, e := events[..|events| - 1], events[|events| - 1];
      NestedLeavesNone(m, front, runtime);
      ServingKnown(Run(m, front));
      StepNoneLeft(Run(m, front), e, runtime);
      ServingStep(Run(m, front), e);
    }
  }

  lemma ServingKnown(m: Manager)
    requires Serving(m)
    ensures Shape(m) && HasSharedLanes(m) && Inv(m) && OwnershipOk(m) && |m.phase| == |m.life| == |m.owners|
  {
    hide Inv, OwnershipOk, Run;
    ServingEnvelope(m, true);
  }

  // -------- filling every slot of a pool --------

  /** A run in which no operation ends. */
  ghost predicate Stays(events: seq<Event>) {
    forall i :: 0 <= i < |events| ==> !events[i].EvLeave?
  }

  lemma {:induction false} StaysIsNested(m: Manager, events: seq<Event>)
    requires Shape(m) && HasSharedLanes(m) && Stays(events)
    ensures NestedRun(m, events)
  {
    hide Run;
    if events != [] {
      StaysIsNested(m, events[..|events| - 1]);
    }
  }

  /** Serving, open, and configured to the last slot of the pool. */
  ghost predicate Full(m: Manager, runtime: bool) {
    && Reachable(m) && !m.closed
    && exists c :: Accepts(c) && m.lanes == Lanes(c) && SlotTotal(c, LanesOfPool(runtime)) == PoolSize(runtime)
  }

  ghost predicate HasLanes(m: Manager, runtime: bool) {
    forall l :: l in LanesOfPool(runtime) ==> l in m.lanes
  }

  lemma FullKnown(m: Manager, runtime: bool)
    requires Full(m, runtime)
    ensures Shape(m) && HasSharedLanes(m) && Inv(m) && OwnershipOk(m) && |m.phase| == |m.life| == |m.owners|
    ensures Serving(m) && HasLanes(m, runtime) && LimitTotal(m.lanes, LanesOfPool(runtime)) == PoolSize(runtime)
  {
    hide Inv, OwnershipOk, Reachable, Accepts, Lanes, SlotTotal, LimitTotal;
    var c :| Accepts(c) && m.lanes == Lanes(c) && SlotTotal(c, LanesOfPool(runtime)) == PoolSize(runtime);
    assert Serving(m);
    ServingKnown(m);
    ServingEnvelope(m, runtime);
    NamedLanes(LanesOfPool(runtime));
    LimitsAreSlots(c, LanesOfPool(runtime));
  }

  lemma StepFull(m: Manager, e: Event, runtime: bool)
    requires Full(m, runtime) && !e.EvShutdown? && Shape(m) && HasSharedLanes(m) && !Step(m, e).closed
    ensures Full(Step(m, e), runtime)
  {
    hide Serving, Reachable, Step, Accepts, Lanes, SlotTotal;
    FullKnown(m, runtime);
    ServingStep(m, e);
    assert Reachable(Step(m, e)) by { ServingIsReachable(Step(m, e)); }
  }

  lemma ServingIsReachable(m: Manager)
    requires Serving(m)
    ensures Reachable(m)
  {
  }

  /** The request that opens a borrow for the pool. */
  function RequestOf(owner: Owner, runtime: bool): BorrowRequest {
    if runtime then ForRuntime(owner.principal, false) else ForControl(owner.lane, false)
  }

  function Connected(l: Lifetime, runtime: bool): Lifetime {
    if runtime then l.(runtime := true, connected := true) else l.(control := true, connected := true)
  }

  function ConnectEvents(owner: Owner, o: OwnerId, runtime: bool): seq<Event> {
    [EvResume(o), EvBorrow(o, RequestOf(owner, runtime)), EvConnect(o, runtime, true)]
  }

  lemma BorrowConnects(m: Manager, o: OwnerId, runtime: bool)
    requires Shape(m) && HasSharedLanes(m) && o < |m.phase| == |m.life| == |m.owners| && m.phase[o] == Entered
    requires if runtime then IsRuntimeLane(m.owners[o].lane) else IsControlLane(m.owners[o].lane)
    requires !m.life[o].released && !m.life[o].connected
    ensures Step(Step(m, EvBorrow(o, RequestOf(m.owners[o], runtime))), EvConnect(o, runtime, true))
         == m.(life := m.life[o := Connected(m.life[o], runtime)])
  {
    hide Shape;
    var l := if runtime then m.life[o].(runtime := true) else m.life[o].(control := true);
    assert m.life[o := m.life[o]] == m.life;
    assert Step(m, EvBorrow(o, RequestOf(m.owners[o], runtime))) == m.(life := m.life[o := l]);
    assert m.life[o := l][o := Connected(l, runtime)] == m.life[o := Connected(m.life[o], runtime)];
  }

  /** An owner that occupies a slot of the pool and has no connection can get one. */
  lemma Connects(m: Manager, o: OwnerId, runtime: bool)
    requires Full(m, runtime) && Shape(m) && HasSharedLanes(m)
    requires o < |m.owners| && m.owners[o].lane in LanesOfPool(runtime) && m.owners[o].lane in m.lanes
    requires o in m.active[m.owners[o].lane] && o < |m.life| && !Uses(m.life[o], runtime)
    ensures var after := Run(m, ConnectEvents(m.owners[o], o, runtime));
            && Full(after, runtime)
            && |after.life| == |m.life| && !after.life[o].released && Uses(after.life[o], runtime)
            && forall p :: 0 <= p < |m.life| && p != o ==> after.life[p] == m.life[p]
  {
    hide Full, Inv, OwnershipOk, Step, Run, Shape, Uses, Serving, LimitTotal;
    FullKnown(m, runtime);
    FullIsOpen(m, runtime);
    HolderHasNoConnection(m, o, runtime);
    var owner := m.owners[o];
    var one := Step(m, EvResume(o));
    ResumedIsInside(m, o);
    StepFull(m, EvResume(o), runtime);
    FullKnown(one, runtime);
    BorrowConnects(one, o, runtime);
    var two := Step(one, EvBorrow(o, RequestOf(owner, runtime)));
    var three := Step(two, EvConnect(o, runtime, true));
    BorrowStaysOpen(one, o, owner, runtime);
    StepFull(one, EvBorrow(o, RequestOf(owner, runtime)), runtime);
    FullKnown(two, runtime);
    StepFull(two, EvConnect(o, runtime, true), runtime);
    ThreeSteps(m, EvResume(o), EvBorrow(o, RequestOf(owner, runtime)), EvConnect(o, runtime, true));
    ConnectedUses(m.life[o], runtime);
  }

  lemma ConnectedUses(l: Lifetime, runtime: bool)
    ensures Uses(Connected(l, runtime), runtime) && Connected(l, runtime).released == l.released
  {
  }

  lemma BorrowStaysOpen(m: Manager, o: OwnerId, owner: Owner, runtime: bool)
    requires Shape(m) && HasSharedLanes(m)
    ensures Step(m, EvBorrow(o, RequestOf(owner, runtime))).closed == m.closed
  {
    hide StepLife;
  }

  lemma ThreeSteps(m: Manager, a: Event, b: Event, c: Event)
    requires Shape(m) && HasSharedLanes(m)
    ensures Run(m, [a, b, c]) == Step(Step(Step(m, a), b), c)
  {
    hide Step, Run, Shape;
    var two := [a] + [b];
    OneStep(m, a);
    RunSnoc(m, [a], b);
    RunSnoc(m, two, c);
    assert [a, b, c] == two + [c];
  }

  lemma ResumedIsInside(m: Manager, o: OwnerId)
    requires Shape(m) && HasSharedLanes(m) && o < |m.phase| && Occupies(m.phase[o])
    ensures var after := Step(m, EvResume(o));
            && after.phase == m.phase[o := Entered] && after.life == m.life && after.owners == m.owners
            && after.closed == m.closed
  {
  }

  lemma HolderHasNoConnection(m: Manager, o: OwnerId, runtime: bool)
    requires Shape(m) && Inv(m) && OwnershipOk(m) && o < |m.owners| && o < |m.life| == |m.phase|
    requires m.owners[o].lane in LanesOfPool(runtime) && m.owners[o].lane in m.lanes
    requires o in m.active[m.owners[o].lane] && !Uses(m.life[o], runtime)
    ensures Occupies(m.phase[o]) && !m.life[o].released && !m.life[o].connected
    ensures if runtime then IsRuntimeLane(m.owners[o].lane) else IsControlLane(m.owners[o].lane)
  {
    hide Inv, LeasesOk, ThreadsOk;
    OneLane(m, m.owners[o].lane);
    assert LifeOk(m.owners[o].lane, m.phase[o], m.life[o]);
    LaneOfPool(m.owners[o].lane, runtime);
  }

  lemma LaneOfPool(lane: LaneName, runtime: bool)
    requires lane in LanesOfPool(runtime)
    ensures if runtime then IsRuntimeLane(lane) else IsControlLane(lane)
  {
  }

  // -------- a new owner for a free slot --------

  /** An account that no owner has. */
  lemma {:induction false} FreshAccount(owners: seq<Owner>) returns (account: int)
    ensures forall o, a :: 0 <= o < |owners| && a >= account ==> Key(owners[o]) != Some(a)
  {
    if owners == [] {
      account := 0;
    } else {
      var last := owners[|owners| - 1];
      account := FreshAccount(owners[..|owners| - 1]);
      if Key(last).Some? && Key(last).value >= account {
        account := Key(last).value + 1;
      }
    }
  }

  function Newcomer(lane: LaneName, account: int): Owner {
    Owner(lane, if NeedsPrincipal(lane) then Some(Principal(account, true, 1)) else None)
  }

  lemma FreshIsFree(m: Manager, lane: LaneName, account: int)
    requires Shape(m) && forall o :: 0 <= o < |m.owners| ==> Key(m.owners[o]) != Some(account)
    ensures !HeldUnexpired(m, lane, account)
  {
  }

  /** A free slot is given to a newcomer at once. */
  lemma Joins(m: Manager, lane: LaneName, account: int)
    requires Shape(m) && HasSharedLanes(m) && Inv(m) && !m.closed && lane in m.lanes && |m.life| == |m.owners|
    requires |m.active[lane]| < m.lanes[lane].limit
    requires forall o :: 0 <= o < |m.owners| ==> Key(m.owners[o]) != Some(account)
    ensures var after := Step(m, EvAcquire(Newcomer(lane, account), None));
            && after.owners == m.owners + [Newcomer(lane, account)] && after.life == m.life + [NEW_LIFETIME]
            && !after.closed && |m.owners| in after.active[lane]
  {
    hide Inv, PromoteForAcquire, HeldUnexpired, Acquire;
    var owner := Newcomer(lane, account);
    FreshIsFree(m, lane, account);
    AcquireOutcome(m, owner, None);
    AdmittedAtOnce(m, owner);
    PreparedLife(m, lane);
    AcquireLooksAtLiveTickets(m, lane);
  }

  lemma AdmittedAtOnce(m: Manager, owner: Owner)
    requires Shape(m) && HasSharedLanes(m) && owner.lane in m.lanes
    ensures Acquire(m, owner, None).1.Admitted? ==> Acquire(m, owner, None).0 == Admit(PromoteForAcquire(m, owner.lane), owner)
  {
    hide PromoteForAcquire, AccountIsTaken, Admit, Enqueue;
  }

  // -------- one more connection --------

  lemma {:induction false} FreeLane(m: Manager, names: seq<LaneName>) returns (lane: LaneName)
    requires Shape(m) && Inv(m) && forall l :: l in names ==> l in m.lanes
    requires forall i, j :: 0 <= i < j < |names| ==> names[i] != names[j]
    requires |ActiveIn(m, names)| < LimitTotal(m.lanes, names)
    ensures lane in names && |m.active[lane]| < m.lanes[lane].limit
  {
    hide Inv;
    lane := names[0];
    if |m.active[lane]| >= m.lanes[lane].limit {
      var rest := names[1..];
      ActiveApart(m, lane, rest);
      lane := FreeLane(m, rest);
    }
  }

  lemma {:induction false} ActiveApart(m: Manager, lane: LaneName, names: seq<LaneName>)
    requires Shape(m) && Inv(m) && lane in m.lanes && lane !in names && forall l :: l in names ==> l in m.lanes
    ensures m.active[lane] !! ActiveIn(m, names)
  {
    hide Inv;
    if names != [] {
      LanesApart(m, lane, names[0]);
      ActiveApart(m, lane, names[1..]);
    }
  }

  lemma LanesApart(m: Manager, l: LaneName, k: LaneName)
    requires Shape(m) && Inv(m) && l in m.lanes && k in m.lanes && l != k
    ensures m.active[l] !! m.active[k]
  {
    hide Inv, LaneOk;
    OneLane(m, l);
    OneLane(m, k);
  }

  lemma PoolLanesDiffer(runtime: bool)
    ensures var names := LanesOfPool(runtime); forall i, j :: 0 <= i < j < |names| ==> names[i] != names[j]
  {
    var r, c := RUNTIME_LANES, CONTROL_LANES;
    assert r[0] == Ingest && r[1] == Routine && r[2] == Navigation && r[3] == Foreground && r[4] == Background;
    assert c[0] == IngestIdentity && c[1] == Identity && c[2] == Lifecycle && c[3] == Mail;
  }

  /** If all owners with a slot are connected and the pool is not used up, a slot of some lane is free. */
  lemma SlotIsFree(m: Manager, runtime: bool) returns (lane: LaneName)
    requires Full(m, runtime) && Shape(m) && HasLanes(m, runtime) && |LiveGrants(m, runtime)| < PoolSize(runtime)
    requires forall o :: o in ActiveIn(m, LanesOfPool(runtime)) ==> o < |m.life| && Uses(m.life[o], runtime)
    ensures lane in LanesOfPool(runtime) && lane in m.lanes && |m.active[lane]| < m.lanes[lane].limit
  {
    hide Inv, OwnershipOk, Serving, Full, LimitTotal, ActiveIn;
    FullKnown(m, runtime);
    var names := LanesOfPool(runtime);
    PoolLanesDiffer(runtime);
    forall o | o in ActiveIn(m, names)
      ensures o in LiveGrants(m, runtime)
    {
      ActiveIsLive(m, names, o);
    }
    SubsetIsSmaller(ActiveIn(m, names), LiveGrants(m, runtime));
    lane := FreeLane(m, names);
  }

  lemma {:induction false} ActiveIsLive(m: Manager, names: seq<LaneName>, o: OwnerId)
    requires Shape(m) && Inv(m) && OwnershipOk(m) && (forall l :: l in names ==> l in m.lanes) && o in ActiveIn(m, names)
    ensures o < |m.owners| && o < |m.life| && m.owners[o].lane in names && o in m.active[m.owners[o].lane]
    ensures !m.life[o].released
  {
    hide Inv, LeasesOk, ThreadsOk;
    if o in m.active[names[0]] {
      OneLane(m, names[0]);
      assert LifeOk(m.owners[o].lane, m.phase[o], m.life[o]);
    } else {
      ActiveIsLive(m, names[1..], o);
    }
  }

  /** One more live request, and nothing else changed in the counts. */
  ghost predicate OneMore(m: Manager, after: Manager, runtime: bool) {
    && |LiveGrants(after, runtime)| == |LiveGrants(m, runtime)| + 1
    && LeftGrants(m, runtime) <= LeftGrants(after, runtime)
  }

  lemma ConnectedCount(m: Manager, after: Manager, o: OwnerId, runtime: bool)
    requires o < |m.life| == |after.life| && !Uses(m.life[o], runtime)
    requires !after.life[o].released && Uses(after.life[o], runtime)
    requires forall p :: 0 <= p < |m.life| && p != o ==> after.life[p] == m.life[p]
    ensures OneMore(m, after, runtime)
  {
    hide Uses;
    assert LiveGrants(after, runtime) == LiveGrants(m, runtime) + {o};
  }

  lemma JoinedCount(m: Manager, after: Manager, runtime: bool)
    requires after.life == m.life + [NEW_LIFETIME]
    ensures LiveGrants(after, runtime) == LiveGrants(m, runtime) && LeftGrants(after, runtime) == LeftGrants(m, runtime)
  {
  }

  lemma OneMoreConnects(m: Manager, runtime: bool) returns (events: seq<Event>)
    requires Full(m, runtime) && Shape(m) && HasSharedLanes(m) && |LiveGrants(m, runtime)| < PoolSize(runtime)
    ensures Stays(events) && Full(Run(m, events), runtime) && OneMore(m, Run(m, events), runtime)
  {
    hide Full, Inv, OwnershipOk, Step, Run, Shape, Uses, OneMore, LiveGrants, LeftGrants, ActiveIn, Serving, LimitTotal;
    FullKnown(m, runtime);
    var names := LanesOfPool(runtime);
    if o :| o in ActiveIn(m, names) && !(o < |m.life| && Uses(m.life[o], runtime)) {
      ActiveIsLive(m, names, o);
      events := ConnectEvents(m.owners[o], o, runtime);
      Connects(m, o, runtime);
      ConnectedCount(m, Run(m, events), o, runtime);
    } else {
      var lane := SlotIsFree(m, runtime);
      events := NewcomerConnects(m, lane, runtime);
    }
  }

  lemma NewcomerConnects(m: Manager, lane: LaneName, runtime: bool) returns (events: seq<Event>)
    requires Full(m, runtime) && Shape(m) && HasSharedLanes(m)
    requires lane in LanesOfPool(runtime) && lane in m.lanes && |m.active[lane]| < m.lanes[lane].limit
    ensures Stays(events) && Full(Run(m, events), runtime) && OneMore(m, Run(m, events), runtime)
  {
    hide Full, Inv, OwnershipOk, Step, Run, Shape, Uses, OneMore, LiveGrants, LeftGrants, Serving, LimitTotal;
    FullKnown(m, runtime);
    assert !m.closed by { FullIsOpen(m, runtime); }
    var account := FreshAccount(m.owners);
    var e, o := EvAcquire(Newcomer(lane, account), None), |m.owners|;
    Joins(m, lane, account);
    var one := Step(m, e);
    StepFull(m, e, runtime);
    FullKnown(one, runtime);
    JoinedCount(m, one, runtime);
    NewIsUnused(runtime);
    Connects(one, o, runtime);
    var rest := ConnectEvents(Newcomer(lane, account), o, runtime);
    ConnectedCount(one, Run(one, rest), o, runtime);
    events := [e] + rest;
    OneStep(m, e);
    RunOn(m, [e], rest);
    SameCounts(m, one, Run(one, rest), runtime);
  }

  lemma SameCounts(m: Manager, one: Manager, after: Manager, runtime: bool)
    requires LiveGrants(one, runtime) == LiveGrants(m, runtime) && LeftGrants(one, runtime) == LeftGrants(m, runtime)
    requires OneMore(one, after, runtime)
    ensures OneMore(m, after, runtime)
  {
  }

  lemma FullIsOpen(m: Manager, runtime: bool)
    requires Full(m, runtime)
    ensures !m.closed
  {
  }

  lemma NewIsUnused(runtime: bool)
    ensures !Uses(NEW_LIFETIME, runtime)
  {
  }

  lemma OneStep(m: Manager, e: Event)
    requires Shape(m) && HasSharedLanes(m)
    ensures Run(m, [e]) == Step(m, e)
  {
    hide Step, Run;
    RunNone(m);
    RunSnoc(m, [], e);
    assert [] + [e] == [e];
  }

  /** All slots of the pool can be filled with connected owners, without anything ending. */
  lemma {:induction false} PoolFills(m: Manager, n: nat, runtime: bool) returns (events: seq<Event>)
    requires Full(m, runtime) && Shape(m) && HasSharedLanes(m) && |LiveGrants(m, runtime)| + n == PoolSize(runtime)
    ensures Stays(events) && |LiveGrants(Run(m, events), runtime)| == PoolSize(runtime)
    ensures LeftGrants(m, runtime) <= LeftGrants(Run(m, events), runtime)
    ensures Serving(Run(m, events))
    decreases n
  {
    hide Full, Run, Shape, LiveGrants, LeftGrants, Serving;
    if n == 0 {
      events := [];
      RunNone(m);
      FullKnown(m, runtime);
    } else {
      var first := OneMoreConnects(m, runtime);
      FullKnown(Run(m, first), runtime);
      MoreIsOne(m, Run(m, first), runtime);
      var rest := PoolFills(Run(m, first), n - 1, runtime);
      RunOn(m, first, rest);
      events := first + rest;
    }
  }

  lemma MoreIsOne(m: Manager, after: Manager, runtime: bool)
    requires OneMore(m, after, runtime)
    ensures |LiveGrants(after, runtime)| == |LiveGrants(m, runtime)| + 1
    ensures LeftGrants(m, runtime) <= LeftGrants(after, runtime)
  {
  }

  /** A pool that is configured to the last slot can be asked for more than it has by operations that all end without
      a connection, if and only if some operation has already ended with one. */
  lemma ShortageNeedsWorkLeftBehind(m: Manager, runtime: bool)
    requires Full(m, runtime)
    ensures Shape(m) && HasSharedLanes(m)
    ensures LeftGrants(m, runtime) != {} <==>
              (exists events :: NestedRun(m, events) && |Grants(Run(m, events), runtime)| > PoolSize(runtime))
  {
    hide Full, Run, Inv, OwnershipOk, Shape, LiveGrants, LeftGrants, Grants, Serving, NoneLeftOf, NestedRun;
    FullKnown(m, runtime);
    LiveGrantsFit(m, runtime);
    if LeftGrants(m, runtime) != {} {
      var events := PoolFills(m, PoolSize(runtime) - |LiveGrants(m, runtime)|, runtime);
      StaysIsNested(m, events);
      GrantsExceedExactlyByThoseLeft(Run(m, events), runtime);
      SubsetIsSmaller(LeftGrants(m, runtime), LeftGrants(Run(m, events), runtime));
      assert NestedRun(m, events) && |Grants(Run(m, events), runtime)| > PoolSize(runtime);
    } else {
      LeftBehind(m, runtime);
      forall events | NestedRun(m, events)
        ensures |Grants(Run(m, events), runtime)| <= PoolSize(runtime)
      {
        NestedLeavesNone(m, events, runtime);
        LeftBehind(Run(m, events), runtime);
        GrantsExceedExactlyByThoseLeft(Run(m, events), runtime);
      }
    }
  }
}
