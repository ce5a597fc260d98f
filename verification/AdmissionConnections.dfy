/** How many database connections admitted owners can be granted at once. */
module AdmissionConnections {
  import opened Common
  import opened Admission
  import opened AdmissionInvariant
  import opened AdmissionTheorems
  import opened AdmissionOwnership
  import opened CapacityConfig

  // -------- counting owners by lane --------

  ghost function ActiveIn(m: Manager, names: seq<LaneName>): set<OwnerId>
    requires Shape(m) && forall l :: l in names ==> l in m.lanes
  {
    if names == [] then {} else m.active[names[0]] + ActiveIn(m, names[1..])
  }

  lemma {:induction false} ActiveWithinLimits(m: Manager, names: seq<LaneName>)
    requires Shape(m) && Inv(m) && forall l :: l in names ==> l in m.lanes
    ensures |ActiveIn(m, names)| <= LimitTotal(m.lanes, names)
  {
    hide Inv;
    if names != [] {
      LaneBounds(m, names[0]);
      ActiveWithinLimits(m, names[1..]);
    }
  }

  lemma {:induction false} ActiveInHas(m: Manager, names: seq<LaneName>, l: LaneName)
    requires Shape(m) && (forall n :: n in names ==> n in m.lanes) && l in names
    ensures m.active[l] <= ActiveIn(m, names)
  {
    if names[0] != l {
      ActiveInHas(m, names[1..], l);
    }
  }

  // -------- connections --------

  predicate Uses(l: Lifetime, runtime: bool) {
    l.connected && if runtime then l.runtime else l.control
  }

  /** Owners whose request for a connection of the runtime pool, or of the control pool, was granted. The flag
      is set before the pool is asked, so beyond the size of the pool a granted request waits there. */
  function Grants(m: Manager, runtime: bool): set<OwnerId> {
    set o | 0 <= o < |m.life| && Uses(m.life[o], runtime)
  }

  /** Those whose operation is not over. */
  function LiveGrants(m: Manager, runtime: bool): set<OwnerId> {
    set o | 0 <= o < |m.life| && Uses(m.life[o], runtime) && !m.life[o].released
  }

  function LanesOfPool(runtime: bool): seq<LaneName> {
    if runtime then RUNTIME_LANES else CONTROL_LANES
  }

  function PoolSize(runtime: bool): nat {
    if runtime then RUNTIME_POOL_MAX_SIZE else CONTROL_POOL_MAX_SIZE
  }

  /** Reachable under some accepted configuration. */
  ghost predicate Serving(m: Manager) {
    Reachable(m) && exists c :: Accepts(c) && m.lanes == Lanes(c)
  }

  lemma ServingEnvelope(m: Manager, runtime: bool)
    requires Serving(m)
    ensures Shape(m) && Inv(m) && OwnershipOk(m)
    ensures forall l :: l in LanesOfPool(runtime) ==> l in m.lanes
    ensures LimitTotal(m.lanes, LanesOfPool(runtime)) <= PoolSize(runtime)
  {
    hide Reachable, Accepts, Inv, OwnershipOk, Lanes;
    ReachableOwnership(m);
    var c :| Accepts(c) && m.lanes == Lanes(c);
    AcceptedEnvelope(c);
  }

  lemma PoolLane(lane: LaneName, runtime: bool)
    requires if runtime then IsRuntimeLane(lane) else IsControlLane(lane)
    ensures lane in LanesOfPool(runtime)
  {
    var r, c := RUNTIME_LANES, CONTROL_LANES;
    assert r[0] == Ingest && r[1] == Routine && r[2] == Navigation && r[3] == Foreground && r[4] == Background;
    assert c[0] == IngestIdentity && c[1] == Identity && c[2] == Lifecycle && c[3] == Mail;
  }

  lemma UsersAreActive(m: Manager, o: OwnerId, runtime: bool)
    requires Shape(m) && Inv(m) && OwnershipOk(m) && o < |m.life|
    requires Uses(m.life[o], runtime) && !m.life[o].released
    ensures m.owners[o].lane in LanesOfPool(runtime) && o in m.active[m.owners[o].lane]
  {
    hide Inv, LeasesOk, ThreadsOk;
    assert LifeOk(m.owners[o].lane, m.phase[o], m.life[o]);
    UserIsEntered(m.owners[o].lane, m.phase[o], m.life[o]);
    PoolLane(m.owners[o].lane, runtime);
    OneLane(m, m.owners[o].lane);
  }

  lemma UserIsEntered(lane: LaneName, p: Phase, l: Lifetime)
    requires LifeOk(lane, p, l) && l.connected && !l.released
    ensures p == Entered
  {
  }

  /** Those that a child task kept when the operation was over. */
  function LeftGrants(m: Manager, runtime: bool): set<OwnerId> {
    set o | 0 <= o < |m.life| && Uses(m.life[o], runtime) && m.life[o].released
  }

  /** In every run whatever: the granted requests of operations that are not over fit their pool. */
  lemma LiveGrantsFit(m: Manager, runtime: bool)
    requires Serving(m)
    ensures |LiveGrants(m, runtime)| <= PoolSize(runtime)
  {
    hide Serving, Inv, OwnershipOk;
    ServingEnvelope(m, runtime);
    var names := LanesOfPool(runtime);
    forall o | o in LiveGrants(m, runtime)
      ensures o in ActiveIn(m, names)
    {
      UsersAreActive(m, o, runtime);
      ActiveInHas(m, names, m.owners[o].lane);
    }
    SubsetIsSmaller(LiveGrants(m, runtime), ActiveIn(m, names));
    ActiveWithinLimits(m, names);
  }

  /** So a pool is asked for more than it has exactly when the requests left behind by operations that are over
      are more than its size leaves beside those of the others, and never without any left behind. */
  lemma GrantsExceedExactlyByThoseLeft(m: Manager, runtime: bool)
    requires Serving(m)
    ensures |Grants(m, runtime)| == |LiveGrants(m, runtime)| + |LeftGrants(m, runtime)|
    ensures |Grants(m, runtime)| > PoolSize(runtime)
            <==> |LeftGrants(m, runtime)| > PoolSize(runtime) - |LiveGrants(m, runtime)|
    ensures |Grants(m, runtime)| > PoolSize(runtime) ==> LeftGrants(m, runtime) != {}
  {
    hide Serving;
    LiveGrantsFit(m, runtime);
    assert Grants(m, runtime) == LiveGrants(m, runtime) + LeftGrants(m, runtime);
    assert LiveGrants(m, runtime) !! LeftGrants(m, runtime);
  }

  // -------- connections inside their operation --------

  /** No operation ends in this step while its owner has a connection. */
  ghost predicate NestedStep(m: Manager, e: Event)
    requires Shape(m)
  {
    e.EvLeave? && e.o < |m.life| && m.phase[e.o] == Entered && m.life[e.o].threads == {} ==> !m.life[e.o].connected
  }

  ghost predicate NestedRun(m: Manager, events: seq<Event>)
    requires Shape(m) && HasSharedLanes(m)
  {
    events == [] ||
    (NestedRun(m, events[..|events| - 1]) && NestedStep(Run(m, events[..|events| - 1]), events[|events| - 1]))
  }

  /** No connection belongs to an operation that is over. */
  ghost predicate NoneLeft(m: Manager) {
    forall o :: 0 <= o < |m.life| && m.life[o].released ==> !m.life[o].connected
  }

  /** At no moment of the run. */
  ghost predicate NeverLeft(m: Manager, events: seq<Event>)
    requires Shape(m) && HasSharedLanes(m)
  {
    NoneLeft(Run(m, events)) && (events == [] || NeverLeft(m, events[..|events| - 1]))
  }

  lemma AdmissionLeavesNothing(m: Manager, e: Event)
    requires Shape(m) && HasSharedLanes(m) && Inv(m) && NoneLeft(m)
    requires e.EvAcquire? || e.EvFail? || e.EvShutdown?
    ensures NoneLeft(Step(m, e))
  {
    hide Inv, Acquire, Vacate;
    match e
    case EvAcquire(owner, parentLane) => AcquireKeepsHoldings(m, owner, parentLane);
    case EvFail(o) => if o < |m.phase| { VacateKeepsLife(m, o); }
    case EvShutdown => ShutdownKeepsLife(m);
  }

  lemma ShutdownKeepsLife(m: Manager)
    requires Shape(m)
    ensures Shutdown(m).life == m.life
  {
    hide AllEmpty;
  }

  lemma LeaveLeavesExactly(m: Manager, o: OwnerId)
    requires Shape(m) && HasSharedLanes(m) && NoneLeft(m) && o < |m.phase|
    ensures NoneLeft(Leave(m, o)) <==> NestedStep(m, EvLeave(o))
  {
    hide Vacate;
    var released := m.(life := m.life[o := m.life[o].(released := true)]);
    VacateKeepsLife(released, o);
    assert released.life[o].connected == m.life[o].connected;
  }

  lemma SameLivesLeaveNothing(m: Manager, after: Manager)
    requires NoneLeft(m) && after.life == m.life
    ensures NoneLeft(after)
  {
  }

  lemma UseLeavesNothing(m: Manager, e: Event)
    requires Shape(m) && |m.owners| == |m.phase| == |m.life| && NoneLeft(m)
    ensures NoneLeft(StepLife(m, e))
  {
    hide Shape;
  }

  lemma StepLeavesExactly(m: Manager, e: Event)
    requires Shape(m) && HasSharedLanes(m) && Inv(m) && |m.owners| == |m.phase| == |m.life| && NoneLeft(m)
    ensures NoneLeft(Step(m, e)) <==> NestedStep(m, e)
  {
    hide Inv, Shape, StepLife, NoneLeft, Leave, Fail, Acquire, Shutdown;
    if e.EvLeave? {
      if e.o < |m.phase| {
        LeaveLeavesExactly(m, e.o);
      }
    } else if e.EvAcquire? || e.EvFail? || e.EvShutdown? {
      AdmissionLeavesNothing(m, e);
    } else if e.EvResume? || e.EvTick? {
      SameLivesLeaveNothing(m, Step(m, e));
    } else {
      UseLeavesNothing(m, e);
    }
  }

  /** Connections stay inside their operations throughout a run if and only if no operation ends while
      its owner has one. */
  lemma {:induction false} NeverLeftExactlyWhenNested(m: Manager, events: seq<Event>)
    requires Shape(m) && HasSharedLanes(m) && Inv(m) && NoneLeft(m)
    ensures NeverLeft(m, events) <==> NestedRun(m, events)
  {
    hide Inv, NoneLeft, NestedStep, Step;
    if events != [] {
      var front, e := events[..|events| - 1], events[|events| - 1];
      NeverLeftExactlyWhenNested(m, front);
      RunKeepsInv(m, front);
      NeverLeftNow(m, front);
      if NeverLeft(m, front) {
        StepLeavesExactly(Run(m, front), e);
      }
    }
  }

  lemma NeverLeftNow(m: Manager, events: seq<Event>)
    requires Shape(m) && HasSharedLanes(m)
    ensures NeverLeft(m, events) ==> NoneLeft(Run(m, events))
  {
  }

  /** Then the granted requests never exceed either pool. */
  lemma NestedGrantsFit(c: Config, events: seq<Event>, runtime: bool)
    requires Accepts(c) && SpecsOk(Lanes(c)) && NestedRun(Initial(Lanes(c)), events)
    ensures |Grants(Run(Initial(Lanes(c)), events), runtime)| <= PoolSize(runtime)
  {
    hide Accepts, Inv, Run, Initial, Lanes, Step;
    var start := Initial(Lanes(c));
    InitialInv(Lanes(c));
    StartsWithNothing(Lanes(c));
    NeverLeftExactlyWhenNested(start, events);
    var m := Run(start, events);
    NeverLeftNow(start, events);
    assert Grants(m, runtime) == LiveGrants(m, runtime);
    assert Reachable(m);
    LiveGrantsFit(m, runtime);
  }

  lemma StartsWithNothing(lanes: map<LaneName, LaneSpec>)
    ensures NoneLeft(Initial(lanes))
  {
  }

  // -------- borrows that outlive their operation --------

  const BACKGROUND_OWNER := Owner(Background, Some(Principal(1, true, 1)))
  const BACKGROUND_REQUEST := ForRuntime(BACKGROUND_OWNER.principal, false)

  /** A background operation whose child task keeps a connection when the operation ends. */
  function LeakRound(m: Manager): (after: Manager)
    requires Shape(m) && HasSharedLanes(m)
    ensures Shape(after) && HasSharedLanes(after)
  {
    var o := |m.owners|;
    var borrowed := Step(Step(m, EvAcquire(BACKGROUND_OWNER, None)), EvBorrow(o, BACKGROUND_REQUEST));
    Step(Step(borrowed, EvConnect(o, true, true)), EvLeave(o))
  }

  /** n owners are gone and still connected, and the background lane is free. */
  ghost predicate Leaked(m: Manager, n: nat) {
    && Shape(m) && HasSharedLanes(m) && !m.closed && Background in m.lanes && m.lanes[Background].limit >= 1
    && m.active[Background] == {} && m.pending[Background] == []
    && |m.owners| == n
    && forall o :: 0 <= o < n ==> Uses(m.life[o], true)
  }

  lemma FreeLanePromotesNobody(m: Manager, lane: LaneName)
    requires Shape(m) && lane in m.lanes && m.active[lane] == {} && m.pending[lane] == []
    ensures Promote(m, lane) == m
  {
    var s := LaneOf(m, lane);
    assert PromoteLane(m.lanes[lane].limit, s, m.now, m.closed) == s;
    assert m.active[lane := {}] == m.active && m.pending[lane := []] == m.pending;
  }

  lemma BackgroundAdmits(m: Manager, n: nat)
    requires Leaked(m, n)
    ensures Step(m, EvAcquire(BACKGROUND_OWNER, None)) == Admit(m, BACKGROUND_OWNER)
  {
    hide Promote, Admit, Enqueue, AccountIsTaken;
    FreeLanePromotesNobody(m, Background);
    FreeLaneHasNoAccount(m, 1);
  }

  lemma FreeLaneHasNoAccount(m: Manager, account: int)
    requires Shape(m) && Background in m.lanes && m.active[Background] == {} && m.pending[Background] == []
    ensures !AccountIsTaken(m, Background, account)
  {
  }

  /** The newcomer borrows and connects. */
  lemma LeakedOnce(m: Manager, n: nat)
    requires Leaked(m, n)
    ensures var a := Admit(m, BACKGROUND_OWNER);
            Step(Step(a, EvBorrow(n, BACKGROUND_REQUEST)), EvConnect(n, true, true))
            == a.(life := m.life + [NEW_LIFETIME.(runtime := true, connected := true)])
  {
    var a := Admit(m, BACKGROUND_OWNER);
    NewcomerBorrows(a, m.life, n);
  }

  lemma NewcomerBorrows(a: Manager, others: seq<Lifetime>, n: nat)
    requires Shape(a) && HasSharedLanes(a) && |a.owners| == |a.phase| == |a.life|
    requires a.life == others + [NEW_LIFETIME] && n == |others| && a.phase[n] == Entered
    requires a.owners[n] == BACKGROUND_OWNER
    ensures Step(Step(a, EvBorrow(n, BACKGROUND_REQUEST)), EvConnect(n, true, true))
         == a.(life := others + [NEW_LIFETIME.(runtime := true, connected := true)])
  {
    hide Shape;
    var b := Step(a, EvBorrow(n, BACKGROUND_REQUEST));
    assert b.life == others + [NEW_LIFETIME.(runtime := true)];
  }

  lemma LeakLeaves(m: Manager, n: nat, a: Manager)
    requires Leaked(m, n) && Shape(a)
    requires a == Admit(m, BACKGROUND_OWNER).(life := m.life + [NEW_LIFETIME.(runtime := true, connected := true)])
    ensures var after := Step(a, EvLeave(n));
            && after.lanes == m.lanes && !after.closed && after.owners == m.owners + [BACKGROUND_OWNER]
            && after.active[Background] == {} && after.pending[Background] == []
            && after.life == m.life + [NEW_LIFETIME.(runtime := true, connected := true, released := true)]
  {
    hide Vacate;
    var r := a.(life := a.life[n := a.life[n].(released := true)]);
    assert r.life == m.life + [NEW_LIFETIME.(runtime := true, connected := true, released := true)];
    OnlyOwnerLeaves(r, n);
  }

  lemma OnlyOwnerLeaves(r: Manager, n: nat)
    requires Shape(r) && n < |r.owners| && r.owners[n].lane == Background && Background in r.lanes
    requires r.active[Background] == {n} && r.pending[Background] == []
    ensures var after := Vacate(r, n);
            && after.lanes == r.lanes && after.closed == r.closed && after.owners == r.owners && after.life == r.life
            && after.active[Background] == {} && after.pending[Background] == []
  {
    hide Promote, AllEmpty;
    FreeLanePromotesNobody(WithLane(r, Background, Depart(LaneOf(r, Background), n)), Background);
  }

  lemma LeakRoundLeaksOneMore(m: Manager, n: nat)
    requires Leaked(m, n)
    ensures Leaked(LeakRound(m), n + 1)
  {
    hide Step, Admit;
    BackgroundAdmits(m, n);
    LeakedOnce(m, n);
    var a := Admit(m, BACKGROUND_OWNER).(life := m.life + [NEW_LIFETIME.(runtime := true, connected := true)]);
    LeakLeaves(m, n, a);
  }

  function LeakEvents(o: OwnerId): seq<Event> {
    [EvAcquire(BACKGROUND_OWNER, None), EvBorrow(o, BACKGROUND_REQUEST), EvConnect(o, true, true), EvLeave(o)]
  }

  lemma RunLeakRound(m: Manager, events: seq<Event>, n: nat)
    requires Shape(m) && HasSharedLanes(m) && n == |Run(m, events).owners|
    ensures Run(m, events + LeakEvents(n)) == LeakRound(Run(m, events))
  {
    hide Step, Run;
    var one := events + [EvAcquire(BACKGROUND_OWNER, None)];
    var two := one + [EvBorrow(n, BACKGROUND_REQUEST)];
    var three := two + [EvConnect(n, true, true)];
    RunSnoc(m, events, EvAcquire(BACKGROUND_OWNER, None));
    RunSnoc(m, one, EvBorrow(n, BACKGROUND_REQUEST));
    RunSnoc(m, two, EvConnect(n, true, true));
    RunSnoc(m, three, EvLeave(n));
    assert events + LeakEvents(n) == three + [EvLeave(n)];
  }

  lemma {:induction false} LeakRun(m: Manager, n: nat) returns (events: seq<Event>)
    requires Shape(m) && HasSharedLanes(m) && Leaked(m, 0)
    ensures Leaked(Run(m, events), n)
  {
    hide Run, Leaked, LeakRound, Shape;
    if n == 0 {
      events := [];
      RunNone(m);
    } else {
      var front := LeakRun(m, n - 1);
      LeakedCount(Run(m, front), n - 1);
      RunLeakRound(m, front, n - 1);
      LeakRoundLeaksOneMore(Run(m, front), n - 1);
      events := front + LeakEvents(n - 1);
    }
  }

  lemma LeakedCount(m: Manager, n: nat)
    requires Leaked(m, n)
    ensures |m.owners| == n
  {
  }

  lemma {:induction false} AllBelow(n: nat, s: set<OwnerId>)
    requires forall o :: 0 <= o < n ==> o in s
    ensures n <= |s|
  {
    if n > 0 {
      AllBelow(n - 1, s - {n - 1});
    }
  }

  /** Without nesting there is no bound on granted requests: the code relies on borrows ending inside their
      operations, and the rest would wait for the pool. */
  lemma UnnestedGrantsAreUnbounded(c: Config, n: nat)
    requires Accepts(c) && SpecsOk(Lanes(c))
    ensures exists events :: |Grants(Run(Initial(Lanes(c)), events), true)| >= n
  {
    hide Accepts, Run;
    AcceptedEnvelope(c);
    assert Background in RUNTIME_LANES by {
      var r := RUNTIME_LANES;
      assert r[4] == Background;
    }
    var events := LeakRun(Initial(Lanes(c)), n);
    AllBelow(n, Grants(Run(Initial(Lanes(c)), events), true));
  }
}
