/** How long a waiter waits: from its arrival, for the time that its lane allows. */
module AdmissionWaiting {
  import opened Common
  import opened Admission
  import opened AdmissionInvariant
  import opened AdmissionTheorems
  import opened AdmissionOwnership

  // -------- a ticket under promotion --------

  /** The owner stands in the queue of its lane until that time. */
  ghost predicate Stands(m: Manager, lane: LaneName, o: OwnerId, until: real)
    requires Shape(m)
  {
    lane in m.lanes && o < |m.owners| && m.owners[o].lane == lane && m.phase[o] == Queued && Ticket(o, until) in m.pending[lane]
  }

  predicate SameClock(m: Manager, after: Manager) {
    after.lanes == m.lanes && after.now == m.now && after.closed == m.closed && m.owners <= after.owners
  }

  /** A waiter still stands, is granted, or is refused because its time is over; whoever does not wait is left alone. */
  ghost predicate Handled(m: Manager, after: Manager, lane: LaneName, o: OwnerId, until: real)
    requires Shape(m) && Shape(after) && o < |m.owners|
  {
    && SameClock(m, after)
    && (m.phase[o] != Queued ==> after.phase[o] == m.phase[o])
    && (Stands(m, lane, o, until) ==>
          || Stands(after, lane, o, until)
          || after.phase[o] == Granted
          || (after.phase[o] == Refused && Dead(Ticket(o, until), m.now, m.closed)))
  }

  lemma HandledTwice(m: Manager, mid: Manager, after: Manager, lane: LaneName, o: OwnerId, until: real)
    requires Shape(m) && Shape(mid) && Shape(after) && o < |m.owners|
    requires Handled(m, mid, lane, o, until) && Handled(mid, after, lane, o, until)
    ensures Handled(m, after, lane, o, until)
  {
  }

  lemma HandledNot(m: Manager, lane: LaneName, o: OwnerId, until: real)
    requires Shape(m) && o < |m.owners|
    ensures Handled(m, m, lane, o, until)
  {
  }

  /** Where a ticket is after the promotion of its lane. */
  lemma TicketPromoted(s: LaneState, after: LaneState, k: nat, n: nat, o: OwnerId, until: real)
    requires k + n <= |s.queue| && |after.phase| == |s.phase| && PromotedAs(s, after, k, n)
    requires o < |s.phase| && s.phase[o] == Queued && Ticket(o, until) in s.queue && Sorted(s.queue)
    ensures exists i :: 0 <= i < |s.queue| && s.queue[i] == Ticket(o, until)
              && (i < k ==> after.phase[o] == Refused)
              && (k <= i < k + n ==> after.phase[o] == Granted)
              && (k + n <= i ==> after.phase[o] == Queued && Ticket(o, until) in after.queue)
  {
    var i :| 0 <= i < |s.queue| && s.queue[i] == Ticket(o, until);
    assert Between(s.queue, 0, k, o) <==> i < k;
    assert Between(s.queue, k, k + n, o) <==> k <= i < k + n;
    if k + n <= i {
      assert after.queue[i - k - n] == Ticket(o, until);
    }
  }

  lemma OwnLanePromoted(m: Manager, lane: LaneName, weak: Option<LaneName>, o: OwnerId, until: real)
    requires Shape(m) && Core(m, weak) && lane in m.lanes && Stands(m, lane, o, until)
    ensures var after := Promote(m, lane);
            || (Stands(after, lane, o, until) && !Dead(Ticket(o, until), m.now, m.closed))
            || (after.phase[o] == Granted && !Dead(Ticket(o, until), m.now, m.closed))
            || (after.phase[o] == Refused && Dead(Ticket(o, until), m.now, m.closed))
  {
    hide Agrees, ExclusiveOwners, PromoteLane;
    PromoteTakesTheOldest(m, lane, weak);
    assert LaneOk(m.lanes[lane], m.active[lane], m.pending[lane], m.now, m.closed, weak != Some(lane));
    var s, after := LaneOf(m, lane), LaneOf(Promote(m, lane), lane);
    ExpiredTicketsAreAPrefix(s.queue, m.now, m.closed);
    TicketPromoted(s, after, DeadIn(m, lane), FreedFor(m, lane), o, until);
  }

  lemma OtherLanePromoted(m: Manager, l: LaneName, weak: Option<LaneName>, lane: LaneName, o: OwnerId, until: real)
    requires Shape(m) && Core(m, weak) && l in m.lanes && o < |m.owners|
    requires m.phase[o] != Queued || m.owners[o].lane != l
    ensures Promote(m, l).phase[o] == m.phase[o]
    ensures lane in m.lanes && lane != l ==> Promote(m, l).pending[lane] == m.pending[lane]
  {
    hide LaneOk, ExclusiveOwners, PromoteLane;
    PromoteTakesTheOldest(m, l, weak);
    assert LaneAgrees(m.owners, l, LaneOf(m, l));
    NotBetween(m.pending[l], DeadIn(m, l), FreedFor(m, l), o);
  }

  lemma NotBetween(q: seq<Ticket>, k: nat, n: nat, o: OwnerId)
    requires k + n <= |q| && !IsQueued(q, o)
    ensures !Between(q, 0, k, o) && !Between(q, k, k + n, o)
  {
    assert Between(q, 0, k, o) || Between(q, k, k + n, o) ==> Between(q, 0, |q|, o);
  }

  lemma PromoteHandles(m: Manager, l: LaneName, weak: Option<LaneName>, lane: LaneName, o: OwnerId, until: real)
    requires Shape(m) && Core(m, weak) && l in m.lanes && o < |m.owners|
    ensures Handled(m, Promote(m, l), lane, o, until)
  {
    hide Core, Promote, Dead, Stands;
    SameOwners(m, l);
    if Stands(m, lane, o, until) && lane == l {
      OwnLanePromoted(m, lane, weak, o, until);
      StandsQueued(m, lane, o, until);
    } else if m.phase[o] != Queued || m.owners[o].lane != l {
      OtherLanePromoted(m, l, weak, lane, o, until);
      StillStands(m, Promote(m, l), lane, l, o, until);
    } else if lane != l {
      StandsInItsLane(m, lane, o, until);
    }
  }

  lemma StandsQueued(m: Manager, lane: LaneName, o: OwnerId, until: real)
    requires Shape(m) && Stands(m, lane, o, until)
    ensures o < |m.phase| && m.phase[o] == Queued
  {
  }

  lemma StandsInItsLane(m: Manager, lane: LaneName, o: OwnerId, until: real)
    requires Shape(m) && o < |m.owners| && lane != m.owners[o].lane
    ensures !Stands(m, lane, o, until)
  {
  }

  lemma StillStands(m: Manager, after: Manager, lane: LaneName, l: LaneName, o: OwnerId, until: real)
    requires Shape(m) && Shape(after) && after.lanes == m.lanes && after.owners == m.owners && o < |m.owners|
    requires after.phase[o] == m.phase[o] && (lane in m.lanes && lane != l ==> after.pending[lane] == m.pending[lane])
    ensures Stands(m, lane, o, until) && lane != l ==> Stands(after, lane, o, until)
  {
  }

  // -------- a ticket under the other steps --------

  lemma DrainedHandles(m: Manager, lane: LaneName, o: OwnerId, until: real)
    requires Shape(m) && o < |m.owners|
    ensures Shape(UpdateDrained(m)) && Handled(m, UpdateDrained(m), lane, o, until)
  {
    hide AllEmpty;
  }

  lemma DepartHandles(m: Manager, x: OwnerId, lane: LaneName, o: OwnerId, until: real)
    requires Shape(m) && x < |m.owners| && o < |m.owners| && x != o
    ensures var l := m.owners[x].lane; Handled(m, WithLane(m, l, Depart(LaneOf(m, l), x)), lane, o, until)
  {
    hide Handled, WithLane, Depart;
    var l := m.owners[x].lane;
    DepartKeepsPhase(m, x, o);
    DepartKeepsTicket(m, x, o, until);
    LaneHandled(m, l, Depart(LaneOf(m, l), x), lane, o, until);
  }

  lemma LaneHandled(m: Manager, l: LaneName, s: LaneState, lane: LaneName, o: OwnerId, until: real)
    requires Shape(m) && l in m.lanes && |s.phase| == |m.phase| && Known(s.queue, |s.phase|) && o < |m.owners|
    requires s.phase[o] == m.phase[o] && (Ticket(o, until) in m.pending[l] ==> Ticket(o, until) in s.queue)
    ensures Handled(m, WithLane(m, l, s), lane, o, until)
  {
    hide Dead;
  }

  lemma DepartKeepsTicket(m: Manager, x: OwnerId, o: OwnerId, until: real)
    requires Shape(m) && x < |m.owners| && o < |m.owners| && x != o
    ensures var l := m.owners[x].lane;
            Ticket(o, until) in m.pending[l] ==> Ticket(o, until) in Depart(LaneOf(m, l), x).queue
  {
    hide WithoutOwner;
    var l := m.owners[x].lane;
    if Ticket(o, until) in m.pending[l] {
      WithoutOwnerKeepsOthers(m.pending[l], x, Ticket(o, until));
    }
  }

  lemma DepartKeepsPhase(m: Manager, x: OwnerId, o: OwnerId)
    requires Shape(m) && x < |m.owners| && o < |m.owners| && x != o
    ensures |Depart(LaneOf(m, m.owners[x].lane), x).phase| == |m.phase|
    ensures Depart(LaneOf(m, m.owners[x].lane), x).phase[o] == m.phase[o]
  {
  }

  lemma VacateHandles(m: Manager, x: OwnerId, lane: LaneName, o: OwnerId, until: real)
    requires Shape(m) && Inv(m) && x < |m.owners| && o < |m.owners| && x != o
    ensures Handled(m, Vacate(m, x), lane, o, until)
  {
    hide Core, Depart, Promote, UpdateDrained, Handled;
    var l := m.owners[x].lane;
    var left := WithLane(m, l, Depart(LaneOf(m, l), x));
    DepartHandles(m, x, lane, o, until);
    DepartKeepsCore(m, x);
    PromoteHandles(left, l, Some(l), lane, o, until);
    HandledTwice(m, left, Promote(left, l), lane, o, until);
    SameOwners(left, l);
    DrainedHandles(Promote(left, l), lane, o, until);
    HandledTwice(m, Promote(left, l), UpdateDrained(Promote(left, l)), lane, o, until);
  }

  lemma PreparedHandles(m: Manager, l: LaneName, lane: LaneName, o: OwnerId, until: real)
    requires Shape(m) && HasSharedLanes(m) && Inv(m) && l in m.lanes && o < |m.owners|
    ensures Handled(m, PromoteForAcquire(m, l), lane, o, until)
  {
    hide Core, Promote, Handled;
    if IsShared(l) {
      PromoteHandles(m, Navigation, None, lane, o, until);
      PromoteKeepsInv(m, Navigation);
      SameOwners(m, Navigation);
      PromoteHandles(Promote(m, Navigation), Foreground, None, lane, o, until);
      HandledTwice(m, Promote(m, Navigation), Promote(Promote(m, Navigation), Foreground), lane, o, until);
    } else {
      PromoteHandles(m, l, None, lane, o, until);
    }
  }

  lemma SameOwners(m: Manager, l: LaneName)
    requires Shape(m) && l in m.lanes
    ensures Promote(m, l).owners == m.owners && SameClock(m, Promote(m, l))
  {
  }

  lemma PlaceHandles(m: Manager, owner: Owner, lane: LaneName, o: OwnerId, until: real)
    requires Shape(m) && owner.lane in m.lanes && o < |m.owners|
    ensures Handled(m, Place(m, owner).0, lane, o, until)
  {
    hide AccountIsTaken, Handled, Admit, Enqueue;
    HandledNot(m, lane, o, until);
    AdmitHandles(m, owner, lane, o, until);
    EnqueueHandles(m, owner, lane, o, until);
  }

  lemma AdmitHandles(m: Manager, owner: Owner, lane: LaneName, o: OwnerId, until: real)
    requires Shape(m) && owner.lane in m.lanes && o < |m.owners|
    ensures Handled(m, Admit(m, owner), lane, o, until)
  {
    hide Dead;
    StillStands(m, m, lane, lane, o, until);
  }

  lemma EnqueueHandles(m: Manager, owner: Owner, lane: LaneName, o: OwnerId, until: real)
    requires Shape(m) && owner.lane in m.lanes && o < |m.owners|
    ensures Handled(m, Enqueue(m, owner), lane, o, until)
  {
    hide Dead;
  }

  lemma AcquireHandles(m: Manager, owner: Owner, parentLane: Option<LaneName>, lane: LaneName, o: OwnerId, until: real)
    requires Shape(m) && HasSharedLanes(m) && Inv(m) && o < |m.owners|
    ensures Handled(m, Acquire(m, owner, parentLane).0, lane, o, until)
  {
    hide Inv, PromoteForAcquire, Place, Handled;
    HandledNot(m, lane, o, until);
    if owner.lane in m.lanes {
      PreparedHandles(m, owner.lane, lane, o, until);
      PreparedLife(m, owner.lane);
      PlaceHandles(PromoteForAcquire(m, owner.lane), owner, lane, o, until);
      HandledTwice(m, PromoteForAcquire(m, owner.lane), Place(PromoteForAcquire(m, owner.lane), owner).0, lane, o, until);
    }
  }

  // -------- a waiter over a run --------

  /** Where a waiter is whose time lasts until then: in its queue, or answered, and refused only when the time was over. */
  ghost predicate Patient(m: Manager, lane: LaneName, o: OwnerId, until: real)
    requires Shape(m)
  {
    && lane in m.lanes && o < |m.owners| && m.owners[o].lane == lane && !m.closed
    && (m.phase[o] == Queued ==> Stands(m, lane, o, until))
    && (m.phase[o] == Refused ==> m.now >= until)
    && m.phase[o] != Gone
  }

  /** The owner is not withdrawn, its operation does not end, and the manager is not shut down. */
  predicate Leaves(e: Event, o: OwnerId) {
    e == EvFail(o) || e == EvLeave(o) || e == EvShutdown
  }

  lemma HandledIsPatient(m: Manager, after: Manager, lane: LaneName, o: OwnerId, until: real)
    requires Shape(m) && Shape(after) && Patient(m, lane, o, until) && Handled(m, after, lane, o, until)
    ensures Patient(after, lane, o, until)
  {
  }

  lemma LeaveHandles(m: Manager, x: OwnerId, lane: LaneName, o: OwnerId, until: real)
    requires Shape(m) && Inv(m) && x < |m.owners| && o < |m.owners| && x != o
    ensures Handled(m, Leave(m, x), lane, o, until)
  {
    hide Inv, Vacate, Handled;
    HandledNot(m, lane, o, until);
    var released := m.(life := m.life[x := m.life[x].(released := true)]);
    SameAdmissionKeepsInv(m, released);
    VacateHandles(released, x, lane, o, until);
    SameStart(m, released, Vacate(released, x), lane, o, until);
  }

  lemma SameStart(m: Manager, same: Manager, after: Manager, lane: LaneName, o: OwnerId, until: real)
    requires Shape(m) && Shape(same) && Shape(after) && o < |m.owners| && SameAdmission(m, same)
    requires Handled(same, after, lane, o, until)
    ensures Handled(m, after, lane, o, until)
  {
  }

  lemma FailHandles(m: Manager, x: OwnerId, lane: LaneName, o: OwnerId, until: real)
    requires Shape(m) && Inv(m) && x < |m.owners| && o < |m.owners| && x != o
    ensures Handled(m, Fail(m, x), lane, o, until)
  {
    hide Inv, Vacate, Handled;
    HandledNot(m, lane, o, until);
    VacateHandles(m, x, lane, o, until);
  }

  lemma UsePatient(m: Manager, e: Event, lane: LaneName, o: OwnerId, until: real)
    requires Shape(m) && Patient(m, lane, o, until)
    ensures Patient(StepLife(m, e), lane, o, until)
  {
    hide StepLife;
  }

  lemma ResumePatient(m: Manager, x: OwnerId, lane: LaneName, o: OwnerId, until: real)
    requires Shape(m) && Patient(m, lane, o, until) && x < |m.phase|
    ensures Patient(Resume(m, x), lane, o, until)
  {
  }

  lemma TickPatient(m: Manager, now: real, lane: LaneName, o: OwnerId, until: real)
    requires Shape(m) && Patient(m, lane, o, until)
    ensures Shape(Tick(m, now)) && Patient(Tick(m, now), lane, o, until)
  {
  }

  lemma StepPatient(m: Manager, e: Event, lane: LaneName, o: OwnerId, until: real)
    requires Shape(m) && HasSharedLanes(m) && Inv(m) && Patient(m, lane, o, until) && !Leaves(e, o)
    requires |m.phase| == |m.owners|
    ensures Patient(Step(m, e), lane, o, until)
  {
    hide Shape, Inv, Patient, Handled, Acquire, Resume, Fail, Leave, Shutdown, Tick, StepLife;
    assert o < |m.owners| by { PatientKnown(m, lane, o, until); }
    match e
    case EvAcquire(owner, parentLane) =>
      AcquireHandles(m, owner, parentLane, lane, o, until);
      HandledIsPatient(m, Step(m, e), lane, o, until);
    case EvFail(x) =>
      if x < |m.phase| {
        FailHandles(m, x, lane, o, until);
        HandledIsPatient(m, Step(m, e), lane, o, until);
      }
    case EvLeave(x) =>
      if x < |m.phase| {
        LeaveHandles(m, x, lane, o, until);
        HandledIsPatient(m, Step(m, e), lane, o, until);
      }
    case EvResume(x) => if x < |m.phase| { ResumePatient(m, x, lane, o, until); }
    case EvTick(now) => TickPatient(m, now, lane, o, until);
    case _ => UsePatient(m, e, lane, o, until);
  }

  lemma PatientKnown(m: Manager, lane: LaneName, o: OwnerId, until: real)
    requires Shape(m) && Patient(m, lane, o, until)
    ensures o < |m.owners| == |m.phase| && m.owners[o].lane == lane && lane in m.lanes
  {
  }

  lemma {:induction false} RunPatient(m: Manager, events: seq<Event>, lane: LaneName, o: OwnerId, until: real)
    requires Shape(m) && HasSharedLanes(m) && Inv(m) && Patient(m, lane, o, until)
    requires forall i :: 0 <= i < |events| ==> !Leaves(events[i], o)
    ensures Patient(Run(m, events), lane, o, until)
  {
    hide Shape, Inv, Patient, Step;
    if events != [] {
      var front := events[..|events| - 1];
      RunPatient(m, front, lane, o, until);
      RunKeepsInv(m, front);
      PatientKnown(Run(m, front), lane, o, until);
      StepPatient(Run(m, front), events[|events| - 1], lane, o, until);
    }
  }

  lemma WaiterStands(m: Manager, owner: Owner, parentLane: Option<LaneName>)
    requires Shape(m) && HasSharedLanes(m) && Inv(m) && Acquire(m, owner, parentLane).1.Waits?
    ensures Acquire(m, owner, parentLane).1 == Waits(|m.owners|) && owner.lane in m.lanes
    ensures Patient(Acquire(m, owner, parentLane).0, owner.lane, |m.owners|, m.now + m.lanes[owner.lane].wait)
    ensures Acquire(m, owner, parentLane).0.phase[|m.owners|] == Queued
  {
    hide Inv, PromoteForAcquire, Place, Patient;
    PreparedLife(m, owner.lane);
    AcquireLooksAtLiveTickets(m, owner.lane);
    PlacedStands(PromoteForAcquire(m, owner.lane), owner);
  }

  lemma PlacedStands(m: Manager, owner: Owner)
    requires Shape(m) && owner.lane in m.lanes && !m.closed && Place(m, owner).1.Waits?
    ensures Place(m, owner).1 == Waits(|m.owners|) && |m.owners| < |Place(m, owner).0.phase|
    ensures Patient(Place(m, owner).0, owner.lane, |m.owners|, m.now + m.lanes[owner.lane].wait)
    ensures Place(m, owner).0.phase[|m.owners|] == Queued
  {
    hide AccountIsTaken, Admit;
  }

  // -------- the clock --------

  function Later(now: real, e: Event): real {
    if e.EvTick? && e.now > now then e.now else now
  }

  /** What the clock shows after a run. */
  function Clock(now: real, events: seq<Event>): real {
    if events == [] then now else Later(Clock(now, events[..|events| - 1]), events[|events| - 1])
  }

  lemma StepClock(m: Manager, e: Event)
    requires Shape(m) && HasSharedLanes(m)
    ensures Step(m, e).now == Later(m.now, e)
  {
    hide Shape, Place, PromoteLane, Depart, AllEmpty;
    match e
    case EvAcquire(owner, _) => if owner.lane in m.lanes { PlaceClock(PromoteForAcquire(m, owner.lane), owner); }
    case _ =>
  }

  lemma PlaceClock(m: Manager, owner: Owner)
    requires Shape(m) && owner.lane in m.lanes
    ensures Place(m, owner).0.now == m.now
  {
    hide AccountIsTaken;
  }

  lemma {:induction false} RunClock(m: Manager, events: seq<Event>)
    requires Shape(m) && HasSharedLanes(m)
    ensures Run(m, events).now == Clock(m.now, events)
  {
    hide Step, Shape;
    if events != [] {
      RunClock(m, events[..|events| - 1]);
      StepClock(Run(m, events[..|events| - 1]), events[|events| - 1]);
    }
  }

  // -------- a free slot --------

  lemma FirstLiveIsGranted(spec: LaneSpec, s: LaneState, after: LaneState, now: real, closed: bool, o: OwnerId, until: real)
    requires |after.phase| == |s.phase| && Known(s.queue, |s.phase|) && Sorted(s.queue) && |s.active| < spec.limit
    requires var k := DeadPrefix(s.queue, now, closed); PromotedAs(s, after, k, Slots(spec.limit, s.active, s.queue[k..]))
    requires Ticket(o, until) in s.queue && !Dead(Ticket(o, until), now, closed)
    ensures exists j: OwnerId :: j <= o && j < |s.phase| && IsQueued(s.queue, j) && after.phase[j] == Granted
  {
    hide DeadPrefix;
    var k := DeadPrefix(s.queue, now, closed);
    ExpiredTicketsAreAPrefix(s.queue, now, closed);
    var i :| 0 <= i < |s.queue| && s.queue[i] == Ticket(o, until);
    var first := s.queue[k];
    assert first in s.queue;
    assert Between(s.queue, k, k + Slots(spec.limit, s.active, s.queue[k..]), first.owner);
    assert IsQueued(s.queue, first.owner);
    assert !Between(s.queue, 0, k, first.owner);
  }

  /** A slot that an owner leaves goes to the waiter, or to one that came before it. */
  lemma VacateGrants(m: Manager, x: OwnerId, o: OwnerId, until: real)
    requires Shape(m) && Inv(m) && x < |m.owners| && x in m.active[m.owners[x].lane]
    requires Stands(m, m.owners[x].lane, o, until) && !Dead(Ticket(o, until), m.now, m.closed)
    ensures |Vacate(m, x).phase| == |m.phase|
    ensures exists j: OwnerId :: j <= o && Takes(m, Vacate(m, x), m.owners[x].lane, j)
  {
    hide Inv, Vacate, PromoteLane, Depart, Sorted, Dead, LaneAgrees, LaneOk;
    var lane := m.owners[x].lane;
    var s := Depart(LaneOf(m, lane), x);
    VacateKeepsCount(m, x);
    VacatedLane(m, x);
    DepartedLane(m, x);
    DepartedFacts(m, x);
    StandsApart(m, x, o, until);
    PromoteLaneClosedForm(m.lanes[lane].limit, s, m.now, m.closed);
    FirstLiveIsGranted(m.lanes[lane], s, LaneOf(Vacate(m, x), lane), m.now, m.closed, o, until);
    var j: OwnerId :| j <= o && j < |s.phase| && IsQueued(s.queue, j) && LaneOf(Vacate(m, x), lane).phase[j] == Granted;
    WasQueued(m, x, j);
    assert Takes(m, Vacate(m, x), lane, j);
  }

  /** A waiter of the lane is granted. */
  ghost predicate Takes(m: Manager, after: Manager, lane: LaneName, j: OwnerId)
    requires Shape(m) && |after.phase| >= |m.phase|
  {
    j < |m.owners| && m.owners[j].lane == lane && m.phase[j] == Queued && after.phase[j] == Granted
  }

  lemma DepartedFacts(m: Manager, x: OwnerId)
    requires Shape(m) && Inv(m) && x < |m.owners| && x in m.active[m.owners[x].lane]
    ensures var lane := m.owners[x].lane; |Depart(LaneOf(m, lane), x).active| < m.lanes[lane].limit
  {
    hide Inv, LaneAgrees, WithoutOwner;
    OneLane(m, m.owners[x].lane);
  }

  lemma StandsApart(m: Manager, x: OwnerId, o: OwnerId, until: real)
    requires Shape(m) && Inv(m) && x < |m.owners| && x in m.active[m.owners[x].lane]
    requires Stands(m, m.owners[x].lane, o, until)
    ensures x != o && Ticket(o, until) in m.pending[m.owners[x].lane]
  {
    hide Inv, LaneOk;
    OneLane(m, m.owners[x].lane);
  }

  lemma WasQueued(m: Manager, x: OwnerId, j: OwnerId)
    requires Shape(m) && Inv(m) && x < |m.owners| && j < |m.owners|
    requires var lane := m.owners[x].lane; IsQueued(Depart(LaneOf(m, lane), x).queue, j)
    ensures m.phase[j] == Queued && m.owners[j].lane == m.owners[x].lane
  {
    hide Inv, LaneOk;
    var lane := m.owners[x].lane;
    OneLane(m, lane);
    var q := Depart(LaneOf(m, lane), x).queue;
    var i :| 0 <= i < |q| && q[i].owner == j;
    assert q[i] in m.pending[lane];
    InQueueIsQueued(m.pending[lane], q[i]);
  }

  lemma InQueueIsQueued(q: seq<Ticket>, t: Ticket)
    requires t in q
    ensures IsQueued(q, t.owner)
  {
    var i :| 0 <= i < |q| && q[i] == t;
  }

  // -------- promotion after the time --------

  /** The event promotes the lane, and is not the waiter's own. */
  predicate Promotes(m: Manager, e: Event, lane: LaneName, o: OwnerId)
    requires Shape(m)
  {
    match e
    case EvAcquire(owner, parentLane) => Wellformed(m, owner, parentLane) && Group(owner.lane) == Group(lane)
    case EvLeave(x) => x < |m.owners| && m.owners[x].lane == lane && m.phase[x] == Entered && m.life[x].threads == {}
    case EvFail(x) =>
      && x != o && x < |m.owners| && m.owners[x].lane == lane
      && (m.phase[x] == Queued || m.phase[x] == Granted || m.phase[x] == Refused)
    case _ => false
  }

  lemma PreparedRefuses(m: Manager, l: LaneName, lane: LaneName, o: OwnerId, until: real)
    requires Shape(m) && HasSharedLanes(m) && Inv(m) && l in m.lanes && Group(l) == Group(lane)
    requires Stands(m, lane, o, until) && m.now >= until
    ensures o < |PromoteForAcquire(m, l).phase| && PromoteForAcquire(m, l).phase[o] == Refused
  {
    hide Core, Promote;
    if IsShared(l) {
      var one := Promote(m, Navigation);
      SameOwners(m, Navigation);
      PromoteKeepsInv(m, Navigation);
      SameOwners(one, Foreground);
      if lane == Navigation {
        OwnLanePromoted(m, Navigation, None, o, until);
      } else {
        OtherLanePromoted(m, Navigation, None, lane, o, until);
        OwnLanePromoted(one, Foreground, None, o, until);
      }
      PromoteHandles(one, Foreground, None, lane, o, until);
    } else {
      assert l == lane;
      SameOwners(m, l);
      OwnLanePromoted(m, l, None, o, until);
    }
  }

  lemma VacateRefuses(m: Manager, x: OwnerId, o: OwnerId, until: real)
    requires Shape(m) && Inv(m) && x < |m.owners| && x != o && Stands(m, m.owners[x].lane, o, until) && m.now >= until
    ensures o < |Vacate(m, x).phase| && Vacate(m, x).phase[o] == Refused
  {
    hide Core, Depart, Promote, AllEmpty;
    var lane := m.owners[x].lane;
    var left := WithLane(m, lane, Depart(LaneOf(m, lane), x));
    DepartHandles(m, x, lane, o, until);
    DepartStands(m, x, o, until);
    DepartKeepsCore(m, x);
    SameOwners(left, lane);
    OwnLanePromoted(left, lane, Some(lane), o, until);
  }

  lemma DepartStands(m: Manager, x: OwnerId, o: OwnerId, until: real)
    requires Shape(m) && x < |m.owners| && x != o && Stands(m, m.owners[x].lane, o, until)
    ensures var lane := m.owners[x].lane; Stands(WithLane(m, lane, Depart(LaneOf(m, lane), x)), lane, o, until)
  {
    hide WithoutOwner;
    WithoutOwnerKeepsOthers(m.pending[m.owners[x].lane], x, Ticket(o, until));
  }

  lemma OverdueIsRefused(m: Manager, e: Event, lane: LaneName, o: OwnerId, until: real)
    requires Shape(m) && HasSharedLanes(m) && Inv(m) && Stands(m, lane, o, until) && m.now >= until && Promotes(m, e, lane, o)
    ensures o < |Step(m, e).phase| && Step(m, e).phase[o] == Refused
  {
    hide Inv, Vacate, PromoteForAcquire, Place;
    match e
    case EvAcquire(owner, parentLane) =>
      PreparedRefuses(m, owner.lane, lane, o, until);
      PlaceKeepsPhases(PromoteForAcquire(m, owner.lane), owner, o);
    case EvLeave(x) =>
      var released := m.(life := m.life[x := m.life[x].(released := true)]);
      SameAdmissionKeepsInv(m, released);
      VacateRefuses(released, x, o, until);
    case EvFail(x) => VacateRefuses(m, x, o, until);
  }

  // -------- the life of a waiter --------

  /** What a waiter is promised when it arrives: its place, and for how long. */
  ghost predicate Arrives(m: Manager, owner: Owner, parentLane: Option<LaneName>, events: seq<Event>)
  {
    && Shape(m) && HasSharedLanes(m) && Reachable(m) && Acquire(m, owner, parentLane).1.Waits?
    && forall i :: 0 <= i < |events| ==> !Leaves(events[i], |m.owners|)
  }

  lemma ArrivedIsPatient(m: Manager, owner: Owner, parentLane: Option<LaneName>, events: seq<Event>)
    requires Shape(m) && HasSharedLanes(m) && Arrives(m, owner, parentLane, events)
    ensures owner.lane in m.lanes && Acquire(m, owner, parentLane).1 == Waits(|m.owners|)
    ensures var r := Run(Acquire(m, owner, parentLane).0, events);
            && Shape(r) && HasSharedLanes(r) && Inv(r) && r.now == Clock(m.now, events)
            && Patient(r, owner.lane, |m.owners|, m.now + m.lanes[owner.lane].wait)
  {
    hide Reachable, Inv, Acquire, Run, Patient, Shape, Step;
    ReachableInv(m);
    WaiterStands(m, owner, parentLane);
    AcquireKeepsInv(m, owner, parentLane);
    AcquireClock(m, owner, parentLane);
    RunKeepsInv(Acquire(m, owner, parentLane).0, events);
    RunClock(Acquire(m, owner, parentLane).0, events);
    RunPatient(Acquire(m, owner, parentLane).0, events, owner.lane, |m.owners|, m.now + m.lanes[owner.lane].wait);
  }

  lemma AcquireClock(m: Manager, owner: Owner, parentLane: Option<LaneName>)
    requires Shape(m) && HasSharedLanes(m)
    ensures Acquire(m, owner, parentLane).0.now == m.now
  {
    hide Acquire;
    StepClock(m, EvAcquire(owner, parentLane));
  }

  /** As long as less time has passed since its arrival than its lane allows, a waiter is queued, granted or inside its
      operation, and never refused, whatever the other owners do. */
  lemma WaitsItsFullTime(m: Manager, owner: Owner, parentLane: Option<LaneName>, events: seq<Event>)
    requires Shape(m) && HasSharedLanes(m) && Arrives(m, owner, parentLane, events)
    ensures owner.lane in m.lanes
    ensures var id, r := |m.owners|, Run(Acquire(m, owner, parentLane).0, events);
            && id < |r.phase|
            && (Clock(m.now, events) < m.now + m.lanes[owner.lane].wait ==>
                  r.phase[id] == Queued || r.phase[id] == Granted || r.phase[id] == Entered)
            && (r.phase[id] == Granted ==> Step(r, EvResume(id)) == r.(phase := r.phase[id := Entered]))
  {
    hide Reachable, Inv, Acquire, Run, Arrives;
    ArrivedIsPatient(m, owner, parentLane, events);
  }

  /** During that time, whenever an owner gives up its slot in the lane, a waiter takes it that came no later. */
  lemma FreedSlotIsTaken(m: Manager, owner: Owner, parentLane: Option<LaneName>, events: seq<Event>, e: Event)
    requires Shape(m) && HasSharedLanes(m) && Arrives(m, owner, parentLane, events)
    requires Clock(m.now, events) < (if owner.lane in m.lanes then m.now + m.lanes[owner.lane].wait else m.now)
    requires FreesSlot(Run(Acquire(m, owner, parentLane).0, events), e, owner.lane)
    requires |m.owners| < |Run(Acquire(m, owner, parentLane).0, events).phase|
             && Run(Acquire(m, owner, parentLane).0, events).phase[|m.owners|] == Queued
    ensures var r := Run(Acquire(m, owner, parentLane).0, events);
            && |r.phase| <= |Step(r, e).phase|
            && exists j: OwnerId :: j <= |m.owners| && Takes(r, Step(r, e), owner.lane, j)
  {
    hide Reachable, Inv, Acquire, Run, Arrives, Vacate;
    ArrivedIsPatient(m, owner, parentLane, events);
    var r := Run(Acquire(m, owner, parentLane).0, events);
    SlotGoesOn(r, e, owner.lane, |m.owners|, m.now + m.lanes[owner.lane].wait);
  }

  /** The event ends an operation of the lane, or withdraws an owner that was granted but did not run on. */
  predicate FreesSlot(m: Manager, e: Event, lane: LaneName)
    requires Shape(m)
  {
    match e
    case EvLeave(x) => x < |m.owners| && m.owners[x].lane == lane && m.phase[x] == Entered && m.life[x].threads == {}
    case EvFail(x) => x < |m.owners| && m.owners[x].lane == lane && m.phase[x] == Granted
    case _ => false
  }

  lemma SlotGoesOn(m: Manager, e: Event, lane: LaneName, o: OwnerId, until: real)
    requires Shape(m) && HasSharedLanes(m) && Inv(m) && FreesSlot(m, e, lane)
    requires Stands(m, lane, o, until) && m.now < until && !m.closed
    ensures |m.phase| <= |Step(m, e).phase| && exists j: OwnerId :: j <= o && Takes(m, Step(m, e), lane, j)
  {
    hide Inv, Vacate, LaneOk;
    OneLane(m, lane);
    if e.EvLeave? {
      var released := m.(life := m.life[e.o := m.life[e.o].(released := true)]);
      SameAdmissionKeepsInv(m, released);
      VacateGrants(released, e.o, o, until);
      var j: OwnerId :| j <= o && Takes(released, Vacate(released, e.o), lane, j);
      assert Takes(m, Step(m, e), lane, j);
    } else {
      VacateGrants(m, e.o, o, until);
    }
  }

  /** From then on the first promotion of its lane refuses it, if it was not granted before. */
  lemma IsRefusedInTheEnd(m: Manager, owner: Owner, parentLane: Option<LaneName>, events: seq<Event>, e: Event)
    requires Shape(m) && HasSharedLanes(m) && Arrives(m, owner, parentLane, events)
    requires owner.lane in m.lanes && Clock(m.now, events) >= m.now + m.lanes[owner.lane].wait
    requires Promotes(Run(Acquire(m, owner, parentLane).0, events), e, owner.lane, |m.owners|)
    requires |m.owners| < |Run(Acquire(m, owner, parentLane).0, events).phase|
             && Run(Acquire(m, owner, parentLane).0, events).phase[|m.owners|] == Queued
    ensures var r := Run(Acquire(m, owner, parentLane).0, events);
            |m.owners| < |Step(r, e).phase| && Step(r, e).phase[|m.owners|] == Refused
  {
    hide Reachable, Inv, Acquire, Run, Arrives, Step, Promotes;
    ArrivedIsPatient(m, owner, parentLane, events);
    var r := Run(Acquire(m, owner, parentLane).0, events);
    OverdueIsRefused(r, e, owner.lane, |m.owners|, m.now + m.lanes[owner.lane].wait);
  }

  // -------- every waiter gets an answer --------

  /** An open ticket only changes by being granted or refused, unless its own waiter withdraws it, and shutdown refuses
      every open ticket. */
  lemma WaitersAreAnswered(m: Manager, e: Event, o: OwnerId)
    requires Reachable(m) && o < |m.phase| && m.phase[o] == Queued && e != EvFail(o)
    ensures o < |Step(m, e).phase|
    ensures Step(m, e).phase[o] == Queued || Step(m, e).phase[o] == Granted || Step(m, e).phase[o] == Refused
    ensures e == EvShutdown ==> Step(m, e).phase[o] == Refused
  {
    hide Reachable, Inv, LaneOk, AllEmpty, Acquire, Vacate, StepLife, Sorted;
    ReachableInv(m);
    var lane := m.owners[o].lane;
    OneLane(m, lane);
    QueueIsOpen(m);
    assert IsQueued(m.pending[lane], o);
    var i :| 0 <= i < |m.pending[lane]| && m.pending[lane][i].owner == o;
    var until := m.pending[lane][i].deadline;
    assert m.pending[lane][i] == Ticket(o, until);
    if e != EvShutdown && e != EvLeave(o) {
      WaiterStep(m, e, lane, o, until);
    }
  }

  lemma QueueIsOpen(m: Manager)
    requires Shape(m) && Inv(m)
    ensures forall l :: l in m.lanes && m.pending[l] != [] ==> !m.closed
  {
    hide LaneAgrees, ExclusiveOwners, AllEmpty;
  }

  lemma WaiterStep(m: Manager, e: Event, lane: LaneName, o: OwnerId, until: real)
    requires Shape(m) && HasSharedLanes(m) && Inv(m) && Stands(m, lane, o, until) && !m.closed && !Leaves(e, o)
    ensures o < |Step(m, e).phase|
    ensures Step(m, e).phase[o] == Queued || Step(m, e).phase[o] == Granted || Step(m, e).phase[o] == Refused
  {
    hide Inv, Shape, Handled, Stands, Acquire, Resume, Fail, Leave, StepLife;
    StandsQueued(m, lane, o, until);
    SameLengths(m);
    match e
    case EvResume(x) => if x < |m.phase| { ResumedPhase(m, x, o); }
    case EvAcquire(owner, parentLane) =>
      AcquireHandles(m, owner, parentLane, lane, o, until);
      HandledIsAnswered(m, Step(m, e), lane, o, until);
    case EvFail(x) =>
      if x < |m.phase| {
        FailHandles(m, x, lane, o, until);
        HandledIsAnswered(m, Step(m, e), lane, o, until);
      }
    case EvLeave(x) =>
      if x < |m.phase| {
        LeaveHandles(m, x, lane, o, until);
        HandledIsAnswered(m, Step(m, e), lane, o, until);
      }
    case _ =>
  }

  lemma SameLengths(m: Manager)
    requires Shape(m)
    ensures |m.life| == |m.phase| == |m.owners|
  {
  }

  lemma ResumedPhase(m: Manager, x: OwnerId, o: OwnerId)
    requires Shape(m) && x < |m.phase| && o < |m.phase| && m.phase[o] == Queued
    ensures |Resume(m, x).phase| == |m.phase| && Resume(m, x).phase[o] == Queued
  {
  }

  lemma HandledIsAnswered(m: Manager, after: Manager, lane: LaneName, o: OwnerId, until: real)
    requires Shape(m) && Shape(after) && Stands(m, lane, o, until) && Handled(m, after, lane, o, until)
    ensures o < |after.phase|
    ensures after.phase[o] == Queued || after.phase[o] == Granted || after.phase[o] == Refused
  {
  }

  lemma VacatedForGood(m: Manager, o: OwnerId)
    requires Shape(m) && Inv(m) && o < |m.phase|
    ensures var v := Vacate(m, o);
            && |v.phase| == |m.phase| && v.phase[o] == Gone && o !in v.active[m.owners[o].lane]
            && forall t :: t in v.pending[m.owners[o].lane] ==> t.owner != o
  {
    hide Inv, Vacate, LaneOk;
    VacatedIsGone(m, o);
    VacateKeepsInv(m, o);
    VacateKeepsCount(m, o);
    OneLane(Vacate(m, o), m.owners[o].lane);
    forall t | t in Vacate(m, o).pending[m.owners[o].lane]
      ensures t.owner != o
    {
      InQueueIsQueued(Vacate(m, o).pending[m.owners[o].lane], t);
    }
  }

  /** The owner fails before it is in its operation, or its operation ends. */
  predicate Ends(m: Manager, e: Event, o: OwnerId)
    requires o < |m.phase| && o < |m.life|
  {
    || (e == EvFail(o) && (m.phase[o] == Queued || m.phase[o] == Granted || m.phase[o] == Refused))
    || (e == EvLeave(o) && m.phase[o] == Entered && m.life[o].threads == {})
  }

  lemma LeavesAtOnce(m: Manager, e: Event, o: OwnerId)
    requires Shape(m) && Inv(m) && o < |m.phase| && o < |m.life| && Ends(m, e, o)
    ensures var after := Step(m, e);
            && |after.phase| == |m.phase| && after.phase[o] == Gone && o !in after.active[m.owners[o].lane]
            && forall t :: t in after.pending[m.owners[o].lane] ==> t.owner != o
  {
    hide Shape, Inv, LaneOk, Vacate, Release, StepLife, Acquire, Shutdown;
    if e.EvLeave? {
      ReleasedForGood(m, o);
    } else {
      VacatedForGood(m, o);
    }
  }

  lemma ReleasedForGood(m: Manager, o: OwnerId)
    requires Shape(m) && Inv(m) && o < |m.phase| && o < |m.life|
    ensures var v := Release(m, o);
            && |v.phase| == |m.phase| && v.phase[o] == Gone && o !in v.active[m.owners[o].lane]
            && forall t :: t in v.pending[m.owners[o].lane] ==> t.owner != o
  {
    hide Inv, Vacate;
    var released := m.(life := m.life[o := m.life[o].(released := true)]);
    SameAdmissionKeepsInv(m, released);
    VacatedForGood(released, o);
  }

  /** A waiter that withdraws, and an operation that ends, are out of their lane, and never come back. */
  lemma LeaversAreGone(m: Manager, e: Event, o: OwnerId, events: seq<Event>)
    requires Reachable(m) && o < |m.phase| && o < |m.life| && o < |m.owners| && m.owners[o].lane in m.lanes
    requires Ends(m, e, o)
    ensures var after := Step(m, e);
            && o !in after.active[m.owners[o].lane]
            && (forall t :: t in after.pending[m.owners[o].lane] ==> t.owner != o)
    ensures o < |Run(Step(m, e), events).phase| && Run(Step(m, e), events).phase[o] == Gone
  {
    hide Reachable, Inv, Ends, Step, Run;
    ReachableInv(m);
    LeavesAtOnce(m, e, o);
    StepKeepsInv(m, e);
    ResolvedOnce(Step(m, e), events, o);
  }
}
