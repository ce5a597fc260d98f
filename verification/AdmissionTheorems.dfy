/** Safety of the admission manager over whole runs. */
module AdmissionTheorems {
  import opened Common
  import opened Admission
  import opened AdmissionInvariant

  /** A state that some interleaving leads to from the start. */
  ghost predicate Reachable(m: Manager) {
    && Shape(m) && HasSharedLanes(m)
    && exists lanes, events :: SpecsOk(lanes) && m == Run(Initial(lanes), events)
  }

  lemma RunSnoc(m: Manager, events: seq<Event>, e: Event)
    requires Shape(m) && HasSharedLanes(m)
    ensures Run(m, events + [e]) == Step(Run(m, events), e)
  {
    assert (events + [e])[..|events|] == events;
  }

  lemma RunNone(m: Manager)
    requires Shape(m) && HasSharedLanes(m)
    ensures Run(m, []) == m
  {
  }

  lemma {:induction false} RunOn(m: Manager, first: seq<Event>, rest: seq<Event>)
    requires Shape(m) && HasSharedLanes(m)
    ensures Run(Run(m, first), rest) == Run(m, first + rest)
  {
    hide Step, Run, Shape;
    RunNone(Run(m, first));
    if rest == [] {
      assert first + rest == first;
    } else {
      var front, e := rest[..|rest| - 1], rest[|rest| - 1];
      RunOn(m, first, front);
      RunSnoc(Run(m, first), front, e);
      RunSnoc(m, first + front, e);
      assert first + front + [e] == first + rest && front + [e] == rest;
    }
  }

  lemma ReachableInv(m: Manager)
    requires Reachable(m)
    ensures Shape(m) && HasSharedLanes(m) && Inv(m)
  {
    hide Run, Initial, Inv;
    var lanes, events :| SpecsOk(lanes) && m == Run(Initial(lanes), events);
    InitialInv(lanes);
    RunKeepsInv(Initial(lanes), events);
  }

  lemma OneLane(m: Manager, l: LaneName)
    requires Shape(m) && Inv(m) && l in m.lanes
    ensures LaneOk(m.lanes[l], m.active[l], m.pending[l], m.now, m.closed, true)
    ensures LaneAgrees(m.owners, l, LaneOf(m, l))
    ensures m.lanes[l].limit >= 1 && m.lanes[l].wait >= 0.0
  {
    hide LaneOk, LaneAgrees, ExclusiveOwners, AllEmpty;
  }

  lemma LaneBounds(m: Manager, l: LaneName)
    requires Shape(m) && Inv(m) && l in m.lanes
    ensures |m.active[l]| <= m.lanes[l].limit && |m.pending[l]| <= m.lanes[l].pending
    ensures m.pending[l] != [] ==> |m.active[l]| == m.lanes[l].limit
  {
    hide Inv, LaneAgrees;
    OneLane(m, l);
  }

  // -------- slots, wakeups and the drained event --------

  /** In every reachable state a lane is within its bounds, only a full lane has a queue,
      and the drained event is set exactly when nobody is active or queued. */
  lemma NoLostSlotOrWakeup(m: Manager)
    requires Reachable(m)
    ensures forall l :: l in m.lanes ==>
              && |m.active[l]| <= m.lanes[l].limit && |m.pending[l]| <= m.lanes[l].pending
              && (m.pending[l] != [] ==> |m.active[l]| == m.lanes[l].limit)
    ensures m.drained <==> AllEmpty(m)
  {
    hide Reachable, Core, AllEmpty;
    ReachableInv(m);
    forall l | l in m.lanes
      ensures |m.active[l]| <= m.lanes[l].limit && |m.pending[l]| <= m.lanes[l].pending
      ensures m.pending[l] != [] ==> |m.active[l]| == m.lanes[l].limit
    {
      LaneBounds(m, l);
    }
  }

  // -------- account exclusion --------

  ghost predicate Holding(m: Manager, l: LaneName, o: OwnerId)
    requires Shape(m) && l in m.lanes
  {
    o in m.active[l] || IsQueued(m.pending[l], o)
  }

  /** Two different owners active or queued in one lane, or one in navigation and one in foreground,
      are never of one account. */
  lemma AccountsExclude(m: Manager, l: LaneName, k: LaneName, o: OwnerId, p: OwnerId)
    requires Reachable(m) && l in m.lanes && k in m.lanes && Group(l) == Group(k) && o != p
    requires Holding(m, l, o) && Holding(m, k, p)
    ensures o < |m.owners| && p < |m.owners| && (Key(m.owners[o]).Some? ==> Key(m.owners[o]) != Key(m.owners[p]))
  {
    hide Reachable, LaneOk, IsQueued;
    ReachableInv(m);
    assert LaneAgrees(m.owners, l, LaneOf(m, l)) && LaneAgrees(m.owners, k, LaneOf(m, k));
    var first, second := if o < p then o else p, if o < p then p else o;
    assert Present(m.phase[first]) && Present(m.phase[second]);
  }

  // -------- the outcome of an acquisition --------

  /** With a full lane in front of every queue, promotion before an acquisition only expires tickets. */
  lemma PromoteOnlyExpires(m: Manager, lane: LaneName)
    requires Shape(m) && Inv(m) && lane in m.lanes
    ensures Promote(m, lane) ==
            m.(pending := m.pending[lane := Surviving(m.pending[lane], m.now, m.closed)], phase := Promote(m, lane).phase)
    ensures |Promote(m, lane).phase| == |m.phase|
  {
    hide Inv, LaneAgrees;
    OneLane(m, lane);
    ExpiredTicketsAreAPrefix(m.pending[lane], m.now, m.closed);
    FullLaneFillsNothing(m.lanes[lane].limit, LaneOf(m, lane), m.now, m.closed);
    assert m.active[lane := m.active[lane]] == m.active;
  }

  lemma FullLaneFillsNothing(limit: nat, s: LaneState, now: real, closed: bool)
    requires Known(s.queue, |s.phase|) && (s.queue != [] ==> |s.active| >= limit)
    ensures PromoteLane(limit, s, now, closed).active == s.active
    ensures PromoteLane(limit, s, now, closed).queue == Surviving(s.queue, now, closed)
  {
  }

  /** The account is held by an active owner, or by a ticket that has not expired. */
  ghost predicate HeldUnexpired(m: Manager, lane: LaneName, account: int)
    requires Shape(m)
  {
    exists l :: l in m.lanes && Group(l) == Group(lane)
      && (Holds(m.owners, m.active[l], account)
          || HoldsTicket(m.owners, Surviving(m.pending[l], m.now, m.closed), account))
  }

  /** The lanes that an acquisition looks at, with their expired tickets gone and nobody newly admitted. */
  lemma AcquireLooksAtLiveTickets(m: Manager, lane: LaneName)
    requires Shape(m) && HasSharedLanes(m) && Inv(m) && lane in m.lanes
    ensures var p := PromoteForAcquire(m, lane);
            && p.active == m.active && p.owners == m.owners && p.closed == m.closed && p.now == m.now
            && |p.phase| == |m.phase|
            && forall l :: l in m.lanes && Group(l) == Group(lane) ==>
                 p.pending[l] == Surviving(m.pending[l], m.now, m.closed)
  {
    hide Inv, Promote, Surviving;
    if IsShared(lane) {
      PromoteOnlyExpires(m, Navigation);
      PromoteKeepsInv(m, Navigation);
      PromoteOnlyExpires(Promote(m, Navigation), Foreground);
    } else {
      PromoteOnlyExpires(m, lane);
    }
  }

  predicate Wellformed(m: Manager, owner: Owner, parentLane: Option<LaneName>) {
    && !m.closed && owner.lane in m.lanes && parentLane != Some(owner.lane)
    && (NeedsPrincipal(owner.lane) ==> owner.principal.Some? && owner.principal.value.enabled)
  }

  /** A call that is not well-formed changes nothing, and is an error of its caller unless the manager is closed. */
  lemma IllFormedIsRefused(m: Manager, owner: Owner, parentLane: Option<LaneName>)
    requires Shape(m) && HasSharedLanes(m)
    ensures !Wellformed(m, owner, parentLane)
            <==> Acquire(m, owner, parentLane) == (m, if m.closed then Busy else ContractError)
  {
    hide PromoteForAcquire, Place;
    if owner.lane in m.lanes {
      PlaceNeverErrs(PromoteForAcquire(m, owner.lane), owner);
    }
  }

  lemma PlaceNeverErrs(m: Manager, owner: Owner)
    requires Shape(m) && owner.lane in m.lanes
    ensures Place(m, owner).1 != ContractError
  {
    hide AccountIsTaken;
  }

  /** An acquisition is refused for its account exactly when an active owner or an unexpired ticket has it;
      otherwise it is admitted exactly when its lane is not full, and waits when the queue has room. */
  lemma AcquireOutcome(m: Manager, owner: Owner, parentLane: Option<LaneName>)
    requires Shape(m) && HasSharedLanes(m) && Inv(m) && Wellformed(m, owner, parentLane)
    ensures var outcome := Acquire(m, owner, parentLane).1;
            var spec := m.lanes[owner.lane];
            var live := |Surviving(m.pending[owner.lane], m.now, m.closed)|;
            if Key(owner).Some? && HeldUnexpired(m, owner.lane, Key(owner).value) then outcome == Busy
            else if |m.active[owner.lane]| < spec.limit then outcome == Admitted(|m.owners|)
            else if live < spec.pending && spec.wait > 0.0 then outcome == Waits(|m.owners|)
            else outcome == Busy
  {
    hide Inv, PromoteForAcquire, Surviving, Admit, Enqueue, AccountIsTaken, HeldUnexpired;
    var p := PromoteForAcquire(m, owner.lane);
    AcquireLooksAtLiveTickets(m, owner.lane);
    OnlyFullLanesQueue(m, owner.lane);
    if Key(owner).Some? {
      SameHolders(m, p, owner.lane, Key(owner).value);
    }
  }

  lemma OnlyFullLanesQueue(m: Manager, lane: LaneName)
    requires Shape(m) && Inv(m) && lane in m.lanes
    ensures |m.active[lane]| < m.lanes[lane].limit ==> m.pending[lane] == []
    ensures |m.active[lane]| <= m.lanes[lane].limit && m.lanes[lane].wait >= 0.0
    ensures m.pending[lane] == [] ==> Surviving(m.pending[lane], m.now, m.closed) == []
  {
    hide Inv, LaneAgrees;
    OneLane(m, lane);
  }

  lemma SameHolders(m: Manager, p: Manager, lane: LaneName, account: int)
    requires Shape(m) && Shape(p) && p.lanes == m.lanes && p.active == m.active && p.owners == m.owners
    requires forall l :: l in m.lanes && Group(l) == Group(lane) ==>
               p.pending[l] == Surviving(m.pending[l], m.now, m.closed)
    ensures AccountIsTaken(p, lane, account) <==> HeldUnexpired(m, lane, account)
  {
    hide Holds, HoldsTicket, Surviving;
    forall l | l in m.lanes && Group(l) == Group(lane)
      ensures HoldsTicket(p.owners, p.pending[l], account)
         <==> HoldsTicket(m.owners, Surviving(m.pending[l], m.now, m.closed), account)
    {
    }
  }

  // -------- every ticket is resolved once --------

  /** How an owner can get from one phase to another. */
  predicate Leads(p: Phase, q: Phase) {
    p == q || q == Gone || (p == Queued && q != Gone) || (p == Granted && q == Entered)
  }

  /** What promotion can do to a ticket: grant it or refuse it. */
  predicate Nudged(p: Phase, q: Phase) {
    q == p || (p == Queued && (q == Granted || q == Refused))
  }

  lemma PromotedPhases(m: Manager, lane: LaneName, weak: Option<LaneName>, o: OwnerId)
    requires Shape(m) && Core(m, weak) && lane in m.lanes && o < |m.phase|
    ensures Nudged(m.phase[o], Promote(m, lane).phase[o])
  {
    PromoteTakesTheOldest(m, lane, weak);
    assert LaneAgrees(m.owners, lane, LaneOf(m, lane));
    hide Promote;
    var k, n := DeadIn(m, lane), FreedFor(m, lane);
    if Between(m.pending[lane], 0, k, o) || Between(m.pending[lane], k, k + n, o) {
      assert IsQueued(m.pending[lane], o);
    }
  }

  lemma VacatedPhases(m: Manager, o: OwnerId, p: OwnerId)
    requires Shape(m) && Inv(m) && o < |m.phase| && p < |m.phase|
    ensures |Vacate(m, o).phase| == |m.phase|
    ensures if p == o then Vacate(m, o).phase[p] == Gone else Nudged(m.phase[p], Vacate(m, o).phase[p])
  {
    hide Core, PromoteLane;
    VacateKeepsCount(m, o);
    DepartKeepsCore(m, o);
    var lane := m.owners[o].lane;
    PromotedPhases(WithLane(m, lane, Depart(LaneOf(m, lane), o)), lane, Some(lane), p);
  }

  lemma AcquiredPhases(m: Manager, owner: Owner, parentLane: Option<LaneName>, o: OwnerId)
    requires Shape(m) && HasSharedLanes(m) && Inv(m) && o < |m.phase|
    ensures o < |Acquire(m, owner, parentLane).0.phase|
    ensures Nudged(m.phase[o], Acquire(m, owner, parentLane).0.phase[o])
  {
    hide Inv, PromoteForAcquire, Place, Nudged;
    StaysNudged(m.phase[o]);
    if owner.lane in m.lanes {
      PreparedPhases(m, owner.lane, o);
      PlaceKeepsPhases(PromoteForAcquire(m, owner.lane), owner, o);
    }
  }

  lemma StaysNudged(p: Phase)
    ensures Nudged(p, p)
  {
  }

  lemma PlaceKeepsPhases(m: Manager, owner: Owner, o: OwnerId)
    requires Shape(m) && owner.lane in m.lanes && o < |m.phase|
    ensures o < |Place(m, owner).0.phase| && Place(m, owner).0.phase[o] == m.phase[o]
  {
    hide AccountIsTaken;
  }

  lemma PreparedPhases(m: Manager, lane: LaneName, o: OwnerId)
    requires Shape(m) && HasSharedLanes(m) && Inv(m) && o < |m.phase| && lane in m.lanes
    ensures |PromoteForAcquire(m, lane).phase| == |m.phase|
    ensures Nudged(m.phase[o], PromoteForAcquire(m, lane).phase[o])
  {
    hide Core, Promote;
    if IsShared(lane) {
      PromotedPhases(m, Navigation, None, o);
      PromoteOnlyExpires(m, Navigation);
      PromoteKeepsInv(m, Navigation);
      PromotedPhases(Promote(m, Navigation), Foreground, None, o);
      PromoteOnlyExpires(Promote(m, Navigation), Foreground);
    } else {
      PromotedPhases(m, lane, None, o);
      PromoteOnlyExpires(m, lane);
    }
  }

  lemma LeftPhases(m: Manager, x: OwnerId, o: OwnerId)
    requires Shape(m) && Inv(m) && x < |m.phase| && o < |m.phase|
    ensures o < |Leave(m, x).phase| && Leads(m.phase[o], Leave(m, x).phase[o])
  {
    hide Inv, Vacate;
    var released := m.(life := m.life[x := m.life[x].(released := true)]);
    SameAdmissionKeepsInv(m, released);
    VacatedPhases(released, x, o);
    VacateKeepsCount(released, x);
  }

  lemma VacateKeepsCount(m: Manager, o: OwnerId)
    requires Shape(m) && o < |m.phase|
    ensures |Vacate(m, o).phase| == |m.phase| && Vacate(m, o).owners == m.owners
  {
    hide PromoteLane, WithoutOwner;
  }

  lemma FailedPhases(m: Manager, x: OwnerId, o: OwnerId)
    requires Shape(m) && Inv(m) && x < |m.phase| && o < |m.phase|
    ensures o < |Fail(m, x).phase| && Leads(m.phase[o], Fail(m, x).phase[o])
  {
    hide Inv, Vacate;
    VacatedPhases(m, x, o);
    VacateKeepsCount(m, x);
  }

  lemma ShutdownPhases(m: Manager, o: OwnerId)
    requires Shape(m) && o < |m.phase|
    ensures o < |Shutdown(m).phase| && Leads(m.phase[o], Shutdown(m).phase[o])
  {
    hide AllEmpty;
  }

  lemma StepLeads(m: Manager, e: Event, o: OwnerId)
    requires Shape(m) && HasSharedLanes(m) && Inv(m) && o < |m.phase| == |m.owners|
    ensures o < |Step(m, e).phase| && Leads(m.phase[o], Step(m, e).phase[o])
  {
    hide Inv, Shape, Acquire, Leave, Fail, Shutdown, StepLife;
    match e
    case EvAcquire(owner, parentLane) =>
      AcquiredPhases(m, owner, parentLane, o);
    case EvFail(x) =>
      if x < |m.phase| {
        FailedPhases(m, x, o);
      }
    case EvLeave(x) =>
      if x < |m.phase| {
        LeftPhases(m, x, o);
      }
    case EvShutdown =>
      ShutdownPhases(m, o);
    case _ =>
  }

  /** Over any run an open ticket may be granted, refused or withdrawn; what it was resolved to stays. */
  lemma {:induction false} ResolvedOnce(m: Manager, events: seq<Event>, o: OwnerId)
    requires Shape(m) && HasSharedLanes(m) && Inv(m) && o < |m.phase|
    ensures o < |Run(m, events).phase| && Leads(m.phase[o], Run(m, events).phase[o])
  {
    hide Inv, Step, Leads;
    if events == [] {
      StaysPut(m.phase[o]);
    } else {
      var front := events[..|events| - 1];
      ResolvedOnce(m, front, o);
      RunKeepsInv(m, front);
      StepLeads(Run(m, front), events[|events| - 1], o);
      LeadsOn(m.phase[o], Run(m, front).phase[o], Run(m, events).phase[o]);
    }
  }

  lemma StaysPut(p: Phase)
    ensures Leads(p, p)
  {
  }

  lemma LeadsOn(p: Phase, q: Phase, r: Phase)
    requires Leads(p, q) && Leads(q, r)
    ensures Leads(p, r)
  {
  }

  // -------- first come, first served --------

  /** Whoever is newly active in a lane arrived before everyone still queued there, and after every
      unexpired ticket that was ahead of it, except tickets withdrawn in this very step. */
  ghost predicate InTurn(m: Manager, after: Manager, l: LaneName)
    requires Shape(m) && Shape(after) && l in m.lanes && after.lanes == m.lanes && |m.phase| <= |after.phase|
  {
    forall o :: o in after.active[l] && o !in m.active[l] ==>
      && (forall t :: t in after.pending[l] ==> o < t.owner)
      && (forall t :: t in m.pending[l] && t.owner < o && !Dead(t, m.now, m.closed) && after.phase[t.owner] != Gone
            ==> t.owner in after.active[l])
  }

  lemma PromotedInTurn(s: LaneState, after: LaneState, now: real, closed: bool, limit: nat)
    requires Known(s.queue, |s.phase|) && Sorted(s.queue) && Apart(s) && after == PromoteLane(limit, s, now, closed)
    ensures forall o :: o in after.active && o !in s.active ==>
              && (forall t :: t in after.queue ==> o < t.owner)
              && (forall t :: t in s.queue && t.owner < o && !Dead(t, now, closed) ==> t.owner in after.active)
  {
    var k := DeadPrefix(s.queue, now, closed);
    var n := Slots(limit, s.active, s.queue[k..]);
    PromoteLaneClosedForm(limit, s, now, closed);
    ExpiredTicketsAreAPrefix(s.queue, now, closed);
    hide PromoteLane, DeadPrefix, Slots;
    forall o | o in after.active && o !in s.active
      ensures forall t :: t in after.queue ==> o < t.owner
      ensures forall t :: t in s.queue && t.owner < o && !Dead(t, now, closed) ==> t.owner in after.active
    {
      assert Between(s.queue, k, k + n, o);
      OldestOfThree(s.queue, k, k + n, o, now, closed);
    }
  }

  /** The tickets before position i are dead. */
  lemma OldestOfThree(q: seq<Ticket>, i: nat, j: nat, o: OwnerId, now: real, closed: bool)
    requires Sorted(q) && i <= j <= |q| && Between(q, i, j, o)
    requires forall x :: 0 <= x < i ==> Dead(q[x], now, closed)
    ensures forall t :: t in q[j..] ==> o < t.owner
    ensures forall t :: t in q && t.owner < o && !Dead(t, now, closed) ==> Between(q, i, j, t.owner)
  {
    var x :| i <= x < j && q[x].owner == o;
    forall t | t in q[j..]
      ensures o < t.owner
    {
      var y :| 0 <= y < |q[j..]| && q[j..][y] == t;
      assert q[j + y] == t;
    }
    forall t | t in q && t.owner < o && !Dead(t, now, closed)
      ensures Between(q, i, j, t.owner)
    {
      var y :| 0 <= y < |q| && q[y] == t;
      assert y < x;
    }
  }

  lemma VacatedInTurn(m: Manager, o: OwnerId, l: LaneName)
    requires Shape(m) && Inv(m) && o < |m.phase| && l in m.lanes
    ensures |Vacate(m, o).phase| == |m.phase| && InTurn(m, Vacate(m, o), l)
  {
    hide Inv, Vacate, InTurn;
    VacateKeepsCount(m, o);
    if l == m.owners[o].lane {
      VacatedLaneInTurn(m, o);
    } else {
      VacateKeepsOtherLanes(m, o, l);
      NobodyNewInTurn(m, Vacate(m, o), l);
    }
  }

  lemma VacateKeepsOtherLanes(m: Manager, o: OwnerId, l: LaneName)
    requires Shape(m) && o < |m.owners| && l in m.lanes && l != m.owners[o].lane
    ensures Vacate(m, o).active[l] == m.active[l]
  {
    hide PromoteLane, Depart, AllEmpty;
  }

  lemma VacatedLaneInTurn(m: Manager, o: OwnerId)
    requires Shape(m) && Inv(m) && o < |m.phase|
    ensures |Vacate(m, o).phase| == |m.phase| && InTurn(m, Vacate(m, o), m.owners[o].lane)
  {
    hide Inv, Vacate, PromoteLane, Depart, InTurn, Sorted, Apart;
    var lane := m.owners[o].lane;
    var s := Depart(LaneOf(m, lane), o);
    VacateKeepsCount(m, o);
    VacatedLane(m, o);
    DepartedLane(m, o);
    PromotedInTurn(s, LaneOf(Vacate(m, o), lane), m.now, m.closed, m.lanes[lane].limit);
    VacatedIsGone(m, o);
    InTurnFromLane(m, Vacate(m, o), lane, o, s);
  }

  lemma VacatedIsGone(m: Manager, o: OwnerId)
    requires Shape(m) && Inv(m) && o < |m.phase|
    ensures |Vacate(m, o).phase| == |m.phase| && Vacate(m, o).phase[o] == Gone
    ensures o !in Vacate(m, o).active[m.owners[o].lane]
  {
    hide Inv, Vacate, LaneOk;
    VacateKeepsCount(m, o);
    VacatedPhases(m, o, o);
    VacateKeepsInv(m, o);
    OneLane(Vacate(m, o), m.owners[o].lane);
  }

  lemma VacatedLane(m: Manager, o: OwnerId)
    requires Shape(m) && o < |m.owners|
    ensures var lane := m.owners[o].lane;
            LaneOf(Vacate(m, o), lane)
            == PromoteLane(m.lanes[lane].limit, Depart(LaneOf(m, lane), o), m.now, m.closed)
  {
    hide PromoteLane, Depart;
  }

  lemma InTurnFromLane(m: Manager, after: Manager, l: LaneName, o: OwnerId, s: LaneState)
    requires Shape(m) && Shape(after) && l in m.lanes && after.lanes == m.lanes && |m.phase| <= |after.phase|
    requires o < |m.phase| && after.phase[o] == Gone && s.active <= m.active[l] && m.active[l] <= s.active + {o}
    requires o !in after.active[l]
    requires forall t :: t in m.pending[l] && t.owner != o ==> t in s.queue
    requires forall x :: x in after.active[l] && x !in s.active ==>
               && (forall t :: t in after.pending[l] ==> x < t.owner)
               && (forall t :: t in s.queue && t.owner < x && !Dead(t, m.now, m.closed) ==> t.owner in after.active[l])
    ensures InTurn(m, after, l)
  {
  }

  lemma DepartedLane(m: Manager, o: OwnerId)
    requires Shape(m) && Inv(m) && o < |m.phase|
    ensures var lane := m.owners[o].lane; var s := Depart(LaneOf(m, lane), o);
            && s.active == m.active[lane] - {o} && Sorted(s.queue) && Apart(s)
            && forall t :: t in m.pending[lane] && t.owner != o ==> t in s.queue
  {
    hide Inv;
    var lane := m.owners[o].lane;
    OneLane(m, lane);
    DepartAgrees(m.owners, lane, LaneOf(m, lane), o);
    ApartByPhase(m.owners, lane, Depart(LaneOf(m, lane), o));
    WithoutOwnerKeepsOrder(m.pending[lane], o);
    hide LaneAgrees;
    forall t | t in m.pending[lane] && t.owner != o
      ensures t in WithoutOwner(m.pending[lane], o)
    {
      WithoutOwnerKeepsOthers(m.pending[lane], o, t);
    }
  }

  lemma AdmittedInTurn(m: Manager, owner: Owner, parentLane: Option<LaneName>, l: LaneName)
    requires Shape(m) && HasSharedLanes(m) && Inv(m) && l in m.lanes
    ensures |m.phase| <= |Acquire(m, owner, parentLane).0.phase|
    ensures InTurn(m, Acquire(m, owner, parentLane).0, l)
  {
    hide Inv, PromoteForAcquire, Place, Surviving, InTurn;
    NobodyNewInTurn(m, m, l);
    if !m.closed && owner.lane in m.lanes {
      AcquireLooksAtLiveTickets(m, owner.lane);
      PlacedInTurn(m, PromoteForAcquire(m, owner.lane), owner, l);
    }
  }

  /** A new owner is admitted at once only when no ticket of its lane is alive. */
  lemma PlacedInTurn(m: Manager, p: Manager, owner: Owner, l: LaneName)
    requires Shape(m) && Shape(p) && p.lanes == m.lanes && p.active == m.active && |p.phase| == |m.phase|
    requires p.now == m.now && p.closed == m.closed && l in m.lanes && owner.lane in m.lanes
    requires p.pending[owner.lane] == Surviving(m.pending[owner.lane], m.now, m.closed)
    ensures |m.phase| <= |Place(p, owner).0.phase|
    ensures InTurn(m, Place(p, owner).0, l)
  {
    hide AccountIsTaken, Surviving, InTurn, Admit, Enqueue;
    PlaceGrows(p, owner);
    EnqueuedInTurn(m, p, owner, l);
    NobodyNewInTurn(m, p, l);
    if p.pending[owner.lane] == [] {
      NoneSurvive(m.pending[owner.lane], m.now, m.closed);
      AdmitInTurn(m, p, owner, l);
    }
  }

  lemma EnqueuedInTurn(m: Manager, p: Manager, owner: Owner, l: LaneName)
    requires Shape(m) && Shape(p) && p.lanes == m.lanes && p.active == m.active && |p.phase| == |m.phase|
    requires l in m.lanes && owner.lane in m.lanes
    ensures |m.phase| <= |Enqueue(p, owner).phase| && InTurn(m, Enqueue(p, owner), l)
  {
    hide InTurn;
    NobodyNewInTurn(m, Enqueue(p, owner), l);
  }

  lemma AdmitInTurn(m: Manager, p: Manager, owner: Owner, l: LaneName)
    requires Shape(m) && Shape(p) && p.lanes == m.lanes && p.active == m.active && |p.phase| == |m.phase|
    requires l in m.lanes && owner.lane in m.lanes && p.pending[owner.lane] == []
    requires forall t :: t in m.pending[owner.lane] ==> Dead(t, m.now, m.closed)
    ensures |m.phase| <= |Admit(p, owner).phase| && InTurn(m, Admit(p, owner), l)
  {
    hide InTurn, Dead;
    OneMoreInTurn(m, Admit(p, owner), owner.lane, |p.owners|, l);
  }

  lemma PlaceGrows(p: Manager, owner: Owner)
    requires Shape(p) && owner.lane in p.lanes
    ensures |p.phase| <= |Place(p, owner).0.phase|
  {
    hide AccountIsTaken;
  }

  lemma NobodyNewInTurn(m: Manager, after: Manager, l: LaneName)
    requires Shape(m) && Shape(after) && l in m.lanes && after.lanes == m.lanes && |m.phase| <= |after.phase|
    requires after.active[l] <= m.active[l]
    ensures InTurn(m, after, l)
  {
  }

  lemma OneMoreInTurn(m: Manager, after: Manager, lane: LaneName, o: OwnerId, l: LaneName)
    requires Shape(m) && Shape(after) && l in m.lanes && after.lanes == m.lanes && |m.phase| <= |after.phase|
    requires lane in m.lanes && after.active == m.active[lane := m.active[lane] + {o}] && after.pending[lane] == []
    requires forall t :: t in m.pending[lane] ==> Dead(t, m.now, m.closed)
    ensures InTurn(m, after, l)
  {
  }

  lemma {:induction false} NoneSurvive(q: seq<Ticket>, now: real, closed: bool)
    requires Surviving(q, now, closed) == []
    ensures forall t :: t in q ==> Dead(t, now, closed)
  {
    if q != [] {
      NoneSurvive(q[1..], now, closed);
      assert forall t :: t in q ==> t == q[0] || t in q[1..];
    }
  }

  lemma LeaveInTurn(m: Manager, x: OwnerId, l: LaneName)
    requires Shape(m) && Inv(m) && x < |m.phase| && l in m.lanes
    ensures |m.phase| <= |Leave(m, x).phase| && InTurn(m, Leave(m, x), l)
  {
    hide Inv, Vacate;
    var released := m.(life := m.life[x := m.life[x].(released := true)]);
    SameAdmissionKeepsInv(m, released);
    VacatedInTurn(released, x, l);
  }

  lemma FailInTurn(m: Manager, x: OwnerId, l: LaneName)
    requires Shape(m) && Inv(m) && x < |m.phase| && l in m.lanes
    ensures |m.phase| <= |Fail(m, x).phase| && InTurn(m, Fail(m, x), l)
  {
    hide Inv, Vacate, InTurn;
    VacatedInTurn(m, x, l);
    NobodyNewInTurn(m, m, l);
  }

  lemma StepInTurn(m: Manager, e: Event, l: LaneName)
    requires Shape(m) && HasSharedLanes(m) && Inv(m) && l in m.lanes
    ensures |m.phase| <= |Step(m, e).phase| && InTurn(m, Step(m, e), l)
  {
    hide Inv, Acquire, Fail, Leave, StepLife, InTurn, AllEmpty, Shape;
    match e
    case EvAcquire(owner, parentLane) =>
      AdmittedInTurn(m, owner, parentLane, l);
    case EvFail(x) =>
      if x < |m.phase| {
        FailInTurn(m, x, l);
      }
      NobodyNewInTurn(m, m, l);
    case EvLeave(x) =>
      if x < |m.phase| {
        LeaveInTurn(m, x, l);
      }
      NobodyNewInTurn(m, m, l);
    case _ =>
      NobodyNewInTurn(m, Step(m, e), l);
  }

  /** No step of any run barges. */
  lemma NoBarging(m: Manager, e: Event, l: LaneName)
    requires Reachable(m) && l in m.lanes
    ensures |m.phase| <= |Step(m, e).phase| && InTurn(m, Step(m, e), l)
  {
    hide Reachable, Inv, InTurn, Step;
    ReachableInv(m);
    StepInTurn(m, e, l);
  }

  // -------- shutdown --------

  /** Closed for good: no queue, and nobody joins a lane. */
  ghost predicate Closing(m: Manager, after: Manager)
    requires Shape(m) && Shape(after)
  {
    && after.lanes == m.lanes && after.closed
    && (forall l :: l in after.lanes ==> after.pending[l] == [])
    && (forall l :: l in after.lanes ==> after.active[l] <= m.active[l])
  }

  lemma ClosedQueuesAreEmpty(m: Manager)
    requires Shape(m) && Inv(m) && m.closed
    ensures Closing(m, m)
  {
    hide Inv, LaneAgrees;
    forall l | l in m.lanes
      ensures m.pending[l] == []
    {
      OneLane(m, l);
    }
  }

  lemma ClosedStep(m: Manager, e: Event)
    requires Shape(m) && HasSharedLanes(m) && m.closed && Closing(m, m)
    ensures Closing(m, Step(m, e))
  {
    hide Fail, Leave, Shutdown, StepLife, PromoteForAcquire, Place, Closing, Shape;
    match e
    case EvFail(o) =>
      if o < |m.phase| {
        ClosedFail(m, o);
      }
    case EvLeave(o) =>
      if o < |m.phase| {
        ClosedLeave(m, o);
      }
    case EvShutdown =>
      ClosedShutdown(m);
    case EvAcquire(owner, parentLane) =>
      ClosedAcquire(m, owner, parentLane);
    case _ =>
      SameLanesStayClosed(m, Step(m, e));
  }

  lemma ClosedAcquire(m: Manager, owner: Owner, parentLane: Option<LaneName>)
    requires Shape(m) && HasSharedLanes(m) && Closing(m, m)
    ensures Acquire(m, owner, parentLane) == (m, Busy)
  {
    hide PromoteForAcquire, Place;
  }

  lemma SameLanesStayClosed(m: Manager, after: Manager)
    requires Shape(m) && Shape(after) && Closing(m, m)
    requires after.lanes == m.lanes && after.closed && after.active == m.active && after.pending == m.pending
    ensures Closing(m, after)
  {
  }

  lemma ClosedFail(m: Manager, o: OwnerId)
    requires Shape(m) && Closing(m, m) && o < |m.phase|
    ensures Closing(m, Fail(m, o))
  {
    hide Vacate;
    ClosedVacate(m, o);
  }

  lemma ClosedLeave(m: Manager, o: OwnerId)
    requires Shape(m) && Closing(m, m) && o < |m.phase|
    ensures Closing(m, Leave(m, o))
  {
    hide Vacate;
    var released := m.(life := m.life[o := m.life[o].(released := true)]);
    ClosedVacate(released, o);
  }

  lemma ClosedShutdown(m: Manager)
    requires Shape(m) && Closing(m, m)
    ensures Closing(m, Shutdown(m))
  {
    hide RefuseAll, AllEmpty;
  }

  lemma ClosedVacate(m: Manager, o: OwnerId)
    requires Shape(m) && Closing(m, m) && o < |m.phase|
    ensures Closing(m, Vacate(m, o))
  {
    hide PromoteLane, Depart, AllEmpty, Closing;
    var lane := m.owners[o].lane;
    var s := Depart(LaneOf(m, lane), o);
    ClosedLaneEmpties(m, o);
    NothingToPromote(m.lanes[lane].limit, s, m.now, m.closed);
    ClosedExcept(m, Vacate(m, o), lane, s.active);
  }

  lemma ClosedLaneEmpties(m: Manager, o: OwnerId)
    requires Shape(m) && Closing(m, m) && o < |m.phase|
    ensures var lane := m.owners[o].lane; var s := Depart(LaneOf(m, lane), o);
            s.queue == [] && s.active <= m.active[lane] && m.closed
  {
  }

  lemma NothingToPromote(limit: nat, s: LaneState, now: real, closed: bool)
    requires s.queue == []
    ensures PromoteLane(limit, s, now, closed) == s
  {
  }

  lemma ClosedExcept(m: Manager, after: Manager, lane: LaneName, active: set<OwnerId>)
    requires Shape(m) && Shape(after) && Closing(m, m) && lane in m.lanes && active <= m.active[lane]
    requires after.lanes == m.lanes && after.closed == m.closed
    requires after.active == m.active[lane := active] && after.pending == m.pending[lane := []]
    ensures Closing(m, after)
  {
  }

  /** From the moment shutdown has begun, along every run: queues stay empty, active sets only shrink,
      and acquisitions are refused. */
  lemma {:induction false} NothingIsAdmittedAfterShutdown(m: Manager, events: seq<Event>)
    requires Shape(m) && HasSharedLanes(m) && Inv(m) && m.closed
    ensures Closing(m, Run(m, events))
    ensures forall owner, parentLane :: Acquire(Run(m, events), owner, parentLane) == (Run(m, events), Busy)
  {
    hide Inv, Step;
    ClosedQueuesAreEmpty(m);
    if events != [] {
      var front := events[..|events| - 1];
      NothingIsAdmittedAfterShutdown(m, front);
      ClosedStep(Run(m, front), events[|events| - 1]);
    }
  }

  /** When the drained event lets shutdown return, every lane is empty, and stays so. */
  lemma ShutdownReturnsEmpty(m: Manager, later: seq<Event>)
    requires Reachable(m) && m.closed && m.drained
    ensures AllEmpty(Run(m, later))
  {
    hide Reachable, Run, Core;
    ReachableInv(m);
    NothingIsAdmittedAfterShutdown(m, later);
  }
}
