/** What every step of every interleaving of the admission manager keeps. */
module AdmissionInvariant {
  import opened Common
  import opened Admission

  // -------- the invariant --------

  /** In order of arrival, and because the wait of a lane is fixed and the clock monotone, of deadline. */
  ghost predicate Sorted(q: seq<Ticket>) {
    forall i, j :: 0 <= i < j < |q| ==> q[i].owner < q[j].owner && q[i].deadline <= q[j].deadline
  }

  /** A lane within its bounds; strict adds that only a full lane has a queue. */
  ghost predicate LaneOk(spec: LaneSpec, active: set<OwnerId>, q: seq<Ticket>, now: real, closed: bool, strict: bool) {
    && |active| <= spec.limit && |q| <= spec.pending
    && (strict && q != [] ==> |active| == spec.limit)
    && (closed ==> q == [])
    && Sorted(q)
    && (forall t :: t in q ==> t.deadline <= now + spec.wait)
  }

  ghost predicate LanesOk(m: Manager, weak: Option<LaneName>)
    requires Shape(m)
  {
    forall l :: l in m.lanes ==> LaneOk(m.lanes[l], m.active[l], m.pending[l], m.now, m.closed, weak != Some(l))
  }

  predicate Occupies(p: Phase) {
    p == Granted || p == Entered
  }

  predicate Present(p: Phase) {
    p == Queued || Occupies(p)
  }

  /** The owner has a ticket among those at positions i to j. */
  ghost predicate Between(q: seq<Ticket>, i: int, j: int, o: OwnerId) {
    exists x :: 0 <= i <= x < j <= |q| && q[x].owner == o
  }

  ghost predicate IsQueued(q: seq<Ticket>, o: OwnerId) {
    Between(q, 0, |q|, o)
  }

  /** Phases say exactly who is active and who is queued in a lane. */
  ghost predicate LaneAgrees(owners: seq<Owner>, lane: LaneName, s: LaneState)
    requires |owners| == |s.phase|
  {
    && (forall o: OwnerId :: o in s.active <==> o < |owners| && owners[o].lane == lane && Occupies(s.phase[o]))
    && (forall o: OwnerId :: IsQueued(s.queue, o) <==> o < |owners| && owners[o].lane == lane && s.phase[o] == Queued)
  }

  ghost predicate Agrees(m: Manager)
    requires Shape(m)
  {
    forall l :: l in m.lanes ==> LaneAgrees(m.owners, l, LaneOf(m, l))
  }

  /** No two owners of one account are active or queued in lanes that exclude each other. */
  ghost predicate ExclusiveOwners(owners: seq<Owner>, phase: seq<Phase>)
    requires |owners| == |phase|
  {
    forall o, p :: 0 <= o < p < |owners| && Present(phase[o]) && Present(phase[p])
      && Group(owners[o].lane) == Group(owners[p].lane) && Key(owners[o]).Some?
      ==> Key(owners[o]) != Key(owners[p])
  }

  ghost predicate Exclusive(m: Manager)
    requires Shape(m)
  {
    ExclusiveOwners(m.owners, m.phase)
  }

  ghost predicate SpecsOk(lanes: map<LaneName, LaneSpec>) {
    && Navigation in lanes && Foreground in lanes
    && forall l :: l in lanes ==> lanes[l].limit >= 1 && lanes[l].wait >= 0.0
  }

  ghost predicate Core(m: Manager, weak: Option<LaneName>) {
    Shape(m) && SpecsOk(m.lanes) && LanesOk(m, weak) && Agrees(m) && Exclusive(m)
  }

  ghost predicate Inv(m: Manager) {
    Core(m, None) && (m.drained <==> AllEmpty(m))
  }

  /** The invariant by its parts, lane by lane. */
  ghost predicate Parts(m: Manager)
    requires Shape(m)
  {
    && SpecsOk(m.lanes) && ExclusiveOwners(m.owners, m.phase)
    && forall l :: l in m.lanes ==>
         && LaneAgrees(m.owners, l, LaneOf(m, l))
         && LaneOk(m.lanes[l], m.active[l], m.pending[l], m.now, m.closed, true)
  }

  lemma InvByParts(m: Manager)
    requires Shape(m)
    ensures Inv(m) <==> Parts(m) && (m.drained <==> AllEmpty(m))
  {
    hide LaneOk, LaneAgrees, ExclusiveOwners, AllEmpty, SpecsOk;
  }

  // -------- one lane: the two loops of _promote in closed form --------

  function DeadPrefix(q: seq<Ticket>, now: real, closed: bool): (k: nat)
    ensures k <= |q|
  {
    if q == [] || !Dead(q[0], now, closed) then 0 else 1 + DeadPrefix(q[1..], now, closed)
  }

  /** The expired tickets are a prefix of the queue. */
  lemma {:induction false} ExpiredTicketsAreAPrefix(q: seq<Ticket>, now: real, closed: bool)
    requires Sorted(q)
    ensures var k := DeadPrefix(q, now, closed);
            && Surviving(q, now, closed) == q[k..]
            && (forall i :: 0 <= i < k ==> Dead(q[i], now, closed))
            && (forall i :: k <= i < |q| ==> !Dead(q[i], now, closed))
  {
    if q != [] {
      assert Sorted(q[1..]);
      ExpiredTicketsAreAPrefix(q[1..], now, closed);
      if !Dead(q[0], now, closed) {
        assert DeadPrefix(q[1..], now, closed) == 0 by {
          if |q| > 1 {
            assert q[0].deadline <= q[1].deadline;
          }
        }
        assert q == [q[0]] + q[1..];
        forall i | 0 <= i < |q|
          ensures !Dead(q[i], now, closed)
        {
          assert i > 0 ==> q[0].deadline <= q[i].deadline;
        }
      } else {
        var k := DeadPrefix(q[1..], now, closed);
        assert q[1..][k..] == q[k + 1..];
        forall i | 0 <= i < |q|
          ensures i < k + 1 <==> Dead(q[i], now, closed)
        {
          assert i > 0 ==> q[i] == q[1..][i - 1];
        }
      }
    }
  }

  lemma {:induction false} RefuseAt(phase: seq<Phase>, q: seq<Ticket>, now: real, closed: bool, o: OwnerId)
    requires Known(q, |phase|) && o < |phase|
    ensures Refuse(phase, q, now, closed)[o]
         == if exists t :: t in q && Dead(t, now, closed) && t.owner == o then Refused else phase[o]
    decreases |q|
  {
    if q != [] {
      assert forall t :: t in q <==> t == q[0] || t in q[1..];
      RefuseAt(if Dead(q[0], now, closed) then phase[q[0].owner := Refused] else phase, q[1..], now, closed, o);
    }
  }

  function Slots(limit: nat, active: set<OwnerId>, q: seq<Ticket>): (n: nat)
    ensures n <= |q|
  {
    if |active| >= limit then 0 else if limit - |active| <= |q| then limit - |active| else |q|
  }

  /** Dead tickets are refused, then the oldest live ones fill the free slots; nobody else is touched. */
  ghost predicate PromotedAs(s: LaneState, after: LaneState, k: nat, n: nat)
    requires k + n <= |s.queue| && |after.phase| == |s.phase|
  {
    && after.queue == s.queue[k + n..]
    && |after.active| == |s.active| + n
    && (forall o: OwnerId :: o in after.active <==> o in s.active || Between(s.queue, k, k + n, o))
    && forall o :: 0 <= o < |s.phase| ==>
         after.phase[o] == if Between(s.queue, 0, k, o) then Refused
                           else if Between(s.queue, k, k + n, o) then Granted else s.phase[o]
  }

  ghost predicate Apart(s: LaneState) {
    forall t :: t in s.queue ==> t.owner !in s.active
  }

  lemma {:induction false} FillClosedForm(limit: nat, s: LaneState)
    requires Known(s.queue, |s.phase|) && Sorted(s.queue) && Apart(s)
    ensures PromotedAs(s, Fill(limit, s), 0, Slots(limit, s.active, s.queue))
    decreases |s.queue|
  {
    hide PromotedAs, Sorted, Apart;
    var q := s.queue;
    if q != [] && |s.active| < limit {
      var next := LaneState(s.active + {q[0].owner}, q[1..], s.phase[q[0].owner := Granted]);
      StillApart(s);
      FillClosedForm(limit, next);
      FillStep(s, next, Fill(limit, next), Slots(limit, s.active, q) - 1);
    } else {
      NothingPromoted(s);
    }
  }

  lemma NothingPromoted(s: LaneState)
    ensures PromotedAs(s, s, 0, 0)
  {
  }

  lemma StillApart(s: LaneState)
    requires s.queue != [] && Sorted(s.queue) && Apart(s)
    ensures Sorted(s.queue[1..]) && s.queue[0].owner !in s.active
    ensures Apart(LaneState(s.active + {s.queue[0].owner}, s.queue[1..], s.phase))
    ensures forall phase :: Apart(LaneState(s.active + {s.queue[0].owner}, s.queue[1..], phase))
  {
    var q, rest := s.queue, s.queue[1..];
    assert q[0] in q;
    forall t | t in rest
      ensures t.owner !in s.active + {q[0].owner}
    {
      var i :| 0 <= i < |rest| && rest[i] == t;
      assert q[i + 1] == t && q[0].owner < q[i + 1].owner;
    }
  }

  lemma FillStep(s: LaneState, next: LaneState, after: LaneState, n: nat)
    requires s.queue != [] && n + 1 <= |s.queue| && s.queue[0].owner < |s.phase| && |after.phase| == |s.phase|
    requires s.queue[0].owner !in s.active
    requires next == LaneState(s.active + {s.queue[0].owner}, s.queue[1..], s.phase[s.queue[0].owner := Granted])
    requires PromotedAs(next, after, 0, n)
    ensures PromotedAs(s, after, 0, n + 1)
  {
    var q := s.queue;
    assert q[1..][n..] == q[n + 1..];
    forall o: OwnerId
      ensures Between(q, 0, n + 1, o) <==> o == q[0].owner || Between(next.queue, 0, n, o)
    {
      if Between(next.queue, 0, n, o) {
        var x :| 0 <= x < n && next.queue[x].owner == o;
        assert q[x + 1].owner == o;
      }
      if Between(q, 0, n + 1, o) {
        var x :| 0 <= x < n + 1 && q[x].owner == o;
        assert x > 0 ==> next.queue[x - 1].owner == o;
      }
    }
  }

  lemma RefuseClosedForm(phase: seq<Phase>, q: seq<Ticket>, now: real, closed: bool, o: OwnerId)
    requires Known(q, |phase|) && Sorted(q) && o < |phase|
    ensures Refuse(phase, q, now, closed)[o]
         == if Between(q, 0, DeadPrefix(q, now, closed), o) then Refused else phase[o]
  {
    RefuseAt(phase, q, now, closed, o);
    ExpiredTicketsAreAPrefix(q, now, closed);
    if Between(q, 0, DeadPrefix(q, now, closed), o) {
      var x :| 0 <= x < DeadPrefix(q, now, closed) && q[x].owner == o;
      assert q[x] in q;
    }
  }

  lemma PromoteLaneClosedForm(limit: nat, s: LaneState, now: real, closed: bool)
    requires Known(s.queue, |s.phase|) && Sorted(s.queue) && Apart(s)
    ensures var k := DeadPrefix(s.queue, now, closed);
            PromotedAs(s, PromoteLane(limit, s, now, closed), k, Slots(limit, s.active, s.queue[k..]))
  {
    hide DeadPrefix, Surviving, Refuse, Fill, PromotedAs, Dead, Between;
    var q := s.queue;
    var k := DeadPrefix(q, now, closed);
    ExpiredTicketsAreAPrefix(q, now, closed);
    var mid := LaneState(s.active, q[k..], Refuse(s.phase, q, now, closed));
    SortedTail(q, k);
    FillClosedForm(limit, mid);
    forall o | 0 <= o < |s.phase|
      ensures mid.phase[o] == if Between(q, 0, k, o) then Refused else s.phase[o]
    {
      RefuseClosedForm(s.phase, q, now, closed, o);
    }
    RefuseThenFill(s, mid, PromoteLane(limit, s, now, closed), k, Slots(limit, s.active, q[k..]));
  }

  lemma RefuseThenFill(s: LaneState, mid: LaneState, after: LaneState, k: nat, n: nat)
    requires k + n <= |s.queue| && |after.phase| == |s.phase| == |mid.phase| && Sorted(s.queue)
    requires mid.active == s.active && mid.queue == s.queue[k..]
    requires forall o :: 0 <= o < |s.phase| ==>
               mid.phase[o] == if Between(s.queue, 0, k, o) then Refused else s.phase[o]
    requires PromotedAs(mid, after, 0, n)
    ensures PromotedAs(s, after, k, n)
  {
    var q := s.queue;
    assert q[k..][n..] == q[k + n..];
    forall o: OwnerId
      ensures Between(q, k, k + n, o) <==> Between(mid.queue, 0, n, o)
      ensures !(Between(q, 0, k, o) && Between(q, k, k + n, o))
    {
      if Between(mid.queue, 0, n, o) {
        var x :| 0 <= x < n && mid.queue[x].owner == o;
        assert q[x + k].owner == o;
      }
      if Between(q, k, k + n, o) {
        var x :| k <= x < k + n && q[x].owner == o;
        assert mid.queue[x - k].owner == o;
      }
    }
  }

  // -------- one lane of the manager --------

  /** A change of one lane that concerns its own owners only and lets nobody new in. */
  ghost predicate LaneChange(owners: seq<Owner>, lane: LaneName, before: LaneState, after: LaneState)
    requires |owners| == |before.phase| == |after.phase|
  {
    forall o :: 0 <= o < |owners| ==>
      (after.phase[o] != before.phase[o] ==> owners[o].lane == lane)
      && (Present(after.phase[o]) ==> Present(before.phase[o]))
  }

  lemma OtherLaneAgrees(owners: seq<Owner>, lane: LaneName, l: LaneName, s: LaneState, phase: seq<Phase>)
    requires |owners| == |s.phase| == |phase| && LaneAgrees(owners, l, s) && l != lane
    requires forall o :: 0 <= o < |owners| && phase[o] != s.phase[o] ==> owners[o].lane == lane
    ensures LaneAgrees(owners, l, LaneState(s.active, s.queue, phase))
  {
  }

  lemma WithLaneKeepsCore(m: Manager, lane: LaneName, s: LaneState, weak: Option<LaneName>, weak': Option<LaneName>)
    requires Core(m, weak) && lane in m.lanes
    requires weak in {None, Some(lane)} && weak' in {None, Some(lane)}
    requires |s.phase| == |m.phase| && Known(s.queue, |s.phase|)
    requires LaneOk(m.lanes[lane], s.active, s.queue, m.now, m.closed, weak' == None)
    requires LaneAgrees(m.owners, lane, s)
    requires LaneChange(m.owners, lane, LaneOf(m, lane), s)
    ensures Core(WithLane(m, lane, s), weak')
  {
    hide LaneOk, LaneAgrees, ExclusiveOwners, PromoteLane;
    var after := WithLane(m, lane, s);
    forall l | l in m.lanes
      ensures LaneAgrees(after.owners, l, LaneOf(after, l))
      ensures LaneOk(after.lanes[l], after.active[l], after.pending[l], after.now, after.closed, weak' != Some(l))
    {
      if l != lane {
        OtherLaneAgrees(m.owners, lane, l, LaneOf(m, l), s.phase);
      }
    }
    ExclusiveWithFewer(m.owners, m.phase, s.phase);
  }

  lemma ExclusiveWithFewer(owners: seq<Owner>, phase: seq<Phase>, after: seq<Phase>)
    requires |owners| == |phase| == |after| && ExclusiveOwners(owners, phase)
    requires forall o :: 0 <= o < |owners| && Present(after[o]) ==> Present(phase[o])
    ensures ExclusiveOwners(owners, after)
  {
  }

  lemma ApartByPhase(owners: seq<Owner>, lane: LaneName, s: LaneState)
    requires |owners| == |s.phase| && LaneAgrees(owners, lane, s)
    ensures Apart(s)
  {
    forall t | t in s.queue
      ensures t.owner !in s.active
    {
      var x :| 0 <= x < |s.queue| && s.queue[x] == t;
      assert IsQueued(s.queue, t.owner);
    }
  }

  lemma PromotedAgrees(owners: seq<Owner>, lane: LaneName, s: LaneState, after: LaneState, k: nat, n: nat)
    requires |owners| == |s.phase| == |after.phase| && LaneAgrees(owners, lane, s) && Sorted(s.queue)
    requires k + n <= |s.queue| && PromotedAs(s, after, k, n)
    ensures LaneAgrees(owners, lane, after)
    ensures LaneChange(owners, lane, s, after)
  {
    var q := s.queue;
    forall o: OwnerId
      ensures o in after.active <==> o < |owners| && owners[o].lane == lane && Occupies(after.phase[o])
      ensures IsQueued(after.queue, o) <==> o < |owners| && owners[o].lane == lane && after.phase[o] == Queued
      ensures o < |owners| && after.phase[o] != s.phase[o] ==> owners[o].lane == lane && Present(s.phase[o])
    {
      hide Between, IsQueued, Sorted;
      ThreeParts(q, k, k + n, o);
      assert o in s.active <==> o < |owners| && owners[o].lane == lane && Occupies(s.phase[o]);
      assert IsQueued(q, o) <==> o < |owners| && owners[o].lane == lane && s.phase[o] == Queued;
    }
  }

  lemma ThreeParts(q: seq<Ticket>, i: nat, j: nat, o: OwnerId)
    requires Sorted(q) && i <= j <= |q|
    ensures IsQueued(q, o) <==> Between(q, 0, i, o) || Between(q, i, j, o) || IsQueued(q[j..], o)
    ensures IsQueued(q[j..], o) ==> !Between(q, 0, i, o) && !Between(q, i, j, o)
    ensures !(Between(q, 0, i, o) && Between(q, i, j, o))
  {
    var rest := q[j..];
    if IsQueued(rest, o) {
      var x :| 0 <= x < |rest| && rest[x].owner == o;
      assert q[x + j].owner == o;
    }
    if IsQueued(q, o) {
      var x :| 0 <= x < |q| && q[x].owner == o;
      assert x >= j ==> rest[x - j].owner == o;
    }
  }

  function DeadIn(m: Manager, lane: LaneName): nat
    requires Shape(m) && lane in m.lanes
  {
    DeadPrefix(m.pending[lane], m.now, m.closed)
  }

  function FreedFor(m: Manager, lane: LaneName): nat
    requires Shape(m) && lane in m.lanes
  {
    Slots(m.lanes[lane].limit, m.active[lane], m.pending[lane][DeadIn(m, lane)..])
  }

  /** _promote of a lane refuses its expired tickets and admits the oldest live ones, as many as fit. */
  lemma PromoteTakesTheOldest(m: Manager, lane: LaneName, weak: Option<LaneName>)
    requires Core(m, weak) && lane in m.lanes
    ensures PromotedAs(LaneOf(m, lane), LaneOf(Promote(m, lane), lane), DeadIn(m, lane), FreedFor(m, lane))
  {
    ApartByPhase(m.owners, lane, LaneOf(m, lane));
    PromoteLaneClosedForm(m.lanes[lane].limit, LaneOf(m, lane), m.now, m.closed);
  }

  lemma PromotedLaneOk(spec: LaneSpec, s: LaneState, after: LaneState, now: real, closed: bool)
    requires LaneOk(spec, s.active, s.queue, now, closed, false) && |after.phase| == |s.phase|
    requires var k := DeadPrefix(s.queue, now, closed);
             PromotedAs(s, after, k, Slots(spec.limit, s.active, s.queue[k..]))
    ensures LaneOk(spec, after.active, after.queue, now, closed, true)
  {
    hide DeadPrefix, Between, Sorted;
    var k := DeadPrefix(s.queue, now, closed);
    var j := k + Slots(spec.limit, s.active, s.queue[k..]);
    SortedTail(s.queue, j);
  }

  lemma SortedTail(q: seq<Ticket>, j: nat)
    requires Sorted(q) && j <= |q|
    ensures Sorted(q[j..]) && forall t :: t in q[j..] ==> t in q
  {
  }

  /** Promotion restores the rule that only a full lane has a queue. */
  lemma PromoteKeepsCore(m: Manager, lane: LaneName, weak: Option<LaneName>)
    requires Core(m, weak) && lane in m.lanes && weak in {None, Some(lane)}
    ensures Core(Promote(m, lane), None)
  {
    var before := LaneOf(m, lane);
    var after := PromoteLane(m.lanes[lane].limit, before, m.now, m.closed);
    ApartByPhase(m.owners, lane, before);
    PromoteLaneClosedForm(m.lanes[lane].limit, before, m.now, m.closed);
    PromotedAgrees(m.owners, lane, before, after, DeadIn(m, lane), FreedFor(m, lane));
    assert LaneOk(m.lanes[lane], before.active, before.queue, m.now, m.closed, false);
    PromotedLaneOk(m.lanes[lane], before, after, m.now, m.closed);
    WithLaneKeepsCore(m, lane, after, weak, None);
  }

  // -------- leaving a lane --------

  lemma SortedCons(t: Ticket, q: seq<Ticket>)
    requires Sorted(q)
    requires forall j :: 0 <= j < |q| ==> t.owner < q[j].owner && t.deadline <= q[j].deadline
    ensures Sorted([t] + q)
  {
  }

  lemma {:induction false} WithoutOwnerKeepsOrder(q: seq<Ticket>, o: OwnerId)
    requires Sorted(q)
    ensures Sorted(WithoutOwner(q, o)) && |WithoutOwner(q, o)| <= |q|
  {
    if q != [] {
      var rest := WithoutOwner(q[1..], o);
      assert Sorted(q[1..]);
      WithoutOwnerKeepsOrder(q[1..], o);
      if q[0].owner != o {
        forall j | 0 <= j < |rest|
          ensures q[0].owner < rest[j].owner && q[0].deadline <= rest[j].deadline
        {
          assert rest[j] in rest;
          var i :| 0 <= i < |q[1..]| && q[1..][i] == rest[j];
          assert q[i + 1] == rest[j];
        }
        SortedCons(q[0], rest);
      }
    }
  }

  lemma {:induction false} WithoutOwnerKeepsOthers(q: seq<Ticket>, o: OwnerId, t: Ticket)
    ensures t in WithoutOwner(q, o) <==> t in q && t.owner != o
  {
    if q != [] {
      WithoutOwnerKeepsOthers(q[1..], o, t);
      assert t in q <==> t == q[0] || t in q[1..];
    }
  }

  lemma QueuedByMembership(q: seq<Ticket>, o: OwnerId)
    ensures IsQueued(q, o) <==> exists t :: t in q && t.owner == o
  {
    if t :| t in q && t.owner == o {
      var x :| 0 <= x < |q| && q[x] == t;
    }
    if IsQueued(q, o) {
      var x :| 0 <= x < |q| && q[x].owner == o;
      assert q[x] in q;
    }
  }

  lemma DepartAgrees(owners: seq<Owner>, lane: LaneName, s: LaneState, o: OwnerId)
    requires |owners| == |s.phase| && LaneAgrees(owners, lane, s) && Known(s.queue, |s.phase|)
    requires o < |owners| && owners[o].lane == lane
    ensures LaneAgrees(owners, lane, Depart(s, o))
    ensures LaneChange(owners, lane, s, Depart(s, o))
  {
    var after := Depart(s, o);
    forall p: OwnerId
      ensures IsQueued(after.queue, p) <==> IsQueued(s.queue, p) && p != o
    {
      QueuedByMembership(s.queue, p);
      QueuedByMembership(after.queue, p);
      if t :| t in s.queue && t.owner == p && p != o {
        WithoutOwnerKeepsOthers(s.queue, o, t);
      }
      if t :| t in after.queue && t.owner == p {
        WithoutOwnerKeepsOthers(s.queue, o, t);
      }
    }
  }

  lemma DepartLaneOk(spec: LaneSpec, s: LaneState, o: OwnerId, now: real, closed: bool)
    requires LaneOk(spec, s.active, s.queue, now, closed, true) && o < |s.phase| && Known(s.queue, |s.phase|)
    ensures LaneOk(spec, Depart(s, o).active, Depart(s, o).queue, now, closed, false)
  {
    WithoutOwnerKeepsOrder(s.queue, o);
  }

  lemma DepartKeepsCore(m: Manager, o: OwnerId)
    requires Core(m, None) && o < |m.owners|
    ensures var lane := m.owners[o].lane;
            Core(WithLane(m, lane, Depart(LaneOf(m, lane), o)), Some(lane))
  {
    var lane := m.owners[o].lane;
    var s := LaneOf(m, lane);
    DepartAgrees(m.owners, lane, s, o);
    assert LaneOk(m.lanes[lane], s.active, s.queue, m.now, m.closed, true);
    DepartLaneOk(m.lanes[lane], s, o, m.now, m.closed);
    WithLaneKeepsCore(m, lane, Depart(s, o), None, Some(lane));
  }

  lemma DepartFromEmpty(m: Manager, o: OwnerId)
    requires Shape(m) && o < |m.owners| && AllEmpty(m)
    ensures AllEmpty(WithLane(m, m.owners[o].lane, Depart(LaneOf(m, m.owners[o].lane), o)))
  {
  }

  lemma VacateKeepsDrained(m: Manager, o: OwnerId)
    requires Shape(m) && o < |m.owners| && (m.drained <==> AllEmpty(m))
    ensures Vacate(m, o).drained <==> AllEmpty(Vacate(m, o))
  {
    hide PromoteLane, WithoutOwner;
    var lane := m.owners[o].lane;
    if AllEmpty(m) {
      DepartFromEmpty(m, o);
      EmptyStaysEmpty(WithLane(m, lane, Depart(LaneOf(m, lane), o)), lane);
    }
  }

  lemma VacateKeepsInv(m: Manager, o: OwnerId)
    requires Shape(m) && Inv(m) && o < |m.owners|
    ensures Inv(Vacate(m, o))
  {
    hide Core, Depart, Promote, AllEmpty;
    var lane := m.owners[o].lane;
    DepartKeepsCore(m, o);
    var left := WithLane(m, lane, Depart(LaneOf(m, lane), o));
    PromoteKeepsCore(left, lane, Some(lane));
    VacateKeepsDrained(m, o);
    DrainedKeepsCore(Promote(left, lane));
  }

  lemma DrainedKeepsCore(m: Manager)
    requires Core(m, None)
    ensures Core(UpdateDrained(m), None)
  {
    hide LaneOk, LaneAgrees, ExclusiveOwners, AllEmpty;
  }

  lemma EmptyStaysEmpty(m: Manager, lane: LaneName)
    requires Shape(m) && lane in m.lanes && AllEmpty(m)
    ensures AllEmpty(Promote(m, lane))
  {
    assert m.pending[lane] == [] && m.active[lane] == {};
    var s := LaneOf(m, lane);
    assert PromoteLane(m.lanes[lane].limit, s, m.now, m.closed) == s;
  }

  lemma PromoteKeepsActive(m: Manager, lane: LaneName)
    requires Core(m, None) && lane in m.lanes
    ensures m.active[lane] <= Promote(m, lane).active[lane]
  {
    hide LaneOk, LaneAgrees, ExclusiveOwners, Promote;
    PromoteTakesTheOldest(m, lane, None);
  }

  lemma QueueStandsBehindOwners(m: Manager, lane: LaneName)
    requires Core(m, None) && lane in m.lanes && m.active[lane] == {}
    ensures m.pending[lane] == []
  {
    hide Agrees, ExclusiveOwners;
    assert LaneOk(m.lanes[lane], m.active[lane], m.pending[lane], m.now, m.closed, true);
  }

  /** In a manager that obeys the invariant promotion can empty nothing: a queue stands behind active owners. */
  lemma PromoteNeverEmpties(m: Manager, lane: LaneName)
    requires Core(m, None) && lane in m.lanes
    ensures AllEmpty(Promote(m, lane)) <==> AllEmpty(m)
  {
    hide LaneOk, LaneAgrees, ExclusiveOwners, PromoteLane;
    if AllEmpty(m) {
      EmptyStaysEmpty(m, lane);
    } else {
      PromoteKeepsActive(m, lane);
      if m.active[lane] == {} {
        QueueStandsBehindOwners(m, lane);
      }
      OthersStay(m, Promote(m, lane), lane);
    }
  }

  lemma OthersStay(m: Manager, after: Manager, lane: LaneName)
    requires Shape(m) && Shape(after) && lane in m.lanes && after.lanes == m.lanes
    requires forall l :: l in m.lanes && l != lane ==> after.active[l] == m.active[l] && after.pending[l] == m.pending[l]
    requires m.active[lane] <= after.active[lane] && (m.active[lane] == {} ==> m.pending[lane] == [])
    requires !AllEmpty(m)
    ensures !AllEmpty(after)
  {
    if m.active[lane] == {} {
      if l :| l in m.active && m.active[l] != {} {
        assert l != lane && after.active[l] == m.active[l];
      } else {
        var l :| l in m.pending && m.pending[l] != [];
        assert l != lane && after.pending[l] == m.pending[l];
      }
    }
  }

  lemma PromoteKeepsInv(m: Manager, lane: LaneName)
    requires Inv(m) && lane in m.lanes
    ensures Inv(Promote(m, lane))
  {
    hide LaneOk, LaneAgrees, ExclusiveOwners, PromoteLane;
    PromoteKeepsCore(m, lane, None);
    PromoteNeverEmpties(m, lane);
  }

  // -------- arriving --------

  lemma HoldsIntro(owners: seq<Owner>, ids: set<OwnerId>, o: OwnerId)
    requires o in ids && o < |owners| && Key(owners[o]).Some?
    ensures Holds(owners, ids, Key(owners[o]).value)
  {
  }

  lemma HoldsTicketIntro(owners: seq<Owner>, q: seq<Ticket>, o: OwnerId)
    requires IsQueued(q, o) && o < |owners| && Key(owners[o]).Some?
    ensures HoldsTicket(owners, q, Key(owners[o]).value)
  {
    QueuedByMembership(q, o);
  }

  /** A free account has no owner present in the lanes that exclude it. */
  lemma FreeAccount(m: Manager, lane: LaneName, account: int, o: OwnerId)
    requires Core(m, None) && !AccountIsTaken(m, lane, account)
    requires o < |m.owners| && Present(m.phase[o]) && Group(m.owners[o].lane) == Group(lane)
    ensures Key(m.owners[o]) != Some(account)
  {
    hide LaneOk, ExclusiveOwners;
    var l := m.owners[o].lane;
    assert LaneAgrees(m.owners, l, LaneOf(m, l));
    if Key(m.owners[o]).Some? {
      if Occupies(m.phase[o]) {
        HoldsIntro(m.owners, m.active[l], o);
      } else {
        HoldsTicketIntro(m.owners, m.pending[l], o);
      }
    }
  }

  lemma NewcomerIsExclusive(m: Manager, owner: Owner, phase: Phase)
    requires Core(m, None)
    requires Key(owner).Some? ==> !AccountIsTaken(m, owner.lane, Key(owner).value)
    ensures ExclusiveOwners(m.owners + [owner], m.phase + [phase])
  {
    hide LanesOk, Agrees, ExclusiveOwners, AccountIsTaken, SpecsOk, Group, Key;
    forall o | 0 <= o < |m.owners| && Present(m.phase[o]) && Group(m.owners[o].lane) == Group(owner.lane) && Key(owner).Some?
      ensures Key(m.owners[o]) != Key(owner)
    {
      FreeAccount(m, owner.lane, Key(owner).value, o);
    }
    OneMoreExclusive(m.owners, m.phase, owner, phase);
  }

  lemma OneMoreExclusive(owners: seq<Owner>, phases: seq<Phase>, owner: Owner, phase: Phase)
    requires |owners| == |phases| && ExclusiveOwners(owners, phases)
    requires forall o :: 0 <= o < |owners| && Present(phases[o]) && Group(owners[o].lane) == Group(owner.lane) ==>
               (Key(owner).Some? ==> Key(owners[o]) != Key(owner))
    ensures ExclusiveOwners(owners + [owner], phases + [phase])
  {
    hide Group, Key;
  }

  lemma LaneAgreesWithNewcomer(owners: seq<Owner>, l: LaneName, s: LaneState, owner: Owner, phase: Phase,
        after: LaneState)
    requires |owners| == |s.phase| && LaneAgrees(owners, l, s)
    requires after.phase == s.phase + [phase]
    requires if owner.lane == l && phase == Entered then after.active == s.active + {|owners|} && after.queue == s.queue
             else if owner.lane == l && phase == Queued then
               after.active == s.active && |after.queue| == |s.queue| + 1
               && after.queue[..|s.queue|] == s.queue && after.queue[|s.queue|].owner == |owners|
             else after.active == s.active && after.queue == s.queue && owner.lane != l
    ensures LaneAgrees(owners + [owner], l, after)
  {
    forall o: OwnerId
      ensures IsQueued(after.queue, o) <==> IsQueued(s.queue, o) || (owner.lane == l && phase == Queued && o == |owners|)
    {
      if IsQueued(after.queue, o) {
        var x :| 0 <= x < |after.queue| && after.queue[x].owner == o;
        assert x < |s.queue| ==> s.queue[x].owner == o;
      }
      if IsQueued(s.queue, o) {
        var x :| 0 <= x < |s.queue| && s.queue[x].owner == o;
        assert after.queue[x].owner == o;
      }
    }
  }

  lemma OneMoreActive(spec: LaneSpec, s: LaneState, now: real, o: OwnerId)
    requires LaneOk(spec, s.active, s.queue, now, false, true) && s.queue == [] && |s.active| < spec.limit
    ensures LaneOk(spec, s.active + {o}, s.queue, now, false, true)
  {
  }

  lemma AdmitKeepsInv(m: Manager, owner: Owner)
    requires Inv(m) && !m.closed && owner.lane in m.lanes
    requires m.pending[owner.lane] == [] && |m.active[owner.lane]| < m.lanes[owner.lane].limit
    requires Key(owner).Some? ==> !AccountIsTaken(m, owner.lane, Key(owner).value)
    ensures Inv(Admit(m, owner))
  {
    hide LaneAgrees, ExclusiveOwners, LaneOk;
    var after, n := Admit(m, owner), |m.owners|;
    NewcomerIsExclusive(m, owner, Entered);
    forall l | l in m.lanes
      ensures LaneAgrees(after.owners, l, LaneOf(after, l))
      ensures LaneOk(m.lanes[l], after.active[l], after.pending[l], m.now, m.closed, true)
    {
      LaneAgreesWithNewcomer(m.owners, l, LaneOf(m, l), owner, Entered, LaneOf(after, l));
      if l == owner.lane {
        OneMoreActive(m.lanes[l], LaneOf(m, l), m.now, n);
      }
    }
    assert n in after.active[owner.lane];
  }

  lemma EnqueueKeepsInv(m: Manager, owner: Owner)
    requires Inv(m) && !m.closed && owner.lane in m.lanes
    requires |m.pending[owner.lane]| < m.lanes[owner.lane].pending
    requires m.pending[owner.lane] != [] || |m.active[owner.lane]| >= m.lanes[owner.lane].limit
    requires Key(owner).Some? ==> !AccountIsTaken(m, owner.lane, Key(owner).value)
    ensures Inv(Enqueue(m, owner))
  {
    hide LaneAgrees, ExclusiveOwners, LaneOk, Inv, AllEmpty, AccountIsTaken, SpecsOk, Group;
    CoreOfInv(m);
    var after := Enqueue(m, owner);
    InvByParts(m);
    InvByParts(after);
    NewcomerIsExclusive(m, owner, Queued);
    forall l | l in m.lanes
      ensures LaneAgrees(after.owners, l, LaneOf(after, l))
      ensures LaneOk(m.lanes[l], after.active[l], after.pending[l], m.now, m.closed, true)
    {
      if l == owner.lane {
        assert after.pending[l][..|m.pending[l]|] == m.pending[l];
        NewestTicketIsLast(m, l, after.pending[l]);
      }
      LaneAgreesWithNewcomer(m.owners, l, LaneOf(m, l), owner, Queued, LaneOf(after, l));
    }
    SomebodyQueued(after, owner.lane);
  }

  lemma CoreOfInv(m: Manager)
    requires Inv(m)
    ensures Core(m, None)
  {
  }

  lemma SomebodyQueued(m: Manager, lane: LaneName)
    requires Shape(m) && lane in m.lanes && m.pending[lane] != []
    ensures !AllEmpty(m)
  {
  }

  lemma NewestTicketIsLast(m: Manager, lane: LaneName, q: seq<Ticket>)
    requires Shape(m) && lane in m.lanes && !m.closed
    requires LaneOk(m.lanes[lane], m.active[lane], m.pending[lane], m.now, m.closed, true)
    requires LaneAgrees(m.owners, lane, LaneOf(m, lane))
    requires |m.pending[lane]| < m.lanes[lane].pending
    requires m.pending[lane] != [] || |m.active[lane]| >= m.lanes[lane].limit
    requires q == m.pending[lane] + [Ticket(|m.owners|, m.now + m.lanes[lane].wait)]
    ensures LaneOk(m.lanes[lane], m.active[lane], q, m.now, m.closed, true)
  {
    var p := m.pending[lane];
    assert forall i :: 0 <= i < |p| ==> p[i] in p && q[i] == p[i];
  }

  lemma PromoteForAcquireKeepsInv(m: Manager, lane: LaneName)
    requires Shape(m) && HasSharedLanes(m) && Inv(m) && lane in m.lanes
    ensures Inv(PromoteForAcquire(m, lane))
  {
    hide Inv, Shape, Promote;
    if IsShared(lane) {
      PromoteKeepsInv(m, Navigation);
      PromoteKeepsInv(Promote(m, Navigation), Foreground);
    } else {
      PromoteKeepsInv(m, lane);
    }
  }

  lemma PlaceKeepsInv(m: Manager, owner: Owner)
    requires Shape(m) && Inv(m) && !m.closed && owner.lane in m.lanes
    ensures Inv(Place(m, owner).0)
  {
    hide Inv, AccountIsTaken, Admit, Enqueue;
    if Key(owner).Some? ==> !AccountIsTaken(m, owner.lane, Key(owner).value) {
      if m.pending[owner.lane] == [] && |m.active[owner.lane]| < m.lanes[owner.lane].limit {
        AdmitKeepsInv(m, owner);
      } else if |m.pending[owner.lane]| < m.lanes[owner.lane].pending {
        EnqueueKeepsInv(m, owner);
      }
    }
  }

  lemma AcquireKeepsInv(m: Manager, owner: Owner, parentLane: Option<LaneName>)
    requires Shape(m) && HasSharedLanes(m) && Inv(m)
    ensures Inv(Acquire(m, owner, parentLane).0)
  {
    hide Inv, Shape, Place, PromoteForAcquire;
    if !m.closed && owner.lane in m.lanes {
      PromoteForAcquireKeepsInv(m, owner.lane);
      PromoteForAcquireKeepsOpen(m, owner.lane);
      PlaceKeepsInv(PromoteForAcquire(m, owner.lane), owner);
    }
  }

  lemma PromoteForAcquireKeepsOpen(m: Manager, lane: LaneName)
    requires Shape(m) && HasSharedLanes(m) && lane in m.lanes
    ensures PromoteForAcquire(m, lane).closed == m.closed
  {
    hide PromoteLane;
  }

  // -------- every step --------

  lemma SamePresence(owners: seq<Owner>, l: LaneName, s: LaneState, phase: seq<Phase>)
    requires |owners| == |s.phase| == |phase| && LaneAgrees(owners, l, s)
    requires forall o :: 0 <= o < |owners| ==>
               (Occupies(phase[o]) <==> Occupies(s.phase[o])) && (phase[o] == Queued <==> s.phase[o] == Queued)
    ensures LaneAgrees(owners, l, LaneState(s.active, s.queue, phase))
  {
  }

  lemma ClosedLaneAgrees(owners: seq<Owner>, l: LaneName, s: LaneState)
    requires |owners| == |s.phase| && LaneAgrees(owners, l, s)
    ensures LaneAgrees(owners, l, LaneState(s.active, [], RefuseAll(s.phase)))
  {
  }

  lemma SameEmptiness(m: Manager, after: Manager)
    requires Shape(m) && Shape(after) && after.active == m.active && after.pending == m.pending
    ensures AllEmpty(after) <==> AllEmpty(m)
  {
  }

  lemma ResumeKeepsInv(m: Manager, o: OwnerId)
    requires Inv(m) && o < |m.phase|
    ensures Inv(Resume(m, o))
  {
    hide LaneOk, LaneAgrees, ExclusiveOwners;
    if m.phase[o] == Granted {
      var after := Resume(m, o);
      forall l | l in m.lanes
        ensures LaneAgrees(m.owners, l, LaneOf(after, l))
      {
        SamePresence(m.owners, l, LaneOf(m, l), after.phase);
      }
      ExclusiveWithFewer(m.owners, m.phase, after.phase);
      SameEmptiness(m, after);
    }
  }

  lemma ClosedLaneOk(spec: LaneSpec, s: LaneState, now: real, closed: bool)
    requires LaneOk(spec, s.active, s.queue, now, closed, true)
    ensures LaneOk(spec, s.active, [], now, true, true)
  {
  }

  lemma EmptyStaysEmptyOnShutdown(m: Manager)
    requires Shape(m) && (m.drained ==> AllEmpty(m))
    ensures Shutdown(m).drained <==> AllEmpty(Shutdown(m))
  {
  }

  lemma ShutdownKeepsInv(m: Manager)
    requires Inv(m)
    ensures Inv(Shutdown(m))
  {
    hide LaneAgrees, ExclusiveOwners, LaneOk;
    var after := Shutdown(m);
    forall l | l in m.lanes
      ensures LaneAgrees(m.owners, l, LaneOf(after, l))
      ensures LaneOk(after.lanes[l], after.active[l], after.pending[l], after.now, after.closed, true)
    {
      ClosedLaneAgrees(m.owners, l, LaneOf(m, l));
      ClosedLaneOk(m.lanes[l], LaneOf(m, l), m.now, m.closed);
    }
    ExclusiveWithFewer(m.owners, m.phase, after.phase);
    EmptyStaysEmptyOnShutdown(m);
  }

  lemma SameAdmissionKeepsInv(m: Manager, after: Manager)
    requires Inv(m) && Shape(after) && SameAdmission(m, after)
    ensures Inv(after)
  {
    hide LaneOk, LaneAgrees, ExclusiveOwners, PromoteLane;
    forall l | l in m.lanes
      ensures LaneAgrees(after.owners, l, LaneOf(after, l))
    {
      assert LaneAgrees(m.owners, l, LaneOf(m, l));
    }
    assert LanesOk(after, None);
    SameEmptiness(m, after);
  }

  lemma LaterLaneOk(spec: LaneSpec, s: LaneState, now: real, later: real, closed: bool)
    requires LaneOk(spec, s.active, s.queue, now, closed, true) && now <= later
    ensures LaneOk(spec, s.active, s.queue, later, closed, true)
  {
  }

  lemma TickKeepsInv(m: Manager, now: real)
    requires Inv(m)
    ensures Inv(Tick(m, now))
  {
    hide LaneAgrees, ExclusiveOwners, LaneOk, Inv, SpecsOk, AllEmpty;
    assert Shape(m) by { CoreOfInv(m); }
    var after := Tick(m, now);
    InvByParts(m);
    InvByParts(after);
    forall l | l in m.lanes
      ensures LaneAgrees(after.owners, l, LaneOf(after, l))
      ensures LaneOk(after.lanes[l], after.active[l], after.pending[l], after.now, after.closed, true)
    {
      LaterLaneOk(m.lanes[l], LaneOf(m, l), m.now, after.now, m.closed);
    }
    SameEmptiness(m, after);
  }

  lemma FailKeepsInv(m: Manager, o: OwnerId)
    requires Shape(m) && Inv(m) && o < |m.phase|
    ensures Inv(Fail(m, o))
  {
    hide Inv, Vacate;
    VacateKeepsInv(m, o);
  }

  lemma LeaveKeepsInv(m: Manager, o: OwnerId)
    requires Shape(m) && Inv(m) && o < |m.phase|
    ensures Inv(Leave(m, o))
  {
    hide Inv, Vacate;
    var released := m.(life := m.life[o := m.life[o].(released := true)]);
    SameAdmissionKeepsInv(m, released);
    VacateKeepsInv(released, o);
  }

  lemma StepKeepsInv(m: Manager, e: Event)
    requires Shape(m) && HasSharedLanes(m) && Inv(m)
    ensures Inv(Step(m, e))
  {
    hide Inv, SameAdmission, Acquire, Resume, Fail, Leave, Shutdown, Tick, StepLife;
    match e
    case EvAcquire(owner, parentLane) =>
      AcquireKeepsInv(m, owner, parentLane);
    case EvResume(o) =>
      if o < |m.phase| { ResumeKeepsInv(m, o); }
    case EvFail(o) =>
      if o < |m.phase| { FailKeepsInv(m, o); }
    case EvLeave(o) =>
      if o < |m.phase| { LeaveKeepsInv(m, o); }
    case EvShutdown =>
      ShutdownKeepsInv(m);
    case EvTick(now) =>
      TickKeepsInv(m, now);
    case _ =>
      SameAdmissionKeepsInv(m, StepLife(m, e));
  }

  lemma InitialInv(lanes: map<LaneName, LaneSpec>)
    requires SpecsOk(lanes)
    ensures Inv(Initial(lanes))
  {
  }

  /** Every run from the start keeps the invariant. */
  lemma {:induction false} RunKeepsInv(m: Manager, events: seq<Event>)
    requires Inv(m)
    ensures Inv(Run(m, events))
  {
    if events != [] {
      RunKeepsInv(m, events[..|events| - 1]);
      StepKeepsInv(Run(m, events[..|events| - 1]), events[|events| - 1]);
    }
  }
}
