/** The admission manager in the form of app/capacity.py: one object whose methods update queues,
    active sets and lifetimes in place. Every method is tied to a step of the state machine. */
module AdmissionService {
  import opened Common
  import opened Admission
  import opened AdmissionInvariant
  import opened CapacityConfig
  import opened OwnedWork

  // -------- what the loops need --------

  /** All tickets are open and of different owners. */
  ghost predicate Open(q: seq<Ticket>, phase: seq<Phase>) {
    && (forall i :: 0 <= i < |q| ==> q[i].owner < |phase| && phase[q[i].owner] == Queued)
    && (forall i, j :: 0 <= i < j < |q| ==> q[i].owner != q[j].owner)
  }

  lemma QueuesAreOpen(m: Manager, lane: LaneName, weak: Option<LaneName>)
    requires Shape(m) && Core(m, weak) && lane in m.lanes
    ensures Open(m.pending[lane], m.phase)
  {
    hide ExclusiveOwners;
    var q := m.pending[lane];
    assert LaneAgrees(m.owners, lane, LaneOf(m, lane));
    assert LaneOk(m.lanes[lane], m.active[lane], q, m.now, m.closed, weak != Some(lane));
    forall i | 0 <= i < |q|
      ensures q[i].owner < |m.phase| && m.phase[q[i].owner] == Queued
    {
      assert IsQueued(q, q[i].owner);
    }
  }

  /** deque.remove: the first equal element goes. */
  function Removed(q: seq<Ticket>, t: Ticket): (r: seq<Ticket>) {
    if q == [] then [] else if q[0] == t then q[1..] else [q[0]] + Removed(q[1..], t)
  }

  lemma {:induction false} RemovedAfter(front: seq<Ticket>, t: Ticket, rest: seq<Ticket>)
    requires t !in front
    ensures Removed(front + [t] + rest, t) == front + rest
  {
    if front == [] {
      assert front + [t] + rest == [t] + rest;
    } else {
      assert (front + [t] + rest)[1..] == front[1..] + [t] + rest;
      RemovedAfter(front[1..], t, rest);
      assert [front[0]] + (front[1..] + rest) == front + rest;
    }
  }

  /** Where the first loop of _promote stands: before ticket i, with the tickets kept so far. */
  ghost predicate Expiring(tickets: seq<Ticket>, phase0: seq<Phase>, now: real, closed: bool,
                           i: nat, kept: seq<Ticket>, queue: seq<Ticket>, phase: seq<Phase>)
  {
    && i <= |tickets| && queue == kept + tickets[i..]
    && Known(tickets, |phase0|) && Known(tickets[i..], |phase|) && |phase| == |phase0|
    && Open(queue, phase)
    && kept + Surviving(tickets[i..], now, closed) == Surviving(tickets, now, closed)
    && Refuse(phase, tickets[i..], now, closed) == Refuse(phase0, tickets, now, closed)
    && forall t :: t in kept ==> !Dead(t, now, closed)
  }

  lemma ExpiringStarts(tickets: seq<Ticket>, phase: seq<Phase>, now: real, closed: bool)
    requires Known(tickets, |phase|) && Open(tickets, phase)
    ensures Expiring(tickets, phase, now, closed, 0, [], tickets, phase)
  {
    assert tickets[0..] == tickets;
  }

  lemma ExpiringTicket(tickets: seq<Ticket>, phase0: seq<Phase>, now: real, closed: bool,
                       i: nat, kept: seq<Ticket>, queue: seq<Ticket>, phase: seq<Phase>)
    requires Expiring(tickets, phase0, now, closed, i, kept, queue, phase) && i < |tickets|
    ensures tickets[i].owner < |phase| && phase[tickets[i].owner] == Queued
  {
    assert queue[|kept|] == tickets[i];
  }

  lemma ExpiringDrops(tickets: seq<Ticket>, phase0: seq<Phase>, now: real, closed: bool,
                      i: nat, kept: seq<Ticket>, queue: seq<Ticket>, phase: seq<Phase>)
    requires Expiring(tickets, phase0, now, closed, i, kept, queue, phase) && i < |tickets|
    requires Dead(tickets[i], now, closed) && tickets[i].owner < |phase|
    ensures Expiring(tickets, phase0, now, closed, i + 1, kept, Removed(queue, tickets[i]),
                     phase[tickets[i].owner := Refused])
  {
    var ticket, rest := tickets[i], tickets[i + 1..];
    assert tickets[i..] == [ticket] + rest && tickets[i..][1..] == rest;
    assert queue == kept + [ticket] + rest && queue[|kept|] == ticket;
    assert ticket !in kept;
    RemovedAfter(kept, ticket, rest);
    OpenWithout(kept, ticket, rest, phase);
  }

  lemma OpenWithout(kept: seq<Ticket>, ticket: Ticket, rest: seq<Ticket>, phase: seq<Phase>)
    requires Open(kept + [ticket] + rest, phase)
    ensures ticket.owner < |phase| && Open(kept + rest, phase[ticket.owner := Refused])
  {
    var q, r := kept + [ticket] + rest, kept + rest;
    assert q[|kept|] == ticket;
    assert forall i :: 0 <= i < |r| ==> r[i] == q[if i < |kept| then i else i + 1];
  }

  lemma ExpiringKeeps(tickets: seq<Ticket>, phase0: seq<Phase>, now: real, closed: bool,
                      i: nat, kept: seq<Ticket>, queue: seq<Ticket>, phase: seq<Phase>)
    requires Expiring(tickets, phase0, now, closed, i, kept, queue, phase) && i < |tickets|
    requires !Dead(tickets[i], now, closed)
    ensures Expiring(tickets, phase0, now, closed, i + 1, kept + [tickets[i]], queue, phase)
  {
    var ticket, rest := tickets[i], tickets[i + 1..];
    assert tickets[i..] == [ticket] + rest && tickets[i..][1..] == rest;
    assert queue == (kept + [ticket]) + rest;
    assert kept + ([ticket] + Surviving(rest, now, closed)) == (kept + [ticket]) + Surviving(rest, now, closed);
  }

  lemma ExpiringEnds(tickets: seq<Ticket>, phase0: seq<Phase>, now: real, closed: bool,
                     kept: seq<Ticket>, queue: seq<Ticket>, phase: seq<Phase>)
    requires Expiring(tickets, phase0, now, closed, |tickets|, kept, queue, phase)
    ensures Known(tickets, |phase0|) && |phase| == |phase0|
    ensures queue == Surviving(tickets, now, closed) && phase == Refuse(phase0, tickets, now, closed)
    ensures Open(queue, phase) && Known(queue, |phase|) && forall t :: t in queue ==> !Dead(t, now, closed)
  {
    assert tickets[|tickets|..] == [];
  }

  /** Where the second loop of _promote stands. */
  ghost predicate Filling(limit: nat, s0: LaneState, now: real, closed: bool, s: LaneState)
    requires Known(s0.queue, |s0.phase|)
  {
    && Known(s.queue, |s.phase|) && |s.phase| == |s0.phase| && Open(s.queue, s.phase)
    && (forall t :: t in s.queue ==> !Dead(t, now, closed))
    && Fill(limit, s) == Fill(limit, s0)
  }

  function Granting(s: LaneState): LaneState
    requires s.queue != [] && s.queue[0].owner < |s.phase|
  {
    LaneState(s.active + {s.queue[0].owner}, s.queue[1..], s.phase[s.queue[0].owner := Granted])
  }

  lemma FillingStarts(limit: nat, s: LaneState, now: real, closed: bool)
    requires Known(s.queue, |s.phase|) && Open(s.queue, s.phase) && forall t :: t in s.queue ==> !Dead(t, now, closed)
    ensures Filling(limit, s, now, closed, s)
  {
  }

  lemma FillingStep(limit: nat, s0: LaneState, now: real, closed: bool, s: LaneState)
    requires Known(s0.queue, |s0.phase|) && Filling(limit, s0, now, closed, s)
    requires s.queue != [] && |s.active| < limit
    ensures s.queue[0].owner < |s.phase| && s.phase[s.queue[0].owner] == Queued && !Dead(s.queue[0], now, closed)
    ensures Filling(limit, s0, now, closed, Granting(s))
  {
    assert forall i :: 0 <= i < |s.queue[1..]| ==> s.queue[1..][i] == s.queue[i + 1];
  }

  lemma FillingEnds(limit: nat, s0: LaneState, now: real, closed: bool, s: LaneState)
    requires Known(s0.queue, |s0.phase|) && Filling(limit, s0, now, closed, s)
    requires s.queue == [] || |s.active| >= limit
    ensures s == Fill(limit, s0)
  {
  }

  // -------- what leaving needs --------

  lemma {:induction false} NobodyToRemove(q: seq<Ticket>, o: OwnerId)
    requires forall t :: t in q ==> t.owner != o
    ensures WithoutOwner(q, o) == q
  {
    if q != [] {
      assert q[0] in q;
      NobodyToRemove(q[1..], o);
    }
  }

  lemma {:induction false} RemovedIsWithoutOwner(q: seq<Ticket>, t: Ticket)
    requires t in q && forall i, j :: 0 <= i < j < |q| ==> q[i].owner != q[j].owner
    ensures Removed(q, t) == WithoutOwner(q, t.owner)
  {
    if q[0] == t {
      forall u | u in q[1..]
        ensures u.owner != t.owner
      {
        var i :| 0 <= i < |q[1..]| && q[1..][i] == u;
        assert q[i + 1] == u;
      }
      NobodyToRemove(q[1..], t.owner);
    } else {
      var i :| 0 <= i < |q| && q[i] == t;
      assert t == q[1..][i - 1];
      RemovedIsWithoutOwner(q[1..], t);
      assert q[0].owner != t.owner;
    }
  }

  /** Only an owner that is queued has a ticket in its lane's queue. */
  lemma NoTicket(m: Manager, o: OwnerId, lane: LaneName)
    requires Shape(m) && Core(m, None) && o < |m.phase| && m.phase[o] != Queued && lane in m.lanes
    ensures forall t :: t in m.pending[lane] ==> t.owner != o
  {
    hide ExclusiveOwners;
    assert LaneAgrees(m.owners, lane, LaneOf(m, lane));
    forall t | t in m.pending[lane]
      ensures t.owner != o
    {
      QueuedByMembership(m.pending[lane], t.owner);
      assert IsQueued(m.pending[lane], t.owner);
    }
  }

  lemma DepartedQueue(m: Manager, ticket: Ticket, lane: LaneName)
    requires Shape(m) && Core(m, None) && ticket.owner < |m.phase| && lane in m.lanes
    requires m.phase[ticket.owner] == Queued ==> ticket in m.pending[lane]
    ensures WithoutOwner(m.pending[lane], ticket.owner)
         == if ticket in m.pending[lane] then Removed(m.pending[lane], ticket) else m.pending[lane]
  {
    hide Core, Removed, WithoutOwner;
    if m.phase[ticket.owner] == Queued {
      QueuesAreOpen(m, lane, None);
      RemovedIsWithoutOwner(m.pending[lane], ticket);
    } else {
      NoTicket(m, ticket.owner, lane);
      NobodyToRemove(m.pending[lane], ticket.owner);
    }
  }

  class AdmissionManager {
    const lanes: map<LaneName, LaneSpec>
    var active: map<LaneName, set<OwnerId>>
    var pending: map<LaneName, seq<Ticket>>
    var closed: bool
    var drained: bool
    var leases: set<OwnerId>
    var owners: seq<Owner>
    var phase: seq<Phase>
    var life: seq<Lifetime>
    var running: set<ThreadId>
    var threadCount: nat
    var now: real

    ghost function View(): Manager
      reads this
    {
      Manager(lanes, active, pending, closed, drained, leases, owners, phase, life, running, threadCount, now)
    }

    ghost predicate Valid()
      reads this
    {
      Shape(View()) && HasSharedLanes(View()) && Inv(View())
    }

    constructor (config: Config)
      requires Accepts(config)
      ensures View() == Initial(Lanes(config)) && Valid()
    {
      lanes := Lanes(config);
      active := map l | l in Lanes(config) :: {};
      pending := map l | l in Lanes(config) :: [];
      closed, drained, leases := false, true, {};
      owners, phase, life, running, threadCount, now := [], [], [], {}, 0, 0.0;
      new;
      AcceptedEnvelope(config);
      InitialInv(Lanes(config));
    }

    /** The first loop of _promote: expired tickets leave the queue refused. */
    method Expire(lane: LaneName)
      requires Shape(View()) && lane in lanes && Open(pending[lane], phase)
      modifies this`pending, this`phase
      ensures lane in pending && Known(old(pending[lane]), |old(phase)|)
      ensures pending == old(pending)[lane := Surviving(old(pending[lane]), now, closed)]
      ensures phase == Refuse(old(phase), old(pending[lane]), now, closed)
      ensures Open(pending[lane], phase) && forall t :: t in pending[lane] ==> !Dead(t, now, closed)
    {
      hide Expiring, Open, Surviving, Refuse, Removed;
      var tickets := pending[lane];
      var i := 0;
      ghost var kept: seq<Ticket> := [];
      ExpiringStarts(tickets, phase, now, closed);
      while i < |tickets|
        invariant 0 <= i <= |tickets| && lane in pending && pending == old(pending)[lane := pending[lane]]
        invariant Expiring(tickets, old(phase), now, closed, i, kept, pending[lane], phase)
      {
        var ticket := tickets[i];
        ExpiringTicket(tickets, old(phase), now, closed, i, kept, pending[lane], phase);
        var done := phase[ticket.owner] != Queued;
        if done || ticket.deadline <= now || closed {
          ExpiringDrops(tickets, old(phase), now, closed, i, kept, pending[lane], phase);
          pending := pending[lane := Removed(pending[lane], ticket)];
          if !done {
            phase := phase[ticket.owner := Refused];
          }
        } else {
          ExpiringKeeps(tickets, old(phase), now, closed, i, kept, pending[lane], phase);
          kept := kept + [ticket];
        }
        i := i + 1;
      }
      ExpiringEnds(tickets, old(phase), now, closed, kept, pending[lane], phase);
    }

    /** The second loop of _promote. After the first every ticket is open and alive, so the branches
        that skip a finished or expired ticket are never taken. */
    method FillSlots(lane: LaneName)
      requires Shape(View()) && lane in lanes && Open(pending[lane], phase)
      requires forall t :: t in pending[lane] ==> !Dead(t, now, closed)
      modifies this`active, this`pending, this`phase
      ensures var filled := Fill(lanes[lane].limit, LaneOf(old(View()), lane));
              && active == old(active)[lane := filled.active] && pending == old(pending)[lane := filled.queue]
              && phase == filled.phase
    {
      hide Filling, Fill, Open;
      ghost var s0 := LaneOf(View(), lane);
      FillingStarts(lanes[lane].limit, s0, now, closed);
      while pending[lane] != [] && |active[lane]| < lanes[lane].limit
        invariant lane in active && active == old(active)[lane := active[lane]]
        invariant lane in pending && pending == old(pending)[lane := pending[lane]]
        invariant Filling(lanes[lane].limit, s0, now, closed, LaneState(active[lane], pending[lane], phase))
        decreases |pending[lane]|
      {
        var ticket := pending[lane][0];
        FillingStep(lanes[lane].limit, s0, now, closed, LaneState(active[lane], pending[lane], phase));
        if phase[ticket.owner] != Queued || ticket.deadline <= now || closed {
          assert false;
        }
        pending := pending[lane := pending[lane][1..]];
        active := active[lane := active[lane] + {ticket.owner}];
        phase := phase[ticket.owner := Granted];
      }
      FillingEnds(lanes[lane].limit, s0, now, closed, LaneState(active[lane], pending[lane], phase));
    }

    /** _promote. */
    method Promote(lane: LaneName, ghost weak: Option<LaneName>)
      requires Shape(View()) && Core(View(), weak) && lane in lanes
      modifies this`active, this`pending, this`phase
      ensures View() == Admission.Promote(old(View()), lane)
    {
      hide Core, Open, Fill, Surviving, Refuse;
      QueuesAreOpen(View(), lane, weak);
      ghost var m := View();
      Expire(lane);
      assert Shape(View());
      FillSlots(lane);
      assert pending == m.pending[lane := pending[lane]] && active == m.active[lane := active[lane]];
    }

    method UpdateDrained()
      requires Shape(View())
      modifies this`drained
      ensures View() == Admission.UpdateDrained(old(View()))
    {
      if (forall l :: l in active ==> active[l] == {}) && (forall l :: l in pending ==> pending[l] == []) {
        drained := true;
      }
    }

    /** _acquire up to its await, called by a task whose current owner of this manager is in parentLane. */
    method Acquire(owner: Owner, parentLane: Option<LaneName>) returns (outcome: Outcome)
      requires Valid()
      modifies this
      ensures Valid() && (View(), outcome) == Admission.Acquire(old(View()), owner, parentLane)
    {
      hide Inv, Admission.PromoteForAcquire, Admission.Place;
      AcquireKeepsInv(View(), owner, parentLane);
      var lane := owner.lane;
      if closed {
        return Busy;
      }
      if lane !in lanes || parentLane == Some(lane) {
        return ContractError;
      }
      if NeedsPrincipal(lane) && (owner.principal.None? || !owner.principal.value.enabled) {
        return ContractError;
      }
      PromoteForAcquire(lane);
      outcome := Place(owner);
    }

    /** Expiry in every lane that the account checks look at. */
    method PromoteForAcquire(lane: LaneName)
      requires Valid() && lane in lanes
      modifies this`active, this`pending, this`phase
      ensures View() == Admission.PromoteForAcquire(old(View()), lane)
    {
      hide Core, Admission.Promote;
      if lane == Navigation || lane == Foreground {
        PromoteKeepsInv(View(), Navigation);
        Promote(Navigation, None);
        Promote(Foreground, None);
      } else {
        Promote(lane, None);
      }
    }

    /** The account checks, and the choice between admission, queue and refusal. */
    method Place(owner: Owner) returns (outcome: Outcome)
      requires Shape(View()) && owner.lane in lanes
      modifies this
      ensures (View(), outcome) == Admission.Place(old(View()), owner)
    {
      hide Admission.Admit, Admission.Enqueue;
      var lane, spec, id := owner.lane, lanes[owner.lane], |owners|;
      if Key(owner).Some? {
        var taken := IsTaken(lane, Key(owner).value);
        hide AccountIsTaken;
        if taken {
          return Busy;
        }
      }
      hide AccountIsTaken;
      if pending[lane] == [] && |active[lane]| < spec.limit {
        Admit(owner);
        return Admitted(id);
      }
      if |pending[lane]| >= spec.pending || spec.wait == 0.0 {
        return Busy;
      }
      Enqueue(owner);
      return Waits(id);
    }

    method IsTaken(lane: LaneName, account: int) returns (taken: bool)
      requires Shape(View()) && lane in lanes
      ensures taken == AccountIsTaken(View(), lane, account)
    {
      var exclusion := if IsShared(lane) then {Navigation, Foreground} else {lane};
      SameExclusion(View(), lane, account, exclusion);
      taken := (exists l, o :: l in exclusion && l in lanes && o in active[l]
                  && o < |owners| && Key(owners[o]) == Some(account))
            || (exists l, t :: l in exclusion && l in lanes && t in pending[l]
                  && t.owner < |owners| && Key(owners[t.owner]) == Some(account));
    }

    method Admit(owner: Owner)
      requires Shape(View()) && owner.lane in lanes && owner.lane in active && owner.lane in pending
      modifies this
      ensures View() == Admission.Admit(old(View()), owner)
    {
      hide Shape;
      var lane, id := owner.lane, |owners|;
      owners, phase, life := owners + [owner], phase + [Entered], life + [NEW_LIFETIME];
      active, drained := active[lane := active[lane] + {id}], false;
    }

    method Enqueue(owner: Owner)
      requires Shape(View()) && owner.lane in lanes && owner.lane in active && owner.lane in pending
      modifies this
      ensures View() == Admission.Enqueue(old(View()), owner)
    {
      hide Shape;
      var lane, id := owner.lane, |owners|;
      owners, phase, life := owners + [owner], phase + [Queued], life + [NEW_LIFETIME];
      pending, drained := pending[lane := pending[lane] + [Ticket(id, now + lanes[lane].wait)]], false;
    }

    /** The waiter of a granted ticket runs on. */
    method WaiterResumes(o: OwnerId)
      requires Valid() && o < |phase| && phase[o] == Granted
      modifies this`phase
      ensures Valid() && View() == Admission.Resume(old(View()), o)
    {
      hide Inv;
      ResumeKeepsInv(View(), o);
      phase := phase[o := Entered];
    }

    /** The owner leaves its lane's active set, and the lane is promoted. */
    method Discard(ghost m: Manager, o: OwnerId, lane: LaneName)
      requires Shape(m) && Core(m, None) && o < |m.owners| && lane == m.owners[o].lane
      requires View() == m.(pending := m.pending[lane := WithoutOwner(m.pending[lane], o)])
      modifies this`active, this`pending, this`phase, this`drained
      ensures View() == Vacate(m, o)
    {
      hide Core, WithoutOwner, Admission.Promote, AllEmpty;
      DepartKeepsCore(m, o);
      active := active[lane := active[lane] - {o}];
      phase := phase[o := Gone];
      assert View() == WithLane(m, lane, Depart(LaneOf(m, lane), o));
      Promote(lane, Some(lane));
      UpdateDrained();
    }

    /** The except branch of _acquire: the waiter timed out, was cancelled or was refused. */
    method WaiterFails(ticket: Ticket)
      requires Valid() && ticket.owner < |phase|
      requires phase[ticket.owner] in {Queued, Granted, Refused}
      requires phase[ticket.owner] == Queued ==> ticket in pending[owners[ticket.owner].lane]
      modifies this`active, this`pending, this`phase, this`drained
      ensures Valid() && View() == Admission.Fail(old(View()), ticket.owner)
    {
      hide Core, Removed, WithoutOwner, Vacate;
      var lane := owners[ticket.owner].lane;
      ghost var m := View();
      FailKeepsInv(m, ticket.owner);
      DepartedQueue(m, ticket, lane);
      if ticket in pending[lane] {
        pending := pending[lane := Removed(pending[lane], ticket)];
      } else {
        assert pending[lane := pending[lane]] == pending;
      }
      Discard(m, ticket.owner, lane);
    }

    /** The end of operation behind its drain, whose result says whether it was cancelled. Whether the owner
        has threads is not looked at any more. */
    method Leave(o: OwnerId, cancelled: bool)
      requires Valid() && o < |phase| && phase[o] == Entered
      modifies this`active, this`pending, this`phase, this`life, this`drained
      ensures Valid() && View() == Release(CancelIf(old(View()), o, cancelled), o)
    {
      hide Core, WithoutOwner, Vacate, AllEmpty;
      var lane := owners[o].lane;
      if cancelled {
        life := life[o := life[o].(cancelled := true)];
      }
      life := life[o := life[o].(released := true)];
      SameAdmissionKeepsInv(old(View()), View());
      VacateKeepsInv(View(), o);
      NoTicket(View(), o, lane);
      NobodyToRemove(pending[lane], o);
      assert pending[lane := pending[lane]] == pending;
      Discard(View(), o, lane);
    }

    /** shutdown empties one queue, refusing every open ticket of it. */
    method RefuseLane(lane: LaneName)
      requires Shape(View()) && lane in lanes && Open(pending[lane], phase)
      modifies this`pending, this`phase
      ensures pending == old(pending)[lane := []] && |phase| == |old(phase)|
      ensures forall o: OwnerId :: o < |phase| ==>
                phase[o] == if IsQueued(old(pending[lane]), o) then Refused else old(phase)[o]
    {
      ghost var q, n := pending[lane], 0;
      while pending[lane] != []
        invariant lane in pending && pending == old(pending)[lane := pending[lane]]
        invariant n <= |q| && pending[lane] == q[n..] && |phase| == |old(phase)|
        invariant forall o: OwnerId :: o < |phase| ==> phase[o] == if Between(q, 0, n, o) then Refused else old(phase)[o]
        decreases |pending[lane]|
      {
        var ticket := pending[lane][0];
        OneMoreRefused(q, n);
        pending := pending[lane := pending[lane][1..]];
        if phase[ticket.owner] == Queued {
          phase := phase[ticket.owner := Refused];
        }
        n := n + 1;
      }
    }

    /** The loop of shutdown over all queues. */
    method RefuseQueues(ghost m: Manager)
      requires Shape(m) && Inv(m) && View() == m.(closed := true)
      modifies this`pending, this`phase
      ensures pending == EmptyQueues(m.pending) && phase == RefuseAll(m.phase)
    {
      hide Inv, RefuseAll, EmptyQueues, Open, IsQueued, RefusedOutside, Shape;
      var names := pending.Keys;
      RefusedNowhere(m);
      while names != {}
        invariant RefusedOutside(m, names, pending, phase)
        decreases |names|
      {
        var lane :| lane in names;
        ghost var v := View();
        LaneIsOpen(m, lane, names, pending, phase);
        RefusedShape(m, v, names);
        RefuseLane(lane);
        LaneIsRefused(m, lane, names, v.pending, v.phase, pending, phase);
        names := names - {lane};
      }
      RefusedEverywhere(m, pending, phase);
    }

    /** shutdown up to its await. */
    method Shutdown()
      requires Valid()
      modifies this`pending, this`phase, this`closed, this`drained
      ensures Valid() && View() == Admission.Shutdown(old(View()))
    {
      hide Inv, AllEmpty, RefuseAll;
      ShutdownKeepsInv(View());
      ghost var m := View();
      closed := true;
      RefuseQueues(m);
      UpdateDrained();
    }

    // -------- what an owner has in use --------

    /** runtime_borrow or control_borrow of a current owner, and _borrow_for. */
    method Borrow(o: OwnerId, request: BorrowRequest) returns (ok: bool)
      requires Valid() && IsCurrent(View(), o)
      modifies this`life
      ensures Valid() && View() == Admission.Borrow(old(View()), o, request)
      ensures ok == GrantsBorrow(owners[o], old(life[o]), request)
    {
      hide Inv;
      var owner, l := owners[o], life[o];
      SameAdmissionKeepsInv(View(), Admission.Borrow(View(), o, request));
      if request.nested {
        return false;
      }
      match request {
        case ForRuntime(principal, _) =>
          if !IsRuntimeLane(owner.lane) {
            return false;
          }
          if owner.lane != Routine && owner.principal != principal {
            return false;
          }
          if l.released || l.runtime {
            return false;
          }
          life := life[o := l.(runtime := true)];
        case ForControl(asked, _) =>
          var lane := if owner.lane == Mail && asked == Identity then Mail else asked;
          if !IsControlLane(lane) || owner.lane != lane || l.control {
            return false;
          }
          life := life[o := l.(control := true)];
      }
      return true;
    }

    method GiveBack(o: OwnerId)
      requires Valid() && IsCurrent(View(), o) && !life[o].connected
      modifies this`life
      ensures Valid() && View() == Admission.GiveBack(old(View()), o)
    {
      hide Inv;
      SameAdmissionKeepsInv(View(), Admission.GiveBack(View(), o));
      life := life[o := life[o].(runtime := false, control := false)];
    }

    /** ManagedPool.connection: only for a borrow of its role, by the asyncio task that opened it, and not twice. */
    method Connect(o: OwnerId, runtime: bool, ownTask: bool) returns (ok: bool)
      requires Valid() && IsCurrent(View(), o)
      modifies this`life
      ensures Valid() && View() == Admission.Connect(old(View()), o, runtime, ownTask)
      ensures ok == GrantsConnection(old(life[o]), runtime, ownTask)
    {
      hide Inv;
      var l := life[o];
      SameAdmissionKeepsInv(View(), Admission.Connect(View(), o, runtime, ownTask));
      if !(if runtime then l.runtime else l.control) || l.released || !ownTask {
        return false;
      }
      if l.connected {
        return false;
      }
      life := life[o := l.(connected := true)];
      return true;
    }

    method Disconnect(o: OwnerId)
      requires Valid() && IsCurrent(View(), o)
      modifies this`life
      ensures Valid() && View() == Admission.Disconnect(old(View()), o)
    {
      hide Inv;
      SameAdmissionKeepsInv(View(), Admission.Disconnect(View(), o));
      life := life[o := life[o].(connected := false)];
    }

    method Lease(o: OwnerId, accounts: set<int>) returns (ok: bool)
      requires Valid() && IsCurrent(View(), o)
      modifies this`life, this`leases
      ensures Valid() && View() == Admission.Lease(old(View()), o, accounts)
      ensures ok == (TakesLeases(owners[o].lane) && !old(life[o]).lease && |old(leases)| < MAX_LEASES
                     && (Key(owners[o]).Some? ==> Key(owners[o]).value in accounts))
    {
      hide Inv;
      var key := Key(owners[o]);
      SameAdmissionKeepsInv(View(), Admission.Lease(View(), o, accounts));
      if !TakesLeases(owners[o].lane) {
        return false;
      }
      if life[o].lease || |leases| >= MAX_LEASES {
        return false;
      }
      if key.Some? && key.value !in accounts {
        return false;
      }
      life, leases := life[o := life[o].(lease := true)], leases + {o};
      return true;
    }

    /** The end of lease behind its drain, whose result says whether it was cancelled. */
    method DropLease(o: OwnerId, cancelled: bool)
      requires Valid() && o < |life|
      modifies this`life, this`leases
      ensures Valid() && View() == CancelIf(Unlease(old(View()), o), o, cancelled)
    {
      hide Inv;
      SameAdmissionKeepsInv(View(), CancelIf(Unlease(View(), o), o, cancelled));
      life, leases := life[o := life[o].(lease := false)], leases - {o};
      if cancelled {
        life := life[o := life[o].(cancelled := true)];
      }
    }

    /** owned_thread up to its await. */
    method StartThread(o: OwnerId) returns (started: Option<ThreadId>)
      requires Valid() && IsCurrent(View(), o)
      modifies this`life, this`running, this`threadCount
      ensures Valid() && View() == Admission.StartThread(old(View()), o)
      ensures started == if old(life[o]).released || old(life[o]).threads != {} then None else Some(old(threadCount))
    {
      hide Inv;
      SameAdmissionKeepsInv(View(), Admission.StartThread(View(), o));
      if life[o].released || life[o].threads != {} {
        return None;
      }
      started := Some(threadCount);
      assert life[o].threads + {threadCount} == {threadCount};
      life := life[o := life[o].(threads := life[o].threads + {threadCount})];
      running, threadCount := running + {threadCount}, threadCount + 1;
    }

    method ThreadEnds(t: ThreadId)
      requires Valid()
      modifies this`running
      ensures Valid() && View() == Admission.EndThread(old(View()), t)
    {
      hide Inv;
      SameAdmissionKeepsInv(View(), Admission.EndThread(View(), t));
      running := running - {t};
    }

    /** One turn of _drain over the owner's threads: from a wakeup of its await to the next await or its end. */
    method DrainWakes(o: OwnerId, drain: Drain, interrupted: bool) returns (end: DrainEnd)
      requires Valid() && o < |life| && Wakes(running, drain.current, interrupted)
      modifies this`life
      ensures Valid() && View() == Admission.Reap(old(View()), o, drain.current)
      ensures |life| == |old(life)|
      ensures exists next :: MayPick(life[o].threads, next)
                && end == Loop(life[o].threads, next, drain.cancelled || interrupted)
    {
      hide Inv;
      SameAdmissionKeepsInv(View(), Admission.Reap(View(), o, drain.current));
      var cancelled := drain.cancelled || interrupted;
      if drain.current !in running {
        life := life[o := life[o].(threads := life[o].threads - {drain.current})];
      }
      if life[o].threads == {} {
        assert MayPick(life[o].threads, 0) && Loop(life[o].threads, 0, cancelled) == Finished(cancelled);
        return Finished(cancelled);
      }
      var next :| next in life[o].threads;
      assert MayPick(life[o].threads, next);
      return Again(Drain(next, cancelled));
    }

    /** The finally clause of owned_thread: the future is discarded, whatever its state. */
    method EndCall(o: OwnerId, future: ThreadId)
      requires Valid() && o < |life|
      modifies this`life
      ensures Valid() && View() == Admission.Discard(old(View()), o, future)
    {
      hide Inv;
      SameAdmissionKeepsInv(View(), Admission.Discard(View(), o, future));
      life := life[o := life[o].(threads := life[o].threads - {future})];
    }

    method Cancel(o: OwnerId)
      requires Valid() && IsCurrent(View(), o)
      modifies this`life
      ensures Valid() && View() == Admission.Cancel(old(View()), o)
    {
      hide Inv;
      SameAdmissionKeepsInv(View(), Admission.Cancel(View(), o));
      life := life[o := life[o].(cancelled := true)];
    }

    method Tick(time: real)
      requires Valid() && time >= now
      modifies this`now
      ensures Valid() && View() == Admission.Tick(old(View()), time)
    {
      hide Inv;
      TickKeepsInv(View(), time);
      now := time;
    }
  }

  lemma OneMoreRefused(q: seq<Ticket>, n: nat)
    requires n < |q|
    ensures q[n..][1..] == q[n + 1..]
    ensures forall o: OwnerId :: Between(q, 0, n + 1, o) <==> Between(q, 0, n, o) || q[n].owner == o
  {
    assert Between(q, 0, n + 1, q[n].owner);
    forall o: OwnerId
      ensures Between(q, 0, n + 1, o) <==> Between(q, 0, n, o) || q[n].owner == o
    {
      if Between(q, 0, n, o) {
        var x :| 0 <= x < n && q[x].owner == o;
      }
    }
  }

  /** Where shutdown stands: the queues outside names are empty, and their tickets refused. */
  ghost predicate RefusedOutside(m: Manager, names: set<LaneName>, pending: map<LaneName, seq<Ticket>>,
        phase: seq<Phase>) {
    && Shape(m) && |phase| == |m.phase| && names <= m.lanes.Keys && pending.Keys == m.lanes.Keys
    && (forall l :: l in pending ==> pending[l] == if l in names then m.pending[l] else [])
    && forall o :: 0 <= o < |phase| ==>
         phase[o] == if m.phase[o] == Queued && m.owners[o].lane !in names then Refused else m.phase[o]
  }

  lemma RefusedNowhere(m: Manager)
    requires Shape(m)
    ensures RefusedOutside(m, m.pending.Keys, m.pending, m.phase)
  {
  }

  lemma RefusedShape(m: Manager, v: Manager, names: set<LaneName>)
    requires RefusedOutside(m, names, v.pending, v.phase)
    requires v.lanes == m.lanes && v.active == m.active && v.owners == m.owners && v.life == m.life
    ensures Shape(v) && forall l :: l in names ==> l in v.lanes
  {
  }

  lemma RefusedEverywhere(m: Manager, pending: map<LaneName, seq<Ticket>>, phase: seq<Phase>)
    requires RefusedOutside(m, {}, pending, phase)
    ensures pending == EmptyQueues(m.pending)
    ensures phase == RefuseAll(m.phase)
  {
  }

  lemma LaneIsOpen(m: Manager, lane: LaneName, names: set<LaneName>, pending: map<LaneName, seq<Ticket>>,
        phase: seq<Phase>)
    requires Shape(m) && Inv(m) && RefusedOutside(m, names, pending, phase) && lane in names
    ensures lane in m.lanes && lane in pending && Open(pending[lane], phase)
  {
    hide LaneOk, ExclusiveOwners;
    var q := m.pending[lane];
    QueuesAreOpen(m, lane, None);
    assert LaneAgrees(m.owners, lane, LaneOf(m, lane));
    forall i | 0 <= i < |q|
      ensures phase[q[i].owner] == Queued
    {
      assert IsQueued(q, q[i].owner);
    }
  }

  lemma LaneIsRefused(m: Manager, lane: LaneName, names: set<LaneName>,
                      pending: map<LaneName, seq<Ticket>>, phase: seq<Phase>,
                      pending': map<LaneName, seq<Ticket>>, phase': seq<Phase>)
    requires Shape(m) && Inv(m) && RefusedOutside(m, names, pending, phase) && lane in names
    requires lane in pending && pending' == pending[lane := []] && |phase'| == |phase|
    requires forall o: OwnerId :: o < |phase| ==> phase'[o] == if IsQueued(pending[lane], o) then Refused else phase[o]
    ensures RefusedOutside(m, names - {lane}, pending', phase')
  {
    hide Inv, IsQueued;
    QueuedInLane(m, lane);
    forall o | 0 <= o < |phase'|
      ensures phase'[o] == if m.phase[o] == Queued && m.owners[o].lane !in names - {lane} then Refused else m.phase[o]
    {
    }
  }

  lemma QueuedInLane(m: Manager, lane: LaneName)
    requires Shape(m) && Inv(m) && lane in m.lanes
    ensures forall o: OwnerId :: o < |m.phase| ==>
              (IsQueued(m.pending[lane], o) <==> m.phase[o] == Queued && m.owners[o].lane == lane)
  {
    hide LaneOk, ExclusiveOwners, IsQueued;
    assert LaneAgrees(m.owners, lane, LaneOf(m, lane));
  }

  lemma SameExclusion(m: Manager, lane: LaneName, account: int, exclusion: set<LaneName>)
    requires Shape(m) && lane in m.lanes && exclusion == if IsShared(lane) then {Navigation, Foreground} else {lane}
    ensures AccountIsTaken(m, lane, account) <==>
            || (exists l, o :: l in exclusion && l in m.lanes && o in m.active[l]
                  && o < |m.owners| && Key(m.owners[o]) == Some(account))
            || (exists l, t :: l in exclusion && l in m.lanes && t in m.pending[l]
                  && t.owner < |m.owners| && Key(m.owners[t.owner]) == Some(account))
  {
    assert forall l :: l in exclusion <==> Group(l) == Group(lane);
  }
}
