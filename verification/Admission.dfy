/** The admission manager as a state machine over values: app/capacity.py, AdmissionManager. */
module Admission {
  import opened Common

  // -------- entities --------

  datatype LaneName =
    | Ingest | Routine | Navigation | Foreground | Background
    | IngestIdentity | Identity | Lifecycle | Mail
    | AuthIngest | AuthInteractive
    | OtherLane(name: string)

  datatype LaneSpec = LaneSpec(limit: nat, pending: nat, wait: real)

  datatype Principal = Principal(accountId: int, enabled: bool, authVersion: int)

  /** Owners are numbered in order of arrival. */
  type OwnerId = nat

  datatype Owner = Owner(lane: LaneName, principal: Option<Principal>)

  /** An owner's ticket; its future is open exactly while the owner is Queued. */
  datatype Ticket = Ticket(owner: OwnerId, deadline: real)

  /** Queued: future open. Granted: result set, waiter not yet resumed. Refused: exception set,
      waiter not yet resumed. Entered: inside the operation. Gone: left, or failed to enter. */
  datatype Phase = Queued | Granted | Refused | Entered | Gone

  type ThreadId = nat

  /** The mutable part of an owner. At most one borrow is open for an owner, of the role of its lane. */
  datatype Lifetime = Lifetime(
    runtime: bool, control: bool, connected: bool, lease: bool,
    threads: set<ThreadId>, cancelled: bool, released: bool)

  const NEW_LIFETIME := Lifetime(false, false, false, false, {}, false, false)

  datatype Manager = Manager(
    lanes: map<LaneName, LaneSpec>,
    active: map<LaneName, set<OwnerId>>,
    pending: map<LaneName, seq<Ticket>>,
    closed: bool,
    drained: bool,
    leases: set<OwnerId>,
    owners: seq<Owner>,
    phase: seq<Phase>,
    life: seq<Lifetime>,
    running: set<ThreadId>,  // executor futures that are not done
    threadCount: nat,
    now: real)

  predicate Shape(m: Manager) {
    && m.active.Keys == m.lanes.Keys && m.pending.Keys == m.lanes.Keys
    && |m.owners| == |m.phase| == |m.life|
    && (forall l :: l in m.pending ==> Known(m.pending[l], |m.phase|))
    && (forall o :: 0 <= o < |m.owners| ==> m.owners[o].lane in m.lanes)
  }

  predicate Known(q: seq<Ticket>, bound: nat) {
    forall t :: t in q ==> t.owner < bound
  }

  // -------- promotion of one lane --------

  predicate Dead(t: Ticket, now: real, closed: bool) {
    t.deadline <= now || closed
  }

  /** The tickets the first loop of _promote leaves in the queue. */
  function Surviving(q: seq<Ticket>, now: real, closed: bool): (kept: seq<Ticket>)
    ensures forall t :: t in kept ==> t in q
  {
    if q == [] then []
    else if Dead(q[0], now, closed) then Surviving(q[1..], now, closed)
    else [q[0]] + Surviving(q[1..], now, closed)
  }

  /** The futures after the first loop. */
  function Refuse(phase: seq<Phase>, q: seq<Ticket>, now: real, closed: bool): (after: seq<Phase>)
    requires Known(q, |phase|)
    ensures |after| == |phase|
    decreases |q|
  {
    if q == [] then phase
    else Refuse(if Dead(q[0], now, closed) then phase[q[0].owner := Refused] else phase, q[1..], now, closed)
  }

  datatype LaneState = LaneState(active: set<OwnerId>, queue: seq<Ticket>, phase: seq<Phase>)

  /** The second loop of _promote over live tickets. */
  function Fill(limit: nat, s: LaneState): (after: LaneState)
    requires Known(s.queue, |s.phase|)
    ensures |after.phase| == |s.phase| && Known(after.queue, |after.phase|)
    decreases |s.queue|
  {
    if s.queue == [] || |s.active| >= limit then s
    else
      var owner := s.queue[0].owner;
      Fill(limit, LaneState(s.active + {owner}, s.queue[1..], s.phase[owner := Granted]))
  }

  function PromoteLane(limit: nat, s: LaneState, now: real, closed: bool): (after: LaneState)
    requires Known(s.queue, |s.phase|)
    ensures |after.phase| == |s.phase| && Known(after.queue, |after.phase|)
  {
    Fill(limit, LaneState(s.active, Surviving(s.queue, now, closed), Refuse(s.phase, s.queue, now, closed)))
  }

  /** One lane of the manager, with the futures of all tickets. */
  function LaneOf(m: Manager, lane: LaneName): LaneState
    requires Shape(m) && lane in m.lanes
  {
    LaneState(m.active[lane], m.pending[lane], m.phase)
  }

  function WithLane(m: Manager, lane: LaneName, s: LaneState): (after: Manager)
    requires Shape(m) && lane in m.lanes && |s.phase| == |m.phase| && Known(s.queue, |s.phase|)
    ensures Shape(after) && after.lanes == m.lanes
  {
    m.(active := m.active[lane := s.active], pending := m.pending[lane := s.queue], phase := s.phase)
  }

  function Promote(m: Manager, lane: LaneName): (after: Manager)
    requires Shape(m) && lane in m.lanes
    ensures Shape(after) && after.lanes == m.lanes
  {
    WithLane(m, lane, PromoteLane(m.lanes[lane].limit, LaneOf(m, lane), m.now, m.closed))
  }

  predicate AllEmpty(m: Manager)
    requires Shape(m)
  {
    (forall l :: l in m.active ==> m.active[l] == {}) && (forall l :: l in m.pending ==> m.pending[l] == [])
  }

  function UpdateDrained(m: Manager): Manager
    requires Shape(m)
  {
    if AllEmpty(m) then m.(drained := true) else m
  }

  // -------- acquisition --------

  datatype Outcome = Admitted(id: OwnerId) | Waits(id: OwnerId) | Busy | ContractError

  predicate IsShared(lane: LaneName) {
    lane == Navigation || lane == Foreground
  }

  predicate NeedsPrincipal(lane: LaneName) {
    lane == Ingest || lane == Routine || lane == Navigation || lane == Foreground || lane == Background
  }

  function Key(owner: Owner): Option<int> {
    match owner.principal
    case None => None
    case Some(p) => Some(p.accountId)
  }

  /** The lanes whose owners exclude one another by account, named by one of them. */
  function Group(lane: LaneName): LaneName {
    if lane == Foreground then Navigation else lane
  }

  /** Some owner in these is of that account. */
  predicate Holds(owners: seq<Owner>, ids: set<OwnerId>, account: int) {
    exists o :: o in ids && o < |owners| && Key(owners[o]) == Some(account)
  }

  predicate HoldsTicket(owners: seq<Owner>, q: seq<Ticket>, account: int) {
    exists t :: t in q && t.owner < |owners| && Key(owners[t.owner]) == Some(account)
  }

  /** An active or queued owner of the account in the lanes that exclude it. */
  predicate AccountIsTaken(m: Manager, lane: LaneName, account: int)
    requires Shape(m)
  {
    exists l :: l in m.lanes && Group(l) == Group(lane)
      && (Holds(m.owners, m.active[l], account) || HoldsTicket(m.owners, m.pending[l], account))
  }

  function PromoteForAcquire(m: Manager, lane: LaneName): (after: Manager)
    requires Shape(m) && lane in m.lanes && (IsShared(lane) ==> Navigation in m.lanes && Foreground in m.lanes)
    ensures Shape(after) && after.lanes == m.lanes
  {
    if IsShared(lane) then Promote(Promote(m, Navigation), Foreground) else Promote(m, lane)
  }

  predicate HasSharedLanes(m: Manager) {
    Navigation in m.lanes && Foreground in m.lanes
  }

  /** One call of _acquire up to its await, by a task whose current owner of this manager is in parentLane. */
  function Acquire(m: Manager, owner: Owner, parentLane: Option<LaneName>): (r: (Manager, Outcome))
    requires Shape(m) && HasSharedLanes(m)
    ensures Shape(r.0) && r.0.lanes == m.lanes
  {
    var lane := owner.lane;
    if m.closed then (m, Busy)
    else if lane !in m.lanes then (m, ContractError)
    else if parentLane == Some(lane) then (m, ContractError)
    else if NeedsPrincipal(lane) && (owner.principal.None? || !owner.principal.value.enabled) then (m, ContractError)
    else Place(PromoteForAcquire(m, lane), owner)
  }

  /** The account checks and the choice between admission, queue and refusal. */
  function Place(m: Manager, owner: Owner): (r: (Manager, Outcome))
    requires Shape(m) && owner.lane in m.lanes
    ensures Shape(r.0) && r.0.lanes == m.lanes
  {
    var lane := owner.lane;
    var spec := m.lanes[lane];
    if Key(owner).Some? && AccountIsTaken(m, lane, Key(owner).value) then (m, Busy)
    else if m.pending[lane] == [] && |m.active[lane]| < spec.limit then (Admit(m, owner), Admitted(|m.owners|))
    else if |m.pending[lane]| >= spec.pending || spec.wait == 0.0 then (m, Busy)
    else (Enqueue(m, owner), Waits(|m.owners|))
  }

  function Arrive(m: Manager, owner: Owner, phase: Phase): (after: Manager)
    requires Shape(m) && owner.lane in m.lanes
    ensures Shape(after) && after.lanes == m.lanes
  {
    m.(owners := m.owners + [owner], phase := m.phase + [phase], life := m.life + [NEW_LIFETIME])
  }

  /** The immediate admission of a new owner. */
  function Admit(m: Manager, owner: Owner): (after: Manager)
    requires Shape(m) && owner.lane in m.lanes
    ensures Shape(after) && after.lanes == m.lanes
  {
    Arrive(m, owner, Entered).(
      active := m.active[owner.lane := m.active[owner.lane] + {|m.owners|}], drained := false)
  }

  /** A new owner at the end of its lane's queue. */
  function Enqueue(m: Manager, owner: Owner): (after: Manager)
    requires Shape(m) && owner.lane in m.lanes
    ensures Shape(after) && after.lanes == m.lanes
  {
    var ticket := Ticket(|m.owners|, m.now + m.lanes[owner.lane].wait);
    Arrive(m, owner, Queued).(
      pending := m.pending[owner.lane := m.pending[owner.lane] + [ticket]], drained := false)
  }

  // -------- the other steps --------

  /** The waiter of a granted ticket runs on into its operation. */
  function Resume(m: Manager, o: OwnerId): (after: Manager)
    requires Shape(m) && o < |m.phase|
    ensures Shape(after) && after.lanes == m.lanes
  {
    if m.phase[o] == Granted then m.(phase := m.phase[o := Entered]) else m
  }

  function WithoutOwner(q: seq<Ticket>, o: OwnerId): (r: seq<Ticket>)
    ensures forall t :: t in r ==> t in q
  {
    if q == [] then []
    else if q[0].owner == o then WithoutOwner(q[1..], o)
    else [q[0]] + WithoutOwner(q[1..], o)
  }

  function Depart(s: LaneState, o: OwnerId): (after: LaneState)
    requires o < |s.phase| && Known(s.queue, |s.phase|)
    ensures |after.phase| == |s.phase| && Known(after.queue, |after.phase|)
  {
    LaneState(s.active - {o}, WithoutOwner(s.queue, o), s.phase[o := Gone])
  }

  /** Taking an owner out of its lane, whichever part of it holds the owner, and promoting the lane. */
  function Vacate(m: Manager, o: OwnerId): (after: Manager)
    requires Shape(m) && o < |m.owners|
    ensures Shape(after) && after.lanes == m.lanes
  {
    var lane := m.owners[o].lane;
    UpdateDrained(Promote(WithLane(m, lane, Depart(LaneOf(m, lane), o)), lane))
  }

  /** Timeout, cancellation or refusal reaches the waiter: the except branch of _acquire. */
  function Fail(m: Manager, o: OwnerId): (after: Manager)
    requires Shape(m) && o < |m.owners|
    ensures Shape(after) && after.lanes == m.lanes
  {
    if m.phase[o] == Queued || m.phase[o] == Granted || m.phase[o] == Refused then Vacate(m, o) else m
  }

  /** The end of operation behind its drain; nothing is checked here any more. */
  function Release(m: Manager, o: OwnerId): (after: Manager)
    requires Shape(m) && o < |m.owners|
    ensures Shape(after) && after.lanes == m.lanes
  {
    Vacate(m.(life := m.life[o := m.life[o].(released := true)]), o)
  }

  /** The end of operation as it should be: only an entered owner leaves, and only without threads. */
  function Leave(m: Manager, o: OwnerId): (after: Manager)
    requires Shape(m) && o < |m.owners|
    ensures Shape(after) && after.lanes == m.lanes
  {
    if m.phase[o] == Entered && m.life[o].threads == {} then Release(m, o) else m
  }

  function RefuseAll(phase: seq<Phase>): (after: seq<Phase>)
    ensures |after| == |phase|
  {
    seq(|phase|, i requires 0 <= i < |phase| => if phase[i] == Queued then Refused else phase[i])
  }

  function EmptyQueues(pending: map<LaneName, seq<Ticket>>): map<LaneName, seq<Ticket>> {
    map l | l in pending :: []
  }

  /** shutdown up to its await. */
  function Shutdown(m: Manager): (after: Manager)
    requires Shape(m)
    ensures Shape(after) && after.lanes == m.lanes
  {
    UpdateDrained(m.(closed := true, pending := EmptyQueues(m.pending), phase := RefuseAll(m.phase)))
  }

  function Tick(m: Manager, now: real): Manager {
    if now >= m.now then m.(now := now) else m
  }

  // -------- borrows, connections, leases and threads of one owner --------

  predicate IsRuntimeLane(lane: LaneName) {
    NeedsPrincipal(lane)
  }

  predicate IsControlLane(lane: LaneName) {
    lane == Identity || lane == IngestIdentity || lane == Lifecycle || lane == Mail
  }

  predicate TakesLeases(lane: LaneName) {
    lane == Navigation || lane == Foreground || lane == Background || lane == Mail
  }

  const MAX_LEASES := 5

  /** A current owner exists only once its operation was entered; a child task may keep it longer. */
  predicate IsCurrent(m: Manager, o: OwnerId)
    requires |m.phase| == |m.life|
  {
    o < |m.phase| && (m.phase[o] == Entered || m.life[o].released)
  }

  /** A step on what an owner has in use leaves admission as it was. */
  predicate SameAdmission(m: Manager, after: Manager) {
    && after.lanes == m.lanes && after.active == m.active && after.pending == m.pending
    && after.closed == m.closed && after.drained == m.drained
    && after.owners == m.owners && after.phase == m.phase && after.now == m.now
  }

  function Update(m: Manager, o: OwnerId, l: Lifetime): (after: Manager)
    requires Shape(m) && o < |m.life|
    ensures Shape(after) && SameAdmission(m, after)
  {
    m.(life := m.life[o := l])
  }

  /** A call of runtime_borrow or control_borrow under a current owner; nested says whether its context
      already has a borrow. */
  datatype BorrowRequest =
    | ForRuntime(principal: Option<Principal>, nested: bool)
    | ForControl(lane: LaneName, nested: bool)

  /** runtime_borrow wants the principal of the operation (a routine operation is opened for it) and refuses a
      released owner; control_borrow wants its lane, the lane of a mail operation standing in for identity. */
  predicate GrantsBorrow(owner: Owner, l: Lifetime, r: BorrowRequest) {
    !r.nested &&
    match r
    case ForRuntime(principal, _) =>
      IsRuntimeLane(owner.lane) && (owner.lane == Routine || owner.principal == principal) && !l.released && !l.runtime
    case ForControl(lane, _) =>
      IsControlLane(owner.lane) && (owner.lane == lane || (owner.lane == Mail && lane == Identity)) && !l.control
  }

  function Borrow(m: Manager, o: OwnerId, r: BorrowRequest): (after: Manager)
    requires Shape(m) && IsCurrent(m, o)
    ensures Shape(after) && SameAdmission(m, after)
  {
    var l := m.life[o];
    if !GrantsBorrow(m.owners[o], l, r) then m
    else if r.ForRuntime? then Update(m, o, l.(runtime := true))
    else Update(m, o, l.(control := true))
  }

  function GiveBack(m: Manager, o: OwnerId): (after: Manager)
    requires Shape(m) && IsCurrent(m, o)
    ensures Shape(after) && SameAdmission(m, after)
  {
    if m.life[o].connected then m else Update(m, o, m.life[o].(runtime := false, control := false))
  }

  /** The check of ManagedPool.connection: a borrow of the pool's role, by the asyncio task that opened it. */
  predicate GrantsConnection(l: Lifetime, runtime: bool, ownTask: bool) {
    (if runtime then l.runtime else l.control) && !l.released && ownTask && !l.connected
  }

  /** ManagedPool.connection up to its wait for the pool. */
  function Connect(m: Manager, o: OwnerId, runtime: bool, ownTask: bool): (after: Manager)
    requires Shape(m) && IsCurrent(m, o)
    ensures Shape(after) && SameAdmission(m, after)
  {
    if GrantsConnection(m.life[o], runtime, ownTask) then Update(m, o, m.life[o].(connected := true)) else m
  }

  function Disconnect(m: Manager, o: OwnerId): (after: Manager)
    requires Shape(m) && IsCurrent(m, o)
    ensures Shape(after) && SameAdmission(m, after)
  {
    Update(m, o, m.life[o].(connected := false))
  }

  function Lease(m: Manager, o: OwnerId, accounts: set<int>): (after: Manager)
    requires Shape(m) && IsCurrent(m, o)
    ensures Shape(after) && SameAdmission(m, after)
  {
    var l := m.life[o];
    if TakesLeases(m.owners[o].lane) && !l.lease && |m.leases| < MAX_LEASES
       && (Key(m.owners[o]).Some? ==> Key(m.owners[o]).value in accounts) then
      Update(m, o, l.(lease := true)).(leases := m.leases + {o})
    else m
  }

  /** The end of lease behind its drain; nothing is checked here any more. */
  function Unlease(m: Manager, o: OwnerId): (after: Manager)
    requires Shape(m) && o < |m.life|
    ensures Shape(after) && SameAdmission(m, after)
  {
    Update(m, o, m.life[o].(lease := false)).(leases := m.leases - {o})
  }

  /** The end of lease as it should be: only a lease is dropped, and only when its owner has no threads. */
  function DropLease(m: Manager, o: OwnerId): (after: Manager)
    requires Shape(m) && IsCurrent(m, o)
    ensures Shape(after) && SameAdmission(m, after)
  {
    if m.life[o].lease && m.life[o].threads == {} then Unlease(m, o) else m
  }

  /** owned_thread up to its await. */
  function StartThread(m: Manager, o: OwnerId): (after: Manager)
    requires Shape(m) && IsCurrent(m, o)
    ensures Shape(after) && SameAdmission(m, after)
  {
    if m.life[o].released || m.life[o].threads != {} then m
    else
      Update(m, o, m.life[o].(threads := {m.threadCount})).(
        running := m.running + {m.threadCount}, threadCount := m.threadCount + 1)
  }

  function EndThread(m: Manager, t: ThreadId): (after: Manager)
    requires Shape(m)
    ensures Shape(after) && SameAdmission(m, after)
  {
    m.(running := m.running - {t})
  }

  /** threads.discard, whatever the future's state. */
  function Discard(m: Manager, o: OwnerId, t: ThreadId): (after: Manager)
    requires Shape(m) && o < |m.life|
    ensures Shape(after) && SameAdmission(m, after)
  {
    Update(m, o, m.life[o].(threads := m.life[o].threads - {t}))
  }

  /** The loss of a thread as it should be: only a future that is done is discarded. */
  function Reap(m: Manager, o: OwnerId, t: ThreadId): (after: Manager)
    requires Shape(m) && o < |m.life|
    ensures Shape(after) && SameAdmission(m, after)
  {
    if t in m.running then m else Discard(m, o, t)
  }

  function Cancel(m: Manager, o: OwnerId): (after: Manager)
    requires Shape(m) && o < |m.life|
    ensures Shape(after) && SameAdmission(m, after)
  {
    Update(m, o, m.life[o].(cancelled := true))
  }

  // -------- runs --------

  datatype Event =
    | EvAcquire(owner: Owner, parentLane: Option<LaneName>)
    | EvResume(o: OwnerId) | EvFail(o: OwnerId) | EvLeave(o: OwnerId)
    | EvShutdown | EvTick(now: real)
    | EvBorrow(o: OwnerId, request: BorrowRequest) | EvGiveBack(o: OwnerId)
    | EvConnect(o: OwnerId, runtime: bool, ownTask: bool) | EvDisconnect(o: OwnerId)
    | EvLease(o: OwnerId, accounts: set<int>) | EvDropLease(o: OwnerId)
    | EvStartThread(o: OwnerId) | EvEndThread(t: ThreadId) | EvReap(o: OwnerId, t: ThreadId) | EvCancel(o: OwnerId)

  /** One atomic stretch of some task; an event that is not possible changes nothing. */
  function Step(m: Manager, e: Event): (after: Manager)
    requires Shape(m) && HasSharedLanes(m)
    ensures Shape(after) && after.lanes == m.lanes
  {
    match e
    case EvAcquire(owner, parentLane) => Acquire(m, owner, parentLane).0
    case EvResume(o) => if o < |m.phase| then Resume(m, o) else m
    case EvFail(o) => if o < |m.phase| then Fail(m, o) else m
    case EvLeave(o) => if o < |m.phase| then Leave(m, o) else m
    case EvShutdown => Shutdown(m)
    case EvTick(now) => Tick(m, now)
    case _ => StepLife(m, e)
  }

  /** The steps that touch only what an owner has in use. */
  function StepLife(m: Manager, e: Event): (after: Manager)
    requires Shape(m)
    ensures Shape(after) && SameAdmission(m, after)
  {
    match e
    case EvBorrow(o, request) => if IsCurrent(m, o) then Borrow(m, o, request) else m
    case EvGiveBack(o) => if IsCurrent(m, o) then GiveBack(m, o) else m
    case EvConnect(o, runtime, ownTask) => if IsCurrent(m, o) then Connect(m, o, runtime, ownTask) else m
    case EvDisconnect(o) => if IsCurrent(m, o) then Disconnect(m, o) else m
    case EvLease(o, accounts) => if IsCurrent(m, o) then Lease(m, o, accounts) else m
    case EvDropLease(o) => if IsCurrent(m, o) then DropLease(m, o) else m
    case EvStartThread(o) => if IsCurrent(m, o) then StartThread(m, o) else m
    case EvEndThread(t) => EndThread(m, t)
    case EvReap(o, t) => if IsCurrent(m, o) then Reap(m, o, t) else m
    case EvCancel(o) => if IsCurrent(m, o) then Cancel(m, o) else m
    case _ => m
  }

  function Run(m: Manager, events: seq<Event>): (after: Manager)
    requires Shape(m) && HasSharedLanes(m)
    ensures Shape(after) && after.lanes == m.lanes
  {
    if events == [] then m else Step(Run(m, events[..|events| - 1]), events[|events| - 1])
  }

  function Initial(lanes: map<LaneName, LaneSpec>): (m: Manager)
    ensures Shape(m) && m.lanes == lanes
  {
    Manager(lanes, map l | l in lanes :: {}, map l | l in lanes :: [], false, true, {}, [], [], [], {}, 0, 0.0)
  }
}
