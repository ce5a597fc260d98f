/** The background scheduler: app/account_workers.py, BackgroundScheduler. */
module TurnScheduler {
  import opened Common

  /** Set: the turn was granted. Cancelled: its waiting task was cancelled first. */
  datatype Future = Pending | Set | Cancelled

  /** One call of turn; ended once its finally block ran. born counts the turns granted before it came. */
  datatype Turn = Turn(name: string, future: Future, ended: bool, born: nat)

  type TurnId = nat

  datatype Entry = Entry(name: string, turn: TurnId)

  datatype State = State(
    ready: seq<Entry>,
    registrations: set<string>,
    active: Option<string>,
    turns: seq<Turn>,
    granted: seq<TurnId>)  // every turn ever granted, in order

  const MAX_TYPES := 7

  const INITIAL := State([], {}, None, [], [])

  predicate Known(s: State) {
    forall e :: e in s.ready ==> e.turn < |s.turns|
  }

  function Advance(s: State): (after: State)
    requires Known(s)
    ensures Known(after) && |after.turns| == |s.turns|
    decreases |s.ready|
  {
    if s.active.Some? || s.ready == [] then s
    else
      var e := s.ready[0];
      if s.turns[e.turn].future.Cancelled? then Advance(s.(ready := s.ready[1..]))
      else Grant(s)
  }

  function Grant(s: State): (after: State)
    requires Known(s) && s.ready != []
    ensures Known(after) && |after.turns| == |s.turns|
  {
    var e := s.ready[0];
    s.(ready := s.ready[1..], active := Some(e.name),
       turns := s.turns[e.turn := s.turns[e.turn].(future := Set)], granted := s.granted + [e.turn])
  }

  datatype Registration = Registered(turn: TurnId) | AlreadyRegistered | TooMany

  /** turn up to its await. */
  function Register(s: State, name: string): (r: (State, Registration))
    requires Known(s)
    ensures Known(r.0)
  {
    if name in s.registrations then (s, AlreadyRegistered)
    else if |s.registrations| >= MAX_TYPES then (s, TooMany)
    else (Advance(Joined(s, name)), Registered(|s.turns|))
  }

  function Joined(s: State, name: string): (after: State)
    requires Known(s)
    ensures Known(after)
  {
    s.(registrations := s.registrations + {name}, ready := s.ready + [Entry(name, |s.turns|)],
       turns := s.turns + [Turn(name, Pending, false, |s.granted|)])
  }

  /** Cancelling a task that awaits its future cancels the future; the task runs on later. */
  function CancelWaiter(s: State, t: TurnId): (after: State)
    requires Known(s)
    ensures Known(after)
  {
    if t < |s.turns| && s.turns[t].future.Pending? then s.(turns := s.turns[t := s.turns[t].(future := Cancelled)]) else s
  }

  function Without(ready: seq<Entry>, t: TurnId): (r: seq<Entry>)
    ensures forall e :: e in r ==> e in ready
  {
    if ready == [] then []
    else if ready[0].turn == t then Without(ready[1..], t)
    else [ready[0]] + Without(ready[1..], t)
  }

  /** The finally block, which runs once the future is done: after the work, or because of a cancellation
      before or after the grant. */
  function Finish(s: State, t: TurnId): (after: State)
    requires Known(s)
    ensures Known(after)
  {
    if t < |s.turns| && !s.turns[t].ended && !s.turns[t].future.Pending? then Advance(Ended(s, t)) else s
  }

  function Ended(s: State, t: TurnId): (after: State)
    requires Known(s) && t < |s.turns|
    ensures Known(after) && |after.turns| == |s.turns|
  {
    var name := s.turns[t].name;
    var e := s.(turns := s.turns[t := s.turns[t].(ended := true)], registrations := s.registrations - {name});
    if s.active == Some(name) then e.(active := None) else e.(ready := Without(s.ready, t))
  }

  datatype Event = EvRegister(name: string) | EvCancel(turn: TurnId) | EvFinish(turn: TurnId)

  function Step(s: State, e: Event): (after: State)
    requires Known(s)
    ensures Known(after)
  {
    match e
    case EvRegister(name) => Register(s, name).0
    case EvCancel(t) => CancelWaiter(s, t)
    case EvFinish(t) => Finish(s, t)
  }

  function Run(events: seq<Event>): (s: State)
    ensures Known(s)
  {
    if events == [] then INITIAL else Step(Run(events[..|events| - 1]), events[|events| - 1])
  }

  // -------- the invariant --------

  predicate Live(s: State, t: TurnId) {
    t < |s.turns| && !s.turns[t].ended
  }

  predicate Holder(s: State, t: TurnId) {
    Live(s, t) && s.turns[t].future.Set?
  }

  predicate IsWaitingEntry(s: State, e: Entry) {
    Live(s, e.turn) && !s.turns[e.turn].future.Set? && s.turns[e.turn].name == e.name
  }

  /** Waiting turns stand in the queue in the order they came, and none that holds or ended. */
  ghost predicate QueueOk(s: State) {
    && (forall i :: 0 <= i < |s.ready| ==> IsWaitingEntry(s, s.ready[i]))
    && (forall i, j :: 0 <= i < j < |s.ready| ==> s.ready[i].turn < s.ready[j].turn)
    && (forall t: TurnId :: Live(s, t) && s.turns[t].future.Pending? ==> Waiting(s.ready, t))
  }

  ghost predicate Named(s: State, name: string) {
    exists t: TurnId :: Live(s, t) && s.turns[t].name == name
  }

  ghost predicate Waiting(ready: seq<Entry>, t: TurnId) {
    exists i :: 0 <= i < |ready| && ready[i].turn == t
  }

  ghost predicate HolderNamed(s: State, name: string) {
    exists t: TurnId :: Holder(s, t) && s.turns[t].name == name
  }

  /** The registered labels are those of the live turns, one turn each. */
  ghost predicate LabelsOk(s: State) {
    && (forall t: TurnId :: Live(s, t) ==> s.turns[t].name in s.registrations)
    && (forall l :: l in s.registrations ==> Named(s, l))
    && (forall t: TurnId, u: TurnId :: Live(s, t) && Live(s, u) && s.turns[t].name == s.turns[u].name ==> t == u)
    && |s.registrations| <= MAX_TYPES
  }

  /** The active label is that of the one turn that holds the scheduler. */
  ghost predicate ActiveOk(s: State) {
    && (forall t: TurnId :: Holder(s, t) ==> s.active == Some(s.turns[t].name))
    && (s.active.Some? ==> HolderNamed(s, s.active.value))
  }

  /** However long a turn waits, at most five turns are granted meanwhile. */
  ghost predicate WaitsOk(s: State) {
    && (forall t: TurnId :: t < |s.turns| ==> s.turns[t].born <= |s.granted|)
    && (forall i :: 0 <= i < |s.ready| && s.ready[i].turn < |s.turns| ==>
          |s.granted| - s.turns[s.ready[i].turn].born + i <= MAX_TYPES - 2)
    && (forall k :: 0 <= k < |s.granted| ==>
          && s.granted[k] < |s.turns| && !s.turns[s.granted[k]].future.Pending?
          && 0 <= k - s.turns[s.granted[k]].born <= MAX_TYPES - 2)
    && (forall k, i :: 0 <= k < |s.granted| && 0 <= i < |s.ready| ==> s.granted[k] != s.ready[i].turn)
    && (forall k, n :: 0 <= k < n < |s.granted| ==> s.granted[k] != s.granted[n])
  }

  ghost predicate Core(s: State) {
    Known(s) && QueueOk(s) && LabelsOk(s) && ActiveOk(s) && WaitsOk(s)
  }

  /** An idle scheduler has nobody waiting. */
  ghost predicate Inv(s: State) {
    Core(s) && (s.active.None? ==> s.ready == [])
  }

  // -------- granting --------

  lemma SkipKeepsCore(s: State)
    requires Core(s) && s.ready != [] && s.turns[s.ready[0].turn].future.Cancelled?
    ensures Core(s.(ready := s.ready[1..]))
  {
    hide LabelsOk, ActiveOk;
    var after := s.(ready := s.ready[1..]);
    SkipKeepsQueue(s);
    SameTurns(s, after);
    assert forall i :: 0 <= i < |after.ready| ==> after.ready[i] == s.ready[i + 1];
  }

  lemma SkipKeepsQueue(s: State)
    requires Known(s) && QueueOk(s) && s.ready != [] && !s.turns[s.ready[0].turn].future.Pending?
    ensures QueueOk(s.(ready := s.ready[1..]))
  {
    var after := s.(ready := s.ready[1..]);
    assert forall i :: 0 <= i < |after.ready| ==> after.ready[i] == s.ready[i + 1];
    forall t: TurnId | Live(after, t) && after.turns[t].future.Pending?
      ensures Waiting(after.ready, t)
    {
      assert Live(s, t);
      var i :| 0 <= i < |s.ready| && s.ready[i].turn == t;
      assert after.ready[i - 1].turn == t;
    }
  }

  /** Labels, ends and grants as before. */
  ghost predicate SameTurn(t: Turn, u: Turn) {
    t.name == u.name && t.ended == u.ended && (t.future.Set? <==> u.future.Set?)
  }

  lemma SameTurns(s: State, after: State)
    requires LabelsOk(s) && ActiveOk(s)
    requires |after.turns| == |s.turns| && forall t :: 0 <= t < |s.turns| ==> SameTurn(s.turns[t], after.turns[t])
    requires after.registrations == s.registrations && after.active == s.active
    ensures LabelsOk(after) && ActiveOk(after)
  {
    forall l | l in after.registrations
      ensures Named(after, l)
    {
      assert Named(s, l);
      var t: TurnId :| Live(s, t) && s.turns[t].name == l;
      assert Live(after, t);
    }
    if s.active.Some? {
      var t: TurnId :| Holder(s, t) && s.turns[t].name == s.active.value;
      assert Holder(after, t);
    }
    forall t: TurnId, u: TurnId | Live(after, t) && Live(after, u) && after.turns[t].name == after.turns[u].name
      ensures t == u
    {
      assert Live(s, t) && Live(s, u);
    }
    forall t: TurnId | Live(after, t)
      ensures after.turns[t].name in after.registrations
      ensures Holder(after, t) ==> after.active == Some(after.turns[t].name)
    {
      assert Live(s, t);
      assert Holder(after, t) ==> Holder(s, t);
    }
  }

  lemma GrantKeepsQueue(s: State)
    requires Core(s) && s.ready != [] && s.turns[s.ready[0].turn].future.Pending?
    ensures QueueOk(Grant(s))
  {
    var after := Grant(s);
    assert forall i :: 0 <= i < |after.ready| ==> after.ready[i] == s.ready[i + 1];
    forall t: TurnId | Live(after, t) && after.turns[t].future.Pending?
      ensures Waiting(after.ready, t)
    {
      assert Live(s, t);
      var i :| 0 <= i < |s.ready| && s.ready[i].turn == t;
      assert after.ready[i - 1].turn == t;
    }
  }

  lemma GrantKeepsLabels(s: State)
    requires Core(s) && s.active.None? && s.ready != [] && s.turns[s.ready[0].turn].future.Pending?
    ensures LabelsOk(Grant(s)) && ActiveOk(Grant(s))
  {
    var after, first := Grant(s), s.ready[0].turn;
    forall l | l in after.registrations
      ensures Named(after, l)
    {
      var t: TurnId :| Live(s, t) && s.turns[t].name == l;
      assert Live(after, t);
    }
    forall t: TurnId | Live(after, t)
      ensures Live(s, t) && after.turns[t].name == s.turns[t].name
      ensures Holder(after, t) ==> t == first
    {
      if Holder(after, t) && t != first {
        assert Holder(s, t);
      }
    }
    assert Holder(after, first);
  }

  lemma GrantKeepsWaits(s: State)
    requires Core(s) && s.ready != [] && s.turns[s.ready[0].turn].future.Pending?
    ensures WaitsOk(Grant(s))
  {
    hide LabelsOk, ActiveOk, Waiting;
    var after, n, first := Grant(s), |s.granted|, s.ready[0].turn;
    assert forall i :: 0 <= i < |after.ready| ==> after.ready[i] == s.ready[i + 1] && after.ready[i].turn != first;
    assert forall k :: 0 <= k < n ==> after.granted[k] == s.granted[k] && s.granted[k] != first;
    assert after.granted[n] == first;
  }

  lemma {:induction false} AdvanceKeepsCore(s: State)
    requires Core(s)
    ensures Inv(Advance(s))
    decreases |s.ready|
  {
    if s.active.None? && s.ready != [] {
      assert Live(s, s.ready[0].turn);
      if s.turns[s.ready[0].turn].future.Cancelled? {
        SkipKeepsCore(s);
        AdvanceKeepsCore(s.(ready := s.ready[1..]));
      } else {
        GrantKeepsQueue(s);
        GrantKeepsLabels(s);
        GrantKeepsWaits(s);
      }
    }
  }

  // -------- joining --------

  /** The holder and everyone in the queue are registered under different labels. */
  lemma QueueIsShort(s: State)
    requires Core(s) && s.active.Some?
    ensures |s.ready| + 1 <= |s.registrations|
  {
    var h: TurnId :| Holder(s, h) && s.turns[h].name == s.active.value;
    var names := seq(|s.ready|, i requires 0 <= i < |s.ready| => s.ready[i].name);
    forall i | 0 <= i < |names|
      ensures names[i] in s.registrations - {s.turns[h].name}
    {
      assert Live(s, s.ready[i].turn);
    }
    DistinctFits(names, s.registrations - {s.turns[h].name});
  }

  lemma JoinedQueue(s: State, name: string)
    requires Inv(s)
    ensures QueueOk(Joined(s, name))
  {
    hide LabelsOk, ActiveOk, WaitsOk, Waiting;
    var after, n := Joined(s, name), |s.ready|;
    assert forall i :: 0 <= i < n ==> after.ready[i] == s.ready[i];
    assert after.ready[n].turn == |s.turns|;
    forall t: TurnId | Live(after, t) && after.turns[t].future.Pending?
      ensures Waiting(after.ready, t)
    {
      assert t < |s.turns| ==> Live(s, t);
      WaitingWithLast(s.ready, after.ready[n], t);
    }
  }

  lemma WaitingWithLast(ready: seq<Entry>, e: Entry, t: TurnId)
    ensures Waiting(ready + [e], t) <==> Waiting(ready, t) || e.turn == t
  {
    var all := ready + [e];
    assert all[|ready|] == e;
    if Waiting(ready, t) {
      var i :| 0 <= i < |ready| && ready[i].turn == t;
      assert all[i].turn == t;
    }
    if Waiting(all, t) {
      var i :| 0 <= i < |all| && all[i].turn == t;
      assert i < |ready| ==> ready[i].turn == t;
    }
  }

  lemma JoinedLabels(s: State, name: string)
    requires Known(s) && LabelsOk(s) && name !in s.registrations && |s.registrations| < MAX_TYPES
    ensures LabelsOk(Joined(s, name))
  {
    var after, n := Joined(s, name), |s.turns|;
    hide Joined, Named;
    forall t: TurnId | Live(after, t) && t != n
      ensures Live(s, t) && after.turns[t].name == s.turns[t].name && s.turns[t].name in s.registrations
    {
    }
    forall l | l in after.registrations
      ensures Named(after, l)
    {
      if l == name {
        NamedBy(after, n);
      } else {
        StillNamed(s, after, l);
      }
    }
  }

  lemma NamedBy(s: State, t: TurnId)
    requires Live(s, t)
    ensures Named(s, s.turns[t].name)
  {
  }

  lemma StillNamed(s: State, after: State, l: string)
    requires Named(s, l) && s.turns <= after.turns
    ensures Named(after, l)
  {
    var t: TurnId :| Live(s, t) && s.turns[t].name == l;
    assert Live(after, t);
  }

  lemma JoinedActive(s: State, name: string)
    requires Known(s) && ActiveOk(s)
    ensures ActiveOk(Joined(s, name))
  {
    var after, n := Joined(s, name), |s.turns|;
    forall t: TurnId
      ensures Holder(after, t) <==> Holder(s, t)
    {
    }
    if s.active.Some? {
      var t: TurnId :| Holder(s, t) && s.turns[t].name == s.active.value;
      assert Holder(after, t);
    }
  }

  lemma JoinedWaits(s: State, name: string)
    requires Inv(s) && |s.registrations| < MAX_TYPES
    ensures WaitsOk(Joined(s, name))
  {
    hide LabelsOk, ActiveOk, Waiting;
    var after, n := Joined(s, name), |s.ready|;
    assert forall i :: 0 <= i < n ==> after.ready[i] == s.ready[i];
    assert after.ready[n].turn == |s.turns|;
    if s.active.Some? {
      QueueIsShort(s);
    }
    forall i | 0 <= i < n
      ensures s.ready[i].turn < |s.turns|
    {
      assert s.ready[i] in s.ready;
    }
  }

  lemma RegisterKeepsInv(s: State, name: string)
    requires Inv(s)
    ensures Inv(Register(s, name).0)
  {
    if name !in s.registrations && |s.registrations| < MAX_TYPES {
      JoinedKeepsCore(s, name);
      AdvanceKeepsCore(Joined(s, name));
    }
  }

  // -------- cancelling and finishing --------

  lemma CancelKeepsInv(s: State, t: TurnId)
    requires Inv(s)
    ensures Inv(CancelWaiter(s, t))
  {
    hide QueueOk, LabelsOk, ActiveOk;
    CancelKeepsQueue(s, t);
    CancelKeepsLabels(s, t);
  }

  lemma CancelKeepsLabels(s: State, t: TurnId)
    requires Known(s) && LabelsOk(s) && ActiveOk(s)
    ensures LabelsOk(CancelWaiter(s, t)) && ActiveOk(CancelWaiter(s, t))
  {
    hide LabelsOk, ActiveOk;
    SameTurns(s, CancelWaiter(s, t));
  }

  lemma CancelKeepsQueue(s: State, t: TurnId)
    requires Known(s) && QueueOk(s)
    ensures QueueOk(CancelWaiter(s, t))
  {
    hide Waiting;
    var after := CancelWaiter(s, t);
    forall u: TurnId | Live(after, u) && after.turns[u].future.Pending?
      ensures Waiting(after.ready, u)
    {
      assert Live(s, u);
    }
  }

  /** Taking out one turn leaves the others in order, none further back than it was. */
  lemma {:induction false} WithoutKeepsOrder(ready: seq<Entry>, t: TurnId, i: nat) returns (j: nat)
    requires forall a, b :: 0 <= a < b < |ready| ==> ready[a].turn < ready[b].turn
    requires i < |Without(ready, t)|
    ensures i <= j < |ready| && Without(ready, t)[i] == ready[j] && ready[j].turn != t
    ensures forall k :: 0 <= k < i ==> Without(ready, t)[k].turn < Without(ready, t)[i].turn
  {
    if ready[0].turn == t {
      j := WithoutKeepsOrder(ready[1..], t, i);
      j := j + 1;
    } else if i == 0 {
      j := 0;
    } else {
      j := WithoutKeepsOrder(ready[1..], t, i - 1);
      j := j + 1;
      forall k | 0 <= k < i
        ensures Without(ready, t)[k].turn < Without(ready, t)[i].turn
      {
        if k > 0 {
          assert Without(ready, t)[k] == Without(ready[1..], t)[k - 1];
        }
      }
    }
  }

  lemma {:induction false} WithoutKeepsOthers(ready: seq<Entry>, t: TurnId, i: nat) returns (j: nat)
    requires i < |ready| && ready[i].turn != t
    ensures j < |Without(ready, t)| && Without(ready, t)[j] == ready[i]
  {
    if i == 0 {
      j := 0;
    } else {
      j := WithoutKeepsOthers(ready[1..], t, i - 1);
      if ready[0].turn != t {
        j := j + 1;
      }
    }
  }

  lemma EndedLabels(s: State, t: TurnId)
    requires Inv(s) && Live(s, t) && !s.turns[t].future.Pending?
    ensures LabelsOk(Ended(s, t)) && ActiveOk(Ended(s, t))
  {
    var after := Ended(s, t);
    forall u: TurnId
      ensures Live(after, u) <==> Live(s, u) && u != t
      ensures Holder(after, u) <==> Holder(s, u) && u != t
    {
    }
    forall l | l in after.registrations
      ensures Named(after, l)
    {
      var u: TurnId :| Live(s, u) && s.turns[u].name == l;
      assert Live(after, u);
    }
    if s.active.Some? {
      var u: TurnId :| Holder(s, u) && s.turns[u].name == s.active.value;
      if u != t {
        assert Holder(after, u);
      }
    }
  }

  /** The active label is this turn's exactly when this turn holds the scheduler. */
  lemma ActiveLabelIsTheHolder(s: State, t: TurnId)
    requires Inv(s) && Live(s, t)
    ensures s.active == Some(s.turns[t].name) <==> Holder(s, t)
  {
    if s.active == Some(s.turns[t].name) {
      var u: TurnId :| Holder(s, u) && s.turns[u].name == s.active.value;
      assert u == t;
    }
  }

  lemma EndedReady(s: State, t: TurnId, i: nat)
    requires Inv(s) && Live(s, t) && !s.turns[t].future.Pending? && i < |Ended(s, t).ready|
    ensures var ready := Ended(s, t).ready;
            && (exists j :: i <= j < |s.ready| && ready[i] == s.ready[j] && s.ready[j].turn != t)
            && forall k :: 0 <= k < i ==> ready[k].turn < ready[i].turn
  {
    ActiveLabelIsTheHolder(s, t);
    if Holder(s, t) {
      assert Live(s, s.ready[i].turn);
    } else {
      var j := WithoutKeepsOrder(s.ready, t, i);
    }
  }

  lemma EndedQueue(s: State, t: TurnId)
    requires Inv(s) && Live(s, t) && !s.turns[t].future.Pending?
    ensures QueueOk(Ended(s, t))
  {
    var after := Ended(s, t);
    hide WaitsOk, LabelsOk, ActiveOk, Waiting;
    forall i | 0 <= i < |after.ready|
      ensures IsWaitingEntry(after, after.ready[i])
      ensures forall k :: 0 <= k < i ==> after.ready[k].turn < after.ready[i].turn
    {
      EndedReady(s, t, i);
      EndedEntry(s, t, i);
    }
    forall u: TurnId | Live(after, u) && after.turns[u].future.Pending?
      ensures Waiting(after.ready, u)
    {
      EndedWaiting(s, t, u);
    }
  }

  lemma EndedEntry(s: State, t: TurnId, i: nat)
    requires Inv(s) && Live(s, t) && !s.turns[t].future.Pending? && i < |Ended(s, t).ready|
    ensures IsWaitingEntry(Ended(s, t), Ended(s, t).ready[i])
  {
    hide WaitsOk, LabelsOk, ActiveOk, Waiting;
    EndedReady(s, t, i);
    var j :| i <= j < |s.ready| && Ended(s, t).ready[i] == s.ready[j] && s.ready[j].turn != t;
    assert Live(s, s.ready[j].turn);
  }

  lemma EndedWaiting(s: State, t: TurnId, u: TurnId)
    requires Inv(s) && Live(s, t) && !s.turns[t].future.Pending?
    requires Live(Ended(s, t), u) && Ended(s, t).turns[u].future.Pending?
    ensures Waiting(Ended(s, t).ready, u)
  {
    hide WaitsOk, LabelsOk, ActiveOk;
    assert Live(s, u) && Waiting(s.ready, u);
    var i :| 0 <= i < |s.ready| && s.ready[i].turn == u;
    var j := WithoutKeepsOthers(s.ready, t, i);
    assert Ended(s, t).ready == s.ready || Ended(s, t).ready == Without(s.ready, t);
  }

  lemma EndedTurns(s: State, t: TurnId)
    requires Known(s) && t < |s.turns|
    ensures var after := Ended(s, t);
            && after.granted == s.granted && |after.turns| == |s.turns|
            && forall u: TurnId :: u < |s.turns| ==>
                 after.turns[u].born == s.turns[u].born && after.turns[u].future == s.turns[u].future
  {
  }

  ghost predicate StoodBehind(ready: seq<Entry>, w: Entry, i: nat) {
    exists j :: i <= j < |ready| && ready[j] == w
  }

  lemma FewerWait(s: State, after: State)
    requires WaitsOk(s) && after.granted == s.granted && |after.turns| == |s.turns|
    requires forall u: TurnId :: u < |s.turns| ==>
               after.turns[u].born == s.turns[u].born && after.turns[u].future == s.turns[u].future
    requires forall i :: 0 <= i < |after.ready| ==> StoodBehind(s.ready, after.ready[i], i)
    ensures WaitsOk(after)
  {
  }

  lemma EndedWaits(s: State, t: TurnId)
    requires Inv(s) && Live(s, t) && !s.turns[t].future.Pending?
    ensures WaitsOk(Ended(s, t))
  {
    hide LabelsOk, ActiveOk, Ended, WaitsOk;
    var after := Ended(s, t);
    EndedTurns(s, t);
    forall i | 0 <= i < |after.ready|
      ensures StoodBehind(s.ready, after.ready[i], i)
    {
      EndedReady(s, t, i);
    }
    FewerWait(s, after);
  }

  lemma FinishKeepsInv(s: State, t: TurnId)
    requires Inv(s)
    ensures Inv(Finish(s, t))
  {
    if Live(s, t) && !s.turns[t].future.Pending? {
      EndedKeepsCore(s, t);
      AdvanceKeepsCore(Ended(s, t));
    }
  }

  lemma StepKeepsInv(s: State, e: Event)
    requires Inv(s)
    ensures Inv(Step(s, e))
  {
    hide Inv, Register, CancelWaiter, Finish;
    match e
    case EvRegister(name) => RegisterKeepsInv(s, name);
    case EvCancel(t) => CancelKeepsInv(s, t);
    case EvFinish(t) => FinishKeepsInv(s, t);
  }

  lemma {:induction false} RunKeepsInv(events: seq<Event>)
    ensures Inv(Run(events))
  {
    if events != [] {
      RunKeepsInv(events[..|events| - 1]);
      StepKeepsInv(Run(events[..|events| - 1]), events[|events| - 1]);
    }
  }

  lemma InitialInv()
    ensures Inv(INITIAL)
  {
  }

  // -------- over every run --------

  /** At most one turn holds the scheduler, and the active label is the label of exactly that turn. */
  lemma OneHolder(events: seq<Event>, t: TurnId)
    requires Live(Run(events), t)
    ensures var s := Run(events);
            && (Holder(s, t) <==> s.active == Some(s.turns[t].name))
            && (Holder(s, t) ==> forall u: TurnId :: Holder(s, u) ==> u == t)
  {
    RunKeepsInv(events);
    hide Run;
    ActiveLabelIsTheHolder(Run(events), t);
  }

  /** Nobody waits while the scheduler is idle, whichever waiters were cancelled before or after their grant. */
  lemma NobodyIsStranded(events: seq<Event>)
    ensures var s := Run(events);
            && (s.active.None? ==> s.ready == [])
            && forall t: TurnId :: Live(s, t) && s.turns[t].future.Pending? ==> exists h: TurnId :: Holder(s, h) && h != t
  {
    RunKeepsInv(events);
    hide Run;
    var s := Run(events);
    forall t: TurnId | Live(s, t) && s.turns[t].future.Pending?
      ensures exists h: TurnId :: Holder(s, h) && h != t
    {
      assert Waiting(s.ready, t);
      var h: TurnId :| Holder(s, h) && s.turns[h].name == s.active.value;
      assert Holder(s, h) && h != t;
    }
  }

  /** Registration to grant: at most five turns are granted in between, so with the one that held the
      scheduler at registration a turn starts after at most six others. No turn is granted twice. */
  lemma BoundedWaiting(events: seq<Event>, t: TurnId)
    requires Live(Run(events), t) || t in Run(events).granted
    ensures var s := Run(events);
            && t < |s.turns|
            && (s.turns[t].future.Pending? && !s.turns[t].ended ==> |s.granted| - s.turns[t].born <= 5)
            && forall k :: 0 <= k < |s.granted| && s.granted[k] == t ==>
                 0 <= k - s.turns[t].born <= 5 && forall n :: 0 <= n < |s.granted| && s.granted[n] == t ==> n == k
  {
    RunKeepsInv(events);
    hide Run;
    var s := Run(events);
    if Live(s, t) && s.turns[t].future.Pending? {
      assert Waiting(s.ready, t);
    }
  }

  /** The position of the first entry whose turn was not cancelled. */
  function FirstOpen(ready: seq<Entry>, turns: seq<Turn>): (k: nat)
    requires forall e :: e in ready ==> e.turn < |turns|
    ensures k <= |ready| && (k < |ready| ==> !turns[ready[k].turn].future.Cancelled?)
    ensures forall j :: 0 <= j < k ==> turns[ready[j].turn].future.Cancelled?
  {
    if ready == [] || !turns[ready[0].turn].future.Cancelled? then 0 else 1 + FirstOpen(ready[1..], turns)
  }

  lemma {:induction false} AdvanceGrantsTheOldest(s: State)
    requires Known(s) && s.active.None?
    ensures var k, after := FirstOpen(s.ready, s.turns), Advance(s);
            if k == |s.ready| then after.granted == s.granted && after.active.None? && after.turns == s.turns
            else
              && after.granted == s.granted + [s.ready[k].turn] && after.active == Some(s.ready[k].name)
              && after.turns == s.turns[s.ready[k].turn := s.turns[s.ready[k].turn].(future := Set)]
    decreases |s.ready|
  {
    if s.ready != [] && s.turns[s.ready[0].turn].future.Cancelled? {
      AdvanceGrantsTheOldest(s.(ready := s.ready[1..]));
    }
  }

  /** When the holder ends, the turn that has waited longest is granted, past all that were cancelled;
      the scheduler falls idle exactly when no turn waits. */
  lemma TheLongestWaiterIsNext(events: seq<Event>, h: TurnId)
    requires Holder(Run(events), h)
    ensures var s, after := Run(events), Finish(Run(events), h);
            && (after.active.None? ==> after.granted == s.granted && forall t: TurnId :: !Waits(s, t))
            && (after.active.Some? ==> exists t: TurnId ::
                  Waits(s, t) && after.granted == s.granted + [t] && Holder(after, t)
                  && forall u: TurnId :: Waits(s, u) ==> t <= u)
  {
    RunKeepsInv(events);
    hide Run;
    HolderHandsOn(Run(events), h);
  }

  predicate Waits(s: State, t: TurnId) {
    Live(s, t) && s.turns[t].future.Pending?
  }

  lemma HolderHandsOn(s: State, h: TurnId)
    requires Inv(s) && Holder(s, h)
    ensures var after := Finish(s, h);
            && (after.active.None? ==> after.granted == s.granted && forall t: TurnId :: !Waits(s, t))
            && (after.active.Some? ==> exists t: TurnId ::
                  Waits(s, t) && after.granted == s.granted + [t] && Holder(after, t)
                  && forall u: TurnId :: Waits(s, u) ==> t <= u)
  {
    hide Advance, Ended, LabelsOk, ActiveOk, QueueOk, WaitsOk;
    HolderEnds(s, h);
    var e := Ended(s, h);
    AdvanceGrantsTheOldest(e);
    forall u: TurnId | Waits(s, u)
      ensures FirstOpen(s.ready, e.turns) < |s.ready| && s.ready[FirstOpen(s.ready, e.turns)].turn <= u
    {
      OldestIsFirst(s, e.turns, h, u);
    }
    if FirstOpen(s.ready, e.turns) < |s.ready| {
      FirstOpenWaits(s, e.turns, h);
    }
  }

  lemma HolderEnds(s: State, h: TurnId)
    requires Inv(s) && Holder(s, h)
    ensures var e := Ended(s, h);
            && e.active.None? && e.ready == s.ready && e.granted == s.granted
            && e.turns == s.turns[h := s.turns[h].(ended := true)]
  {
    hide QueueOk, WaitsOk, LabelsOk;
  }

  /** Whoever waits stands behind the first that was not cancelled. */
  lemma OldestIsFirst(s: State, turns: seq<Turn>, h: TurnId, u: TurnId)
    requires Known(s) && QueueOk(s) && Holder(s, h) && turns == s.turns[h := s.turns[h].(ended := true)] && Waits(s, u)
    ensures FirstOpen(s.ready, turns) < |s.ready| && s.ready[FirstOpen(s.ready, turns)].turn <= u
  {
    hide QueueOk;
    var i := PlaceOf(s, u);
    assert u != h && turns[u] == s.turns[u];
    assert FirstOpen(s.ready, turns) <= i;
  }

  lemma PlaceOf(s: State, u: TurnId) returns (i: nat)
    requires QueueOk(s) && Waits(s, u)
    ensures i < |s.ready| && s.ready[i].turn == u && forall j :: 0 <= j < i ==> s.ready[j].turn < u
  {
    assert Waiting(s.ready, u);
    i :| 0 <= i < |s.ready| && s.ready[i].turn == u;
  }

  lemma FirstOpenWaits(s: State, turns: seq<Turn>, h: TurnId)
    requires Known(s) && QueueOk(s) && Holder(s, h) && turns == s.turns[h := s.turns[h].(ended := true)]
    requires FirstOpen(s.ready, turns) < |s.ready|
    ensures var t := s.ready[FirstOpen(s.ready, turns)].turn; Waits(s, t) && t != h
  {
    hide Waiting;
    var k := FirstOpen(s.ready, turns);
    assert Live(s, s.ready[k].turn);
  }

  lemma CoreKnows(s: State)
    requires Core(s)
    ensures Known(s)
  {
  }

  lemma JoinedKeepsCore(s: State, name: string)
    requires Inv(s) && name !in s.registrations && |s.registrations| < MAX_TYPES
    ensures Known(s) && Core(Joined(s, name))
  {
    hide QueueOk, LabelsOk, ActiveOk, WaitsOk;
    JoinedQueue(s, name);
    JoinedLabels(s, name);
    JoinedActive(s, name);
    JoinedWaits(s, name);
  }

  lemma EndedKeepsCore(s: State, t: TurnId)
    requires Inv(s) && Live(s, t) && !s.turns[t].future.Pending?
    ensures Core(Ended(s, t))
  {
    hide QueueOk, LabelsOk, ActiveOk, WaitsOk;
    EndedLabels(s, t);
    EndedQueue(s, t);
    EndedWaits(s, t);
  }

  // -------- what callers are told --------

  /** The turns that are not over. */
  ghost function LiveTurns(s: State): set<TurnId> {
    set t: TurnId | t < |s.turns| && Live(s, t)
  }

  lemma {:induction false} OneNameEach(turns: seq<Turn>, ids: set<TurnId>, names: set<string>)
    requires forall t :: t in ids ==> t < |turns| && turns[t].name in names
    requires forall n :: n in names ==> exists t :: t in ids && t < |turns| && turns[t].name == n
    requires forall t, u :: t in ids && u in ids && turns[t].name == turns[u].name ==> t == u
    ensures |ids| == |names|
    decreases |ids|
  {
    if t :| t in ids {
      var n := turns[t].name;
      forall m | m in names - {n}
        ensures exists u :: u in ids - {t} && u < |turns| && turns[u].name == m
      {
        var u :| u in ids && u < |turns| && turns[u].name == m;
        assert u in ids - {t};
      }
      OneNameEach(turns, ids - {t}, names - {n});
    } else {
      assert ids == {} && names == {};
    }
  }

  lemma RegistrationsAreLiveTurns(s: State)
    requires LabelsOk(s)
    ensures |s.registrations| == |LiveTurns(s)|
  {
    forall n | n in s.registrations
      ensures exists t :: t in LiveTurns(s) && t < |s.turns| && s.turns[t].name == n
    {
      assert Named(s, n);
      var t: TurnId :| Live(s, t) && s.turns[t].name == n;
      assert t in LiveTurns(s);
    }
    OneNameEach(s.turns, LiveTurns(s), s.registrations);
  }

  /** A call is refused exactly while another turn of its type is not over, or seven turns are; otherwise it is
      registered, and granted at once exactly if the scheduler is idle. */
  lemma RegisterOutcome(events: seq<Event>, name: string)
    ensures var s := Run(events); var (after, r) := Register(s, name);
            if exists t: TurnId :: Live(s, t) && s.turns[t].name == name then r == AlreadyRegistered && after == s
            else if |LiveTurns(s)| >= 7 then r == TooMany && after == s
            else
              && r == Registered(|s.turns|) && |after.turns| == |s.turns| + 1
              && Live(after, |s.turns|) && after.turns[|s.turns|].name == name
              && (Holder(after, |s.turns|) <==> s.active.None?)
  {
    RunKeepsInv(events);
    hide Run, QueueOk, ActiveOk, WaitsOk, Advance;
    var s := Run(events);
    RegistrationsAreLiveTurns(s);
    NamedIsRegistered(s, name);
    if name !in s.registrations && |s.registrations| < MAX_TYPES {
      JoinedAdvances(s, name);
    }
  }

  lemma NamedIsRegistered(s: State, name: string)
    requires LabelsOk(s)
    ensures name in s.registrations <==> exists t: TurnId :: Live(s, t) && s.turns[t].name == name
  {
    if name in s.registrations {
      assert Named(s, name);
    }
  }

  lemma JoinedAdvances(s: State, name: string)
    requires Inv(s) && name !in s.registrations && |s.registrations| < MAX_TYPES
    ensures var after := Advance(Joined(s, name)); var n := |s.turns|;
            |after.turns| == n + 1 && Live(after, n) && after.turns[n].name == name && (Holder(after, n) <==> s.active.None?)
  {
    hide LabelsOk, ActiveOk, WaitsOk, QueueOk;
    if s.active.None? {
      assert Joined(s, name).ready == [Entry(name, |s.turns|)];
    }
  }

  // -------- cancelled turns --------

  /** Granted turns are those whose future is set. */
  ghost predicate GrantsAreSet(s: State) {
    forall t: TurnId :: t < |s.turns| ==> (t in s.granted <==> s.turns[t].future.Set?)
  }

  lemma AdvanceSets(s: State)
    requires Known(s) && GrantsAreSet(s)
    ensures GrantsAreSet(Advance(s)) && |Advance(s).turns| == |s.turns|
    ensures forall t: TurnId :: t < |s.turns| && s.turns[t].future.Cancelled? ==> Advance(s).turns[t].future.Cancelled?
  {
    if s.active.None? {
      AdvanceGrantsTheOldest(s);
      hide Advance;
      var k := FirstOpen(s.ready, s.turns);
      if k < |s.ready| {
        assert forall t: TurnId :: t in s.granted + [s.ready[k].turn] <==> t in s.granted || t == s.ready[k].turn;
      }
    }
  }

  lemma StepSets(s: State, e: Event)
    requires Known(s) && GrantsAreSet(s) && forall t :: t in s.granted ==> t < |s.turns|
    ensures GrantsAreSet(Step(s, e)) && |s.turns| <= |Step(s, e).turns|
    ensures forall t: TurnId :: t < |s.turns| && s.turns[t].future.Cancelled? ==> Step(s, e).turns[t].future.Cancelled?
  {
    hide Advance;
    match e
    case EvRegister(name) =>
      AdvanceSets(Joined(s, name));
    case EvCancel(t) =>
    case EvFinish(t) =>
      if t < |s.turns| {
        AdvanceSets(Ended(s, t));
      }
  }

  lemma {:induction false} RunSets(events: seq<Event>)
    ensures GrantsAreSet(Run(events)) && forall t :: t in Run(events).granted ==> t < |Run(events).turns|
  {
    hide Step;
    RunKeepsInv(events);
    if events != [] {
      RunSets(events[..|events| - 1]);
      StepSets(Run(events[..|events| - 1]), events[|events| - 1]);
    }
    GrantedAreTurns(Run(events));
  }

  lemma GrantedAreTurns(s: State)
    requires WaitsOk(s)
    ensures forall t :: t in s.granted ==> t < |s.turns|
  {
  }

  /** A turn that is cancelled while it waits is never granted, and one that waits can be cancelled. */
  lemma {:induction false} CancelledIsNeverGranted(events: seq<Event>, more: seq<Event>, t: TurnId)
    requires Waits(Run(events), t)
    ensures var s := Run(events + [EvCancel(t)] + more);
            t < |s.turns| && s.turns[t].future.Cancelled? && t !in s.granted
  {
    hide Step;
    var all := events + [EvCancel(t)] + more;
    RunSets(all);
    if more == [] {
      assert all[..|all| - 1] == events;
      CancelledAtOnce(Run(events), t);
    } else {
      var front := more[..|more| - 1];
      assert all[..|all| - 1] == events + [EvCancel(t)] + front;
      CancelledIsNeverGranted(events, front, t);
      RunSets(events + [EvCancel(t)] + front);
      StepSets(Run(events + [EvCancel(t)] + front), more[|more| - 1]);
    }
  }

  lemma CancelledAtOnce(s: State, t: TurnId)
    requires Known(s) && Waits(s, t)
    ensures t < |Step(s, EvCancel(t)).turns| && Step(s, EvCancel(t)).turns[t].future.Cancelled?
  {
  }

  /** The finally block ends its turn and frees its label, whether or not it held the scheduler. */
  lemma FinishFreesTheLabel(events: seq<Event>, t: TurnId)
    requires Live(Run(events), t) && !Run(events).turns[t].future.Pending?
    ensures var s, after := Run(events), Finish(Run(events), t);
            && !Live(after, t) && s.turns[t].name !in after.registrations
            && forall u: TurnId :: u != t ==> (Live(after, u) <==> Live(s, u))
  {
    RunKeepsInv(events);
    hide Run;
    var s := Run(events);
    FinishKeepsInv(s, t);
    FinishedTurns(s, t);
    hide Finish;
    var after := Finish(s, t);
    NamedIsRegistered(after, s.turns[t].name);
    forall u: TurnId | Live(after, u)
      ensures after.turns[u].name != s.turns[t].name
    {
      assert Live(s, u) && u != t;
    }
  }

  lemma FinishedTurns(s: State, t: TurnId)
    requires Known(s) && Live(s, t) && !s.turns[t].future.Pending?
    ensures |Finish(s, t).turns| == |s.turns| && !Live(Finish(s, t), t)
    ensures forall u: TurnId :: u != t ==> (Live(Finish(s, t), u) <==> Live(s, u))
    ensures forall u: TurnId :: u < |s.turns| ==> Finish(s, t).turns[u].name == s.turns[u].name
  {
    if Ended(s, t).active.None? {
      AdvanceGrantsTheOldest(Ended(s, t));
    }
    hide Advance;
    assert Ended(s, t).active.Some? ==> Finish(s, t) == Ended(s, t) by { BusyStays(Ended(s, t)); }
  }

  lemma BusyStays(s: State)
    requires Known(s)
    ensures s.active.Some? ==> Advance(s) == s
  {
  }
}
