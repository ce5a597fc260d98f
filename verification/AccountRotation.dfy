/** The rotation of one worker over accounts: app/account_workers.py, AccountWorker. */
module AccountRotation {
  import opened Common

  type AccountId = nat
  type Cursor = nat  // what a job wants to continue from; only carried along

  /** What an account's last turn left to do: TurnOutcome without its batch. */
  datatype Outcome = Outcome(ready: bool, deferredUntil: Option<real>, cursor: Option<Cursor>, skipped: bool)

  const READY := Outcome(true, None, None, false)

  /** How an account's turn ended: with a result, refused by admission or the job, with another error, or with
      something that leaves run_turn, such as a cancellation. */
  datatype TurnEnd = Completed(result: Outcome) | Busy(admitted: bool) | Failed | Escaped

  /** What may raise while a round is reconstructed: the query for the enabled accounts, or the hook behind it. */
  datatype RoundError = NoError | AtQuery | AtHook

  datatype State = State(
    round: seq<AccountId>,
    lastStarted: Option<AccountId>,
    continuations: map<AccountId, Outcome>,
    wakeAt: Option<real>)

  predicate Increasing(ids: seq<AccountId>) {
    forall i, j :: 0 <= i < j < |ids| ==> ids[i] < ids[j]
  }

  predicate Distinct(ids: seq<AccountId>) {
    forall i, j :: 0 <= i < j < |ids| ==> ids[i] != ids[j]
  }

  // -------- a new round --------

  predicate IsDue(o: Outcome, now: real) {
    o.ready || (o.deferredUntil.Some? && o.deferredUntil.value <= now)
  }

  function Above(ids: seq<AccountId>, bound: AccountId): seq<AccountId> {
    if ids == [] then [] else (if ids[0] > bound then [ids[0]] else []) + Above(ids[1..], bound)
  }

  function UpTo(ids: seq<AccountId>, bound: AccountId): seq<AccountId> {
    if ids == [] then [] else (if ids[0] <= bound then [ids[0]] else []) + UpTo(ids[1..], bound)
  }

  function Rotated(ids: seq<AccountId>, last: Option<AccountId>): seq<AccountId> {
    match last
    case None => ids
    case Some(bound) => Above(ids, bound) + UpTo(ids, bound)
  }

  function Kept(continuations: map<AccountId, Outcome>, enabled: set<AccountId>): map<AccountId, Outcome> {
    map a | a in continuations && a in enabled :: continuations[a]
  }

  function OutcomeOf(continuations: map<AccountId, Outcome>, a: AccountId): Outcome {
    if a in continuations then continuations[a] else READY
  }

  function Due(ids: seq<AccountId>, continuations: map<AccountId, Outcome>, now: real): (due: seq<AccountId>)
    ensures forall a :: a in due ==> a in ids
  {
    if ids == [] then []
    else (if IsDue(OutcomeOf(continuations, ids[0]), now) then [ids[0]] else []) + Due(ids[1..], continuations, now)
  }

  function IdSet(ids: seq<AccountId>): (r: set<AccountId>)
    ensures forall a :: a in r <==> a in ids
  {
    set i | 0 <= i < |ids| :: ids[i]
  }

  function WithDefaults(ids: seq<AccountId>, continuations: map<AccountId, Outcome>): map<AccountId, Outcome> {
    map a | a in continuations.Keys + IdSet(ids) :: OutcomeOf(continuations, a)
  }

  /** The part of run_turn that reconstructs an empty round from the enabled accounts. */
  function StartRound(s: State, enabled: seq<AccountId>, now: real): State {
    var kept := Kept(s.continuations, IdSet(enabled));
    var round := Due(Rotated(enabled, s.lastStarted), kept, now);
    State(round, if round != [] then Some(round[0]) else s.lastStarted, WithDefaults(enabled, kept), s.wakeAt)
  }

  // -------- a turn --------

  function Result(end: TurnEnd, cursor: Option<Cursor>): Outcome {
    match end
    case Completed(result) => result
    case Busy(admitted) => Outcome(false, None, cursor, !admitted)
    case Failed => Outcome(false, None, cursor, false)
    case Escaped => READY  // never stored
  }

  predicate HasWork(o: Outcome) {
    o.ready || o.deferredUntil.Some?
  }

  function WorkTime(o: Outcome, now: real): real
    requires HasWork(o)
  {
    if o.ready then now else o.deferredUntil.value
  }

  /** wake is the earliest time at which some account has work, taking ready work as due now. */
  ghost predicate IsEarliest(continuations: map<AccountId, Outcome>, now: real, wake: Option<real>) {
    && (wake.None? <==> forall a :: a in continuations ==> !HasWork(continuations[a]))
    && (wake.Some? ==> exists a :: a in continuations && HasWork(continuations[a]) && WorkTime(continuations[a], now) == wake.value)
    && (forall a :: a in continuations && HasWork(continuations[a]) && wake.Some? ==> wake.value <= WorkTime(continuations[a], now))
  }

  /** Clock readings of one turn: at its start, and at its end, twice. */
  datatype Times = Times(start: real, end: real, last: real)

  /** What one turn meets: whether wake_cycle ran before it (with or without refresh of deferred work),
      the enabled accounts in order of id, what raised while a round was made of them, the clock, and how the
      account's turn ended. */
  datatype Input = Input(wake: Option<bool>, enabled: seq<AccountId>, error: RoundError, times: Times, end: TurnEnd)

  ghost predicate Sound(i: Input) {
    Increasing(i.enabled) && i.times.start <= i.times.end <= i.times.last
  }

  function Woken(continuations: map<AccountId, Outcome>, refresh: bool): map<AccountId, Outcome> {
    map a | a in continuations ::
      if continuations[a].deferredUntil.None? || refresh then Outcome(true, None, continuations[a].cursor, false)
      else continuations[a]
  }

  function AfterWake(s: State, wake: Option<bool>): State {
    match wake
    case None => s
    case Some(refresh) => s.(continuations := Woken(s.continuations, refresh))
  }

  /** The state a turn works on: the round in progress, or a new one. */
  function Prepared(s: State, i: Input): State {
    var w := AfterWake(s, i.wake);
    if w.round != [] then w
    else match i.error
      case NoError => StartRound(w, i.enabled, i.times.start)
      case AtQuery => w
      case AtHook => w.(continuations := Kept(w.continuations, IdSet(i.enabled)))
  }

  /** The reconstruction of the round raises, so that no turn begins. */
  predicate RoundFails(s: State, i: Input) {
    s.round == [] && i.error != NoError
  }

  /** One run_turn. Without any account that is due there is no turn; served is the account whose turn began. */
  ghost predicate Turn(s: State, i: Input, after: State, served: Option<AccountId>) {
    var p := Prepared(s, i);
    if RoundFails(s, i) then
      served == None && after == p
    else if p.round != [] && i.end == Escaped then
      served == Some(p.round[0]) && after == p.(round := p.round[1..])
    else if p.round == [] then
      && served == None && after == p.(wakeAt := after.wakeAt) && IsEarliest(p.continuations, i.times.end, after.wakeAt)
    else
      && p.round[0] in p.continuations
      && served == Some(p.round[0])
      && after.round == p.round[1..] && after.lastStarted == p.lastStarted
      && after.continuations == p.continuations[p.round[0] := Result(i.end, p.continuations[p.round[0]].cursor)]
      && if after.round != [] then after.wakeAt == Some(i.times.last)
         else IsEarliest(after.continuations, i.times.end, after.wakeAt)
  }

  // -------- the invariant --------

  /** A round names no account twice, and every account in it has a continuation entry. */
  ghost predicate Inv(s: State) {
    Distinct(s.round) && forall a :: a in s.round ==> a in s.continuations
  }

  const INITIAL := State([], None, map[], None)

  // -------- rounds --------

  ghost predicate Low(ids: seq<AccountId>, bound: AccountId) {
    forall j :: 0 <= j < |ids| ==> ids[j] <= bound
  }

  ghost predicate High(ids: seq<AccountId>, bound: AccountId) {
    forall j :: 0 <= j < |ids| ==> ids[j] > bound
  }

  lemma {:induction false} AllAbove(ids: seq<AccountId>, bound: AccountId)
    requires High(ids, bound)
    ensures Above(ids, bound) == ids && UpTo(ids, bound) == []
  {
    if ids != [] {
      AllAbove(ids[1..], bound);
    }
  }

  lemma {:induction false} AboveSplits(front: seq<AccountId>, back: seq<AccountId>, bound: AccountId)
    requires Low(front, bound) && High(back, bound)
    ensures Above(front + back, bound) == back && UpTo(front + back, bound) == front
  {
    if front == [] {
      assert front + back == back;
      AllAbove(back, bound);
    } else {
      assert (front + back)[1..] == front[1..] + back;
      AboveSplits(front[1..], back, bound);
    }
  }

  /** How many of the ids are up to the bound. */
  function CountUpTo(ids: seq<AccountId>, bound: AccountId): (k: nat)
    ensures k <= |ids|
  {
    if ids == [] || ids[0] > bound then 0 else 1 + CountUpTo(ids[1..], bound)
  }

  lemma {:induction false} CountSplits(ids: seq<AccountId>, bound: AccountId)
    requires Increasing(ids)
    ensures forall i :: 0 <= i < |ids| ==> (i < CountUpTo(ids, bound) <==> ids[i] <= bound)
  {
    if ids != [] {
      assert Increasing(ids[1..]);
      CountSplits(ids[1..], bound);
      forall i | 0 <= i < |ids|
        ensures i < CountUpTo(ids, bound) <==> ids[i] <= bound
      {
        assert i > 0 ==> ids[i] == ids[1..][i - 1] && ids[0] < ids[i];
      }
    }
  }

  /** A rotation cuts the ordered ids after the last starter and swaps the parts. */
  lemma RotatedIsCyclic(ids: seq<AccountId>, bound: AccountId)
    requires Increasing(ids)
    ensures var k := CountUpTo(ids, bound); Rotated(ids, Some(bound)) == ids[k..] + ids[..k]
  {
    var k := CountUpTo(ids, bound);
    CountSplits(ids, bound);
    assert ids == ids[..k] + ids[k..];
    AboveSplits(ids[..k], ids[k..], bound);
  }

  lemma {:induction false} DueConcat(a: seq<AccountId>, b: seq<AccountId>, continuations: map<AccountId,
        Outcome>, now: real)
    ensures Due(a + b, continuations, now) == Due(a, continuations, now) + Due(b, continuations, now)
  {
    if a == [] {
      assert a + b == b;
    } else {
      assert (a + b)[1..] == a[1..] + b;
      DueConcat(a[1..], b, continuations, now);
    }
  }

  lemma {:induction false} DueHas(ids: seq<AccountId>, continuations: map<AccountId, Outcome>, now: real, a: AccountId)
    ensures a in Due(ids, continuations, now) <==> a in ids && IsDue(OutcomeOf(continuations, a), now)
  {
    if ids != [] {
      DueHas(ids[1..], continuations, now, a);
      assert a in ids <==> a == ids[0] || a in ids[1..];
    }
  }

  lemma {:induction false} DueIncreasing(ids: seq<AccountId>, continuations: map<AccountId, Outcome>, now: real)
    requires Increasing(ids)
    ensures Increasing(Due(ids, continuations, now))
  {
    hide IsDue;
    if ids != [] {
      var rest := Due(ids[1..], continuations, now);
      assert Increasing(ids[1..]);
      DueIncreasing(ids[1..], continuations, now);
      forall j | 0 <= j < |rest|
        ensures ids[0] < rest[j]
      {
        assert rest[j] in rest;
        HeadIsLeast(ids, rest[j]);
      }
      HeadKeepsOrder(ids[0], rest);
    }
  }

  lemma HeadIsLeast(ids: seq<AccountId>, a: AccountId)
    requires Increasing(ids) && ids != [] && a in ids[1..]
    ensures ids[0] < a
  {
  }

  lemma HeadKeepsOrder(a: AccountId, rest: seq<AccountId>)
    requires Increasing(rest) && forall j :: 0 <= j < |rest| ==> a < rest[j]
    ensures Increasing([a] + rest)
  {
  }

  lemma KeptSame(continuations: map<AccountId, Outcome>, enabled: set<AccountId>, a: AccountId)
    requires a in enabled
    ensures OutcomeOf(Kept(continuations, enabled), a) == OutcomeOf(continuations, a)
  {
  }

  /** The accounts of a new round, in order of id. */
  function DueAccounts(s: State, enabled: seq<AccountId>, now: real): seq<AccountId> {
    Due(enabled, Kept(s.continuations, IdSet(enabled)), now)
  }

  function Cyclic(ids: seq<AccountId>, last: Option<AccountId>): seq<AccountId> {
    if last.None? then ids else ids[CountUpTo(ids, last.value)..] + ids[..CountUpTo(ids, last.value)]
  }

  /** Rotating and choosing the due accounts commute. */
  lemma DueOfRotated(ids: seq<AccountId>, last: Option<AccountId>, continuations: map<AccountId, Outcome>, now: real)
    requires Increasing(ids)
    ensures var due := Due(ids, continuations, now); var round := Due(Rotated(ids, last), continuations, now);
            round == Cyclic(due, last) && Distinct(round) && forall a :: a in round <==> a in due
  {
    DueIncreasing(ids, continuations, now);
    if last.Some? {
      var n := CountUpTo(ids, last.value);
      RotatedIsCyclic(ids, last.value);
      CountSplits(ids, last.value);
      DueBounds(ids, n, continuations, now, last.value);
      hide Due, Rotated, CountUpTo, Increasing, Low, High, Distinct;
      DueConcat(ids[n..], ids[..n], continuations, now);
      DueConcat(ids[..n], ids[n..], continuations, now);
      assert ids == ids[..n] + ids[n..];
      DueCut(Due(ids[..n], continuations, now), Due(ids[n..], continuations, now), last.value);
    }
  }

  /** A new round is a cyclic rotation, without duplicates, of exactly the enabled accounts that are ready or due;
      it starts above the account that started the last round. */
  lemma RoundIsRotation(s: State, enabled: seq<AccountId>, now: real)
    requires Increasing(enabled)
    ensures var ids, round := DueAccounts(s, enabled, now), StartRound(s, enabled, now).round;
            && Increasing(ids)
            && (forall a :: a in ids <==> a in enabled && IsDue(OutcomeOf(s.continuations, a), now))
            && round == Cyclic(ids, s.lastStarted)
            && Distinct(round) && (forall a :: a in round <==> a in ids)
  {
    var all := IdSet(enabled);
    var kept := Kept(s.continuations, all);
    var ids := DueAccounts(s, enabled, now);
    DueIncreasing(enabled, kept, now);
    DueOfRotated(enabled, s.lastStarted, kept, now);
    hide Rotated, Due, Kept, Cyclic, Increasing, Distinct;
    forall a
      ensures a in ids <==> a in enabled && IsDue(OutcomeOf(s.continuations, a), now)
    {
      DueHas(enabled, kept, now, a);
      if a in enabled {
        KeptSame(s.continuations, all, a);
      }
    }
  }

  lemma DueBounds(ids: seq<AccountId>, n: nat, continuations: map<AccountId, Outcome>, now: real, bound: AccountId)
    requires n <= |ids| && forall i :: 0 <= i < |ids| ==> (i < n <==> ids[i] <= bound)
    ensures Low(Due(ids[..n], continuations, now), bound) && High(Due(ids[n..], continuations, now), bound)
  {
    var low, high := Due(ids[..n], continuations, now), Due(ids[n..], continuations, now);
    assert forall j :: 0 <= j < |low| ==> low[j] in low;
    assert forall j :: 0 <= j < |high| ==> high[j] in high;
  }

  lemma DueCut(low: seq<AccountId>, high: seq<AccountId>, bound: AccountId)
    requires Increasing(low + high) && Low(low, bound) && High(high, bound)
    ensures var ids := low + high; var k := CountUpTo(ids, bound);
            high + low == ids[k..] + ids[..k]
    ensures Distinct(high + low) && forall a :: a in high + low <==> a in low + high
  {
    var ids := low + high;
    var k := CountUpTo(ids, bound);
    CountOfParts(low, high, bound);
    assert ids[k..] == high && ids[..k] == low;
    SwappedIsDistinct(low, high);
  }

  lemma {:induction false} CountOfParts(low: seq<AccountId>, high: seq<AccountId>, bound: AccountId)
    requires Low(low, bound) && High(high, bound)
    ensures CountUpTo(low + high, bound) == |low|
  {
    if low == [] {
      assert low + high == high;
    } else {
      assert (low + high)[1..] == low[1..] + high;
      CountOfParts(low[1..], high, bound);
    }
  }

  lemma SwappedIsDistinct(low: seq<AccountId>, high: seq<AccountId>)
    requires Increasing(low + high)
    ensures Distinct(high + low)
  {
    var ids, r, n := low + high, high + low, |high|;
    forall i | 0 <= i < |r|
      ensures r[i] == ids[if i < n then |low| + i else i - n]
    {
    }
  }

  // -------- the invariant --------

  lemma StartRoundKeepsInv(s: State, enabled: seq<AccountId>, now: real)
    requires Increasing(enabled)
    ensures Inv(StartRound(s, enabled, now))
  {
    RoundIsRotation(s, enabled, now);
    var after := StartRound(s, enabled, now);
    forall a | a in after.round
      ensures a in after.continuations
    {
      assert a in enabled;
    }
  }

  lemma PreparedKeepsInv(s: State, i: Input)
    requires Inv(s) && Sound(i)
    ensures Inv(Prepared(s, i))
  {
    StartRoundKeepsInv(AfterWake(s, i.wake), i.enabled, i.times.start);
    assert RoundFails(s, i) ==> Prepared(s, i).round == [];
  }

  lemma TurnKeepsInv(s: State, i: Input, after: State, served: Option<AccountId>)
    requires Inv(s) && Sound(i) && Turn(s, i, after, served)
    ensures Inv(after)
  {
    PreparedKeepsInv(s, i);
    var p := Prepared(s, i);
    if p.round != [] {
      assert forall k :: 0 <= k < |after.round| ==> after.round[k] == p.round[k + 1];
    }
  }

  // -------- fairness --------

  datatype Trace = Trace(states: seq<State>, inputs: seq<Input>, served: seq<Option<AccountId>>)

  /** A run of turns from the first state. */
  ghost predicate IsTrace(t: Trace) {
    && |t.states| == |t.inputs| + 1 == |t.served| + 1
    && Inv(t.states[0])
    && forall k :: 0 <= k < |t.inputs| ==> Sound(t.inputs[k]) && Turn(t.states[k], t.inputs[k], t.states[k + 1], t.served[k])
  }

  lemma {:induction false} TraceKeepsInv(t: Trace, k: nat)
    requires IsTrace(t) && k < |t.states|
    ensures Inv(t.states[k])
  {
    if k > 0 {
      TraceKeepsInv(t, k - 1);
      TurnKeepsInv(t.states[k - 1], t.inputs[k - 1], t.states[k], t.served[k - 1]);
    }
  }

  /** The round the k-th turn works on. */
  function RoundAt(t: Trace, k: nat): seq<AccountId>
    requires k < |t.inputs| && k < |t.states|
  {
    Prepared(t.states[k], t.inputs[k]).round
  }

  lemma {:induction false} RoundUnwinds(t: Trace, k: nat, n: nat)
    requires IsTrace(t) && k < |t.inputs| && n < |RoundAt(t, k)| && k + n < |t.inputs|
    ensures RoundAt(t, k + n) == RoundAt(t, k)[n..] && t.served[k + n] == Some(RoundAt(t, k)[n])
    ensures t.states[k + n + 1].round == RoundAt(t, k)[n + 1..]
  {
    if n > 0 {
      RoundUnwinds(t, k, n - 1);
      assert RoundAt(t, k)[n..] != [];
    }
    assert RoundAt(t, k)[n..][1..] == RoundAt(t, k)[n + 1..];
    assert Turn(t.states[k + n], t.inputs[k + n], t.states[k + n + 1], t.served[k + n]);
  }

  /** From any turn on, the accounts of its round are served one after the other, each exactly once,
      and only then is a new round started: nobody gets a second turn before all of them had one. */
  lemma RoundServesEachOnce(t: Trace, k: nat)
    requires IsTrace(t) && k < |t.inputs| && k + |RoundAt(t, k)| <= |t.inputs|
    ensures var round := RoundAt(t, k);
            && Distinct(round)
            && (forall n :: 0 <= n < |round| ==> t.served[k + n] == Some(round[n]))
            && t.states[k + |round|].round == []
  {
    var round := RoundAt(t, k);
    TraceKeepsInv(t, k);
    PreparedKeepsInv(t.states[k], t.inputs[k]);
    forall n | 0 <= n < |round|
      ensures t.served[k + n] == Some(round[n])
    {
      RoundUnwinds(t, k, n);
    }
    if round != [] {
      RoundUnwinds(t, k, |round| - 1);
    } else {
      assert Turn(t.states[k], t.inputs[k], t.states[k + 1], t.served[k]);
    }
  }

  // -------- no starvation --------

  lemma WokenStaysReady(s: State, wake: Option<bool>, a: AccountId)
    requires OutcomeOf(s.continuations, a).ready
    ensures OutcomeOf(AfterWake(s, wake).continuations, a).ready && AfterWake(s, wake).round == s.round
  {
  }

  /** Turns of other accounts leave an account's readiness alone. */
  lemma OthersKeepReady(s: State, i: Input, after: State, served: Option<AccountId>, a: AccountId)
    requires Inv(s) && Sound(i) && Turn(s, i, after, served) && served != Some(a) && a in i.enabled
    requires OutcomeOf(s.continuations, a).ready
    ensures OutcomeOf(after.continuations, a).ready
  {
    WokenStaysReady(s, i.wake, a);
    var w := AfterWake(s, i.wake);
    if w.round == [] {
      KeptSame(w.continuations, IdSet(i.enabled), a);
    }
  }

  /** A ready account that is still enabled when a round is started is in it. */
  lemma ReadyJoinsTheRound(s: State, i: Input, a: AccountId)
    requires Sound(i) && s.round == [] && i.error == NoError && a in i.enabled && OutcomeOf(s.continuations, a).ready
    ensures a in Prepared(s, i).round
  {
    var w := AfterWake(s, i.wake);
    WokenStaysReady(s, i.wake, a);
    RoundIsRotation(w, i.enabled, i.times.start);
  }

  /** A turn that escapes leaves its account ready, from the same cursor. */
  lemma EscapesKeepReady(s: State, i: Input, after: State, served: Option<AccountId>, a: AccountId)
    requires Inv(s) && Sound(i) && Turn(s, i, after, served) && served == Some(a) && i.end == Escaped && a in i.enabled
    requires OutcomeOf(s.continuations, a).ready
    ensures OutcomeOf(after.continuations, a).ready
    ensures OutcomeOf(after.continuations, a).cursor == OutcomeOf(s.continuations, a).cursor
  {
    WokenStaysReady(s, i.wake, a);
    var w := AfterWake(s, i.wake);
    if w.round == [] {
      KeptSame(w.continuations, IdSet(i.enabled), a);
    }
  }

  /** The k-th turn was the account's own, and it ended inside run_turn. */
  ghost predicate Ends(t: Trace, a: AccountId, k: nat)
    requires IsTrace(t)
  {
    k < |t.inputs| && t.served[k] == Some(a) && t.inputs[k].end != Escaped
  }

  /** An account stays ready until a turn of its own ends. */
  lemma {:induction false} ReadyOrEnded(t: Trace, a: AccountId, n: nat)
    requires IsTrace(t) && n <= |t.inputs| && OutcomeOf(t.states[0].continuations, a).ready
    requires forall k :: 0 <= k < |t.inputs| ==> a in t.inputs[k].enabled
    ensures OutcomeOf(t.states[n].continuations, a).ready || exists k: nat :: k < n && Ends(t, a, k)
  {
    hide Turn, Inv, Sound, OutcomeOf;
    if n > 0 {
      ReadyOrEnded(t, a, n - 1);
      TraceKeepsInv(t, n - 1);
      if !(exists k: nat :: k < n && Ends(t, a, k)) {
        if t.served[n - 1] == Some(a) {
          assert !Ends(t, a, n - 1);
          EscapesKeepReady(t.states[n - 1], t.inputs[n - 1], t.states[n], t.served[n - 1], a);
        } else {
          OthersKeepReady(t.states[n - 1], t.inputs[n - 1], t.states[n], t.served[n - 1], a);
        }
      }
    }
  }

  /** An account that is ready and stays enabled gets a turn in every round that is made, until a turn of its own
      ends. By RoundServesEachOnce the round in progress is over after as many turns as it has accounts. */
  lemma NoStarvation(t: Trace, a: AccountId, n: nat)
    requires IsTrace(t) && OutcomeOf(t.states[0].continuations, a).ready
    requires forall k :: 0 <= k < |t.inputs| ==> a in t.inputs[k].enabled
    requires n < |t.inputs| && t.states[n].round == [] && t.inputs[n].error == NoError
    requires n + |RoundAt(t, n)| <= |t.inputs|
    ensures (exists k: nat :: k < n && Ends(t, a, k)) || exists k :: n <= k < n + |RoundAt(t, n)| && t.served[k] == Some(a)
  {
    hide Turn, Inv;
    ReadyOrEnded(t, a, n);
    if OutcomeOf(t.states[n].continuations, a).ready {
      ReadyJoinsTheRound(t.states[n], t.inputs[n], a);
      RoundServesEachOnce(t, n);
      var j :| 0 <= j < |RoundAt(t, n)| && RoundAt(t, n)[j] == a;
      assert t.served[n + j] == Some(a);
    }
  }

  // -------- who gets into a round, and when --------

  /** A wake makes every account ready that was left without a deferral, and with refresh every other, too; it keeps
      its cursor, and whoever is not made ready is left as it was. */
  lemma WakeMakesReady(s: State, refresh: bool, a: AccountId)
    requires a in s.continuations
    ensures var before, after := s.continuations[a], AfterWake(s, Some(refresh));
            && after.round == s.round && after.continuations.Keys == s.continuations.Keys
            && after.continuations[a] == (if before.deferredUntil == None || refresh
                                          then Outcome(true, None, before.cursor, false) else before)
  {
  }

  /** Who is in a new round: of the enabled accounts the new ones, those that are ready, those whose deferral is over,
      and after a wake those that were left without one, or, if it refreshes, all. */
  lemma WhoIsInARound(s: State, i: Input, a: AccountId)
    requires Sound(i) && s.round == [] && i.error == NoError
    ensures a in Prepared(s, i).round <==>
              && a in i.enabled
              && (a in s.continuations ==>
                    var o := s.continuations[a];
                    || o.ready
                    || (o.deferredUntil.Some? && o.deferredUntil.value <= i.times.start)
                    || i.wake == Some(true)
                    || (i.wake == Some(false) && o.deferredUntil == None))
    ensures forall b :: b in Prepared(s, i).continuations <==> b in i.enabled
    ensures Prepared(s, i).round != [] ==> Prepared(s, i).lastStarted == Some(Prepared(s, i).round[0])
  {
    var w := AfterWake(s, i.wake);
    RoundIsRotation(w, i.enabled, i.times.start);
    if a in s.continuations && i.wake.Some? {
      WakeMakesReady(s, i.wake.value, a);
    }
    hide Due, Rotated, Cyclic;
    assert a in Prepared(s, i).round <==> a in i.enabled && IsDue(OutcomeOf(w.continuations, a), i.times.start);
  }

  /** The turns of a trace whose first wake came before its first turn. */
  function WokenFirst(t: Trace): Trace
    requires |t.states| > 0 && |t.inputs| > 0
  {
    Trace(t.states[0 := AfterWake(t.states[0], t.inputs[0].wake)], t.inputs[0 := t.inputs[0].(wake := None)], t.served)
  }

  lemma WokenFirstIsTrace(t: Trace)
    requires IsTrace(t) && |t.inputs| > 0
    ensures IsTrace(WokenFirst(t))
    ensures forall k :: 0 <= k < |t.inputs| ==> RoundAt(WokenFirst(t), k) == RoundAt(t, k)
  {
    var w := WokenFirst(t);
    SameTurn(t.states[0], t.inputs[0], t.states[1], t.served[0]);
    assert Turn(t.states[0], t.inputs[0], t.states[1], t.served[0]);
    hide Turn, Prepared, AfterWake;
    forall k | 0 <= k < |w.inputs|
      ensures Sound(w.inputs[k]) && Turn(w.states[k], w.inputs[k], w.states[k + 1], w.served[k])
      ensures RoundAt(w, k) == RoundAt(t, k)
    {
      assert Sound(t.inputs[k]) && Turn(t.states[k], t.inputs[k], t.states[k + 1], t.served[k]);
    }
  }

  lemma SameTurn(s: State, i: Input, after: State, served: Option<AccountId>)
    requires Inv(s)
    ensures var w, j := AfterWake(s, i.wake), i.(wake := None);
            && Inv(w) && Prepared(w, j) == Prepared(s, i) && (Sound(j) <==> Sound(i))
            && (Turn(w, j, after, served) <==> Turn(s, i, after, served))
  {
  }

  /** An account that is left idle gets a turn in every round that is made after a wake, the first included, until a
      turn of its own ends; with refresh a deferred account, too. */
  lemma IdleIsWoken(t: Trace, a: AccountId, n: nat)
    requires IsTrace(t) && |t.inputs| > 0 && a in t.states[0].continuations && t.inputs[0].wake.Some?
    requires t.states[0].continuations[a].deferredUntil == None || t.inputs[0].wake.value
    requires forall k :: 0 <= k < |t.inputs| ==> a in t.inputs[k].enabled
    requires n < |t.inputs| && t.states[n].round == [] && t.inputs[n].error == NoError
    requires n + |RoundAt(t, n)| <= |t.inputs|
    ensures (exists k: nat :: k < n && Ends(t, a, k)) || exists k :: n <= k < n + |RoundAt(t, n)| && t.served[k] == Some(a)
  {
    var w := WokenFirst(t);
    WokenFirstIsTrace(t);
    WakeMakesReady(t.states[0], t.inputs[0].wake.value, a);
    assert w.states[n].round == t.states[n].round;
    NoStarvation(w, a, n);
    if k: nat :| k < n && Ends(w, a, k) {
      assert Ends(t, a, k);
    }
  }

  /** The account has had its turn and is neither ready nor deferred. */
  ghost predicate Out(s: State, a: AccountId) {
    a !in s.round && a in s.continuations && !s.continuations[a].ready && s.continuations[a].deferredUntil == None
  }

  /** A turn that is refused, or fails, leaves its account out, with the cursor that it had. */
  lemma FailuresLeaveOut(s: State, i: Input, after: State, a: AccountId)
    requires Inv(s) && Sound(i) && Turn(s, i, after, Some(a)) && (i.end.Busy? || i.end.Failed?)
    ensures Out(after, a)
    ensures after.continuations[a].cursor == OutcomeOf(AfterWake(s, i.wake).continuations, a).cursor
    ensures after.continuations[a].skipped <==> i.end == Busy(false)
  {
    PreparedKeepsInv(s, i);
    var w, p := AfterWake(s, i.wake), Prepared(s, i);
    assert p.round[0] == a && forall k :: 0 < k < |p.round| ==> p.round[k] != a;
    if w.round == [] {
      RoundIsRotation(w, i.enabled, i.times.start);
      KeptSame(w.continuations, IdSet(i.enabled), a);
    }
  }

  /** A turn that completes leaves what its job returned, and no turn touches what others were left to do. */
  lemma ResultsAreKept(s: State, i: Input, after: State, a: AccountId)
    requires Inv(s) && Sound(i) && Turn(s, i, after, Some(a))
    ensures i.end.Completed? ==> a in after.continuations && after.continuations[a] == i.end.result
    ensures forall b :: b != a && b in Prepared(s, i).continuations ==>
              b in after.continuations && after.continuations[b] == Prepared(s, i).continuations[b]
  {
    hide Prepared, IsEarliest;
  }

  lemma StaysOut(s: State, i: Input, after: State, served: Option<AccountId>, a: AccountId)
    requires Inv(s) && Sound(i) && Turn(s, i, after, served) && Out(s, a) && i.wake == None && a in i.enabled
    ensures Out(after, a) && served != Some(a)
  {
    if s.round == [] {
      if i.error == NoError {
        WhoIsInARound(s, i, a);
      }
      KeptSame(s.continuations, IdSet(i.enabled), a);
    }
  }

  /** And it has no turn again before a wake. */
  lemma {:induction false} OutUntilAWake(t: Trace, a: AccountId, k: nat, n: nat)
    requires IsTrace(t) && k <= n <= |t.inputs| && Out(t.states[k], a)
    requires forall j :: k <= j < n ==> t.inputs[j].wake == None && a in t.inputs[j].enabled
    ensures Out(t.states[n], a) && forall j :: k <= j < n ==> t.served[j] != Some(a)
  {
    hide Turn, Inv, Out, Sound;
    if n > k {
      OutUntilAWake(t, a, k, n - 1);
      TraceKeepsInv(t, n - 1);
      StaysOut(t.states[n - 1], t.inputs[n - 1], t.states[n], t.served[n - 1], a);
    }
  }

  // -------- the next wake time --------

  /** The wake time is not later than the earliest ready or deferred work. */
  ghost predicate WakesInTime(after: State, now: real) {
    forall a :: a in after.continuations && HasWork(after.continuations[a]) ==>
      after.wakeAt.Some? && after.wakeAt.value <= WorkTime(after.continuations[a], now)
  }

  /** Whether this turn leaves work of the account that was due before the time. */
  predicate LeavesOverdue(o: Outcome, time: real) {
    !o.ready && o.deferredUntil.Some? && o.deferredUntil.value < time
  }

  /** A turn that does not raise sets a wake time that is in time, unless it leaves further accounts in its round
      and overdue work: of an account other than its own before the turn, or in its own result. */
  lemma WakesInTimeExactly(s: State, i: Input, after: State, served: Option<AccountId>)
    requires Inv(s) && Sound(i) && Turn(s, i, after, served) && !RoundFails(s, i) && i.end != Escaped
    ensures var p := Prepared(s, i);
            WakesInTime(after, i.times.last) <==>
              || |p.round| <= 1
              || (&& !LeavesOverdue(Result(i.end, OutcomeOf(p.continuations, p.round[0]).cursor), i.times.last)
                  && forall a :: a in p.continuations && a != p.round[0] ==> !LeavesOverdue(p.continuations[a], i.times.last))
  {
    var p := Prepared(s, i);
    if |p.round| > 1 {
      var own := p.round[0];
      hide Prepared, Inv;
      InTimeAtTheClock(p.continuations, own, Result(i.end, OutcomeOf(p.continuations, own).cursor), after, i.times.last);
    }
  }

  lemma InTimeAtTheClock(before: map<AccountId, Outcome>, own: AccountId, result: Outcome, after: State, now: real)
    requires after.wakeAt == Some(now) && after.continuations == before[own := result]
    ensures WakesInTime(after, now) <==>
            !LeavesOverdue(result, now) && forall a :: a in before && a != own ==> !LeavesOverdue(before[a], now)
  {
    assert after.continuations[own] == result;
    forall a | a in before && a != own
      ensures a in after.continuations && after.continuations[a] == before[a]
    {
    }
  }

  /** Such a turn happens: 7 is deferred until 1.0, 8 has its turn, and at 2.0 a new round serves 8 before 7. */
  lemma OverdueWorkWaitsForTheClock() returns (t: Trace)
    ensures IsTrace(t) && t.states[0] == INITIAL && |t.inputs| == 3
    ensures !WakesInTime(t.states[3], t.inputs[2].times.last)
  {
    hide Turn, Sound, IsTrace;
    var late, idle := Outcome(false, Some(1.0), None, false), Outcome(false, None, None, false);
    var early := Times(0.0, 0.0, 0.0);
    var one := Input(None, [7, 8], NoError, early, Completed(late));
    var two := Input(None, [7, 8], NoError, early, Completed(READY));
    var three := Input(None, [7, 8], NoError, Times(2.0, 2.0, 2.0), Failed);
    var s1 := State([8], Some(7), map[7 := late, 8 := READY], Some(0.0));
    var s2 := State([], Some(7), map[7 := late, 8 := READY], Some(0.0));
    var s3 := State([7], Some(8), map[7 := late, 8 := idle], Some(2.0));
    FirstTurn(one, s1);
    SecondTurn(s1, two, s2);
    ThirdTurn(s2, three, s3);
    t := Trace([INITIAL, s1, s2, s3], [one, two, three], [Some(7), Some(8), Some(8)]);
    ThreeTurns(t);
    assert s3.continuations[7] == late;
  }

  lemma ThreeTurns(t: Trace)
    requires |t.states| == 4 && |t.inputs| == 3 && |t.served| == 3 && t.states[0] == INITIAL
    requires Sound(t.inputs[0]) && Turn(t.states[0], t.inputs[0], t.states[1], t.served[0])
    requires Sound(t.inputs[1]) && Turn(t.states[1], t.inputs[1], t.states[2], t.served[1])
    requires Sound(t.inputs[2]) && Turn(t.states[2], t.inputs[2], t.states[3], t.served[2])
    ensures IsTrace(t)
  {
    hide Turn, Sound;
  }

  lemma BothDue(a: AccountId, b: AccountId, continuations: map<AccountId, Outcome>, now: real)
    requires IsDue(OutcomeOf(continuations, a), now) && IsDue(OutcomeOf(continuations, b), now)
    ensures Due([a, b], continuations, now) == [a, b]
  {
    assert [a, b][1..] == [b] && [b][1..] == [];
    assert Due([b], continuations, now) == [b] + Due([], continuations, now);
  }

  lemma Pair(a: AccountId, b: AccountId)
    ensures IdSet([a, b]) == {a, b} && Increasing([7, 8])
  {
  }

  lemma FirstTurn(i: Input, after: State)
    requires i.wake == None && i.enabled == [7, 8] && i.error == NoError && i.times == Times(0.0, 0.0, 0.0)
    requires i.end == Completed(Outcome(false, Some(1.0), None, false))
    requires after == State([8], Some(7), map[7 := i.end.result, 8 := READY], Some(0.0))
    ensures Sound(i) && Turn(INITIAL, i, after, Some(7))
  {
    Pair(7, 8);
    assert Kept(map[], {7, 8}) == map[];
    BothDue(7, 8, map[], 0.0);
    assert WithDefaults([7, 8], map[]) == map[7 := READY, 8 := READY];
    assert Prepared(INITIAL, i) == State([7, 8], Some(7), map[7 := READY, 8 := READY], None);
  }

  lemma SecondTurn(s: State, i: Input, after: State)
    requires i.wake == None && i.enabled == [7, 8] && i.times == Times(0.0, 0.0, 0.0) && i.end == Completed(READY)
    requires s.round == [8] && s.lastStarted == Some(7) && s.wakeAt == Some(0.0)
    requires s.continuations == map[7 := Outcome(false, Some(1.0), None, false), 8 := READY]
    requires after == s.(round := [])
    ensures Sound(i) && Turn(s, i, after, Some(8))
  {
    Pair(7, 8);
    assert Prepared(s, i) == s;
    assert s.continuations[8 := READY] == s.continuations;
    assert s.continuations[8] == READY && WorkTime(READY, 0.0) == 0.0;
  }

  lemma ThirdTurn(s: State, i: Input, after: State)
    requires i.wake == None && i.enabled == [7, 8] && i.error == NoError && i.times == Times(2.0, 2.0, 2.0) && i.end == Failed
    requires s == State([], Some(7), map[7 := Outcome(false, Some(1.0), None, false), 8 := READY], Some(0.0))
    requires after == State([7], Some(8), map[7 := s.continuations[7], 8 := Outcome(false, None, None, false)], Some(2.0))
    ensures Sound(i) && Turn(s, i, after, Some(8))
  {
    hide Due;
    SecondRound(s);
    Pair(7, 8);
    assert Prepared(s, i) == State([8, 7], Some(8), s.continuations, Some(0.0));
    assert s.continuations[8 := Result(Failed, None)] == after.continuations;
  }

  lemma RotatedPair()
    ensures Rotated([7, 8], Some(7)) == [8, 7]
  {
    assert [7, 8][1..] == [8] && [8][1..] == [];
    assert Above([8], 7) == [8] && UpTo([8], 7) == [];
  }

  lemma SecondRound(s: State)
    requires s == State([], Some(7), map[7 := Outcome(false, Some(1.0), None, false), 8 := READY], Some(0.0))
    ensures StartRound(s, [7, 8], 2.0) == State([8, 7], Some(8), s.continuations, Some(0.0))
  {
    hide Rotated, Due;
    Pair(7, 8);
    RotatedPair();
    var kept := s.continuations;
    assert Kept(kept, {7, 8}) == kept;
    BothDue(8, 7, kept, 2.0);
    assert WithDefaults([7, 8], kept) == kept;
  }
}
