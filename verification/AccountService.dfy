/** The rotation as the object of app/account_workers.py. */
module AccountService {
  import opened Common
  import opened AccountRotation

  method Any(accounts: set<AccountId>) returns (a: AccountId)
    requires accounts != {}
    ensures a in accounts
  {
    a :| a in accounts;
  }

  class AccountWorker {
    var round: seq<AccountId>
    var lastStarted: Option<AccountId>
    var continuations: map<AccountId, Outcome>
    var wakeAt: Option<real>

    ghost function View(): State
      reads this
    {
      State(round, lastStarted, continuations, wakeAt)
    }

    constructor ()
      ensures Inv(View()) && View() == INITIAL
    {
      round, lastStarted, continuations, wakeAt := [], None, map[], None;
    }

    /** wake_cycle. */
    method WakeCycle(refresh: bool)
      requires Inv(View())
      modifies this`continuations
      ensures Inv(View()) && View() == AfterWake(old(View()), Some(refresh))
    {
      ghost var before := continuations;
      var rest := continuations.Keys;
      while rest != {}
        invariant rest <= before.Keys && continuations.Keys == before.Keys
        invariant forall a :: a in before && a in rest ==> continuations[a] == before[a]
        invariant forall a :: a in before && a !in rest ==> continuations[a] == Woken(before, refresh)[a]
        decreases |rest|
      {
        var owner := Any(rest);
        var continuation := continuations[owner];
        if continuation.deferredUntil.None? || refresh {
          continuations := continuations[owner := Outcome(true, None, continuation.cursor, false)];
        }
        rest := rest - {owner};
      }
      assert continuations == Woken(before, refresh);
    }

    /** _schedule_continuation. */
    method ScheduleContinuation(now: real)
      modifies this`wakeAt
      ensures IsEarliest(continuations, now, wakeAt)
    {
      var earliest: Option<real> := None;
      var rest := continuations.Keys;
      while rest != {}
        invariant rest <= continuations.Keys
        invariant IsEarliest(Outside(continuations, rest), now, earliest)
        decreases |rest|
      {
        hide IsEarliest, Outside;
        var owner := Any(rest);
        var outcome := continuations[owner];
        ghost var before := earliest;
        if HasWork(outcome) {
          var deadline := if outcome.ready then now else outcome.deferredUntil.value;
          if earliest.None? || deadline < earliest.value {
            earliest := Some(deadline);
          }
        }
        OneMoreOutside(continuations, rest, owner);
        OneMoreDeadline(Outside(continuations, rest), owner, outcome, now, before, earliest);
        rest := rest - {owner};
      }
      assert Outside(continuations, {}) == continuations;
      wakeAt := earliest;
    }

    /** The reconstruction of an empty round. */
    method StartRound(enabled: seq<AccountId>, now: real)
      requires Increasing(enabled) && round == []
      modifies this`round, this`lastStarted, this`continuations
      ensures View() == AccountRotation.StartRound(old(View()), enabled, now)
    {
      hide Due, Rotated, IsDue, Defaulted, OutcomeOf, Increasing;
      NothingDefaulted(Kept(continuations, IdSet(enabled)));
      continuations := Kept(continuations, IdSet(enabled));
      ghost var kept := continuations;
      var principals := Rotated(enabled, lastStarted);
      var i := 0;
      assert principals[0..] == principals;
      while i < |principals|
        invariant 0 <= i <= |principals|
        invariant round + Due(principals[i..], kept, now) == Due(principals, kept, now)
        invariant Defaulted(principals[..i], kept, continuations) && lastStarted == old(lastStarted)
      {
        var principal := principals[i];
        ghost var before := continuations;
        if principal !in continuations {
          continuations := continuations[principal := READY];
        }
        DefaultedOneMore(principals, i, kept, before, continuations);
        var state := continuations[principal];
        ReadyNext(round, principals, i, kept, now, state);
        if state.ready || (state.deferredUntil.Some? && state.deferredUntil.value <= now) {
          round := round + [principal];
        }
        i := i + 1;
      }
      assert principals[..i] == principals && principals[i..] == [];
      DueNone(kept, now);
      RotatedHas(enabled, lastStarted);
      DefaultedAll(principals, enabled, kept, continuations);
      if round != [] {
        lastStarted := Some(round[0]);
      }
    }

    /** The part of run_turn in front of the choice of an account. */
    method PrepareRound(enabled: seq<AccountId>, error: RoundError, times: Times, ghost end: TurnEnd) returns (raised: bool)
      requires Inv(View()) && Sound(Input(None, enabled, error, times, end))
      modifies this`round, this`lastStarted, this`continuations
      ensures View() == Prepared(old(View()), Input(None, enabled, error, times, end)) && Inv(View())
      ensures raised == RoundFails(old(View()), Input(None, enabled, error, times, end))
    {
      hide Inv, Increasing;
      PreparedKeepsInv(View(), Input(None, enabled, error, times, end));
      if round != [] {
        return false;
      }
      if error == AtQuery {
        return true;
      }
      if error == AtHook {
        continuations := Kept(continuations, IdSet(enabled));
        return true;
      }
      StartRound(enabled, times.start);
      return false;
    }

    /** run_turn, for the accounts that are enabled, the clock at three points, and the ways in which making a round
        and the account's turn may end. */
    method RunTurn(enabled: seq<AccountId>, error: RoundError, times: Times, end: TurnEnd)
      returns (served: Option<AccountId>, raised: bool)
      requires Inv(View()) && Sound(Input(None, enabled, error, times, end))
      modifies this
      ensures Inv(View()) && Turn(old(View()), Input(None, enabled, error, times, end), View(), served)
      ensures raised <==> (old(round) == [] && error != NoError) || (served.Some? && end == Escaped)
    {
      hide IsEarliest, Prepared, Increasing;
      ghost var before, input := View(), Input(None, enabled, error, times, end);
      forall after, account | Turn(before, input, after, account)
        ensures Inv(after)
      {
        TurnKeepsInv(before, input, after, account);
      }
      raised := PrepareRound(enabled, error, times, end);
      hide Inv;
      if raised {
        return None, true;
      }
      if round == [] {
        ScheduleContinuation(times.end);
        return None, false;
      }
      var owner := round[0];
      FirstHasEntry(View());
      round := round[1..];
      var previous := continuations[owner];
      if end == Escaped {
        return Some(owner), true;
      }
      continuations := continuations[owner := Result(end, previous.cursor)];
      ScheduleContinuation(times.end);
      if round != [] {
        wakeAt := Some(times.last);
      }
      return Some(owner), false;
    }
  }

  lemma FirstHasEntry(s: State)
    requires Inv(s) && s.round != []
    ensures s.round[0] in s.continuations
  {
  }

  function Outside(continuations: map<AccountId, Outcome>, rest: set<AccountId>): map<AccountId, Outcome> {
    map a | a in continuations && a !in rest :: continuations[a]
  }

  lemma OneMoreOutside(continuations: map<AccountId, Outcome>, rest: set<AccountId>, owner: AccountId)
    requires owner in rest && owner in continuations
    ensures owner !in Outside(continuations, rest)
    ensures Outside(continuations, rest - {owner}) == Outside(continuations, rest)[owner := continuations[owner]]
  {
  }

  /** Every id so far has an entry, a new one if it had none. */
  ghost predicate Defaulted(ids: seq<AccountId>, kept: map<AccountId, Outcome>, continuations: map<AccountId,
        Outcome>) {
    && (forall a :: a in continuations <==> a in kept || a in ids)
    && forall a :: a in continuations ==> continuations[a] == OutcomeOf(kept, a)
  }

  lemma DefaultedOneMore(ids: seq<AccountId>, i: nat, kept: map<AccountId, Outcome>,
                         before: map<AccountId, Outcome>, after: map<AccountId, Outcome>)
    requires i < |ids| && Defaulted(ids[..i], kept, before)
    requires after == if ids[i] in before then before else before[ids[i] := READY]
    ensures Defaulted(ids[..i + 1], kept, after) && ids[i] in after && after[ids[i]] == OutcomeOf(kept, ids[i])
  {
    assert ids[..i + 1] == ids[..i] + [ids[i]];
  }

  lemma DefaultedAll(principals: seq<AccountId>, enabled: seq<AccountId>, kept: map<AccountId, Outcome>,
                     continuations: map<AccountId, Outcome>)
    requires Defaulted(principals, kept, continuations) && forall a :: a in principals <==> a in enabled
    ensures continuations == WithDefaults(enabled, kept)
  {
  }

  lemma NothingDefaulted(kept: map<AccountId, Outcome>)
    ensures Defaulted([], kept, kept)
  {
  }

  /** What the next account adds to the round. */
  lemma ReadyNext(round: seq<AccountId>, ids: seq<AccountId>, i: nat, kept: map<AccountId, Outcome>, now: real, o: Outcome)
    requires i < |ids| && o == OutcomeOf(kept, ids[i])
    requires round + Due(ids[i..], kept, now) == Due(ids, kept, now)
    ensures var ready := o.ready || (o.deferredUntil.Some? && o.deferredUntil.value <= now);
            (if ready then round + [ids[i]] else round) + Due(ids[i + 1..], kept, now) == Due(ids, kept, now)
  {
    hide Due, OutcomeOf;
    var rest := Due(ids[i + 1..], kept, now);
    DueFirst(ids[i..], kept, now);
    assert ids[i..][1..] == ids[i + 1..];
    assert round + ([ids[i]] + rest) == round + [ids[i]] + rest;
    assert [] + rest == rest;
  }

  lemma DueFirst(ids: seq<AccountId>, continuations: map<AccountId, Outcome>, now: real)
    requires ids != []
    ensures Due(ids, continuations, now)
         == (if IsDue(OutcomeOf(continuations, ids[0]), now) then [ids[0]] else []) + Due(ids[1..], continuations, now)
  {
  }

  lemma DueNone(continuations: map<AccountId, Outcome>, now: real)
    ensures Due([], continuations, now) == []
  {
  }

  lemma OneMoreDeadline(seen: map<AccountId, Outcome>, owner: AccountId, outcome: Outcome, now: real,
                        before: Option<real>, after: Option<real>)
    requires owner !in seen && IsEarliest(seen, now, before)
    requires after == if HasWork(outcome) && (before.None? || WorkTime(outcome, now) < before.value)
                      then Some(WorkTime(outcome, now)) else before
    ensures IsEarliest(seen[owner := outcome], now, after)
  {
    var all := seen[owner := outcome];
    assert all[owner] == outcome;
    if before.Some? {
      var a :| a in seen && HasWork(seen[a]) && WorkTime(seen[a], now) == before.value;
      assert all[a] == seen[a];
    }
  }

  lemma RotatedHas(ids: seq<AccountId>, last: Option<AccountId>)
    requires Increasing(ids)
    ensures forall a :: a in Rotated(ids, last) <==> a in ids
  {
    if last.Some? {
      RotatedIsCyclic(ids, last.value);
      var k := CountUpTo(ids, last.value);
      assert ids == ids[..k] + ids[k..];
    }
  }
}
