/** What callers of the limiter see, over every history of checks and failures. */
module FailureTableTheorems {
  import opened Common
  import opened FailureTable

  // -------- histories --------

  /** Operations in the order of a monotone clock. */
  ghost predicate History(ops: seq<Op>) {
    forall i, j :: 0 <= i <= j < |ops| ==> ops[i].now <= ops[j].now
  }

  function LogOf(ops: seq<Op>): seq<Failure> {
    if ops == [] then [] else Logged(LogOf(ops[..|ops| - 1]), ops[|ops| - 1])
  }

  /** The table after a history; sweeps says at which operations a global prune was due. */
  function TableAfter(l: Limits, ops: seq<Op>, sweeps: seq<bool>): seq<Entry>
    requires |ops| == |sweeps|
  {
    if ops == [] then []
    else
      var n := |ops| - 1;
      After(l, TableAfter(l, ops[..n], sweeps[..n]), ops[n], sweeps[n])
  }

  lemma EmptyInv(l: Limits, now: real)
    requires Positive(l)
    ensures Inv(l, [], [], now)
  {
  }

  lemma FrontOfHistory(ops: seq<Op>)
    requires History(ops) && ops != []
    ensures History(ops[..|ops| - 1])
    ensures ops[..|ops| - 1] != [] ==> ops[..|ops| - 1][|ops| - 2].now <= ops[|ops| - 1].now
  {
  }

  lemma {:induction false} HistoryKeepsInv(l: Limits, ops: seq<Op>, sweeps: seq<bool>, now: real)
    requires Positive(l) && |ops| == |sweeps| && History(ops) && (ops != [] ==> ops[|ops| - 1].now == now)
    ensures Inv(l, TableAfter(l, ops, sweeps), LogOf(ops), now)
  {
    hide Inv, After, Logged;
    if ops == [] {
      EmptyInv(l, now);
    } else {
      var n := |ops| - 1;
      var before := if n == 0 then now else ops[n - 1].now;
      FrontOfHistory(ops);
      HistoryKeepsInv(l, ops[..n], sweeps[..n], before);
      OpKeepsInv(l, TableAfter(l, ops[..n], sweeps[..n]), LogOf(ops[..n]), before, ops[n], sweeps[n]);
    }
  }

  /** A question after a history. */
  ghost predicate Asks(ops: seq<Op>, op: Op) {
    History(ops) && (ops != [] ==> ops[|ops| - 1].now <= op.now)
  }

  lemma AskedInv(l: Limits, ops: seq<Op>, sweeps: seq<bool>, op: Op, sweep: bool)
    requires Positive(l) && |ops| == |sweeps| && Asks(ops, op)
    ensures Inv(l, Pruned(l, TableAfter(l, ops, sweeps), op, sweep), LogOf(ops), op.now)
  {
    hide Inv, Pruned, TableAfter, LogOf;
    var now := if ops == [] then op.now else ops[|ops| - 1].now;
    HistoryKeepsInv(l, ops, sweeps, now);
    PrunedKeepsInv(l, TableAfter(l, ops, sweeps), LogOf(ops), now, op, sweep);
  }

  // -------- the bounded table against the log --------

  /** Counting in the window is looking at the n-th latest failure. */
  lemma {:induction false} WindowByNth(log: seq<Failure>, now: real, k: Key, cutoff: real, n: nat)
    requires LogOk(log, now) && n >= 1
    ensures InWindow(log, k, cutoff) >= n <==> NthLast(log, k, n) >= 0 && log[NthLast(log, k, n)].time >= cutoff
  {
    if log != [] {
      var front, last := log[..|log| - 1], log[|log| - 1];
      assert LogOk(front, now);
      WindowByNth(front, now, k, cutoff, n);
      if last.key == k {
        if n > 1 {
          WindowByNth(front, now, k, cutoff, n - 1);
        }
        if last.time < cutoff {
          WindowByNth(front, now, k, cutoff, 1);
        }
      }
    }
  }

  lemma HeldIsLogged(l: Limits, t: seq<Entry>, log: seq<Failure>, now: real, k: Key, cutoff: real)
    requires Inv(l, t, log, now) && |TimesOf(t, k)| >= l.maxFailures
    requires TimesOf(t, k)[0] >= cutoff
    ensures InWindow(log, k, cutoff) >= l.maxFailures
  {
    hide Answers, TableOk;
    TimesOfEntry(l, t, k, log);
    NthIsNthTime(log, k, l.maxFailures);
    WindowByNth(log, now, k, cutoff, l.maxFailures);
  }

  lemma {:induction false} PrunedIsRecent(l: Limits, t: seq<Entry>, k: Key, cutoff: real, log: seq<Failure>)
    requires TableOk(l, t, log)
    ensures TimesOf(PruneKey(t, k, cutoff), k) != [] ==> TimesOf(PruneKey(t, k, cutoff), k)[0] >= cutoff
  {
    if t != [] {
      TableTail(l, t, log);
      if t[0].key == k {
        DropOldIsSuffix(t[0].times, cutoff);
        assert Shown(t[0], cutoff) + t[1..] == if DropOld(t[0].times, cutoff) == [] then t[1..]
                                              else [Entry(k, DropOld(t[0].times, cutoff))] + t[1..];
        NoTimes(t[1..], k);
      } else {
        PrunedIsRecent(l, t[1..], k, cutoff, log);
      }
    }
  }

  lemma {:induction false} NoTimes(t: seq<Entry>, k: Key)
    requires forall p :: 0 <= p < |t| ==> t[p].key != k
    ensures TimesOf(t, k) == []
  {
    if t != [] {
      NoTimes(t[1..], k);
    }
  }

  /** A key is blocked only if the log holds maxFailures failures of it in the window, however the table
      was pruned; so nobody is blocked because the table is full. */
  lemma BlockedIsJustified(l: Limits, ops: seq<Op>, sweeps: seq<bool>, op: Op, sweep: bool)
    requires Positive(l) && |ops| == |sweeps| && Asks(ops, op)
    requires Blocked(l, TableAfter(l, ops, sweeps), op, sweep)
    ensures InWindow(LogOf(ops), op.key, op.now - l.window) >= l.maxFailures
  {
    hide TableAfter, LogOf, Inv, InWindow, Blocked, Pruned;
    var now := if ops == [] then op.now else ops[|ops| - 1].now;
    HistoryKeepsInv(l, ops, sweeps, now);
    AskedInv(l, ops, sweeps, op, sweep);
    BlockedIsLogged(l, TableAfter(l, ops, sweeps), LogOf(ops), now, op, sweep);
  }

  lemma BlockedIsLogged(l: Limits, t: seq<Entry>, log: seq<Failure>, now: real, op: Op, sweep: bool)
    requires Inv(l, t, log, now) && Inv(l, Pruned(l, t, op, sweep), log, op.now) && Blocked(l, t, op, sweep)
    ensures InWindow(log, op.key, op.now - l.window) >= l.maxFailures
  {
    hide Answers, InWindow, TableOk, LogOk;
    var cutoff := op.now - l.window;
    PruneAllKeepsTable(l, t, log, cutoff);
    PrunedIsRecent(l, if sweep then PruneAll(t, cutoff) else t, op.key, cutoff, log);
    HeldIsLogged(l, Pruned(l, t, op, sweep), log, op.now, op.key, cutoff);
  }

  /** A key is blocked if and only if the log holds maxFailures failures of it in the window, and neither between two
      successive ones of its last maxFailures failures nor since the last did other keys fill the table. */
  lemma BlockedIsExact(l: Limits, ops: seq<Op>, sweeps: seq<bool>, op: Op, sweep: bool)
    requires Positive(l) && |ops| == |sweeps| && Asks(ops, op)
    ensures Blocked(l, TableAfter(l, ops, sweeps), op, sweep)
       <==> InWindow(LogOf(ops), op.key, op.now - l.window) >= l.maxFailures
            && Unbroken(LogOf(ops), op.key, l.maxFailures, l.maxKeys)
  {
    hide TableAfter, LogOf, Inv, Pruned, InWindow, NthLast, Unbroken, Blocked;
    AskedInv(l, ops, sweeps, op, sweep);
    if Blocked(l, TableAfter(l, ops, sweeps), op, sweep) {
      BlockedIsJustified(l, ops, sweeps, op, sweep);
    }
    LoggedIsBlocked(l, TableAfter(l, ops, sweeps), LogOf(ops), op, sweep);
  }

  lemma LoggedIsBlocked(l: Limits, t: seq<Entry>, log: seq<Failure>, op: Op, sweep: bool)
    requires Inv(l, Pruned(l, t, op, sweep), log, op.now)
    ensures InWindow(log, op.key, op.now - l.window) >= l.maxFailures ==>
              (Blocked(l, t, op, sweep) <==> Unbroken(log, op.key, l.maxFailures, l.maxKeys))
  {
    hide Pruned, InWindow, NthLast, Unbroken, TableOk, LogOk, Crowded, Holds;
    var r, cutoff := Pruned(l, t, op, sweep), op.now - l.window;
    WindowByNth(log, op.now, op.key, cutoff, l.maxFailures);
    assert Remembered(l, r, log, cutoff, op.key, l.maxFailures);
    assert HeldIsUnbroken(l, r, log, cutoff, op.key, l.maxFailures);
    TimesOfEntry(l, r, op.key, log);
  }

  /** So the log alone decides as long as fewer than maxKeys other keys failed since the oldest of those failures. */
  lemma FewKeysDecideByTheLog(l: Limits, ops: seq<Op>, sweeps: seq<bool>, op: Op, sweep: bool)
    requires Positive(l) && |ops| == |sweeps| && Asks(ops, op)
    requires |OthersSince(LogOf(ops), NthLast(LogOf(ops), op.key, l.maxFailures), op.key)| < l.maxKeys
    ensures Blocked(l, TableAfter(l, ops, sweeps), op, sweep)
       <==> InWindow(LogOf(ops), op.key, op.now - l.window) >= l.maxFailures
  {
    hide TableAfter, LogOf, Pruned, InWindow, Unbroken, Blocked;
    BlockedIsExact(l, ops, sweeps, op, sweep);
    FewSinceIsUnbroken(LogOf(ops), op.key, l.maxFailures, l.maxKeys);
  }

  lemma FewSinceIsUnbroken(log: seq<Failure>, k: Key, n: nat, maxKeys: nat)
    requires n >= 1 && |OthersSince(log, NthLast(log, k, n), k)| < maxKeys
    ensures Unbroken(log, k, n, maxKeys)
  {
    hide NthLast;
    forall m | 1 <= m <= n
      ensures |OthersBetween(log, k, m)| < maxKeys
    {
      NthDescends(log, k, n, m);
      BetweenIsSince(log, k, m, NthLast(log, k, n));
    }
  }

  lemma BetweenIsSince(log: seq<Failure>, k: Key, m: nat, i: int)
    requires m >= 1 && i <= NthLast(log, k, m)
    ensures |OthersBetween(log, k, m)| <= |OthersSince(log, i, k)|
  {
    SubsetIsSmaller(OthersBetween(log, k, m), OthersSince(log, i, k));
  }

  /** The table never holds more than maxKeys keys, each once, in the order of their last failures. */
  lemma TableIsBounded(l: Limits, ops: seq<Op>, sweeps: seq<bool>)
    requires Positive(l) && |ops| == |sweeps| && History(ops)
    ensures var t, log := TableAfter(l, ops, sweeps), LogOf(ops);
            && |t| <= l.maxKeys
            && (forall p :: 0 <= p < |t| ==> |t[p].times| <= l.maxFailures)
            && forall p, q :: 0 <= p < q < |t| ==>
                 t[p].key != t[q].key && NthLast(log, t[p].key, 1) < NthLast(log, t[q].key, 1)
  {
    hide TableAfter, LogOf, Answers, NthLast;
    HistoryKeepsInv(l, ops, sweeps, if ops == [] then 0.0 else ops[|ops| - 1].now);
  }

  // -------- global pruning --------

  lemma {:induction false} DropTwice(times: seq<real>, cutoff: real, later: real)
    requires cutoff <= later
    ensures DropOld(DropOld(times, cutoff), later) == DropOld(times, later)
  {
    if times != [] && times[0] < cutoff {
      DropTwice(times[1..], cutoff, later);
    }
  }

  lemma {:induction false} PruneConcat(a: seq<Entry>, b: seq<Entry>, cutoff: real)
    ensures PruneAll(a + b, cutoff) == PruneAll(a, cutoff) + PruneAll(b, cutoff)
  {
    if a == [] {
      assert a + b == b;
    } else {
      assert (a + b)[1..] == a[1..] + b;
      PruneConcat(a[1..], b, cutoff);
    }
  }

  lemma ShowTwice(e: Entry, cutoff: real, later: real)
    requires cutoff <= later
    ensures PruneAll(Shown(e, cutoff), later) == Shown(e, later)
  {
    DropTwice(e.times, cutoff, later);
  }

  lemma {:induction false} PruneTwice(t: seq<Entry>, cutoff: real, later: real)
    requires cutoff <= later
    ensures PruneAll(PruneAll(t, cutoff), later) == PruneAll(t, later)
  {
    if t != [] {
      PruneConcat(Shown(t[0], cutoff), PruneAll(t[1..], cutoff), later);
      ShowTwice(t[0], cutoff, later);
      PruneTwice(t[1..], cutoff, later);
    }
  }

  lemma {:induction false} PruneAfterKey(t: seq<Entry>, k: Key, cutoff: real)
    ensures PruneAll(PruneKey(t, k, cutoff), cutoff) == PruneAll(t, cutoff)
  {
    if t != [] {
      if t[0].key == k {
        PruneConcat(Shown(t[0], cutoff), t[1..], cutoff);
        ShowTwice(t[0], cutoff, cutoff);
      } else {
        PruneAfterKey(t[1..], k, cutoff);
      }
    }
  }

  lemma {:induction false} SameTimes(l: Limits, t: seq<Entry>, k: Key, cutoff: real, log: seq<Failure>)
    requires TableOk(l, t, log)
    ensures TimesOf(PruneKey(t, k, cutoff), k) == TimesOf(PruneAll(t, cutoff), k)
  {
    if t != [] {
      TableTail(l, t, log);
      if t[0].key == k {
        NoTimes(t[1..], k);
        PruneAllKeepsTable(l, t[1..], log, cutoff);
        forall p | 0 <= p < |PruneAll(t[1..], cutoff)|
          ensures PruneAll(t[1..], cutoff)[p].key != k
        {
          assert PruneAll(t[1..], cutoff)[p] in PruneAll(t[1..], cutoff);
        }
        NoTimes(PruneAll(t[1..], cutoff), k);
        ShownInFront(t[0], t[1..], k, cutoff);
        ShownInFront(t[0], PruneAll(t[1..], cutoff), k, cutoff);
      } else {
        SameTimes(l, t[1..], k, cutoff, log);
        ShownInFront(t[0], PruneAll(t[1..], cutoff), k, cutoff);
      }
    }
  }

  lemma ShownInFront(e: Entry, rest: seq<Entry>, k: Key, cutoff: real)
    ensures TimesOf(Shown(e, cutoff) + rest, k)
         == if e.key == k && DropOld(e.times, cutoff) != [] then DropOld(e.times, cutoff) else TimesOf(rest, k)
  {
    if DropOld(e.times, cutoff) == [] {
      assert Shown(e, cutoff) + rest == rest;
    } else {
      assert (Shown(e, cutoff) + rest)[1..] == rest;
    }
  }

  lemma {:induction false} WithoutNothing(t: seq<Entry>, k: Key)
    requires forall p :: 0 <= p < |t| ==> t[p].key != k
    ensures Without(t, k) == t
  {
    if t != [] {
      WithoutNothing(t[1..], k);
    }
  }

  lemma WithoutInFront(e: Entry, rest: seq<Entry>, k: Key, cutoff: real)
    ensures Without(Shown(e, cutoff) + rest, k)
         == if DropOld(e.times, cutoff) == [] then Without(rest, k)
            else if e.key == k then rest
            else Shown(e, cutoff) + Without(rest, k)
  {
    if DropOld(e.times, cutoff) == [] {
      assert Shown(e, cutoff) + rest == rest;
    } else {
      assert (Shown(e, cutoff) + rest)[1..] == rest;
    }
  }

  lemma PrunedLacks(l: Limits, t: seq<Entry>, k: Key, cutoff: real, log: seq<Failure>)
    requires TableOk(l, t, log) && forall p :: 0 <= p < |t| ==> t[p].key != k
    ensures Without(PruneAll(t, cutoff), k) == PruneAll(t, cutoff)
  {
    var r := PruneAll(t, cutoff);
    PruneAllKeepsTable(l, t, log, cutoff);
    forall p | 0 <= p < |r|
      ensures r[p].key != k
    {
      assert r[p] in r;
    }
    WithoutNothing(r, k);
  }

  lemma {:induction false} PruneWithout(l: Limits, t: seq<Entry>, k: Key, cutoff: real, log: seq<Failure>)
    requires TableOk(l, t, log)
    ensures PruneAll(Without(t, k), cutoff) == Without(PruneAll(t, cutoff), k)
  {
    hide TableOk, Shown, DropOld;
    if t != [] {
      var rest := PruneAll(t[1..], cutoff);
      TableTail(l, t, log);
      WithoutInFront(t[0], rest, k, cutoff);
      if t[0].key == k {
        PrunedLacks(l, t[1..], k, cutoff, log);
      } else {
        PruneWithout(l, t[1..], k, cutoff, log);
        NothingShown(t[0], Without(rest, k), cutoff);
      }
    }
  }

  lemma NothingShown(e: Entry, rest: seq<Entry>, cutoff: real)
    ensures DropOld(e.times, cutoff) == [] ==> Shown(e, cutoff) + rest == rest
  {
  }

  /** The dead entries are the first of the table. */
  lemma {:induction false} AliveToTheEnd(l: Limits, t: seq<Entry>, log: seq<Failure>, now: real, cutoff: real)
    requires TableOk(l, t, log) && LogOk(log, now) && t != [] && DropOld(t[0].times, cutoff) != []
    ensures |PruneAll(t, cutoff)| == |t|
  {
    TableTail(l, t, log);
    if |t| > 1 {
      OrderedEntry(l, t[0], log, now);
      LastTime(l, t[0], log, cutoff);
      LastTime(l, t[1], log, cutoff);
      assert NthLast(log, t[0].key, 1) < NthLast(log, t[1].key, 1);
      AliveToTheEnd(l, t[1..], log, now, cutoff);
    }
  }

  /** An entry is alive as long as its last failure is in the window. */
  lemma LastTime(l: Limits, e: Entry, log: seq<Failure>, cutoff: real)
    requires EntryOk(l, e, log)
    ensures var i := NthLast(log, e.key, 1);
            i >= 0 && e.times[|e.times| - 1] == log[i].time
            && (log[i].time >= cutoff ==> DropOld(e.times, cutoff) != [])
    ensures DropOld(e.times, cutoff) != [] && Ordered(e.times) ==> e.times[|e.times| - 1] >= cutoff
  {
    NthIsNthTime(log, e.key, 1);
    DropOldIsSuffix(e.times, cutoff);
  }

  lemma OrderedEntry(l: Limits, e: Entry, log: seq<Failure>, now: real)
    requires EntryOk(l, e, log) && LogOk(log, now)
    ensures Ordered(e.times)
  {
    TimesAreOrdered(log, e.key, now);
  }

  lemma EvictionCommutes(l: Limits, t: seq<Entry>, log: seq<Failure>, now: real, cutoff: real)
    requires Positive(l) && TableOk(l, t, log) && LogOk(log, now) && |t| >= l.maxKeys
    ensures var live := PruneAll(t, cutoff);
            PruneAll(t[1..], cutoff) == if |live| >= l.maxKeys then live[1..] else live
  {
    TableSize(l, t, log);
    hide TableOk, LogOk;
    if DropOld(t[0].times, cutoff) != [] {
      AliveToTheEnd(l, t, log, now, cutoff);
    } else {
      TableTail(l, t, log);
      PruneAllKeepsTable(l, t[1..], log, cutoff);
    }
    NothingShown(t[0], PruneAll(t[1..], cutoff), cutoff);
  }

  /** The entry that a failure leaves at the end of the table is alive. */
  lemma NewEntryIsShown(times: seq<real>, now: real, cutoff: real, k: Key, maxlen: nat)
    requires Ordered(times) && (times != [] ==> times[0] >= cutoff) && now >= cutoff && maxlen >= 1
    ensures var e := Entry(k, Capped(times + [now], maxlen)); PruneAll([e], cutoff) == [e]
  {
    var all := times + [now];
    assert forall i :: 0 <= i < |all| ==> all[i] >= cutoff;
    assert Capped(all, maxlen)[0] >= cutoff;
  }

  lemma AppendCommutes(l: Limits, t: seq<Entry>, log: seq<Failure>, k: Key, now: real, cutoff: real)
    requires Positive(l) && TableOk(l, t, log) && LogOk(log, now) && now >= cutoff
    requires TimesOf(t, k) == TimesOf(PruneAll(t, cutoff), k) && (TimesOf(t, k) != [] ==> TimesOf(t, k)[0] >= cutoff)
    ensures PruneAll(Append(l, t, k, now), cutoff) == Append(l, PruneAll(t, cutoff), k, now)
  {
    hide TableOk, PruneAll, Without, TimesOf, HasKey, Ordered, LogOk;
    var live := PruneAll(t, cutoff);
    PruneAllKeepsTable(l, t, log, cutoff);
    TimesOfEntry(l, t, k, log);
    TimesOfEntry(l, live, k, log);
    OrderedTimes(TimesOf(t, k), log, k, now);
    NewEntryIsShown(TimesOf(t, k), now, cutoff, k, l.maxFailures);
    TableSize(l, t, log);
    var e := Entry(k, Capped(TimesOf(t, k) + [now], l.maxFailures));
    assert [] + [now] == [now];
    if HasKey(t, k) {
      PruneConcat(Without(t, k), [e], cutoff);
      PruneWithout(l, t, k, cutoff, log);
    } else if |t| >= l.maxKeys {
      PruneConcat(t[1..], [e], cutoff);
      EvictionCommutes(l, t, log, now, cutoff);
    } else {
      PruneConcat(t, [e], cutoff);
    }
  }

  lemma OrderedTimes(times: seq<real>, log: seq<Failure>, k: Key, now: real)
    requires LogOk(log, now) && IsSuffix(times, TimesIn(log, k))
    ensures Ordered(times)
  {
    TimesAreOrdered(log, k, now);
  }

  /** What an operation does to the live part of the table does not depend on whether it swept. */
  function Next(l: Limits, live: seq<Entry>, op: Op): seq<Entry> {
    if op.Check? then live else Append(l, live, op.key, op.now)
  }

  lemma LivePart(l: Limits, t: seq<Entry>, log: seq<Failure>, now: real, op: Op, sweep: bool)
    requires Inv(l, t, log, now) && now <= op.now
    ensures var live := PruneAll(t, op.now - l.window);
            && PruneAll(After(l, t, op, sweep), op.now - l.window) == Next(l, live, op)
            && TimesOf(Pruned(l, t, op, sweep), op.key) == TimesOf(live, op.key)
  {
    hide TableOk, Answers, LogOk, Append, PruneAll, PruneKey, TimesOf;
    var cutoff := op.now - l.window;
    PrunedKeepsInv(l, t, log, now, op, sweep);
    PruneAllKeepsTable(l, t, log, cutoff);
    PrunedLive(l, t, log, op, sweep);
    AppendCommutes(l, Pruned(l, t, op, sweep), log, op.key, op.now, cutoff);
  }

  lemma PrunedLive(l: Limits, t: seq<Entry>, log: seq<Failure>, op: Op, sweep: bool)
    requires TableOk(l, t, log)
    ensures var cutoff := op.now - l.window; var r := Pruned(l, t, op, sweep);
            && PruneAll(r, cutoff) == PruneAll(t, cutoff)
            && TimesOf(r, op.key) == TimesOf(PruneAll(t, cutoff), op.key)
            && (TimesOf(r, op.key) != [] ==> TimesOf(r, op.key)[0] >= cutoff)
  {
    hide TableOk, PruneAll, PruneKey, TimesOf;
    var cutoff := op.now - l.window;
    var swept := if sweep then PruneAll(t, cutoff) else t;
    PruneAllKeepsTable(l, t, log, cutoff);
    PruneTwice(t, cutoff, cutoff);
    PruneAfterKey(swept, op.key, cutoff);
    SameTimes(l, swept, op.key, cutoff, log);
    PrunedIsRecent(l, swept, op.key, cutoff, log);
  }

  /** Two tables with the same history have the same live part, whenever each was swept. */
  lemma {:induction false} SameLivePart(l: Limits, ops: seq<Op>, sweeps: seq<bool>, sweeps': seq<bool>, cutoff: real)
    requires Positive(l) && |ops| == |sweeps| == |sweeps'| && History(ops)
    requires ops != [] ==> ops[|ops| - 1].now - l.window <= cutoff
    ensures PruneAll(TableAfter(l, ops, sweeps), cutoff) == PruneAll(TableAfter(l, ops, sweeps'), cutoff)
  {
    hide Inv, After, PruneAll, LogOf;
    if ops != [] {
      var n := |ops| - 1;
      var op, before := ops[n], if n == 0 then ops[n].now else ops[n - 1].now;
      FrontOfHistory(ops);
      HistoryKeepsInv(l, ops[..n], sweeps[..n], before);
      HistoryKeepsInv(l, ops[..n], sweeps'[..n], before);
      SameLivePart(l, ops[..n], sweeps[..n], sweeps'[..n], op.now - l.window);
      SameNext(l, TableAfter(l, ops[..n], sweeps[..n]), TableAfter(l, ops[..n], sweeps'[..n]), LogOf(ops[..n]),
               before, op, sweeps[n], sweeps'[n], cutoff);
    }
  }

  lemma SameNext(l: Limits, t: seq<Entry>, t': seq<Entry>, log: seq<Failure>, now: real, op: Op,
                 sweep: bool, sweep': bool, cutoff: real)
    requires Inv(l, t, log, now) && Inv(l, t', log, now) && now <= op.now && op.now - l.window <= cutoff
    requires PruneAll(t, op.now - l.window) == PruneAll(t', op.now - l.window)
    ensures PruneAll(After(l, t, op, sweep), cutoff) == PruneAll(After(l, t', op, sweep'), cutoff)
  {
    hide Inv, After, PruneAll, Next, Pruned, TimesOf;
    LivePart(l, t, log, now, op, sweep);
    LivePart(l, t', log, now, op, sweep');
    PruneTwice(After(l, t, op, sweep), op.now - l.window, cutoff);
    PruneTwice(After(l, t', op, sweep'), op.now - l.window, cutoff);
  }

  /** When and how often the whole table is pruned changes no answer, now or later. */
  lemma SweepsChangeNoAnswer(l: Limits, ops: seq<Op>, sweeps: seq<bool>, sweeps': seq<bool>, op: Op,
        sweep: bool, sweep': bool)
    requires Positive(l) && |ops| == |sweeps| == |sweeps'| && Asks(ops, op)
    ensures Blocked(l, TableAfter(l, ops, sweeps), op, sweep) == Blocked(l, TableAfter(l, ops, sweeps'), op, sweep')
  {
    hide Inv, TableAfter, PruneAll, LogOf, Pruned, TimesOf, History, After, Next;
    var now := if ops == [] then op.now else ops[|ops| - 1].now;
    HistoryKeepsInv(l, ops, sweeps, now);
    HistoryKeepsInv(l, ops, sweeps', now);
    SameLivePart(l, ops, sweeps, sweeps', op.now - l.window);
    LivePart(l, TableAfter(l, ops, sweeps), LogOf(ops), now, op, sweep);
    LivePart(l, TableAfter(l, ops, sweeps'), LogOf(ops), now, op, sweep');
  }
}
