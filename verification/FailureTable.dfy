/** The table of failed authentications as a value: app/ingest.py, FailedAuthLimiter. */
module FailureTable {
  import opened Common

  type Key = string  // the digest of an address

  /** One entry of the ordered table, with the latest failures of its key. */
  datatype Entry = Entry(key: Key, times: seq<real>)

  datatype Failure = Failure(key: Key, time: real)

  datatype Limits = Limits(maxFailures: nat, window: real, maxKeys: nat)

  predicate Positive(l: Limits) {
    l.maxFailures >= 1 && l.maxKeys >= 1 && l.window > 0.0
  }

  // -------- operations --------

  function DropOld(times: seq<real>, cutoff: real): (r: seq<real>) {
    if times == [] || times[0] >= cutoff then times else DropOld(times[1..], cutoff)
  }

  function TimesOf(t: seq<Entry>, k: Key): seq<real> {
    if t == [] then [] else if t[0].key == k then t[0].times else TimesOf(t[1..], k)
  }

  function Shown(e: Entry, cutoff: real): seq<Entry> {
    var times := DropOld(e.times, cutoff);
    if times == [] then [] else [Entry(e.key, times)]
  }

  /** _prune of one key. */
  function PruneKey(t: seq<Entry>, k: Key, cutoff: real): (r: seq<Entry>) {
    if t == [] then []
    else if t[0].key == k then Shown(t[0], cutoff) + t[1..]
    else [t[0]] + PruneKey(t[1..], k, cutoff)
  }

  /** The loop of _maybe_prune_all. */
  function PruneAll(t: seq<Entry>, cutoff: real): seq<Entry> {
    if t == [] then [] else Shown(t[0], cutoff) + PruneAll(t[1..], cutoff)
  }

  function Without(t: seq<Entry>, k: Key): seq<Entry> {
    if t == [] then [] else if t[0].key == k then t[1..] else [t[0]] + Without(t[1..], k)
  }

  predicate HasKey(t: seq<Entry>, k: Key) {
    exists p :: 0 <= p < |t| && t[p].key == k
  }

  /** A deque that keeps only its last maxlen elements. */
  function Capped(times: seq<real>, maxlen: nat): seq<real> {
    if |times| > maxlen then times[|times| - maxlen..] else times
  }

  /** The rest of record_failure, after pruning. */
  function Append(l: Limits, t: seq<Entry>, k: Key, now: real): seq<Entry> {
    if !HasKey(t, k) then
      (if |t| >= l.maxKeys && t != [] then t[1..] else t) + [Entry(k, Capped([now], l.maxFailures))]
    else
      Without(t, k) + [Entry(k, Capped(TimesOf(t, k) + [now], l.maxFailures))]
  }

  datatype Op = Check(key: Key, now: real) | Fail(key: Key, now: real)

  /** The table on which an operation decides; all says whether a global prune was due. */
  function Pruned(l: Limits, t: seq<Entry>, op: Op, all: bool): seq<Entry> {
    var cutoff := op.now - l.window;
    PruneKey(if all then PruneAll(t, cutoff) else t, op.key, cutoff)
  }

  function After(l: Limits, t: seq<Entry>, op: Op, all: bool): seq<Entry> {
    if op.Check? then Pruned(l, t, op, all) else Append(l, Pruned(l, t, op, all), op.key, op.now)
  }

  function Blocked(l: Limits, t: seq<Entry>, op: Op, all: bool): bool {
    |TimesOf(Pruned(l, t, op, all), op.key)| >= l.maxFailures
  }

  // -------- the unbounded log --------

  function Logged(log: seq<Failure>, op: Op): seq<Failure> {
    if op.Fail? then log + [Failure(op.key, op.now)] else log
  }

  function TimesIn(log: seq<Failure>, k: Key): (r: seq<real>)
    ensures |r| <= |log|
  {
    if log == [] then []
    else
      var last := log[|log| - 1];
      TimesIn(log[..|log| - 1], k) + (if last.key == k then [last.time] else [])
  }

  /** How many failures of a key are not older than the cutoff. */
  function InWindow(log: seq<Failure>, k: Key, cutoff: real): nat {
    if log == [] then 0
    else
      var last := log[|log| - 1];
      InWindow(log[..|log| - 1], k, cutoff) + (if last.key == k && last.time >= cutoff then 1 else 0)
  }

  /** The position of the n-th latest failure of a key. */
  function NthLast(log: seq<Failure>, k: Key, n: nat): (i: int)
    requires n >= 1
    ensures -1 <= i < |log| && (i >= 0 ==> log[i].key == k)
  {
    if log == [] then -1
    else if log[|log| - 1].key != k then NthLast(log[..|log| - 1], k, n)
    else if n == 1 then |log| - 1
    else NthLast(log[..|log| - 1], k, n - 1)
  }

  /** The other keys that failed after position i. */
  function OthersSince(log: seq<Failure>, i: int, k: Key): set<Key> {
    set j | 0 <= j < |log| && i < j && log[j].key != k :: log[j].key
  }

  /** The position behind the m-th latest failure of a key at which it failed next, or the end of the log. */
  function NextAfter(log: seq<Failure>, k: Key, m: nat): (j: int)
    requires m >= 1
    ensures j <= |log|
  {
    if m == 1 then |log| else NthLast(log, k, m - 1)
  }

  /** The other keys that failed between the m-th latest failure of a key and its next. */
  function OthersBetween(log: seq<Failure>, k: Key, m: nat): set<Key>
    requires m >= 1
  {
    OthersIn(log, NthLast(log, k, m), NextAfter(log, k, m), k)
  }

  function OthersIn(log: seq<Failure>, i: int, j: int, k: Key): set<Key> {
    set x | 0 <= x < |log| && i < x < j && log[x].key != k :: log[x].key
  }

  /** Nowhere behind one of the last n failures of a key did so many other keys fail, before it failed again,
      that they fill the table. */
  ghost predicate Unbroken(log: seq<Failure>, k: Key, n: nat, maxKeys: nat) {
    forall m :: 1 <= m <= n ==> |OthersBetween(log, k, m)| < maxKeys
  }

  // -------- the invariant --------

  ghost predicate Ordered(times: seq<real>) {
    forall i, j :: 0 <= i <= j < |times| ==> times[i] <= times[j]
  }

  ghost predicate LogOk(log: seq<Failure>, now: real) {
    && (forall i, j :: 0 <= i <= j < |log| ==> log[i].time <= log[j].time)
    && (forall i :: 0 <= i < |log| ==> log[i].time <= now)
  }

  ghost predicate IsSuffix(times: seq<real>, all: seq<real>) {
    |times| <= |all| && times == all[|all| - |times|..]
  }

  /** An entry holds some of the latest failures of its key, and at most as many as count. */
  ghost predicate EntryOk(l: Limits, e: Entry, log: seq<Failure>) {
    0 < |e.times| <= l.maxFailures && IsSuffix(e.times, TimesIn(log, e.key))
  }

  /** At most maxKeys different keys, in the order of their last failures. */
  ghost predicate TableOk(l: Limits, t: seq<Entry>, log: seq<Failure>) {
    && |t| <= l.maxKeys
    && (forall p :: 0 <= p < |t| ==> EntryOk(l, t[p], log))
    && (forall p, q :: 0 <= p < q < |t| ==> t[p].key != t[q].key && NthLast(log, t[p].key, 1) < NthLast(log, t[q].key, 1))
  }

  /** The entry of key k holds at least n failures. */
  ghost predicate Holds(t: seq<Entry>, k: Key, n: nat) {
    exists p :: 0 <= p < |t| && t[p].key == k && |t[p].times| >= n
  }

  /** Nothing in the window is forgotten unless other keys filled the table between two failures or since. */
  ghost predicate Complete(l: Limits, t: seq<Entry>, log: seq<Failure>, cutoff: real) {
    forall k: Key, n: nat :: 1 <= n <= l.maxFailures ==> Remembered(l, t, log, cutoff, k, n)
  }

  ghost predicate Remembered(l: Limits, t: seq<Entry>, log: seq<Failure>, cutoff: real, k: Key, n: nat)
    requires n >= 1
  {
    IsRecent(log, k, n, cutoff) && Unbroken(log, k, n, l.maxKeys) ==> Holds(t, k, n)
  }

  /** The n-th latest failure of a key is in the window. */
  predicate IsRecent(log: seq<Failure>, k: Key, n: nat, cutoff: real)
    requires n >= 1
  {
    NthLast(log, k, n) >= 0 && log[NthLast(log, k, n)].time >= cutoff
  }

  /** And then it is forgotten. */
  ghost predicate Sharp(l: Limits, t: seq<Entry>, log: seq<Failure>, cutoff: real) {
    forall k: Key, n: nat :: 1 <= n <= l.maxFailures ==> HeldIsUnbroken(l, t, log, cutoff, k, n)
  }

  ghost predicate HeldIsUnbroken(l: Limits, t: seq<Entry>, log: seq<Failure>, cutoff: real, k: Key, n: nat)
    requires n >= 1
  {
    Holds(t, k, n) && IsRecent(log, k, n, cutoff) ==> Unbroken(log, k, n, l.maxKeys)
  }

  /** Whoever failed after the last failure of a key that is in the table and in the window is in the table, too. */
  ghost predicate Crowded(t: seq<Entry>, log: seq<Failure>, cutoff: real) {
    forall k: Key, x: Key :: HasKey(t, k) && IsRecent(log, k, 1, cutoff) && x in OthersBetween(log, k, 1) ==> HasKey(t, x)
  }

  ghost predicate Inv(l: Limits, t: seq<Entry>, log: seq<Failure>, now: real) {
    Positive(l) && LogOk(log, now) && TableOk(l, t, log) && Answers(l, t, log, now - l.window)
  }

  /** What the table says about the window of the log. */
  ghost predicate Answers(l: Limits, t: seq<Entry>, log: seq<Failure>, cutoff: real) {
    Complete(l, t, log, cutoff) && Sharp(l, t, log, cutoff) && Crowded(t, log, cutoff)
  }

  // -------- the log and the latest failures of a key --------

  lemma {:induction false} TimesAreOrdered(log: seq<Failure>, k: Key, now: real)
    requires LogOk(log, now)
    ensures Ordered(TimesIn(log, k)) && forall i :: 0 <= i < |TimesIn(log, k)| ==> TimesIn(log, k)[i] <= now
  {
    hide LogOk;
    if log != [] {
      var last := log[|log| - 1];
      FrontOfLog(log, now);
      TimesAreOrdered(log[..|log| - 1], k, last.time);
    }
  }

  lemma FrontOfLog(log: seq<Failure>, now: real)
    requires LogOk(log, now) && log != []
    ensures LogOk(log[..|log| - 1], log[|log| - 1].time) && log[|log| - 1].time <= now
  {
  }

  /** The n-th latest failure of a key is the n-th from the end of its times. */
  lemma {:induction false} NthIsNthTime(log: seq<Failure>, k: Key, n: nat)
    requires n >= 1
    ensures NthLast(log, k, n) >= 0 <==> n <= |TimesIn(log, k)|
    ensures NthLast(log, k, n) >= 0 ==> log[NthLast(log, k, n)].time == TimesIn(log, k)[|TimesIn(log, k)| - n]
  {
    if log != [] {
      var front := log[..|log| - 1];
      if log[|log| - 1].key != k {
        NthIsNthTime(front, k, n);
      } else if n > 1 {
        NthIsNthTime(front, k, n - 1);
      }
    }
  }

  lemma {:induction false} NthDescends(log: seq<Failure>, k: Key, n: nat, m: nat)
    requires 1 <= m <= n
    ensures NthLast(log, k, n) <= NthLast(log, k, m)
  {
    if log != [] {
      var front := log[..|log| - 1];
      NthDescends(front, k, n, m);
      if m > 1 {
        NthDescends(front, k, n - 1, m - 1);
      }
    }
  }

  /** The latest failure of a key is behind every failure of it. */
  lemma {:induction false} LastIsLast(log: seq<Failure>, k: Key, x: nat)
    requires x < |log| && log[x].key == k
    ensures x <= NthLast(log, k, 1)
  {
    var n := |log| - 1;
    if log[n].key != k {
      LastIsLast(log[..n], k, x);
    }
  }

  /** Whoever failed after the last failure of a key failed last after it. */
  lemma OthersAreLater(log: seq<Failure>, now: real, k: Key, x: Key, cutoff: real)
    requires LogOk(log, now) && IsRecent(log, k, 1, cutoff) && x in OthersBetween(log, k, 1)
    ensures NthLast(log, k, 1) < NthLast(log, x, 1) && IsRecent(log, x, 1, cutoff) && x != k
  {
    var j :| 0 <= j < |log| && NthLast(log, k, 1) < j && log[j].key == x && x != k;
    LastIsLast(log, x, j);
  }

  // -------- dropping old times --------

  lemma {:induction false} DropOldIsSuffix(times: seq<real>, cutoff: real)
    ensures IsSuffix(DropOld(times, cutoff), times)
    ensures forall i :: 0 <= i < |times| - |DropOld(times, cutoff)| ==> times[i] < cutoff
    ensures DropOld(times, cutoff) != [] ==> DropOld(times, cutoff)[0] >= cutoff
  {
    if times != [] && times[0] < cutoff {
      var rest := times[1..];
      var r := DropOld(rest, cutoff);
      DropOldIsSuffix(rest, cutoff);
      assert DropOld(times, cutoff) == r;
      hide DropOld;
      assert rest[|rest| - |r|..] == times[|times| - |r|..];
      assert forall i :: 0 < i < |times| ==> times[i] == rest[i - 1];
    } else {
      assert times[0..] == times;
    }
  }

  lemma DropOldKeepsRecent(times: seq<real>, cutoff: real, n: nat)
    requires 1 <= n <= |times| && times[|times| - n] >= cutoff
    ensures |DropOld(times, cutoff)| >= n
  {
    DropOldIsSuffix(times, cutoff);
  }

  lemma SuffixOfSuffix(a: seq<real>, b: seq<real>, c: seq<real>)
    requires IsSuffix(a, b) && IsSuffix(b, c)
    ensures IsSuffix(a, c)
  {
  }

  lemma ShownOk(l: Limits, e: Entry, log: seq<Failure>, cutoff: real)
    requires EntryOk(l, e, log)
    ensures forall x :: x in Shown(e, cutoff) ==> x.key == e.key && EntryOk(l, x, log)
  {
    DropOldIsSuffix(e.times, cutoff);
    SuffixOfSuffix(DropOld(e.times, cutoff), e.times, TimesIn(log, e.key));
  }

  // -------- pruning keeps the table --------

  lemma TableTail(l: Limits, t: seq<Entry>, log: seq<Failure>)
    requires TableOk(l, t, log) && t != []
    ensures TableOk(l, t[1..], log)
    ensures forall p :: 0 <= p < |t[1..]| ==> t[1..][p].key != t[0].key && NthLast(log, t[0].key, 1) < NthLast(log, t[1..][p].key, 1)
  {
    hide EntryOk;
    assert forall p :: 0 <= p < |t[1..]| ==> t[1..][p] == t[p + 1];
  }

  /** In front of a table whose keys are all in another one. */
  lemma TableCons(l: Limits, shown: seq<Entry>, rest: seq<Entry>, t: seq<Entry>, log: seq<Failure>)
    requires TableOk(l, t, log) && t != [] && TableOk(l, rest, log) && |rest| < |t|
    requires forall e :: e in rest ==> HasKey(t[1..], e.key)
    requires |shown| <= 1 && forall e :: e in shown ==> e.key == t[0].key && EntryOk(l, e, log)
    ensures TableOk(l, shown + rest, log)
    ensures forall e :: e in shown + rest ==> HasKey(t, e.key)
  {
    hide EntryOk, TableOk;
    TableTail(l, t, log);
    TableSize(l, t, log);
    forall p | 0 <= p < |rest|
      ensures HasKey(t, rest[p].key) && rest[p].key != t[0].key && NthLast(log, t[0].key, 1) < NthLast(log, rest[p].key, 1)
    {
      assert rest[p] in rest;
      var q :| 0 <= q < |t[1..]| && t[1..][q].key == rest[p].key;
      assert t[q + 1].key == rest[p].key;
    }
    assert HasKey(t, t[0].key);
    if shown == [] {
      assert shown + rest == rest;
    } else {
      assert shown[0] in shown && shown == [shown[0]];
      FrontOk(l, shown[0], rest, log);
    }
  }

  lemma TableSize(l: Limits, t: seq<Entry>, log: seq<Failure>)
    requires TableOk(l, t, log)
    ensures |t| <= l.maxKeys
  {
  }

  lemma FrontOk(l: Limits, e: Entry, rest: seq<Entry>, log: seq<Failure>)
    requires EntryOk(l, e, log) && TableOk(l, rest, log) && |rest| < l.maxKeys
    requires forall p :: 0 <= p < |rest| ==> rest[p].key != e.key && NthLast(log, e.key, 1) < NthLast(log, rest[p].key, 1)
    ensures TableOk(l, [e] + rest, log)
  {
    hide EntryOk;
    var t := [e] + rest;
    assert forall p :: 0 < p < |t| ==> t[p] == rest[p - 1];
  }

  lemma {:induction false} PruneAllKeepsTable(l: Limits, t: seq<Entry>, log: seq<Failure>, cutoff: real)
    requires TableOk(l, t, log)
    ensures TableOk(l, PruneAll(t, cutoff), log) && |PruneAll(t, cutoff)| <= |t|
    ensures forall e :: e in PruneAll(t, cutoff) ==> HasKey(t, e.key)
  {
    if t != [] {
      assert EntryOk(l, t[0], log);
      TableTail(l, t, log);
      PruneAllKeepsTable(l, t[1..], log, cutoff);
      ShownOk(l, t[0], log, cutoff);
      TableCons(l, Shown(t[0], cutoff), PruneAll(t[1..], cutoff), t, log);
    }
  }

  lemma SelfKeys(t: seq<Entry>)
    ensures forall e :: e in t ==> HasKey(t, e.key)
  {
  }

  lemma {:induction false} PruneKeyKeepsTable(l: Limits, t: seq<Entry>, k: Key, log: seq<Failure>, cutoff: real)
    requires TableOk(l, t, log)
    ensures TableOk(l, PruneKey(t, k, cutoff), log) && |PruneKey(t, k, cutoff)| <= |t|
    ensures forall e :: e in PruneKey(t, k, cutoff) ==> HasKey(t, e.key)
  {
    if t != [] {
      assert EntryOk(l, t[0], log);
      TableTail(l, t, log);
      if t[0].key == k {
        ShownOk(l, t[0], log, cutoff);
        SelfKeys(t[1..]);
        TableCons(l, Shown(t[0], cutoff), t[1..], t, log);
      } else {
        PruneKeyKeepsTable(l, t[1..], k, log, cutoff);
        TableCons(l, [t[0]], PruneKey(t[1..], k, cutoff), t, log);
      }
    }
  }

  lemma ShownHolds(l: Limits, e: Entry, log: seq<Failure>, cutoff: real, n: nat)
    requires EntryOk(l, e, log) && 1 <= n <= |e.times|
    requires var i := NthLast(log, e.key, n); i >= 0 && log[i].time >= cutoff
    ensures Holds(Shown(e, cutoff), e.key, n)
  {
    NthIsNthTime(log, e.key, n);
    DropOldKeepsRecent(e.times, cutoff, n);
    assert Shown(e, cutoff)[0].key == e.key;
  }

  lemma HoldsInFront(a: seq<Entry>, b: seq<Entry>, k: Key, n: nat)
    requires Holds(a, k, n) || Holds(b, k, n)
    ensures Holds(a + b, k, n)
  {
    if Holds(a, k, n) {
      var p :| 0 <= p < |a| && a[p].key == k && |a[p].times| >= n;
      assert (a + b)[p] == a[p];
    } else {
      var p :| 0 <= p < |b| && b[p].key == k && |b[p].times| >= n;
      assert (a + b)[|a| + p] == b[p];
    }
  }

  lemma HoldsSplits(t: seq<Entry>, k: Key, n: nat)
    requires Holds(t, k, n)
    ensures t != [] && ((t[0].key == k && |t[0].times| >= n) || Holds(t[1..], k, n))
  {
    var p :| 0 <= p < |t| && t[p].key == k && |t[p].times| >= n;
    if p > 0 {
      assert t[1..][p - 1] == t[p];
    }
  }

  /** Pruning forgets no failure in the window. */
  lemma {:induction false} PruneKeepsHeld(l: Limits, t: seq<Entry>, log: seq<Failure>, pruned: Key,
        cutoff: real, k: Key, n: nat)
    requires TableOk(l, t, log) && n >= 1 && Holds(t, k, n)
    requires var i := NthLast(log, k, n); i >= 0 && log[i].time >= cutoff
    ensures Holds(PruneAll(t, cutoff), k, n) && Holds(PruneKey(t, pruned, cutoff), k, n)
  {
    hide Shown, Holds;
    HoldsSplits(t, k, n);
    assert EntryOk(l, t[0], log);
    TableTail(l, t, log);
    if t[0].key == k && |t[0].times| >= n {
      ShownHolds(l, t[0], log, cutoff, n);
      HoldsFirst(t[0], n);
    } else {
      PruneKeepsHeld(l, t[1..], log, pruned, cutoff, k, n);
    }
    HoldsAround(Shown(t[0], cutoff), PruneAll(t[1..], cutoff), k, n);
    HoldsAround(Shown(t[0], cutoff), t[1..], k, n);
    HoldsAround([t[0]], PruneKey(t[1..], pruned, cutoff), k, n);
  }

  lemma HoldsFirst(e: Entry, n: nat)
    requires |e.times| >= n
    ensures Holds([e], e.key, n)
  {
    assert [e][0] == e;
  }

  lemma HoldsAround(a: seq<Entry>, b: seq<Entry>, k: Key, n: nat)
    ensures Holds(a, k, n) || Holds(b, k, n) ==> Holds(a + b, k, n)
  {
    if Holds(a, k, n) || Holds(b, k, n) {
      HoldsInFront(a, b, k, n);
    }
  }

  /** Pruning adds nothing. */
  lemma {:induction false} PruneHoldsLess(t: seq<Entry>, pruned: Key, cutoff: real, k: Key, n: nat)
    requires n >= 1
    ensures Holds(PruneAll(t, cutoff), k, n) || Holds(PruneKey(t, pruned, cutoff), k, n) ==> Holds(t, k, n)
  {
    hide Shown, Holds;
    if t == [] {
      NothingHeld(k, n);
    } else {
      PruneHoldsLess(t[1..], pruned, cutoff, k, n);
      ShownHoldsLess(t[0], cutoff, k, n);
      HeldInEither(Shown(t[0], cutoff), PruneAll(t[1..], cutoff), k, n);
      HeldInEither(Shown(t[0], cutoff), t[1..], k, n);
      HeldInEither([t[0]], PruneKey(t[1..], pruned, cutoff), k, n);
      HeldInEither([t[0]], t[1..], k, n);
      assert [t[0]] + t[1..] == t;
    }
  }

  lemma NothingHeld(k: Key, n: nat)
    ensures !Holds([], k, n)
  {
  }

  lemma ShownHoldsLess(e: Entry, cutoff: real, k: Key, n: nat)
    requires n >= 1
    ensures Holds(Shown(e, cutoff), k, n) ==> Holds([e], k, n)
  {
    DropOldIsSuffix(e.times, cutoff);
    assert [e][0] == e;
  }

  lemma HeldInEither(a: seq<Entry>, b: seq<Entry>, k: Key, n: nat)
    ensures Holds(a + b, k, n) <==> Holds(a, k, n) || Holds(b, k, n)
  {
    if Holds(a + b, k, n) {
      var p :| 0 <= p < |a + b| && (a + b)[p].key == k && |(a + b)[p].times| >= n;
      assert p < |a| ==> a[p] == (a + b)[p];
      assert p >= |a| ==> b[p - |a|] == (a + b)[p];
    }
    HoldsAround(a, b, k, n);
  }

  /** Every entry holds at least one failure. */
  lemma KeyMeansHeld(l: Limits, t: seq<Entry>, log: seq<Failure>, k: Key)
    requires TableOk(l, t, log)
    ensures HasKey(t, k) <==> Holds(t, k, 1)
  {
    if HasKey(t, k) {
      var p :| 0 <= p < |t| && t[p].key == k;
      assert EntryOk(l, t[p], log);
    }
  }

  lemma PrunedCrowded(l: Limits, t: seq<Entry>, log: seq<Failure>, now: real, r: seq<Entry>, cutoff: real, pruned: Key,
                      later: real)
    requires LogOk(log, now) && TableOk(l, t, log) && TableOk(l, r, log) && Crowded(t, log, cutoff) && cutoff <= later
    requires r == PruneAll(t, later) || r == PruneKey(t, pruned, later)
    ensures Crowded(r, log, later)
  {
    hide TableOk, PruneAll, PruneKey, OthersBetween, LogOk, Holds, HasKey;
    forall k: Key, x: Key | HasKey(r, k) && IsRecent(log, k, 1, later) && x in OthersBetween(log, k, 1)
      ensures HasKey(r, x)
    {
      KeyMeansHeld(l, r, log, k);
      PruneHoldsLess(t, pruned, later, k, 1);
      KeyMeansHeld(l, t, log, k);
      KeyMeansHeld(l, t, log, x);
      OthersAreLater(log, now, k, x, later);
      PruneKeepsHeld(l, t, log, pruned, later, x, 1);
      KeyMeansHeld(l, r, log, x);
    }
  }

  lemma PrunedSharp(l: Limits, t: seq<Entry>, log: seq<Failure>, r: seq<Entry>, cutoff: real, pruned: Key, later: real)
    requires Sharp(l, t, log, cutoff) && cutoff <= later
    requires r == PruneAll(t, later) || r == PruneKey(t, pruned, later)
    ensures Sharp(l, r, log, later)
  {
    hide PruneAll, PruneKey, Holds, Unbroken;
    forall k: Key, n: nat | 1 <= n <= l.maxFailures
      ensures HeldIsUnbroken(l, r, log, later, k, n)
    {
      PruneHoldsLess(t, pruned, later, k, n);
      assert HeldIsUnbroken(l, t, log, cutoff, k, n);
    }
  }

  lemma PrunedRemembers(l: Limits, t: seq<Entry>, log: seq<Failure>, cutoff: real, k: Key, n: nat, pruned: Key,
        later: real)
    requires TableOk(l, t, log) && n >= 1 && Remembered(l, t, log, cutoff, k, n) && cutoff <= later
    ensures Remembered(l, PruneAll(t, later), log, later, k, n)
    ensures Remembered(l, PruneKey(t, pruned, later), log, later, k, n)
  {
    hide TableOk, Unbroken;
    if IsRecent(log, k, n, later) && Unbroken(log, k, n, l.maxKeys) {
      PruneKeepsHeld(l, t, log, pruned, later, k, n);
    }
  }

  lemma PrunedComplete(l: Limits, t: seq<Entry>, log: seq<Failure>, cutoff: real, pruned: Key, later: real)
    requires TableOk(l, t, log) && Complete(l, t, log, cutoff) && cutoff <= later
    ensures Complete(l, PruneAll(t, later), log, later) && Complete(l, PruneKey(t, pruned, later), log, later)
  {
    hide TableOk, PruneKey, PruneAll;
    var all, one := PruneAll(t, later), PruneKey(t, pruned, later);
    forall k: Key, n: nat | 1 <= n <= l.maxFailures
      ensures Remembered(l, all, log, later, k, n) && Remembered(l, one, log, later, k, n)
    {
      assert Remembered(l, t, log, cutoff, k, n);
      PrunedRemembers(l, t, log, cutoff, k, n, pruned, later);
    }
  }

  lemma PrunedKeepsInv(l: Limits, t: seq<Entry>, log: seq<Failure>, now: real, op: Op, all: bool)
    requires Inv(l, t, log, now) && now <= op.now
    ensures Inv(l, Pruned(l, t, op, all), log, op.now)
  {
    hide TableOk, Answers, LogOk, PruneKey, PruneAll;
    var cutoff := op.now - l.window;
    var swept := if all then PruneAll(t, cutoff) else t;
    LaterLogOk(log, now, op.now);
    PruneAllKeepsTable(l, t, log, cutoff);
    PruneKeyKeepsTable(l, swept, op.key, log, cutoff);
    PrunedAnswers(l, t, log, op.now, now - l.window, op.key, cutoff);
    if all {
      PrunedAnswers(l, swept, log, op.now, cutoff, op.key, cutoff);
    }
  }

  lemma PrunedAnswers(l: Limits, t: seq<Entry>, log: seq<Failure>, now: real, cutoff: real, pruned: Key, later: real)
    requires LogOk(log, now) && TableOk(l, t, log) && Answers(l, t, log, cutoff) && cutoff <= later
    ensures Answers(l, PruneAll(t, later), log, later) && Answers(l, PruneKey(t, pruned, later), log, later)
  {
    hide LogOk, TableOk, Complete, Sharp, Crowded, PruneAll, PruneKey;
    PruneAllKeepsTable(l, t, log, later);
    PruneKeyKeepsTable(l, t, pruned, log, later);
    PrunedComplete(l, t, log, cutoff, pruned, later);
    PrunedSharp(l, t, log, PruneAll(t, later), cutoff, pruned, later);
    PrunedSharp(l, t, log, PruneKey(t, pruned, later), cutoff, pruned, later);
    PrunedCrowded(l, t, log, now, PruneAll(t, later), cutoff, pruned, later);
    PrunedCrowded(l, t, log, now, PruneKey(t, pruned, later), cutoff, pruned, later);
  }

  lemma LaterLogOk(log: seq<Failure>, now: real, later: real)
    requires LogOk(log, now) && now <= later
    ensures LogOk(log, later)
  {
  }

  // -------- a new failure --------

  ghost predicate Newer(log: seq<Failure>, after: seq<Failure>, k: Key, now: real) {
    after == log + [Failure(k, now)]
  }

  lemma NewFailure(log: seq<Failure>, after: seq<Failure>, k: Key, now: real, k': Key, n: nat)
    requires Newer(log, after, k, now) && n >= 1
    ensures NthLast(after, k', n) == if k' != k then NthLast(log, k', n) else if n == 1 then |log| else NthLast(log, k, n - 1)
    ensures TimesIn(after, k') == TimesIn(log, k') + (if k' == k then [now] else [])
  {
    assert after[..|after| - 1] == log;
  }

  lemma NewOthers(log: seq<Failure>, after: seq<Failure>, k: Key, now: real, i: int, k': Key)
    requires Newer(log, after, k, now) && i < |log|
    ensures OthersSince(log, i, k') <= OthersSince(after, i, k')
    ensures k' != k ==> k in OthersSince(after, i, k')
  {
    forall x | x in OthersSince(log, i, k')
      ensures x in OthersSince(after, i, k')
    {
      var j :| 0 <= j < |log| && i < j && log[j].key != k' && log[j].key == x;
      assert after[j] == log[j];
    }
    assert after[|log|].key == k;
  }

  /** A new failure opens a new stretch for its own key and joins the last stretch of every other. */
  lemma NewBetween(log: seq<Failure>, after: seq<Failure>, k: Key, now: real, k': Key, m: nat)
    requires Newer(log, after, k, now) && m >= 1
    ensures OthersBetween(after, k', m)
         == if k' != k then (if m == 1 then OthersBetween(log, k', 1) + {k} else OthersBetween(log, k', m))
            else if m == 1 then {} else OthersBetween(log, k, m - 1)
  {
    NewFailure(log, after, k, now, k', m);
    if m > 1 {
      NewFailure(log, after, k, now, k', m - 1);
    }
    hide NthLast, OthersIn;
    if k' != k && m == 1 {
      LastOther(log, after, k, now, NthLast(log, k', 1), k');
    } else if k' == k && m == 1 {
      NoOthers(after, |log|, k);
    } else {
      SameOthers(log, after, k, now, NthLast(after, k', m), NextAfter(after, k', m), k');
    }
  }

  lemma SameOthers(log: seq<Failure>, after: seq<Failure>, k: Key, now: real, i: int, j: int, k': Key)
    requires Newer(log, after, k, now) && j <= |log|
    ensures OthersIn(after, i, j, k') == OthersIn(log, i, j, k')
  {
    assert forall x :: 0 <= x < |log| ==> after[x] == log[x];
  }

  lemma LastOther(log: seq<Failure>, after: seq<Failure>, k: Key, now: real, i: int, k': Key)
    requires Newer(log, after, k, now) && i < |log| && k' != k
    ensures OthersIn(after, i, |after|, k') == OthersIn(log, i, |log|, k') + {k}
  {
    assert forall x :: 0 <= x < |log| ==> after[x] == log[x];
    assert after[|log|].key == k;
  }

  lemma NoOthers(after: seq<Failure>, i: int, k: Key)
    requires i == |after| - 1
    ensures OthersIn(after, i, |after|, k) == {}
  {
  }

  lemma NewUnbroken(log: seq<Failure>, after: seq<Failure>, k: Key, now: real, k': Key, n: nat, maxKeys: nat)
    requires Newer(log, after, k, now) && n >= 1 && maxKeys >= 1
    ensures k' != k ==> (Unbroken(after, k', n, maxKeys) <==>
                          Unbroken(log, k', n, maxKeys) && |OthersBetween(log, k', 1) + {k}| < maxKeys)
    ensures k' == k ==> (Unbroken(after, k, n, maxKeys) <==> n == 1 || Unbroken(log, k, n - 1, maxKeys))
  {
    hide OthersBetween;
    forall m: nat | 1 <= m
      ensures OthersBetween(after, k', m)
           == if k' != k then (if m == 1 then OthersBetween(log, k', 1) + {k} else OthersBetween(log, k', m))
              else if m == 1 then {} else OthersBetween(log, k, m - 1)
    {
      NewBetween(log, after, k, now, k', m);
    }
    if k' != k {
      SubsetIsSmaller(OthersBetween(log, k', 1), OthersBetween(log, k', 1) + {k});
    } else if n > 1 && Unbroken(after, k, n, maxKeys) {
      forall m | 1 <= m <= n - 1
        ensures |OthersBetween(log, k, m)| < maxKeys
      {
        assert |OthersBetween(after, k, m + 1)| < maxKeys;
      }
    }
  }

  lemma OldEntryOk(l: Limits, e: Entry, log: seq<Failure>, after: seq<Failure>, k: Key, now: real)
    requires Newer(log, after, k, now) && EntryOk(l, e, log) && e.key != k
    ensures EntryOk(l, e, after)
  {
    NewFailure(log, after, k, now, e.key, 1);
  }

  lemma OldTableOk(l: Limits, t: seq<Entry>, log: seq<Failure>, after: seq<Failure>, k: Key, now: real)
    requires Newer(log, after, k, now) && TableOk(l, t, log) && !HasKey(t, k)
    ensures TableOk(l, t, after)
  {
    hide EntryOk;
    forall p | 0 <= p < |t|
      ensures EntryOk(l, t[p], after) && NthLast(after, t[p].key, 1) == NthLast(log, t[p].key, 1)
    {
      OldEntryOk(l, t[p], log, after, k, now);
      NewFailure(log, after, k, now, t[p].key, 1);
    }
  }

  lemma NewEntryOk(l: Limits, times: seq<real>, log: seq<Failure>, after: seq<Failure>, k: Key, now: real)
    requires Positive(l) && Newer(log, after, k, now) && IsSuffix(times, TimesIn(log, k))
    ensures EntryOk(l, Entry(k, Capped(times + [now], l.maxFailures)), after)
  {
    NewFailure(log, after, k, now, k, 1);
    assert IsSuffix(times + [now], TimesIn(after, k));
  }

  /** Behind a table that lacks the key that failed last. */
  lemma BackOk(l: Limits, t: seq<Entry>, e: Entry, log: seq<Failure>)
    requires TableOk(l, t, log) && |t| < l.maxKeys && EntryOk(l, e, log) && !HasKey(t, e.key)
    requires log != [] && log[|log| - 1].key == e.key
    ensures TableOk(l, t + [e], log)
  {
    hide EntryOk;
    forall p | 0 <= p < |t|
      ensures NthLast(log, t[p].key, 1) < NthLast(log, e.key, 1)
    {
      assert t[p].key != e.key;
    }
  }

  lemma {:induction false} WithoutKeepsTable(l: Limits, t: seq<Entry>, k: Key, log: seq<Failure>)
    requires TableOk(l, t, log)
    ensures TableOk(l, Without(t, k), log) && !HasKey(Without(t, k), k)
    ensures |Without(t, k)| == if HasKey(t, k) then |t| - 1 else |t|
    ensures forall e :: e in Without(t, k) ==> HasKey(t, e.key)
  {
    if t != [] {
      assert EntryOk(l, t[0], log);
      TableTail(l, t, log);
      HasKeySplits(t, k);
      if t[0].key == k {
        SelfKeys(t[1..]);
        SelfKeys(t);
        NoneOf(t[1..], k);
        TableCons(l, [], t[1..], t, log);
        assert [] + t[1..] == t[1..];
      } else {
        WithoutKeepsTable(l, t[1..], k, log);
        TableCons(l, [t[0]], Without(t[1..], k), t, log);
        HasKeySplits([t[0]] + Without(t[1..], k), k);
        assert ([t[0]] + Without(t[1..], k))[1..] == Without(t[1..], k);
      }
    }
  }

  lemma NoneOf(t: seq<Entry>, k: Key)
    requires forall p :: 0 <= p < |t| ==> t[p].key != k
    ensures !HasKey(t, k)
  {
  }

  lemma HasKeySplits(t: seq<Entry>, k: Key)
    requires t != []
    ensures HasKey(t, k) <==> t[0].key == k || HasKey(t[1..], k)
  {
    if HasKey(t, k) {
      var p :| 0 <= p < |t| && t[p].key == k;
      assert p > 0 ==> t[1..][p - 1] == t[p];
    }
    if HasKey(t[1..], k) {
      var p :| 0 <= p < |t[1..]| && t[1..][p].key == k;
      assert t[p + 1].key == k;
    }
  }

  lemma {:induction false} TimesOfEntry(l: Limits, t: seq<Entry>, k: Key, log: seq<Failure>)
    requires TableOk(l, t, log)
    ensures IsSuffix(TimesOf(t, k), TimesIn(log, k)) && |TimesOf(t, k)| <= l.maxFailures
    ensures HasKey(t, k) <==> TimesOf(t, k) != []
    ensures forall n :: Holds(t, k, n) ==> |TimesOf(t, k)| >= n
    ensures forall n :: 1 <= n <= |TimesOf(t, k)| ==> Holds(t, k, n)
  {
    if t == [] {
    } else {
      assert EntryOk(l, t[0], log);
      TableTail(l, t, log);
      HasKeySplits(t, k);
      TimesOfEntry(l, t[1..], k, log);
      forall n | Holds(t, k, n)
        ensures |TimesOf(t, k)| >= n
      {
        HoldsSplits(t, k, n);
      }
      forall n | 1 <= n <= |TimesOf(t, k)|
        ensures Holds(t, k, n)
      {
        if t[0].key == k {
          HoldsFirst(t[0], n);
        }
        HoldsAround([t[0]], t[1..], k, n);
        assert [t[0]] + t[1..] == t;
      }
    }
  }

  lemma AppendKeepsTable(l: Limits, t: seq<Entry>, log: seq<Failure>, after: seq<Failure>, k: Key, now: real)
    requires Positive(l) && TableOk(l, t, log) && Newer(log, after, k, now)
    ensures TableOk(l, Append(l, t, k, now), after)
  {
    hide TableOk, EntryOk, Without;
    TimesOfEntry(l, t, k, log);
    TableSize(l, t, log);
    if HasKey(t, k) {
      WithoutKeepsTable(l, t, k, log);
      OldTableOk(l, Without(t, k), log, after, k, now);
      NewEntryOk(l, TimesOf(t, k), log, after, k, now);
      BackOk(l, Without(t, k), Entry(k, Capped(TimesOf(t, k) + [now], l.maxFailures)), after);
    } else {
      NewEntryOk(l, [], log, after, k, now);
      assert [] + [now] == [now];
      if |t| >= l.maxKeys {
        TableTail(l, t, log);
        HasKeySplits(t, k);
        OldTableOk(l, t[1..], log, after, k, now);
        BackOk(l, t[1..], Entry(k, Capped([now], l.maxFailures)), after);
      } else {
        OldTableOk(l, t, log, after, k, now);
        BackOk(l, t, Entry(k, Capped([now], l.maxFailures)), after);
      }
    }
  }

  /** A key is evicted only when maxKeys other keys have failed after its last failure. */
  lemma EvictedIsForgotten(l: Limits, t: seq<Entry>, log: seq<Failure>, after: seq<Failure>, k: Key, now: real, n: nat)
    requires Positive(l) && TableOk(l, t, log) && Newer(log, after, k, now)
    requires |t| >= l.maxKeys && !HasKey(t, k) && n >= 1
    ensures |OthersSince(after, NthLast(log, t[0].key, n), t[0].key)| >= l.maxKeys
  {
    var k0 := t[0].key;
    var i := NthLast(log, k0, n);
    var others := OthersSince(after, i, k0);
    NthDescends(log, k0, n, 1);
    NewOthers(log, after, k, now, i, k0);
    var keys := seq(|t|, p requires 0 <= p < |t| => if p == 0 then k else t[p].key);
    forall p | 0 <= p < |t|
      ensures keys[p] in others
    {
      if p > 0 {
        assert NthLast(log, k0, 1) < NthLast(log, t[p].key, 1);
        assert log[NthLast(log, t[p].key, 1)].key in OthersSince(log, i, k0);
      }
    }
    DistinctFits(keys, others);
  }

  lemma RememberedNewKey(l: Limits, t: seq<Entry>, log: seq<Failure>, after: seq<Failure>, k: Key, now: real,
                         cutoff: real, n: nat)
    requires Positive(l) && TableOk(l, t, log) && Complete(l, t, log, cutoff) && Newer(log, after, k, now)
    requires 1 <= n <= l.maxFailures
    ensures Remembered(l, Append(l, t, k, now), after, cutoff, k, n)
  {
    hide TableOk, Holds, Unbroken, Append;
    NewFailure(log, after, k, now, k, n);
    NewUnbroken(log, after, k, now, k, n, l.maxKeys);
    NewKeyHolds(l, t, log, k, now, n);
    if n > 1 {
      assert Remembered(l, t, log, cutoff, k, n - 1);
    }
  }

  /** The key that failed holds one failure more than before, up to the maximum. */
  lemma NewKeyHolds(l: Limits, t: seq<Entry>, log: seq<Failure>, k: Key, now: real, n: nat)
    requires Positive(l) && TableOk(l, t, log) && 1 <= n <= l.maxFailures
    ensures Holds(Append(l, t, k, now), k, n) <==> n == 1 || Holds(t, k, n - 1)
  {
    TimesOfEntry(l, t, k, log);
    TableSize(l, t, log);
    WithoutKeepsTable(l, t, k, log);
    hide Holds, TableOk, Without, HasKey;
    var times := if HasKey(t, k) then TimesOf(t, k) else [];
    assert [] + [now] == [now];
    var e := Entry(k, Capped(times + [now], l.maxFailures));
    var front := if HasKey(t, k) then Without(t, k) else if |t| >= l.maxKeys then t[1..] else t;
    assert Append(l, t, k, now) == front + [e];
    NotHeld(Without(t, k), k, n);
    NotHeld(t, k, n);
    if t != [] {
      NotHeld(t[1..], k, n);
      HasKeySplits(t, k);
    }
    HeldInEither(front, [e], k, n);
    HeldAlone(e, n);
    if n > 1 {
      assert Holds(t, k, n - 1) <==> |TimesOf(t, k)| >= n - 1;
    }
  }

  lemma NotHeld(t: seq<Entry>, k: Key, n: nat)
    ensures !HasKey(t, k) ==> !Holds(t, k, n)
  {
  }

  lemma HeldAlone(e: Entry, n: nat)
    ensures Holds([e], e.key, n) <==> |e.times| >= n
  {
    assert [e][0] == e;
  }

  /** A failure of one key makes the table forget another only by evicting it. */
  predicate Evicts(l: Limits, t: seq<Entry>, k: Key, other: Key) {
    !HasKey(t, k) && |t| >= l.maxKeys && t != [] && t[0].key == other
  }

  lemma OthersHold(l: Limits, t: seq<Entry>, log: seq<Failure>, k: Key, now: real, k': Key, n: nat)
    requires Positive(l) && TableOk(l, t, log) && k' != k && n >= 1
    ensures Holds(Append(l, t, k, now), k', n) <==> Holds(t, k', n) && !Evicts(l, t, k, k')
  {
    TableSize(l, t, log);
    WithoutHoldsSame(t, k, k', n);
    hide Holds, Without, HasKey, TableOk;
    var times := if HasKey(t, k) then TimesOf(t, k) else [];
    assert [] + [now] == [now];
    var e := Entry(k, Capped(times + [now], l.maxFailures));
    var front := if HasKey(t, k) then Without(t, k) else if |t| >= l.maxKeys then t[1..] else t;
    assert Append(l, t, k, now) == front + [e];
    HeldInEither(front, [e], k', n);
    OthersNotHeld(e, k', n);
    if t != [] {
      assert [t[0]] + t[1..] == t;
      HeldInEither([t[0]], t[1..], k', n);
      OthersNotHeld(t[0], k', n);
      OnlyOnce(l, t, log, k', n);
    }
  }

  lemma OthersNotHeld(e: Entry, k: Key, n: nat)
    ensures e.key != k ==> !Holds([e], k, n)
  {
  }

  lemma OnlyOnce(l: Limits, t: seq<Entry>, log: seq<Failure>, k: Key, n: nat)
    requires TableOk(l, t, log) && t != []
    ensures t[0].key == k ==> !Holds(t[1..], k, n)
  {
    hide EntryOk;
    TableTail(l, t, log);
  }

  lemma {:induction false} WithoutHoldsSame(t: seq<Entry>, k: Key, k': Key, n: nat)
    requires k' != k
    ensures Holds(Without(t, k), k', n) <==> Holds(t, k', n)
  {
    hide Holds;
    if t != [] {
      WithoutHoldsSame(t[1..], k, k', n);
      assert [t[0]] + t[1..] == t;
      HeldInEither([t[0]], t[1..], k', n);
      HeldInEither([t[0]], Without(t[1..], k), k', n);
      OthersNotHeld(t[0], k', n);
    }
  }

  lemma SinceIsBetween(log: seq<Failure>, k: Key)
    ensures OthersSince(log, NthLast(log, k, 1), k) == OthersBetween(log, k, 1)
  {
  }

  lemma RememberedOldKey(l: Limits, t: seq<Entry>, log: seq<Failure>, after: seq<Failure>, k: Key, now: real,
                         cutoff: real, k': Key, n: nat)
    requires Positive(l) && TableOk(l, t, log) && Complete(l, t, log, cutoff) && Newer(log, after, k, now)
    requires 1 <= n <= l.maxFailures && k' != k
    ensures Remembered(l, Append(l, t, k, now), after, cutoff, k', n)
  {
    hide TableOk, Holds, Append, OthersBetween, OthersSince;
    NewFailure(log, after, k, now, k', n);
    NewUnbroken(log, after, k, now, k', n, l.maxKeys);
    OthersHold(l, t, log, k, now, k', n);
    assert Remembered(l, t, log, cutoff, k', n);
    if Evicts(l, t, k, k') {
      EvictedIsForgotten(l, t, log, after, k, now, 1);
      NewFailure(log, after, k, now, k', 1);
      SinceIsBetween(after, k');
    }
  }

  lemma {:induction false} KeysAreFew(t: seq<Entry>, keys: set<Key>)
    requires forall x :: x in keys ==> HasKey(t, x)
    ensures |keys| <= |t|
  {
    if t == [] {
      assert keys == {};
    } else {
      forall x | x in keys - {t[0].key}
        ensures HasKey(t[1..], x)
      {
        HasKeySplits(t, x);
      }
      KeysAreFew(t[1..], keys - {t[0].key});
      SubsetIsSmaller(keys, (keys - {t[0].key}) + {t[0].key});
    }
  }

  lemma CrowdedNewKey(l: Limits, t: seq<Entry>, log: seq<Failure>, after: seq<Failure>, k: Key, now: real, cutoff: real)
    requires Positive(l) && LogOk(log, now) && TableOk(l, t, log) && Crowded(t, log, cutoff) && Newer(log, after, k, now)
    requires TableOk(l, Append(l, t, k, now), after)
    ensures Crowded(Append(l, t, k, now), after, cutoff)
  {
    hide TableOk, LogOk, Append, OthersBetween, Holds, HasKey;
    var r := Append(l, t, k, now);
    forall k': Key, x: Key | HasKey(r, k') && IsRecent(after, k', 1, cutoff) && x in OthersBetween(after, k', 1)
      ensures HasKey(r, x)
    {
      NewBetween(log, after, k, now, k', 1);
      NewFailure(log, after, k, now, k', 1);
      KeyMeansHeld(l, r, after, x);
      KeyMeansHeld(l, r, after, k');
      NewKeyHolds(l, t, log, k, now, 1);
      if x != k {
        KeyMeansHeld(l, t, log, k');
        KeyMeansHeld(l, t, log, x);
        OthersHold(l, t, log, k, now, k', 1);
        OthersHold(l, t, log, k, now, x, 1);
        OthersAreLater(log, now, k', x, cutoff);
        LaterIsNotFirst(l, t, log, k', x);
      }
    }
  }

  lemma LaterIsNotFirst(l: Limits, t: seq<Entry>, log: seq<Failure>, k: Key, x: Key)
    requires TableOk(l, t, log) && HasKey(t, k) && NthLast(log, k, 1) < NthLast(log, x, 1)
    ensures t != [] && t[0].key != x
  {
    hide EntryOk;
    var p :| 0 <= p < |t| && t[p].key == k;
    assert p > 0 ==> NthLast(log, t[0].key, 1) < NthLast(log, t[p].key, 1);
  }

  lemma SharpKey(l: Limits, t: seq<Entry>, log: seq<Failure>, after: seq<Failure>, k: Key, now: real, cutoff: real,
                 k': Key, n: nat)
    requires Positive(l) && LogOk(log, now) && TableOk(l, t, log) && Sharp(l, t, log, cutoff) && Newer(log, after, k, now)
    requires TableOk(l, Append(l, t, k, now), after) && Crowded(Append(l, t, k, now), after, cutoff) && 1 <= n <= l.maxFailures
    ensures HeldIsUnbroken(l, Append(l, t, k, now), after, cutoff, k', n)
  {
    hide TableOk, LogOk, Append, OthersBetween, Holds, HasKey, Unbroken, Crowded;
    NewFailure(log, after, k, now, k', n);
    NewUnbroken(log, after, k, now, k', n, l.maxKeys);
    if k' == k {
      NewKeyHolds(l, t, log, k, now, n);
      if n > 1 {
        assert HeldIsUnbroken(l, t, log, cutoff, k, n - 1);
      }
    } else {
      OthersHold(l, t, log, k, now, k', n);
      assert HeldIsUnbroken(l, t, log, cutoff, k', n);
      if Holds(Append(l, t, k, now), k', n) && IsRecent(after, k', n, cutoff) {
        HeldMore(Append(l, t, k, now), k', n);
        LogStaysOk(log, after, k, now);
        RecentMore(after, now, k', n, cutoff);
        NewBetween(log, after, k, now, k', 1);
        CrowdFits(l, Append(l, t, k, now), after, k', cutoff);
      }
    }
  }

  lemma HeldMore(t: seq<Entry>, k: Key, n: nat)
    requires Holds(t, k, n) && n >= 1
    ensures Holds(t, k, 1)
  {
  }

  lemma LogStaysOk(log: seq<Failure>, after: seq<Failure>, k: Key, now: real)
    requires LogOk(log, now) && Newer(log, after, k, now)
    ensures LogOk(after, now)
  {
  }

  lemma RecentMore(log: seq<Failure>, now: real, k: Key, n: nat, cutoff: real)
    requires LogOk(log, now) && n >= 1 && IsRecent(log, k, n, cutoff)
    ensures IsRecent(log, k, 1, cutoff)
  {
    NthDescends(log, k, n, 1);
  }

  /** The others that failed since are in the table beside the key, so they are fewer than fill it. */
  lemma CrowdFits(l: Limits, t: seq<Entry>, log: seq<Failure>, k: Key, cutoff: real)
    requires TableOk(l, t, log) && Crowded(t, log, cutoff) && Holds(t, k, 1) && IsRecent(log, k, 1, cutoff)
    ensures |OthersBetween(log, k, 1)| < l.maxKeys
  {
    KeyMeansHeld(l, t, log, k);
    TableSize(l, t, log);
    hide TableOk;
    var others := OthersBetween(log, k, 1);
    assert k !in others;
    KeysAreFew(t, others + {k});
  }

  lemma AppendKeepsInv(l: Limits, t: seq<Entry>, log: seq<Failure>, k: Key, now: real)
    requires Inv(l, t, log, now)
    ensures Inv(l, Append(l, t, k, now), log + [Failure(k, now)], now)
  {
    hide TableOk, LogOk, Append, Remembered, HeldIsUnbroken, Crowded;
    var r, after, cutoff := Append(l, t, k, now), log + [Failure(k, now)], now - l.window;
    AppendKeepsTable(l, t, log, after, k, now);
    LogStaysOk(log, after, k, now);
    CrowdedNewKey(l, t, log, after, k, now, cutoff);
    forall x: Key, n: nat | 1 <= n <= l.maxFailures
      ensures Remembered(l, r, after, cutoff, x, n) && HeldIsUnbroken(l, r, after, cutoff, x, n)
    {
      if x == k {
        RememberedNewKey(l, t, log, after, k, now, cutoff, n);
      } else {
        RememberedOldKey(l, t, log, after, k, now, cutoff, x, n);
      }
      SharpKey(l, t, log, after, k, now, cutoff, x, n);
    }
  }

  lemma OpKeepsInv(l: Limits, t: seq<Entry>, log: seq<Failure>, now: real, op: Op, all: bool)
    requires Inv(l, t, log, now) && now <= op.now
    ensures Inv(l, After(l, t, op, all), Logged(log, op), op.now)
  {
    hide Inv, Pruned, Append;
    PrunedKeepsInv(l, t, log, now, op, all);
    AppendKeepsInv(l, Pruned(l, t, op, all), log, op.key, op.now);
  }
}
