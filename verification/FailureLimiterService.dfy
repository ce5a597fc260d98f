/** The table in the form of app/ingest.py: an object pruned and appended to in place. */
module FailureLimiterService {
  import opened FailureTable

  class FailedAuthLimiter {
    const limits: Limits
    const pruneInterval: real
    var failures: seq<Entry>
    var nextGlobalPrune: real
    ghost var log: seq<Failure>

    ghost predicate Valid(now: real)
      reads this
    {
      Inv(limits, failures, log, now)
    }

    constructor (l: Limits, interval: real, now: real)
      requires Positive(l) && interval > 0.0
      ensures limits == l && Valid(now) && failures == [] && log == [] && nextGlobalPrune == now + interval
    {
      limits, pruneInterval, failures, nextGlobalPrune, log := l, interval, [], now + interval, [];
    }

    /** _prune. */
    method Prune(ip: Key, now: real)
      requires DifferentKeys(failures)
      modifies this`failures
      ensures failures == PruneKey(old(failures), ip, now - limits.window)
    {
      var cutoff := now - limits.window;
      var p := IndexOf(failures, ip);
      if p == |failures| {
        PruneMissing(failures, ip, cutoff);
        return;
      }
      var q := failures[p].times;
      while q != [] && q[0] < cutoff
        invariant DropOld(q, cutoff) == DropOld(failures[p].times, cutoff)
        decreases |q|
      {
        q := q[1..];
      }
      PruneAt(failures, p, cutoff);
      if q == [] {
        failures := failures[..p] + failures[p + 1..];
      } else {
        failures := failures[p := Entry(ip, q)];
      }
    }

    /** _maybe_prune_all: every key of a copy of the table, one after the other. */
    method MaybePruneAll(now: real) returns (sweep: bool)
      requires DifferentKeys(failures)
      modifies this`failures, this`nextGlobalPrune
      ensures sweep <==> now >= old(nextGlobalPrune)
      ensures failures == (if sweep then PruneAll(old(failures), now - limits.window) else old(failures))
      ensures nextGlobalPrune == if sweep then now + pruneInterval else old(nextGlobalPrune)
    {
      sweep := now >= nextGlobalPrune;
      if !sweep {
        return;
      }
      PruneEach(now);
      nextGlobalPrune := now + pruneInterval;
    }

    method PruneEach(now: real)
      requires DifferentKeys(failures)
      modifies this`failures
      ensures failures == PruneAll(old(failures), now - limits.window)
    {
      hide Sweeping, PruneKey, DifferentKeys;
      var entries, i := failures, 0;
      ghost var done: seq<Entry> := [];
      SweepStarts(entries, now - limits.window);
      while i < |entries|
        invariant 0 <= i <= |entries| && Sweeping(entries, i, done, failures, now - limits.window)
      {
        SweepStep(entries, i, done, failures, now - limits.window);
        done := done + Shown(entries[i], now - limits.window);
        Prune(entries[i].key, now);
        i := i + 1;
      }
      SweepEnds(entries, done, failures, now - limits.window);
    }

    /** blocked. */
    method Blocked(ip: Key, now: real, ghost before: real) returns (blocked: bool)
      requires Valid(before) && before <= now
      modifies this`failures, this`nextGlobalPrune
      ensures Valid(now)
      ensures var sweep := now >= old(nextGlobalPrune);
              && blocked == FailureTable.Blocked(limits, old(failures), Check(ip, now), sweep)
              && failures == After(limits, old(failures), Check(ip, now), sweep)
              && nextGlobalPrune == if sweep then now + pruneInterval else old(nextGlobalPrune)
    {
      hide Inv, PruneAll, PruneKey, TimesOf;
      InvMeansDifferent(limits, failures, log, before);
      ghost var t := failures;
      var sweep := MaybePruneAll(now);
      SweptIsDifferent(limits, t, log, before, now);
      Prune(ip, now);
      PrunedKeepsInv(limits, t, log, before, Check(ip, now), sweep);
      blocked := |TimesOf(failures, ip)| >= limits.maxFailures;
    }

    /** record_failure. */
    method RecordFailure(ip: Key, now: real, ghost before: real)
      requires Valid(before) && before <= now
      modifies this
      ensures Valid(now) && log == old(log) + [Failure(ip, now)]
      ensures var sweep := now >= old(nextGlobalPrune);
              && failures == After(limits, old(failures), Fail(ip, now), sweep)
              && nextGlobalPrune == if sweep then now + pruneInterval else old(nextGlobalPrune)
    {
      hide Inv, PruneAll, PruneKey, TimesOf, HasKey, Without;
      InvMeansDifferent(limits, failures, log, before);
      ghost var t := failures;
      var sweep := MaybePruneAll(now);
      SweptIsDifferent(limits, t, log, before, now);
      Prune(ip, now);
      PrunedKeepsInv(limits, t, log, before, Fail(ip, now), sweep);
      ghost var pruned := failures;
      AppendKeepsInv(limits, pruned, log, ip, now);
      InvMeansDifferent(limits, pruned, log, now);
      var p := IndexOf(failures, ip);
      if p == |failures| {
        if |failures| >= limits.maxKeys && failures != [] {
          failures := failures[1..];
        }
        failures := failures + [Entry(ip, Capped([now], limits.maxFailures))];
      } else {
        TimesAt(failures, p);
        var entry := Entry(ip, Capped(failures[p].times + [now], limits.maxFailures));
        failures := failures[..p] + failures[p + 1..] + [entry];
      }
      log := log + [Failure(ip, now)];
    }

    /** Looking a key up; the length of the table stands for a missing key. */
    static method IndexOf(t: seq<Entry>, k: Key) returns (p: nat)
      ensures p <= |t| && (p < |t| ==> t[p].key == k) && forall q :: 0 <= q < p ==> t[q].key != k
      ensures p < |t| <==> HasKey(t, k)
    {
      p := 0;
      while p < |t| && t[p].key != k
        invariant p <= |t| && forall q :: 0 <= q < p ==> t[q].key != k
      {
        p := p + 1;
      }
    }
  }

  ghost predicate DifferentKeys(t: seq<Entry>) {
    forall p, q :: 0 <= p < q < |t| ==> t[p].key != t[q].key
  }

  lemma InvMeansDifferent(l: Limits, t: seq<Entry>, log: seq<Failure>, now: real)
    requires Inv(l, t, log, now)
    ensures DifferentKeys(t) && Positive(l)
  {
  }

  lemma SweptIsDifferent(l: Limits, t: seq<Entry>, log: seq<Failure>, before: real, now: real)
    requires Inv(l, t, log, before) && before <= now
    ensures DifferentKeys(PruneAll(t, now - l.window)) && DifferentKeys(t)
  {
    PruneAllKeepsTable(l, t, log, now - l.window);
  }

  lemma {:induction false} PruneAt(t: seq<Entry>, p: nat, cutoff: real)
    requires p < |t| && forall q :: 0 <= q < p ==> t[q].key != t[p].key
    ensures var times := DropOld(t[p].times, cutoff);
            PruneKey(t, t[p].key, cutoff)
            == if times == [] then t[..p] + t[p + 1..] else t[p := Entry(t[p].key, times)]
  {
    if p > 0 {
      PruneAt(t[1..], p - 1, cutoff);
      assert t == [t[0]] + t[1..];
    }
  }

  lemma {:induction false} PruneMissing(t: seq<Entry>, k: Key, cutoff: real)
    requires forall q :: 0 <= q < |t| ==> t[q].key != k
    ensures PruneKey(t, k, cutoff) == t
  {
    if t != [] {
      PruneMissing(t[1..], k, cutoff);
    }
  }

  lemma {:induction false} TimesAt(t: seq<Entry>, p: nat)
    requires p < |t| && forall q :: 0 <= q < p ==> t[q].key != t[p].key
    ensures TimesOf(t, t[p].key) == t[p].times && Without(t, t[p].key) == t[..p] + t[p + 1..] && HasKey(t, t[p].key)
  {
    if p > 0 {
      TimesAt(t[1..], p - 1);
      assert t == [t[0]] + t[1..];
    }
  }

  /** Where the loop over all keys stands: the entries before i are pruned. */
  ghost predicate Sweeping(entries: seq<Entry>, i: nat, done: seq<Entry>, t: seq<Entry>, cutoff: real) {
    && i <= |entries| && t == done + entries[i..] && DifferentKeys(t)
    && done + PruneAll(entries[i..], cutoff) == PruneAll(entries, cutoff)
  }

  lemma SweepStarts(entries: seq<Entry>, cutoff: real)
    requires DifferentKeys(entries)
    ensures Sweeping(entries, 0, [], entries, cutoff)
  {
    assert entries[0..] == entries;
  }

  lemma SweepEnds(entries: seq<Entry>, done: seq<Entry>, t: seq<Entry>, cutoff: real)
    requires Sweeping(entries, |entries|, done, t, cutoff)
    ensures t == PruneAll(entries, cutoff)
  {
    assert entries[|entries|..] == [];
  }

  lemma SweepStep(entries: seq<Entry>, i: nat, done: seq<Entry>, t: seq<Entry>, cutoff: real)
    requires Sweeping(entries, i, done, t, cutoff) && i < |entries|
    ensures DifferentKeys(t)
    ensures Sweeping(entries, i + 1, done + Shown(entries[i], cutoff), PruneKey(t, entries[i].key, cutoff), cutoff)
  {
    hide DifferentKeys;
    var e, rest, shown := entries[i], entries[i + 1..], Shown(entries[i], cutoff);
    assert entries[i..] == [e] + rest && entries[i..][1..] == rest;
    assert done + (shown + PruneAll(rest, cutoff)) == done + shown + PruneAll(rest, cutoff);
    assert t == done + [e] + rest;
    PruneInside(done, e, rest, cutoff);
  }

  lemma PruneInside(done: seq<Entry>, e: Entry, rest: seq<Entry>, cutoff: real)
    requires DifferentKeys(done + [e] + rest)
    ensures PruneKey(done + [e] + rest, e.key, cutoff) == done + Shown(e, cutoff) + rest
    ensures DifferentKeys(done + Shown(e, cutoff) + rest)
  {
    var t, n := done + [e] + rest, |done|;
    assert t[n] == e;
    PruneAt(t, n, cutoff);
    assert t[..n] == done && t[n + 1..] == rest;
    if DropOld(e.times, cutoff) == [] {
      assert done + [] + rest == done + rest;
      assert forall p :: 0 <= p < |done + rest| ==> (done + rest)[p] == t[if p < n then p else p + 1];
    } else {
      var x := Entry(e.key, DropOld(e.times, cutoff));
      assert t[n := x] == done + [x] + rest;
      assert forall p :: 0 <= p < |t| ==> (done + [x] + rest)[p].key == t[p].key;
    }
  }
}
