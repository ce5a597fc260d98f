/** Rounding and running totals of the expense report: app/expenses.py. */
module ExpenseTotals {

  // -------- cents --------

  predicate IsCents(x: real) {
    x * 100.0 == (x * 100.0).Floor as real
  }

  function RoundUp(x: real): real
    requires x >= 0.0
  {
    (x * 100.0 + 0.5).Floor as real / 100.0
  }

  /** _money: to the nearest cent, halves away from zero. */
  function Money(x: real): (r: real)
    ensures IsCents(r)
  {
    if x >= 0.0 then RoundedIsCents(x); RoundUp(x)
    else RoundedIsCents(-x); NegatedCents(RoundUp(-x)); -RoundUp(-x)
  }

  lemma RoundedIsCents(x: real)
    requires x >= 0.0
    ensures IsCents(RoundUp(x))
  {
    var n := (x * 100.0 + 0.5).Floor;
    assert RoundUp(x) * 100.0 == n as real;
  }

  lemma NegatedCents(x: real)
    requires IsCents(x)
    ensures IsCents(-x)
  {
    var n := (x * 100.0).Floor;
    assert -x * 100.0 == (-n) as real;
  }

  lemma SumOfCents(x: real, y: real)
    requires IsCents(x) && IsCents(y)
    ensures IsCents(x + y)
  {
    var m, n := (x * 100.0).Floor, (y * 100.0).Floor;
    assert (x + y) * 100.0 == (m + n) as real;
  }

  /** Whole cents are left alone. */
  lemma MoneyOfCents(x: real)
    requires IsCents(x)
    ensures Money(x) == x
  {
    if x >= 0.0 {
      CentsRound(x);
    } else {
      NegatedCents(x);
      CentsRound(-x);
    }
  }

  lemma CentsRound(x: real)
    requires IsCents(x) && x >= 0.0
    ensures RoundUp(x) == x
  {
    var n := (x * 100.0).Floor;
    assert (x * 100.0 + 0.5).Floor == n;
  }

  lemma RoundUpIsNear(x: real, b: int)
    requires x >= 0.0
    ensures x * 100.0 <= b as real ==> RoundUp(x) * 100.0 <= b as real
    ensures x * 100.0 >= b as real ==> RoundUp(x) * 100.0 >= b as real
    ensures -0.5 <= RoundUp(x) * 100.0 - x * 100.0 <= 0.5
  {
    var n := (x * 100.0 + 0.5).Floor;
    assert RoundUp(x) * 100.0 == n as real;
    FloorBounds(x * 100.0 + 0.5, b);
  }

  lemma FloorBounds(y: real, b: int)
    ensures y <= b as real + 0.5 ==> y.Floor <= b
    ensures y >= b as real ==> y.Floor >= b
    ensures y - 1.0 < y.Floor as real <= y
  {
  }

  /** Money never crosses an amount in whole cents, and errs by at most half a cent. */
  lemma MoneyIsNear(x: real, bound: real)
    requires IsCents(bound)
    ensures x <= bound ==> Money(x) <= bound
    ensures x >= bound ==> Money(x) >= bound
    ensures -0.005 <= Money(x) - x <= 0.005
  {
    hide IsCents, RoundUp;
    var b := (bound * 100.0).Floor;
    assert bound * 100.0 == b as real by { CentsMeans(bound); }
    if x >= 0.0 {
      RoundUpIsNear(x, b);
    } else {
      RoundUpIsNear(-x, -b);
    }
  }

  /** Half a cent is rounded away from zero. */
  lemma HalvesGoAway(n: nat)
    ensures Money((n as real + 0.5) / 100.0) == (n + 1) as real / 100.0
    ensures Money(-((n as real + 0.5) / 100.0)) == -((n + 1) as real / 100.0)
  {
    var x := (n as real + 0.5) / 100.0;
    assert x * 100.0 + 0.5 == (n + 1) as real;
    assert ((n + 1) as real).Floor == n + 1;
    assert RoundUp(x) == (n + 1) as real / 100.0;
  }

  lemma CentsMeans(x: real)
    requires IsCents(x)
    ensures x * 100.0 == (x * 100.0).Floor as real
  {
  }

  // -------- dictionaries of totals --------

  /** A dictionary of amounts with its keys in the order they came. */
  datatype Tally<K(==)> = Tally(keys: seq<K>, of: map<K, real>)

  ghost predicate Distinct<K(!new)>(keys: seq<K>) {
    forall i, j :: 0 <= i < j < |keys| ==> keys[i] != keys[j]
  }

  ghost predicate Sound<K(!new)>(t: Tally<K>) {
    Distinct(t.keys) && forall k :: k in t.keys <==> k in t.of
  }

  function Get<K>(t: Tally<K>, k: K): real {
    if k in t.of then t.of[k] else 0.0
  }

  /** d[k] = d.get(k, 0) + x */
  function Add<K>(t: Tally<K>, k: K, x: real): Tally<K> {
    Tally(if k in t.of then t.keys else t.keys + [k], t.of[k := Get(t, k) + x])
  }

  lemma GetAdd<K>(t: Tally<K>, k: K, x: real, v: K)
    ensures Get(Add(t, k, x), v) == Get(t, v) + if v == k then x else 0.0
    ensures v in Add(t, k, x).of <==> v == k || v in t.of
  {
  }

  function SumOver<K>(keys: seq<K>, t: Tally<K>): real {
    if keys == [] then 0.0 else Get(t, keys[0]) + SumOver(keys[1..], t)
  }

  function Total<K>(t: Tally<K>): real {
    SumOver(t.keys, t)
  }

  lemma {:induction false} SumSnoc<K(!new)>(keys: seq<K>, k: K, t: Tally<K>)
    ensures SumOver(keys + [k], t) == SumOver(keys, t) + Get(t, k)
  {
    if keys == [] {
      assert [k][1..] == [];
    } else {
      assert (keys + [k])[1..] == keys[1..] + [k];
      SumSnoc(keys[1..], k, t);
    }
  }

  lemma {:induction false} SumUnchanged<K(!new)>(keys: seq<K>, t: Tally<K>, k: K, x: real)
    requires k !in keys
    ensures SumOver(keys, Add(t, k, x)) == SumOver(keys, t)
  {
    if keys != [] {
      assert keys[0] in keys;
      SumUnchanged(keys[1..], t, k, x);
    }
  }

  lemma {:induction false} SumChanged<K(!new)>(keys: seq<K>, t: Tally<K>, k: K, x: real)
    requires Distinct(keys) && k in keys
    ensures SumOver(keys, Add(t, k, x)) == SumOver(keys, t) + x
  {
    assert Distinct(keys[1..]);
    if keys[0] == k {
      assert k !in keys[1..];
      SumUnchanged(keys[1..], t, k, x);
    } else {
      SumChanged(keys[1..], t, k, x);
    }
  }

  /** Adding an amount to any entry adds it to the total. */
  lemma AddAddsToTotal<K(!new)>(t: Tally<K>, k: K, x: real)
    requires Sound(t)
    ensures Sound(Add(t, k, x)) && Total(Add(t, k, x)) == Total(t) + x
  {
    if k in t.of {
      SumChanged(t.keys, t, k, x);
    } else {
      SumUnchanged(t.keys, t, k, x);
      SumSnoc(t.keys, k, Add(t, k, x));
    }
  }

  function Without<K(==)>(keys: seq<K>, k: K): (r: seq<K>)
    ensures forall x :: x in r ==> x in keys
  {
    if keys == [] then [] else if keys[0] == k then keys[1..] else [keys[0]] + Without(keys[1..], k)
  }

  lemma {:induction false} WithoutTakesOne<K(!new)>(keys: seq<K>, k: K, t: Tally<K>)
    requires Distinct(keys) && k in keys
    ensures Distinct(Without(keys, k)) && k !in Without(keys, k)
    ensures forall x :: x in keys && x != k ==> x in Without(keys, k)
    ensures SumOver(keys, t) == Get(t, k) + SumOver(Without(keys, k), t)
  {
    assert Distinct(keys[1..]);
    assert keys[0] !in keys[1..];
    if keys[0] != k {
      WithoutTakesOne(keys[1..], k, t);
      assert ([keys[0]] + Without(keys[1..], k))[1..] == Without(keys[1..], k);
    }
  }

  /** Summing over more keys than those with an amount changes nothing. */
  lemma {:induction false} OnlyKeysCount<K(!new)>(ids: seq<K>, keys: seq<K>, t: Tally<K>)
    requires Distinct(ids) && Distinct(keys)
    requires forall k :: k in keys ==> k in ids
    requires forall k :: k in ids && k !in keys ==> Get(t, k) == 0.0
    ensures SumOver(ids, t) == SumOver(keys, t)
    decreases |keys|
  {
    if keys == [] {
      NothingCounts(ids, t);
    } else {
      var k := keys[0];
      WithoutTakesOne(ids, k, t);
      assert Distinct(keys[1..]) && k !in keys[1..];
      OnlyKeysCount(Without(ids, k), keys[1..], t);
    }
  }

  lemma {:induction false} NothingCounts<K(!new)>(ids: seq<K>, t: Tally<K>)
    requires forall k :: k in ids ==> Get(t, k) == 0.0
    ensures SumOver(ids, t) == 0.0
  {
    if ids != [] {
      assert ids[0] in ids;
      NothingCounts(ids[1..], t);
    }
  }
}
