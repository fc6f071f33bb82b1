/** Facts about sequences and their multisets used by several modules. */
module Sequences {
  import opened Options

  function RemoveAt<T>(s: seq<T>, k: nat): seq<T>
    requires k < |s|
  {
    s[..k] + s[k + 1..]
  }

  lemma RemoveAtMultiset<T>(s: seq<T>, k: nat)
    requires k < |s|
    ensures multiset(RemoveAt(s, k)) == multiset(s) - multiset{s[k]}
    ensures multiset(s) == multiset(RemoveAt(s, k)) + multiset{s[k]}
  {
    assert s == s[..k] + [s[k]] + s[k + 1..];
  }

  /** Where the first element went, and what is left without it. */
  lemma Elsewhere<T>(s: seq<T>, t: seq<T>) returns (k: nat)
    requires s != [] && multiset(s) == multiset(t)
    ensures k < |t| && t[k] == s[0] && multiset(RemoveAt(s, 0)) == multiset(RemoveAt(t, k))
  {
    assert s[0] in multiset(t);
    k :| 0 <= k < |t| && t[k] == s[0];
    RemoveAtMultiset(s, 0);
    RemoveAtMultiset(t, k);
  }

  lemma InsertAtMultiset<T>(s: seq<T>, k: nat, x: T)
    requires k <= |s|
    ensures multiset(s[..k] + [x] + s[k..]) == multiset(s) + multiset{x}
  {
    assert s == s[..k] + s[k..];
  }

  function Map<A, B>(f: A -> B, s: seq<A>): (r: seq<B>)
    ensures |r| == |s| && forall i :: 0 <= i < |s| ==> r[i] == f(s[i])
  {
    seq(|s|, i requires 0 <= i < |s| => f(s[i]))
  }

  /** Where the elements with a property are. */
  function Positions<T>(s: seq<T>, p: T -> bool): (r: seq<nat>)
    ensures forall i :: 0 <= i < |r| ==> r[i] < |s| && p(s[r[i]])
  {
    if s == [] then [] else Positions(s[..|s| - 1], p) + if p(s[|s| - 1]) then [|s| - 1] else []
  }

  /** All positions, or the one with an index among them; none when there is no such position. */
  function OneOrAll(positions: seq<nat>, index: Option<int>): Option<seq<nat>> {
    if positions == [] || (index.Some? && !(0 <= index.value < |positions|)) then None
    else Some(if index.Some? then [positions[index.value]] else positions)
  }

  /** The elements whose positions are (`keep` false) or are not (`keep` true) in `chosen`. */
  function Pick<T>(s: seq<T>, chosen: seq<nat>, keep: bool): seq<T> {
    if s == [] then []
    else Pick(s[..|s| - 1], chosen, keep) + if (|s| - 1 in chosen) != keep then [s[|s| - 1]] else []
  }

  /** The elements that have a property (`having`), or those that do not, in order. */
  function Filter<T>(s: seq<T>, p: T -> bool, having: bool): seq<T> {
    if s == [] then []
    else Filter(s[..|s| - 1], p, having) + if p(s[|s| - 1]) == having then [s[|s| - 1]] else []
  }

  lemma {:induction false} FilterConcat<T>(a: seq<T>, b: seq<T>, p: T -> bool, having: bool)
    ensures Filter(a + b, p, having) == Filter(a, p, having) + Filter(b, p, having)
    decreases |b|
  {
    if b == [] {
      assert a + b == a;
    } else {
      FilterConcat(a, b[..|b| - 1], p, having);
      assert (a + b)[..|a + b| - 1] == a + b[..|b| - 1];
    }
  }

  lemma {:induction false} SameChoice<T>(s: seq<T>, p: T -> bool, q: T -> bool, having: bool)
    requires forall x <- s :: p(x) == q(x)
    ensures Filter(s, p, having) == Filter(s, q, having) && Positions(s, p) == Positions(s, q)
    decreases |s|
  {
    if s != [] {
      assert s[|s| - 1] in s && forall x <- s[..|s| - 1] :: x in s;
      SameChoice(s[..|s| - 1], p, q, having);
    }
  }

  lemma {:induction false} FilterSizes<T>(s: seq<T>, p: T -> bool)
    ensures |Filter(s, p, true)| + |Filter(s, p, false)| == |s|
    decreases |s|
  {
    if s != [] { FilterSizes(s[..|s| - 1], p); }
  }

  lemma {:induction false} PositionsMeaning<T>(s: seq<T>, p: T -> bool)
    ensures forall i: nat :: i in Positions(s, p) <==> i < |s| && p(s[i])
    ensures |Positions(s, p)| == |Filter(s, p, true)|
    decreases |s|
  {
    if s != [] { PositionsMeaning(s[..|s| - 1], p); }
  }

  /** The position at `k` has exactly `k` elements of the kind before it. */
  lemma {:induction false} PositionAt<T>(s: seq<T>, p: T -> bool, k: nat)
    requires k < |Positions(s, p)|
    ensures |Filter(s[..Positions(s, p)[k]], p, true)| == k
    decreases |s|
  {
    var n := |s| - 1;
    PositionsMeaning(s[..n], p);
    if k < |Positions(s[..n], p)| {
      PositionAt(s[..n], p, k);
      assert s[..n][..Positions(s[..n], p)[k]] == s[..Positions(s, p)[k]];
    }
  }

  lemma {:induction false} PickAll<T>(s: seq<T>, chosen: seq<nat>, p: T -> bool, keep: bool)
    requires forall i: nat | i < |s| :: i in chosen <==> p(s[i])
    ensures Pick(s, chosen, keep) == Filter(s, p, !keep)
    decreases |s|
  {
    if s != [] { PickAll(s[..|s| - 1], chosen, p, keep); }
  }

  lemma RemoveBeforeLast<T>(s: seq<T>, j: nat)
    requires j < |s| - 1
    ensures RemoveAt(s, j) == RemoveAt(s[..|s| - 1], j) + [s[|s| - 1]]
  {
  }

  lemma {:induction false} PickOthers<T>(s: seq<T>, j: nat)
    requires j < |s|
    ensures Pick(s, [j], true) == RemoveAt(s, j)
    decreases |s|
  {
    var n := |s| - 1;
    if j < n {
      PickOthers(s[..n], j);
      RemoveBeforeLast(s, j);
    } else {
      PickNone(s[..n], [j]);
    }
  }

  lemma {:induction false} PickOne<T>(s: seq<T>, j: nat)
    requires j < |s|
    ensures Pick(s, [j], false) == [s[j]]
    decreases |s|
  {
    var n := |s| - 1;
    if j < n { PickOne(s[..n], j); } else { PickNone(s[..n], [j]); }
  }

  lemma {:induction false} PickNone<T>(s: seq<T>, chosen: seq<nat>)
    requires forall i: nat | i < |s| :: i !in chosen
    ensures Pick(s, chosen, true) == s && Pick(s, chosen, false) == []
    decreases |s|
  {
    if s != [] { PickNone(s[..|s| - 1], chosen); }
  }

  /** `after` is `before` without the elements that have the property, or without the one with an index among
      them, and `gone` is what was taken. */
  ghost predicate TakesOut<T>(before: seq<T>, after: seq<T>, gone: seq<T>, p: T -> bool, index: Option<int>) {
    var those := Filter(before, p, true);
    && Filter(after, p, false) == Filter(before, p, false)
    && if index.None? then Filter(after, p, true) == [] && gone == those
       else 0 <= index.value < |those| && Filter(after, p, true) == RemoveAt(those, index.value)
            && gone == [those[index.value]]
  }

  /** All elements with a property, or one of them, can be taken out exactly when there are any, and one with
      that index. */
  lemma TakenOutExactlyWhen<T>(s: seq<T>, p: T -> bool, index: Option<int>)
    ensures var chosen, those := OneOrAll(Positions(s, p), index), Filter(s, p, true);
            && (chosen.Some? <==> those != [] && (index.Some? ==> 0 <= index.value < |those|))
            && (chosen.Some? ==> TakesOut(s, Pick(s, chosen.value, true), Pick(s, chosen.value, false), p, index))
  {
    var chosen := OneOrAll(Positions(s, p), index);
    PositionsMeaning(s, p);
    if chosen.Some? {
      if index.None? { AllTakenOut(s, p); } else { OneTakenOut(s, p, index.value); }
    }
  }

  lemma AllTakenOut<T>(s: seq<T>, p: T -> bool)
    ensures var chosen := Positions(s, p);
            TakesOut(s, Pick(s, chosen, true), Pick(s, chosen, false), p, None)
  {
    PositionsMeaning(s, p);
    PickAll(s, Positions(s, p), p, true);
    PickAll(s, Positions(s, p), p, false);
    FilterTwice(s, p);
  }

  lemma {:induction false} FilterTwice<T>(s: seq<T>, p: T -> bool)
    ensures Filter(Filter(s, p, false), p, false) == Filter(s, p, false)
    ensures Filter(Filter(s, p, false), p, true) == []
    decreases |s|
  {
    if s != [] {
      var n := |s| - 1;
      FilterTwice(s[..n], p);
      FilterConcat(Filter(s[..n], p, false), if p(s[n]) then [] else [s[n]], p, false);
      FilterConcat(Filter(s[..n], p, false), if p(s[n]) then [] else [s[n]], p, true);
    }
  }

  lemma FilterSplit<T>(s: seq<T>, j: nat, p: T -> bool, having: bool)
    requires j < |s|
    ensures Filter(s, p, having) ==
            Filter(s[..j], p, having) + (if p(s[j]) == having then [s[j]] else []) + Filter(s[j + 1..], p, having)
    ensures Filter(RemoveAt(s, j), p, having) == Filter(s[..j], p, having) + Filter(s[j + 1..], p, having)
  {
    assert s == s[..j] + [s[j]] + s[j + 1..];
    FilterConcat(s[..j] + [s[j]], s[j + 1..], p, having);
    assert (s[..j] + [s[j]])[..j] == s[..j];
    FilterConcat(s[..j], s[j + 1..], p, having);
  }

  lemma FilterRemoveAt<T>(s: seq<T>, j: nat, p: T -> bool)
    requires j < |s| && p(s[j])
    ensures Filter(RemoveAt(s, j), p, false) == Filter(s, p, false)
    ensures var k := |Filter(s[..j], p, true)|;
            k < |Filter(s, p, true)| && Filter(s, p, true)[k] == s[j]
            && Filter(RemoveAt(s, j), p, true) == RemoveAt(Filter(s, p, true), k)
  {
    FilterSplit(s, j, p, true);
    FilterSplit(s, j, p, false);
  }

  lemma OneTakenOut<T>(s: seq<T>, p: T -> bool, k: nat)
    requires k < |Positions(s, p)|
    ensures var chosen := [Positions(s, p)[k]];
            TakesOut(s, Pick(s, chosen, true), Pick(s, chosen, false), p, Some(k))
  {
    var j := Positions(s, p)[k];
    PositionAt(s, p, k);
    PickOne(s, j);
    PickOthers(s, j);
    FilterRemoveAt(s, j, p);
  }

  lemma MapRemoveAt<A, B>(f: A -> B, s: seq<A>, k: nat)
    requires k < |s|
    ensures multiset(Map(f, s)) == multiset(Map(f, RemoveAt(s, k))) + multiset{f(s[k])}
  {
    assert Map(f, RemoveAt(s, k)) == RemoveAt(Map(f, s), k);
    RemoveAtMultiset(Map(f, s), k);
  }

  /** Mapping respects reordering. */
  lemma {:induction false} MapPermutes<A, B>(f: A -> B, s: seq<A>, t: seq<A>)
    requires multiset(s) == multiset(t)
    ensures multiset(Map(f, s)) == multiset(Map(f, t))
    decreases |s|
  {
    if s == [] {
      assert |multiset(t)| == 0;
    } else {
      var k := Elsewhere(s, t);
      MapPermutes(f, RemoveAt(s, 0), RemoveAt(t, k));
      MapRemoveAt(f, s, 0);
      MapRemoveAt(f, t, k);
    }
  }
}
