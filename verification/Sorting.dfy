/** `sort_by`: a sequence of distinct elements put in the order of a comparison; ties keep their order. */
module Sorting {

  ghost predicate IsTotalPreorder<T(!new)>(leq: (T, T) -> bool) {
    && (forall a, b :: leq(a, b) || leq(b, a))
    && (forall a, b, c :: leq(a, b) && leq(b, c) ==> leq(a, c))
  }

  ghost predicate SortedBy<T>(r: seq<T>, leq: (T, T) -> bool) {
    forall i, j :: 0 <= i < j < |r| ==> leq(r[i], r[j])
  }

  ghost predicate Distinct<T>(r: seq<T>) {
    forall i, j :: 0 <= i < j < |r| ==> r[i] != r[j]
  }

  ghost predicate SameElements<T(!new)>(a: seq<T>, b: seq<T>) {
    forall x :: x in a <==> x in b
  }

  /** `x` stands before `y`. */
  ghost predicate Precedes<T>(xs: seq<T>, x: T, y: T) {
    exists a, b :: 0 <= a < b < |xs| && xs[a] == x && xs[b] == y
  }

  /** Elements that compare as equal stand in `r` as they do in `xs`. */
  ghost predicate Stable<T>(r: seq<T>, xs: seq<T>, leq: (T, T) -> bool) {
    forall i, j :: 0 <= i < j < |r| && leq(r[j], r[i]) ==> Precedes(xs, r[i], r[j])
  }

  method SortBy<T(!new)>(xs: seq<T>, leq: (T, T) -> bool) returns (r: seq<T>)
    requires IsTotalPreorder(leq) && Distinct(xs)
    ensures SortedBy(r, leq) && Distinct(r) && SameElements(r, xs) && Stable(r, xs, leq)
  {
    hide IsTotalPreorder, SortedBy, Distinct, SameElements, Stable;
    r := [];
    EmptySorted(xs, leq);
    for i := 0 to |xs|
      invariant SortedBy(r, leq) && Distinct(r) && SameElements(r, xs[..i]) && Stable(r, xs[..i], leq)
    {
      NextIsNew(r, xs, i);
      var at := Position(r, xs[i], leq);
      Inserted(r, xs, i, at, leq);
      InsertedStable(r, xs, i, at, leq);
      r := r[..at] + [xs[i]] + r[at..];
    }
    assert xs[..|xs|] == xs;
  }

  /** After every element that may precede `x`. */
  method Position<T(!new)>(r: seq<T>, x: T, leq: (T, T) -> bool) returns (at: nat)
    requires IsTotalPreorder(leq) && SortedBy(r, leq)
    ensures at <= |r| && (at > 0 ==> leq(r[at - 1], x)) && (at < |r| ==> leq(x, r[at]) && !leq(r[at], x))
  {
    hide SortedBy;
    at := |r|;
    while at > 0 && !leq(r[at - 1], x)
      invariant at <= |r| && (at < |r| ==> leq(x, r[at]) && !leq(r[at], x))
    {
      at := at - 1;
    }
  }

  lemma EmptySorted<T(!new)>(xs: seq<T>, leq: (T, T) -> bool)
    ensures SortedBy([], leq) && Distinct<T>([]) && SameElements([], xs[..0]) && Stable([], xs[..0], leq)
  {
  }

  lemma NextIsNew<T(!new)>(r: seq<T>, xs: seq<T>, i: nat)
    requires i < |xs| && Distinct(xs) && SameElements(r, xs[..i])
    ensures xs[i] !in r
  {
  }

  lemma Inserted<T(!new)>(r: seq<T>, xs: seq<T>, i: nat, at: nat, leq: (T, T) -> bool)
    requires IsTotalPreorder(leq) && SortedBy(r, leq) && Distinct(r) && i < |xs| && SameElements(r, xs[..i])
    requires at <= |r| && (at > 0 ==> leq(r[at - 1], xs[i])) && (at < |r| ==> leq(xs[i], r[at])) && xs[i] !in r
    ensures var r' := r[..at] + [xs[i]] + r[at..];
      SortedBy(r', leq) && Distinct(r') && SameElements(r', xs[..i + 1])
  {
    InsertedSorted(r, xs[i], at, leq);
    InsertedDistinct(r, xs[i], at);
    InsertedElements(r, xs, i, at);
  }

  lemma InsertedSorted<T(!new)>(r: seq<T>, x: T, at: nat, leq: (T, T) -> bool)
    requires IsTotalPreorder(leq) && SortedBy(r, leq)
    requires at <= |r| && (at > 0 ==> leq(r[at - 1], x)) && (at < |r| ==> leq(x, r[at]))
    ensures SortedBy(r[..at] + [x] + r[at..], leq)
  {
    forall k | 0 <= k < |r|
      ensures if k < at then leq(r[k], x) else leq(x, r[k])
    {
      if k < at - 1 { assert leq(r[k], r[at - 1]); }
      if k > at { assert leq(r[at], r[k]); }
    }
  }

  lemma InsertedStable<T(!new)>(r: seq<T>, xs: seq<T>, i: nat, at: nat, leq: (T, T) -> bool)
    requires IsTotalPreorder(leq) && SortedBy(r, leq) && i < |xs| && Stable(r, xs[..i], leq)
    requires SameElements(r, xs[..i]) && at <= |r| && (at < |r| ==> !leq(r[at], xs[i]))
    ensures Stable(r[..at] + [xs[i]] + r[at..], xs[..i + 1], leq)
  {
    hide SameElements, IsTotalPreorder, Precedes;
    var x := xs[i];
    forall k | at <= k < |r|
      ensures !leq(r[k], x)
    {
      NoneAfter(r, x, at, k, leq);
    }
    forall k | 0 <= k < |r|
      ensures Precedes(xs[..i + 1], r[k], x)
    {
      LastFollows(r, xs, i, k);
    }
    forall a, b | Precedes(xs[..i], a, b)
      ensures Precedes(xs[..i + 1], a, b)
    {
      StillPrecedes(xs, i, a, b);
    }
  }

  lemma NoneAfter<T(!new)>(r: seq<T>, x: T, at: nat, k: nat, leq: (T, T) -> bool)
    requires IsTotalPreorder(leq) && SortedBy(r, leq) && at <= k < |r| && !leq(r[at], x)
    ensures !leq(r[k], x)
  {
    if at < k { assert leq(r[at], r[k]); }
  }

  lemma LastFollows<T(!new)>(r: seq<T>, xs: seq<T>, i: nat, k: nat)
    requires i < |xs| && SameElements(r, xs[..i]) && k < |r|
    ensures Precedes(xs[..i + 1], r[k], xs[i])
  {
    assert r[k] in r && r[k] in xs[..i];
    var a :| 0 <= a < i && xs[a] == r[k];
    assert xs[..i + 1][a] == r[k] && xs[..i + 1][i] == xs[i];
  }

  lemma StillPrecedes<T>(xs: seq<T>, i: nat, x: T, y: T)
    requires i < |xs| && Precedes(xs[..i], x, y)
    ensures Precedes(xs[..i + 1], x, y)
  {
    var a, b :| 0 <= a < b < i && xs[..i][a] == x && xs[..i][b] == y;
    assert xs[..i + 1][a] == x && xs[..i + 1][b] == y;
  }

  lemma InsertedDistinct<T>(r: seq<T>, x: T, at: nat)
    requires Distinct(r) && at <= |r| && x !in r
    ensures Distinct(r[..at] + [x] + r[at..])
  {
    assert forall k :: 0 <= k < |r| ==> r[k] in r;
  }

  lemma InsertedElements<T(!new)>(r: seq<T>, xs: seq<T>, i: nat, at: nat)
    requires i < |xs| && SameElements(r, xs[..i]) && at <= |r|
    ensures SameElements(r[..at] + [xs[i]] + r[at..], xs[..i + 1])
  {
    assert xs[..i + 1] == xs[..i] + [xs[i]];
    assert r == r[..at] + r[at..];
    assert forall y :: y in r <==> y in r[..at] || y in r[at..];
  }
}
