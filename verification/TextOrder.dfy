/** Sorting of strings (`sort_unstable` followed by `dedup`), and why the outcome
    depends on the set of values alone. */
module TextOrder {

  /** `str` order: bytewise, which for UTF-8 is by code point. */
  predicate AtMost(a: string, b: string) {
    a == "" || (b != "" && (a[0] < b[0] || (a[0] == b[0] && AtMost(a[1..], b[1..]))))
  }

  predicate Below(a: string, b: string) {
    AtMost(a, b) && a != b
  }

  predicate Ascending(xs: seq<string>) {
    forall i, j :: 0 <= i < j < |xs| ==> AtMost(xs[i], xs[j])
  }

  predicate StrictlyAscending(xs: seq<string>) {
    forall i, j :: 0 <= i < j < |xs| ==> Below(xs[i], xs[j])
  }

  lemma {:induction false} AtMostIsTotal(a: string, b: string)
    ensures AtMost(a, b) || AtMost(b, a)
  {
    if a != "" && b != "" && a[0] == b[0] {
      AtMostIsTotal(a[1..], b[1..]);
    }
  }

  lemma {:induction false} AtMostIsAntisymmetric(a: string, b: string)
    requires AtMost(a, b) && AtMost(b, a)
    ensures a == b
  {
    if a != "" && b != "" {
      AtMostIsAntisymmetric(a[1..], b[1..]);
      assert a == [a[0]] + a[1..] && b == [b[0]] + b[1..];
    }
  }

  lemma {:induction false} AtMostIsTransitive(a: string, b: string, c: string)
    requires AtMost(a, b) && AtMost(b, c)
    ensures AtMost(a, c)
  {
    if a != "" && a[0] == b[0] == c[0] {
      AtMostIsTransitive(a[1..], b[1..], c[1..]);
    }
  }

  function Placed(x: string, xs: seq<string>): seq<string> {
    if xs == [] then [x]
    else if AtMost(x, xs[0]) then [x] + xs
    else [xs[0]] + Placed(x, xs[1..])
  }

  /** `sort_unstable`. */
  function Sorted(xs: seq<string>): seq<string> {
    if xs == [] then [] else Placed(xs[0], Sorted(xs[1..]))
  }

  /** `dedup`: drops a value equal to its predecessor. */
  function WithoutRepeats(xs: seq<string>): seq<string> {
    if |xs| < 2 then xs
    else if xs[0] == xs[1] then WithoutRepeats(xs[1..])
    else [xs[0]] + WithoutRepeats(xs[1..])
  }

  function Canonical(xs: seq<string>): seq<string> {
    WithoutRepeats(Sorted(xs))
  }

  ghost predicate SameValues(xs: seq<string>, ys: seq<string>) {
    forall x :: x in xs <==> x in ys
  }

  lemma {:induction false} PlacedKeepsOrder(x: string, xs: seq<string>)
    requires Ascending(xs)
    ensures Ascending(Placed(x, xs)) && SameValues(Placed(x, xs), [x] + xs)
  {
    if xs != [] {
      var first, rest := xs[0], xs[1..];
      assert xs == [first] + rest;
      if AtMost(x, first) {
        forall j | 0 <= j < |xs|
          ensures AtMost(x, xs[j])
        {
          if j > 0 {
            AtMostIsTransitive(x, first, xs[j]);
          }
        }
      } else {
        AtMostIsTotal(x, first);
        PlacedKeepsOrder(x, rest);
        var r := Placed(x, rest);
        forall j | 0 <= j < |r|
          ensures AtMost(first, r[j])
        {
          assert r[j] in [x] + rest;
        }
        assert forall i, j :: 0 <= i < j < |r| ==> AtMost(r[i], r[j]);
      }
    }
  }

  lemma {:induction false} SortedSorts(xs: seq<string>)
    ensures Ascending(Sorted(xs)) && SameValues(Sorted(xs), xs)
  {
    if xs != [] {
      SortedSorts(xs[1..]);
      PlacedKeepsOrder(xs[0], Sorted(xs[1..]));
      assert xs == [xs[0]] + xs[1..];
    }
  }

  lemma {:induction false} WithoutRepeatsIsStrict(xs: seq<string>)
    requires Ascending(xs)
    ensures StrictlyAscending(WithoutRepeats(xs)) && SameValues(WithoutRepeats(xs), xs)
  {
    if |xs| >= 2 {
      var first, rest := xs[0], xs[1..];
      assert xs == [first] + rest;
      WithoutRepeatsIsStrict(rest);
      if first != rest[0] {
        var r := WithoutRepeats(rest);
        forall j | 0 <= j < |r|
          ensures Below(first, r[j])
        {
          assert r[j] in rest;
          var k :| 0 <= k < |rest| && rest[k] == r[j];
          assert AtMost(xs[0], xs[k + 1]);
          if r[j] == first {
            assert k == 0 || AtMost(rest[0], rest[k]);
            AtMostIsAntisymmetric(first, rest[0]);
          }
        }
      }
    }
  }

  lemma CanonicalIsStrict(xs: seq<string>)
    ensures StrictlyAscending(Canonical(xs)) && SameValues(Canonical(xs), xs)
  {
    SortedSorts(xs);
    WithoutRepeatsIsStrict(Sorted(xs));
  }

  lemma SameValuesSameEmptiness(xs: seq<string>, ys: seq<string>)
    requires SameValues(xs, ys)
    ensures xs == [] <==> ys == []
  {
    if xs != [] {
      assert xs[0] in ys;
    }
    if ys != [] {
      assert ys[0] in xs;
    }
  }

  lemma {:induction false} StrictListsAreEqual(xs: seq<string>, ys: seq<string>)
    requires StrictlyAscending(xs) && StrictlyAscending(ys) && SameValues(xs, ys)
    ensures xs == ys
  {
    SameValuesSameEmptiness(xs, ys);
    if xs != [] {
      LeastFirst(xs, ys);
      LeastFirst(ys, xs);
      AtMostIsAntisymmetric(xs[0], ys[0]);
      assert xs == [xs[0]] + xs[1..] && ys == [ys[0]] + ys[1..];
      forall x
        ensures x in xs[1..] <==> x in ys[1..]
      {
        assert x in xs <==> x in ys;
      }
      StrictListsAreEqual(xs[1..], ys[1..]);
    }
  }

  lemma LeastFirst(xs: seq<string>, ys: seq<string>)
    requires xs != [] && ys != [] && StrictlyAscending(xs) && SameValues(xs, ys)
    ensures AtMost(xs[0], ys[0])
  {
    assert ys[0] in xs;
    AtMostIsTotal(xs[0], xs[0]);
  }

  /** Sorting and dropping repeats compares lists as sets: neither order nor
      repetition matters, and nothing else is ignored. */
  lemma CanonicalIsSetIdentity(xs: seq<string>, ys: seq<string>)
    ensures Canonical(xs) == Canonical(ys) <==> SameValues(xs, ys)
  {
    CanonicalIsStrict(xs);
    CanonicalIsStrict(ys);
    if SameValues(xs, ys) {
      StrictListsAreEqual(Canonical(xs), Canonical(ys));
    }
  }
}
