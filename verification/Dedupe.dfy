/** Stable de-duplication: one reference function and the two loops that compute it. */
module Dedupe {
  import opened Common

  /** Keeps the first occurrence of every value, in order. */
  function Deduped(xs: seq<string>): seq<string> {
    if xs == [] then []
    else
      var init := Deduped(xs[..|xs| - 1]);
      var last := xs[|xs| - 1];
      if last in init then init else init + [last]
  }

  /** Position of the first occurrence of `x`, or the length when it does not occur. */
  function FirstIndex(xs: seq<string>, x: string): (i: nat)
    ensures i <= |xs|
    ensures x in xs <==> i < |xs|
    ensures i < |xs| ==> xs[i] == x
    ensures forall j :: 0 <= j < i ==> xs[j] != x
  {
    if xs == [] then 0
    else if xs[0] == x then 0
    else 1 + FirstIndex(xs[1..], x)
  }

  /** First occurrences do not move when a list is extended. */
  lemma FirstIndexOfExtension(xs: seq<string>, last: string, x: string)
    requires x in xs
    ensures FirstIndex(xs + [last], x) == FirstIndex(xs, x)
  {
    var i, j := FirstIndex(xs, x), FirstIndex(xs + [last], x);
    assert (xs + [last])[i] == x;
    if j < i {
      assert xs[j] == (xs + [last])[j];
    }
  }

  /** What de-duplication means, without its recursion: the same values, each
      once, ordered by first occurrence. */
  lemma {:induction false} DedupedIsFirstOccurrences(xs: seq<string>)
    ensures NoDuplicates(Deduped(xs))
    ensures forall x :: x in Deduped(xs) <==> x in xs
    ensures forall i, j :: 0 <= i < j < |Deduped(xs)| ==>
                             FirstIndex(xs, Deduped(xs)[i]) < FirstIndex(xs, Deduped(xs)[j])
  {
    if xs != [] {
      var init, last := xs[..|xs| - 1], xs[|xs| - 1];
      assert xs == init + [last];
      DedupedIsFirstOccurrences(init);
      var d, r := Deduped(init), Deduped(xs);
      forall i, j | 0 <= i < j < |r|
        ensures FirstIndex(xs, r[i]) < FirstIndex(xs, r[j])
      {
        assert r[i] == d[i] && d[i] in d;
        FirstIndexOfExtension(init, last, d[i]);
        if j < |d| {
          assert r[j] == d[j] && d[j] in d;
          FirstIndexOfExtension(init, last, d[j]);
        } else {
          assert r[j] == last && last !in init;
          assert FirstIndex(xs, last) == |init|;
        }
      }
    }
  }

  /** A list without repetitions is its own de-duplication. */
  lemma {:induction false} DedupedIsIdentityOnDistinct(xs: seq<string>)
    requires NoDuplicates(xs)
    ensures Deduped(xs) == xs
  {
    if xs != [] {
      var init := xs[..|xs| - 1];
      DedupedIsIdentityOnDistinct(init);
      assert xs == init + [xs[|xs| - 1]];
    }
  }

  lemma DedupedIsIdempotent(xs: seq<string>)
    ensures Deduped(Deduped(xs)) == Deduped(xs)
  {
    DedupedIsFirstOccurrences(xs);
    DedupedIsIdentityOnDistinct(Deduped(xs));
  }

  /** The scan of src/token_decode.rs: membership is looked up in the output. */
  method DedupeByScan(values: seq<string>) returns (result: seq<string>)
    ensures result == Deduped(values)
  {
    result := [];
    for i := 0 to |values|
      invariant result == Deduped(values[..i])
    {
      assert values[..i + 1][..i] == values[..i];
      if values[i] !in result {
        result := result + [values[i]];
      }
    }
    assert values[..|values|] == values;
  }

  /** The set-backed form of src/service.rs. */
  method DedupeBySet(values: seq<string>) returns (out: seq<string>)
    ensures out == Deduped(values)
  {
    var seen: set<string> := {};
    out := [];
    for i := 0 to |values|
      invariant out == Deduped(values[..i])
      invariant forall x :: x in seen <==> x in out
    {
      assert values[..i + 1][..i] == values[..i];
      if values[i] !in seen {
        seen := seen + {values[i]};
        out := out + [values[i]];
      }
    }
    assert values[..|values|] == values;
  }
}
