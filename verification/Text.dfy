/** The string operations of the standard library that the checks rely on. */
module Text {
  import opened Common

  /** Unicode White_Space, the class that `str::trim` removes. */
  predicate IsSpace(c: char) {
    var n := c as int;
    || 9 <= n <= 13 || n == 32 || n == 0x85 || n == 0xA0 || n == 0x1680
    || 0x2000 <= n <= 0x200A || n == 0x2028 || n == 0x2029 || n == 0x202F
    || n == 0x205F || n == 0x3000
  }

  function TrimStart(s: string): string {
    if s != "" && IsSpace(s[0]) then TrimStart(s[1..]) else s
  }

  function TrimEnd(s: string): string {
    if s != "" && IsSpace(s[|s| - 1]) then TrimEnd(s[..|s| - 1]) else s
  }

  function Trim(s: string): string {
    TrimEnd(TrimStart(s))
  }

  function LowerChar(c: char): (l: char)
    ensures IsSpace(l) <==> IsSpace(c)
    ensures Utf8Width(l) == Utf8Width(c)
  {
    if 'A' <= c <= 'Z' then c - 'A' + 'a' else c
  }

  /** `to_ascii_lowercase`. */
  function Lower(s: string): (l: string)
    ensures |l| == |s|
    ensures forall i :: 0 <= i < |s| ==> l[i] == LowerChar(s[i])
  {
    if s == "" then "" else [LowerChar(s[0])] + Lower(s[1..])
  }

  function Utf8Width(c: char): nat {
    var n := c as int;
    if n < 0x80 then 1 else if n < 0x800 then 2 else if n < 0x10000 then 3 else 4
  }

  /** `str::len`: bytes, not characters. */
  function Utf8Length(s: string): nat {
    if s == "" then 0 else Utf8Width(s[0]) + Utf8Length(s[1..])
  }

  predicate Trimmed(s: string) {
    s == "" || (!IsSpace(s[0]) && !IsSpace(s[|s| - 1]))
  }

  lemma {:induction false} TrimStartStarts(s: string)
    ensures TrimStart(s) == "" || !IsSpace(TrimStart(s)[0])
  {
    if s != "" && IsSpace(s[0]) {
      TrimStartStarts(s[1..]);
    }
  }

  lemma {:induction false} TrimEndEnds(s: string)
    ensures TrimEnd(s) <= s
    ensures TrimEnd(s) == "" || !IsSpace(TrimEnd(s)[|TrimEnd(s)| - 1])
  {
    if s != "" && IsSpace(s[|s| - 1]) {
      TrimEndEnds(s[..|s| - 1]);
    }
  }

  /** Trimming leaves no white space at either end, and then changes nothing. */
  lemma TrimTrims(s: string)
    ensures Trimmed(Trim(s))
  {
    TrimStartStarts(s);
    TrimEndEnds(TrimStart(s));
  }

  lemma {:induction false} LowerIsIdempotent(s: string)
    ensures Lower(Lower(s)) == Lower(s)
    ensures Utf8Length(Lower(s)) == Utf8Length(s)
  {
    if s != "" {
      LowerIsIdempotent(s[1..]);
    }
  }

  // ----- Spelling -------------------------------------------------------------------------------

  predicate Blank(s: string) {
    forall i :: 0 <= i < |s| ==> IsSpace(s[i])
  }

  /** The same characters, up to the case of ASCII letters. */
  predicate SameButCase(s: string, t: string) {
    |s| == |t| && forall i :: 0 <= i < |s| ==> LowerChar(s[i]) == LowerChar(t[i])
  }

  lemma {:induction false} BlankStartIsTrimmed(before: string, s: string)
    requires Blank(before)
    ensures TrimStart(before + s) == TrimStart(s)
  {
    if before == "" {
      assert before + s == s;
    } else {
      assert (before + s)[1..] == before[1..] + s;
      BlankStartIsTrimmed(before[1..], s);
    }
  }

  lemma {:induction false} BlankEndIsTrimmed(s: string, after: string)
    requires Blank(after)
    ensures TrimEnd(s + after) == TrimEnd(s)
  {
    if after == "" {
      assert s + after == s;
    } else {
      assert (s + after)[..|s + after| - 1] == s + after[..|after| - 1];
      BlankEndIsTrimmed(s, after[..|after| - 1]);
    }
  }

  lemma {:induction false} BlankTrimsAway(s: string)
    requires Blank(s)
    ensures TrimStart(s) == ""
  {
    if s != "" {
      BlankTrimsAway(s[1..]);
    }
  }

  /** What stands after the first visible character is no matter for the start. */
  lemma {:induction false} StartIgnoresEnd(s: string, after: string)
    requires TrimStart(s) != ""
    ensures TrimStart(s + after) == TrimStart(s) + after
  {
    if IsSpace(s[0]) {
      assert (s + after)[1..] == s[1..] + after;
      StartIgnoresEnd(s[1..], after);
    }
  }

  lemma {:induction false} NothingLeftMeansBlank(s: string)
    requires TrimStart(s) == ""
    ensures Blank(s)
  {
    if s != "" {
      NothingLeftMeansBlank(s[1..]);
      assert s == [s[0]] + s[1..];
    }
  }

  /** Surrounding white space does not change what is left after trimming. */
  lemma SurroundingSpaceIsTrimmed(before: string, s: string, after: string)
    requires Blank(before) && Blank(after)
    ensures Trim(before + s + after) == Trim(s)
  {
    assert before + s + after == before + (s + after);
    BlankStartIsTrimmed(before, s + after);
    if TrimStart(s) == "" {
      NothingLeftMeansBlank(s);
      BlankTrimsAway(s + after);
    } else {
      StartIgnoresEnd(s, after);
      BlankEndIsTrimmed(TrimStart(s), after);
    }
  }

  lemma {:induction false} CaseSurvivesTrimStart(s: string, t: string)
    requires SameButCase(s, t)
    ensures SameButCase(TrimStart(s), TrimStart(t))
  {
    if s != "" {
      assert IsSpace(s[0]) <==> IsSpace(LowerChar(s[0]));
      assert IsSpace(t[0]) <==> IsSpace(LowerChar(t[0]));
      CaseSurvivesTrimStart(s[1..], t[1..]);
    }
  }

  lemma {:induction false} CaseSurvivesTrimEnd(s: string, t: string)
    requires SameButCase(s, t)
    ensures SameButCase(TrimEnd(s), TrimEnd(t))
  {
    if s != "" {
      var last := |s| - 1;
      assert IsSpace(s[last]) <==> IsSpace(LowerChar(s[last]));
      assert IsSpace(t[last]) <==> IsSpace(LowerChar(t[last]));
      CaseSurvivesTrimEnd(s[..last], t[..last]);
    }
  }

  /** The two forms of the `k`-th letter. */
  predicate IsLetter(c: char, k: nat) {
    k < 26 && (c as int == 'A' as int + k || c as int == 'a' as int + k)
  }

  /** Characters that differ are lowered to the same one exactly when they are the two
      cases of one ASCII letter; what is not an upper-case letter stays as it is. */
  lemma CasesOfOneLetter(c: char, d: char)
    ensures LowerChar(c) == LowerChar(d) <==> c == d || exists k: nat :: IsLetter(c, k) && IsLetter(d, k)
    ensures LowerChar(c) != c ==> 'A' <= c <= 'Z' && 'a' <= LowerChar(c) <= 'z'
  {
    if LowerChar(c) == LowerChar(d) && c != d {
      var k := LowerChar(c) as int - 'a' as int;
      assert IsLetter(c, k) && IsLetter(d, k);
    }
  }

  lemma LoweredAreEqualExactly(s: string, t: string)
    ensures Lower(s) == Lower(t) <==> SameButCase(s, t)
  {
    if Lower(s) == Lower(t) {
      forall i | 0 <= i < |s|
        ensures LowerChar(s[i]) == LowerChar(t[i])
      {
        assert Lower(s)[i] == Lower(t)[i];
      }
    }
  }

  /** `trimmed` is `s` without the white space around it, and without anything else. */
  ghost predicate IsTrimmed(s: string, trimmed: string) {
    && (exists before, after :: Blank(before) && Blank(after) && s == before + trimmed + after)
    && Trimmed(trimmed)
  }

  lemma {:induction false} StartIsTrimmed(s: string) returns (before: string)
    ensures Blank(before) && s == before + TrimStart(s) && (TrimStart(s) != "" ==> !IsSpace(TrimStart(s)[0]))
  {
    if s == "" || !IsSpace(s[0]) {
      before := "";
    } else {
      var rest := StartIsTrimmed(s[1..]);
      before := [s[0]] + rest;
      assert s == [s[0]] + s[1..];
    }
  }

  lemma {:induction false} EndIsTrimmed(s: string) returns (after: string)
    ensures Blank(after) && s == TrimEnd(s) + after
    ensures TrimEnd(s) != "" ==> !IsSpace(TrimEnd(s)[|TrimEnd(s)| - 1]) && TrimEnd(s)[0] == s[0]
  {
    if s == "" || !IsSpace(s[|s| - 1]) {
      after := "";
    } else {
      var last := |s| - 1;
      var rest := EndIsTrimmed(s[..last]);
      after := rest + [s[last]];
      assert s == s[..last] + [s[last]];
    }
  }

  /** Trimming takes away exactly the white space around. */
  lemma TrimIsExact(s: string)
    ensures IsTrimmed(s, Trim(s))
  {
    var before := StartIsTrimmed(s);
    var after := EndIsTrimmed(TrimStart(s));
    TrimTrims(s);
    assert s == before + Trim(s) + after;
  }
}
