/** `split` on a separator character and `join` with it. */
module Segments {

  /** `join`: the parts with one separator between neighbours. */
  function Joined(parts: seq<string>, sep: char): string {
    if parts == [] then ""
    else if |parts| == 1 then parts[0]
    else Joined(parts[..|parts| - 1], sep) + [sep] + parts[|parts| - 1]
  }

  /** `split`: one more part than there are separators; parts may be empty. */
  function Parts(value: string, sep: char): (parts: seq<string>)
    ensures parts != []
  {
    if value == "" then [""]
    else
      var init, last := Parts(value[..|value| - 1], sep), value[|value| - 1];
      if last == sep then init + [""] else init[..|init| - 1] + [init[|init| - 1] + [last]]
  }

  predicate Lacks(s: string, c: char) {
    forall i :: 0 <= i < |s| ==> s[i] != c
  }

  predicate AllLack(parts: seq<string>, sep: char) {
    forall i :: 0 <= i < |parts| ==> Lacks(parts[i], sep)
  }

  lemma {:induction false} PartsOfExtension(value: string, word: string, sep: char)
    requires Lacks(word, sep)
    ensures Parts(value + [sep] + word, sep) == Parts(value, sep) + [word]
  {
    if word == "" {
      assert (value + [sep] + word)[..|value|] == value;
    } else {
      var short, c := word[..|word| - 1], word[|word| - 1];
      PartsOfExtension(value, short, sep);
      var longer := value + [sep] + word;
      assert longer[..|longer| - 1] == value + [sep] + short;
      assert word == short + [c];
    }
  }

  lemma {:induction false} PartsOfWord(word: string, sep: char)
    requires Lacks(word, sep)
    ensures Parts(word, sep) == [word]
  {
    if word != "" {
      PartsOfWord(word[..|word| - 1], sep);
      assert word == word[..|word| - 1] + [word[|word| - 1]];
    }
  }

  /** Splitting undoes joining, for parts without the separator. */
  lemma {:induction false} PartsOfJoined(parts: seq<string>, sep: char)
    requires parts != [] && AllLack(parts, sep)
    ensures Parts(Joined(parts, sep), sep) == parts
  {
    var init, last := parts[..|parts| - 1], parts[|parts| - 1];
    assert parts == init + [last];
    if |parts| == 1 {
      PartsOfWord(last, sep);
    } else {
      PartsOfJoined(init, sep);
      PartsOfExtension(Joined(init, sep), last, sep);
    }
  }

  lemma JoinedOfExtendedLast(parts: seq<string>, c: char, sep: char)
    requires parts != []
    ensures Joined(parts[..|parts| - 1] + [parts[|parts| - 1] + [c]], sep) == Joined(parts, sep) + [c]
  {
    var longer := parts[..|parts| - 1] + [parts[|parts| - 1] + [c]];
    assert longer[..|longer| - 1] == parts[..|parts| - 1];
  }

  lemma JoinedOfLonger(parts: seq<string>, word: string, sep: char)
    requires parts != []
    ensures Joined(parts + [word], sep) == Joined(parts, sep) + [sep] + word
  {
    assert (parts + [word])[..|parts|] == parts;
  }

  /** Joining undoes splitting, always. */
  lemma {:induction false} JoinedOfParts(value: string, sep: char)
    ensures Joined(Parts(value, sep), sep) == value
  {
    if value != "" {
      var init, last := value[..|value| - 1], value[|value| - 1];
      JoinedOfParts(init, sep);
      assert value == init + [last];
      if last == sep {
        JoinedOfLonger(Parts(init, sep), "", sep);
      } else {
        JoinedOfExtendedLast(Parts(init, sep), last, sep);
      }
    }
  }

  lemma {:induction false} PartsLackSeparator(value: string, sep: char)
    ensures AllLack(Parts(value, sep), sep)
  {
    if value != "" {
      PartsLackSeparator(value[..|value| - 1], sep);
    }
  }

  lemma PartsAreInjective(a: string, b: string, sep: char)
    requires Parts(a, sep) == Parts(b, sep)
    ensures a == b
  {
    JoinedOfParts(a, sep);
    JoinedOfParts(b, sep);
  }

  /** `p`'s parts lead `s`'s parts, the last one possibly cut short. */
  predicate Leads(p: seq<string>, s: seq<string>)
    requires p != []
  {
    var k := |p| - 1;
    k < |s| && p[..k] == s[..k] && p[k] <= s[k]
  }

  lemma {:induction false} PrefixLeads(p: string, s: string, sep: char)
    requires p <= s
    ensures Leads(Parts(p, sep), Parts(s, sep))
    decreases |s|
  {
    if p != s {
      assert p <= s[..|s| - 1];
      PrefixLeads(p, s[..|s| - 1], sep);
    }
  }

  /** A prefix has the same parts, up to its last one. */
  lemma PrefixPartsAgree(p: string, s: string, sep: char, i: nat)
    requires p <= s && i < |Parts(p, sep)| - 1
    ensures i < |Parts(s, sep)| && Parts(s, sep)[i] == Parts(p, sep)[i]
  {
    var ps, ss := Parts(p, sep), Parts(s, sep);
    PrefixLeads(p, s, sep);
    assert ps[..|ps| - 1][i] == ss[..|ps| - 1][i];
  }

  lemma {:induction false} LeadingIsPrefix(p: string, s: string, sep: char)
    requires Leads(Parts(p, sep), Parts(s, sep))
    ensures p <= s
    decreases |s|
  {
    var ps, ss := Parts(p, sep), Parts(s, sep);
    var k := |ps| - 1;
    assert ps == ps[..k] + [ps[k]];
    if |ss| == |ps| && ps[k] == ss[k] {
      assert ss == ss[..k] + [ss[k]];
      PartsAreInjective(p, s, sep);
    } else {
      LeadingIsPrefix(p, s[..|s| - 1], sep);
    }
  }
}
