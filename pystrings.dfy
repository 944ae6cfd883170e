/** Python's string operations used by the dispatch code: `t in s`, `s.split(sep)`
    and `s.replace(t, '')`, on strings as sequences of characters. */
module PyStrings {

  predicate StartsWith(s: string, t: string)
  {
    |t| <= |s| && s[..|t|] == t
  }

  predicate EndsWith(s: string, t: string)
  {
    |t| <= |s| && s[|s| - |t|..] == t
  }

  /** Python's `t in s`: `t` occurs as a contiguous part of `s`. */
  predicate Contains(s: string, t: string)
    decreases |s|
  {
    StartsWith(s, t) || (|s| > 0 && Contains(s[1..], t))
  }

  /** Putting "anti" in front of a name changes nothing about whether it contains a
      word that starts with "nu" (such as "nue" or "numu"). */
  lemma AntiPrefixKeepsNu(d: string, t: string)
    requires |t| >= 2 && t[0] == 'n' && t[1] == 'u'
    ensures Contains("anti" + d, t) <==> Contains(d, t)
  {
    var s0 := "anti" + d;
    var s1 := "nti" + d;
    var s2 := "ti" + d;
    var s3 := "i" + d;
    assert s0[1..] == s1 && s1[1..] == s2 && s2[1..] == s3 && s3[1..] == d;
    assert !StartsWith(s0, t) by { assert s0[0] != t[0]; }
    assert !StartsWith(s1, t) by { assert s1[1] != t[1]; }
    assert !StartsWith(s2, t) by { assert s2[0] != t[0]; }
    assert !StartsWith(s3, t) by { assert s3[0] != t[0]; }
    assert Contains(s0, t) == Contains(s1, t) == Contains(s2, t) == Contains(s3, t) == Contains(d, t);
  }

  /** "anti" occurs in any name that starts with it. */
  lemma AntiPrefixIsAnti(d: string)
    ensures Contains("anti" + d, "anti")
  {
    assert ("anti" + d)[..4] == "anti";
  }

  /** Python's `sep.join(parts)`. */
  function Join(parts: seq<string>, sep: char): string
    requires |parts| >= 1
  {
    if |parts| == 1 then parts[0] else parts[0] + [sep] + Join(parts[1..], sep)
  }

  /** Python's `s.split(sep)` for a one-character separator: the pieces between the
      separators, so there is always one piece more than separators. */
  function Split(s: string, sep: char): (parts: seq<string>)
    ensures |parts| >= 1
    decreases |s|
  {
    if |s| == 0 then [""]
    else
      var rest := Split(s[1..], sep);
      if s[0] == sep then [""] + rest else [[s[0]] + rest[0]] + rest[1..]
  }

  /** No piece of a split holds the separator. */
  lemma {:induction false} SplitPiecesHaveNoSeparator(s: string, sep: char)
    ensures forall i :: 0 <= i < |Split(s, sep)| ==> sep !in Split(s, sep)[i]
    decreases |s|
  {
    if |s| > 0 {
      SplitPiecesHaveNoSeparator(s[1..], sep);
    }
  }

  /** Joining the pieces of a split gives back the string. */
  lemma {:induction false} JoinSplit(s: string, sep: char)
    ensures Join(Split(s, sep), sep) == s
    decreases |s|
  {
    if |s| > 0 {
      var rest := Split(s[1..], sep);
      JoinSplit(s[1..], sep);
      if s[0] != sep {
        var parts := [[s[0]] + rest[0]] + rest[1..];
        if |rest| > 1 {
          assert parts[1..] == rest[1..];
          assert Join(rest, sep) == rest[0] + [sep] + Join(rest[1..], sep);
        }
      } else {
        assert ([""] + rest)[1..] == rest;
      }
    }
  }

  /** A separator-free prefix joins the first piece of what follows it. */
  lemma {:induction false} SplitPrefix(p: string, t: string, sep: char)
    requires sep !in p
    ensures Split(p + t, sep) == [p + Split(t, sep)[0]] + Split(t, sep)[1..]
    decreases |p|
  {
    if |p| > 0 {
      assert (p + t)[1..] == p[1..] + t;
      assert p[0] in p;
      assert forall c :: c in p[1..] ==> c in p;
      SplitPrefix(p[1..], t, sep);
      assert [p[0]] + (p[1..] + Split(t, sep)[0]) == p + Split(t, sep)[0];
    } else {
      var parts := Split(t, sep);
      assert p + t == t;
      assert p + parts[0] == parts[0];
      assert [parts[0]] + parts[1..] == parts;
    }
  }

  /** Splitting a join of separator-free pieces gives back the pieces. */
  lemma {:induction false} SplitJoin(parts: seq<string>, sep: char)
    requires |parts| >= 1
    requires forall i :: 0 <= i < |parts| ==> sep !in parts[i]
    ensures Split(Join(parts, sep), sep) == parts
    decreases |parts|
  {
    var p := parts[0];
    if |parts| == 1 {
      SplitPrefix(p, "", sep);
      assert p + "" == p;
    } else {
      var t := Join(parts[1..], sep);
      SplitJoin(parts[1..], sep);
      assert Join(parts, sep) == p + ([sep] + t);
      SplitPrefix(p, [sep] + t, sep);
      assert ([sep] + t)[1..] == t;
      assert Split([sep] + t, sep) == [""] + Split(t, sep);
      assert p + "" == p;
      assert [p] + parts[1..] == parts;
    }
  }

  /** Python's `s.replace(t, '')`: scanning left to right, every occurrence of `t`
      that does not overlap an earlier removed one is deleted. */
  function RemoveAll(s: string, t: string): string
    requires |t| > 0
    decreases |s|
  {
    if |s| == 0 then s
    else if StartsWith(s, t) then RemoveAll(s[|t|..], t)
    else [s[0]] + RemoveAll(s[1..], t)
  }

  /** `s.replace(t, '')` leaves `s` as it is when `t` does not occur in it, and
      otherwise deletes at least one whole copy of `t`. */
  lemma {:induction false} RemoveAllShrinks(s: string, t: string)
    requires |t| > 0
    ensures !Contains(s, t) ==> RemoveAll(s, t) == s
    ensures Contains(s, t) ==> |RemoveAll(s, t)| <= |s| - |t|
    ensures |RemoveAll(s, t)| <= |s|
    decreases |s|
  {
    if |s| > 0 {
      if StartsWith(s, t) {
        RemoveAllShrinks(s[|t|..], t);
      } else {
        RemoveAllShrinks(s[1..], t);
        assert [s[0]] + s[1..] == s;
      }
    }
  }

  /** `t` has no proper prefix that is also a suffix, so two occurrences of `t` cannot overlap. */
  predicate Borderless(t: string)
  {
    forall k :: 0 < k < |t| ==> t[k..] != t[..|t| - k]
  }

  /** A string without the pattern's first character is left as it is. */
  lemma {:induction false} RemoveAllAbsent(s: string, t: string)
    requires |t| > 0 && t[0] !in s
    ensures RemoveAll(s, t) == s
    decreases |s|
  {
    if |s| > 0 {
      assert s[0] != t[0];
      assert forall c :: c in s[1..] ==> c in s;
      RemoveAllAbsent(s[1..], t);
    }
  }

  /** A string that starts with `t` still does after anything is appended. */
  lemma PrefixStable(p: string, r: string, t: string)
    requires StartsWith(p, t)
    ensures StartsWith(p + r, t) && (p + r)[|t|..] == p[|t|..] + r
  {
    assert (p + r)[..|t|] == p[..|t|];
  }

  /** A string that does not start with `t` does not after a character outside `t` and
      anything else are appended. */
  lemma BarrierBlocks(p: string, c: char, q: string, t: string)
    requires |t| > 0 && c !in t && !StartsWith(p, t)
    ensures !StartsWith(p + [c] + q, t)
  {
    var s := p + [c] + q;
    if |p| >= |t| {
      assert s[..|t|] == p[..|t|];
    } else if |t| <= |s| {
      assert s[..|t|][|p|] == c;
      assert t[|p|] in t;
    }
  }

  /** A non-empty string that does not start with a borderless `t` does not after `t`
      and anything else are appended. */
  lemma BorderlessBlocks(p: string, q: string, t: string)
    requires |t| > 0 && Borderless(t) && |p| > 0 && !StartsWith(p, t)
    ensures !StartsWith(p + t + q, t)
  {
    var s := p + t + q;
    if |p| >= |t| {
      assert s[..|t|] == p[..|t|];
    } else if |t| <= |s| {
      var k := |p|;
      assert s[..|t|][k..] == t[..|t| - k];
      assert t[k..] != t[..|t| - k];
    }
  }

  /** One step of the scan where the pattern is found: it is skipped. */
  lemma SkipPattern(s: string, t: string)
    requires |t| > 0 && StartsWith(s, t)
    ensures RemoveAll(s, t) == RemoveAll(s[|t|..], t)
  {
  }

  /** One step of the scan where the pattern is not found: the first character is kept. */
  lemma KeepFirst(s: string, t: string)
    requires |t| > 0 && |s| > 0 && !StartsWith(s, t)
    ensures RemoveAll(s, t) == [s[0]] + RemoveAll(s[1..], t)
  {
  }

  /** A character that does not occur in the pattern is a barrier for the scan: what is
      removed on its left and on its right is decided independently. */
  lemma {:induction false} RemoveAllAround(p: string, c: char, q: string, t: string)
    requires |t| > 0 && c !in t
    ensures RemoveAll(p + [c] + q, t) == RemoveAll(p, t) + [c] + RemoveAll(q, t)
    decreases |p|
  {
    var s := p + [c] + q;
    if |p| == 0 {
      BarrierBlocks(p, c, q, t);
      assert s[0] == c && s[1..] == q;
      KeepFirst(s, t);
    } else if StartsWith(p, t) {
      PrefixStable(p, [c] + q, t);
      assert p + ([c] + q) == s;
      assert s[|t|..] == p[|t|..] + [c] + q;
      SkipPattern(s, t);
      SkipPattern(p, t);
      RemoveAllAround(p[|t|..], c, q, t);
    } else {
      BarrierBlocks(p, c, q, t);
      assert s[0] == p[0] && s[1..] == p[1..] + [c] + q;
      KeepFirst(s, t);
      KeepFirst(p, t);
      RemoveAllAround(p[1..], c, q, t);
    }
  }

  /** The step of `RemoveAllBetween` where `p` starts with the pattern. */
  lemma BetweenSkip(p: string, q: string, t: string)
    requires |t| > 0 && StartsWith(p, t)
    requires RemoveAll(p[|t|..] + t + q, t) == RemoveAll(p[|t|..], t) + RemoveAll(q, t)
    ensures RemoveAll(p + t + q, t) == RemoveAll(p, t) + RemoveAll(q, t)
  {
    var s := p + t + q;
    PrefixStable(p, t + q, t);
    assert p + (t + q) == s;
    assert s[|t|..] == p[|t|..] + t + q;
    SkipPattern(s, t);
    SkipPattern(p, t);
  }

  /** The scan keeps the first character of `p + t + q` when no pattern starts there. */
  lemma KeepBeforePattern(p: string, q: string, t: string)
    requires |t| > 0 && |p| > 0 && !StartsWith(p + t + q, t)
    ensures RemoveAll(p + t + q, t) == [p[0]] + RemoveAll(p[1..] + t + q, t)
  {
    var s := p + t + q;
    assert s[0] == p[0] && s[1..] == p[1..] + t + q;
    KeepFirst(s, t);
  }

  lemma ConsAssoc(c: char, a: string, b: string)
    ensures [c] + (a + b) == ([c] + a) + b
  {
  }

  /** Deleting a borderless pattern that sits between two strings leaves the two
      strings' own deletions side by side. */
  lemma {:induction false} RemoveAllBetween(p: string, q: string, t: string)
    requires |t| > 0 && Borderless(t)
    ensures RemoveAll(p + t + q, t) == RemoveAll(p, t) + RemoveAll(q, t)
    decreases |p|
  {
    if |p| == 0 {
      var s := p + t + q;
      assert s[..|t|] == t && s[|t|..] == q;
      SkipPattern(s, t);
    } else if StartsWith(p, t) {
      RemoveAllBetween(p[|t|..], q, t);
      BetweenSkip(p, q, t);
    } else {
      BorderlessBlocks(p, q, t);
      RemoveAllBetween(p[1..], q, t);
      KeepBeforePattern(p, q, t);
      KeepFirst(p, t);
      ConsAssoc(p[0], RemoveAll(p[1..], t), RemoveAll(q, t));
    }
  }

  lemma AntiIsBorderless()
    ensures Borderless("anti")
  {
    var t := "anti";
    forall k | 0 < k < |t| ensures t[k..] != t[..|t| - k] {
      assert t[k..][0] != t[..|t| - k][0];
    }
  }
}
