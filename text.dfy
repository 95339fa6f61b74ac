/**
 * Literal string operations used by the prompt manager: substring test
 * (`String.prototype.includes`) and global literal replacement
 * (`String.prototype.replace` with a global pattern that matches a fixed string).
 */
module Text {

  /** `p` is a prefix of `s`. */
  predicate StartsWith(s: string, p: string)
  {
    |p| <= |s| && s[..|p|] == p
  }

  /** `s.includes(p)`: `p` occurs somewhere in `s`. */
  predicate Contains(s: string, p: string)
    decreases |s|
  {
    StartsWith(s, p) || (|s| > 0 && Contains(s[1..], p))
  }

  /** `p` occurs in `s` at index `i`. */
  predicate OccursAt(s: string, p: string, i: int)
  {
    0 <= i <= |s| - |p| && s[i..i + |p|] == p
  }

  /** `Contains` is the usual "occurs at some index" relation. */
  lemma {:induction false} ContainsIffOccursAt(s: string, p: string)
    ensures Contains(s, p) <==> exists i :: OccursAt(s, p, i)
    decreases |s|
  {
    if StartsWith(s, p) {
      assert OccursAt(s, p, 0) by { assert s[0..|p|] == s[..|p|]; }
    } else if |s| == 0 {
    } else {
      ContainsIffOccursAt(s[1..], p);
      if Contains(s[1..], p) {
        var i :| OccursAt(s[1..], p, i);
        OccursShift(s, p, i);
      } else {
        forall i | i > 0 ensures !OccursAt(s, p, i) {
          OccursShift(s, p, i - 1);
        }
      }
    }
  }

  /** An occurrence in the tail is an occurrence one index further in the text. */
  lemma OccursShift(s: string, p: string, i: int)
    requires |s| > 0 && i >= 0
    ensures OccursAt(s[1..], p, i) <==> OccursAt(s, p, i + 1)
  {
    if i <= |s| - 1 - |p| {
      forall k | i + 1 <= k < i + 1 + |p| ensures s[1..][k - 1] == s[k] { }
      assert s[1..][i..i + |p|] == s[i + 1..i + 1 + |p|];
    }
  }

  /** An occurrence in a suffix is an occurrence in the whole string. */
  lemma {:induction false} ContainsInSuffix(u: string, r: string, p: string)
    requires Contains(r, p)
    ensures Contains(u + r, p)
    decreases |u|
  {
    if u != [] {
      assert (u + r)[1..] == u[1..] + r;
      ContainsInSuffix(u[1..], r, p);
    } else {
      assert u + r == r;
    }
  }

  /** A prefix that does not hold the first character of `p` cannot host an occurrence of `p`. */
  lemma {:induction false} ContainsSkip(u: string, r: string, p: string)
    requires |p| > 0 && p[0] !in u
    ensures Contains(u + r, p) <==> Contains(r, p)
    decreases |u|
  {
    if u != [] {
      assert (u + r)[0] == u[0];
      assert (u + r)[1..] == u[1..] + r;
      ContainsSkip(u[1..], r, p);
    } else {
      assert u + r == r;
    }
  }

  /**
   * `s.replace(new RegExp(pat, 'g'), val)` for a pattern that matches only the
   * literal `pat`: the string is scanned from the left and every occurrence of
   * `pat` that does not overlap an earlier replaced one is replaced by `val`.
   */
  function ReplaceAll(s: string, pat: string, val: string): string
    requires |pat| > 0
    decreases |s|
  {
    if s == [] then []
    else if StartsWith(s, pat) then val + ReplaceAll(s[|pat|..], pat, val)
    else [s[0]] + ReplaceAll(s[1..], pat, val)
  }

  /** A pattern that does not occur leaves the text unchanged. */
  lemma {:induction false} ReplaceAbsent(s: string, pat: string, val: string)
    requires |pat| > 0 && !Contains(s, pat)
    ensures ReplaceAll(s, pat, val) == s
    decreases |s|
  {
    if s != [] {
      ReplaceAbsent(s[1..], pat, val);
      assert s == [s[0]] + s[1..];
    }
  }

  /** Text holding no first character of the pattern is copied unchanged. */
  lemma {:induction false} ReplaceSkip(u: string, rest: string, pat: string, val: string)
    requires |pat| > 0 && pat[0] !in u
    ensures ReplaceAll(u + rest, pat, val) == u + ReplaceAll(rest, pat, val)
    decreases |u|
  {
    if u != [] {
      var s := u + rest;
      assert s[0] == u[0];
      assert !StartsWith(s, pat) by {
        if |pat| <= |s| { assert s[..|pat|][0] == u[0]; }
      }
      assert s[1..] == u[1..] + rest;
      ReplaceSkip(u[1..], rest, pat, val);
      assert u == [u[0]] + u[1..];
    } else {
      assert u + rest == rest;
    }
  }

  /**
   * The pieces of `s` between the occurrences of `pat` found by a left-to-right
   * scan; there is always at least one piece.
   */
  function Split(s: string, pat: string): (pieces: seq<string>)
    requires |pat| > 0
    ensures |pieces| > 0
    decreases |s|
  {
    if s == [] then [[]]
    else if StartsWith(s, pat) then [[]] + Split(s[|pat|..], pat)
    else
      var t := Split(s[1..], pat);
      [[s[0]] + t[0]] + t[1..]
  }

  /** The pieces glued back together with `sep` between each two of them. */
  function Join(pieces: seq<string>, sep: string): string
    requires |pieces| > 0
    decreases |pieces|
  {
    if |pieces| == 1 then pieces[0] else pieces[0] + sep + Join(pieces[1..], sep)
  }

  /** Splitting at the occurrences of `pat` and joining with `pat` gives back the text. */
  lemma {:induction false} SplitJoin(s: string, pat: string)
    requires |pat| > 0
    ensures Join(Split(s, pat), pat) == s
    decreases |s|
  {
    if s == [] {
    } else if StartsWith(s, pat) {
      SplitJoin(s[|pat|..], pat);
      SplitAtMatch(s, pat);
      JoinEmptyHead(Split(s[|pat|..], pat), pat);
      assert s == pat + s[|pat|..];
    } else {
      SplitJoin(s[1..], pat);
      SplitPlain(s, pat);
      JoinHead(Split(s[1..], pat), s[0], pat);
      assert s == [s[0]] + s[1..];
    }
  }

  /** At an occurrence the split starts an empty piece and resumes after the occurrence. */
  lemma SplitAtMatch(s: string, pat: string)
    requires |pat| > 0 && StartsWith(s, pat)
    ensures Split(s, pat) == [[]] + Split(s[|pat|..], pat)
  {
  }

  /** Away from an occurrence the first character joins the first piece of the tail's split. */
  lemma SplitPlain(s: string, pat: string)
    requires |pat| > 0 && |s| > 0 && !StartsWith(s, pat)
    ensures Split(s, pat) == [[s[0]] + Split(s[1..], pat)[0]] + Split(s[1..], pat)[1..]
  {
  }

  /** No piece of the split holds the pattern. */
  lemma {:induction false} SplitPiecesFree(s: string, pat: string)
    requires |pat| > 0
    ensures forall i :: 0 <= i < |Split(s, pat)| ==> !Contains(Split(s, pat)[i], pat)
    decreases |s|
  {
    if s == [] {
      assert !StartsWith([], pat);
    } else if StartsWith(s, pat) {
      var t := Split(s[|pat|..], pat);
      SplitPiecesFree(s[|pat|..], pat);
      assert !StartsWith([], pat);
      forall i | 0 < i < |[[]] + t| ensures ([[]] + t)[i] == t[i - 1] { }
    } else {
      var t := Split(s[1..], pat);
      SplitPiecesFree(s[1..], pat);
      var head := [s[0]] + t[0];
      // the new first piece adds one character in front of a piece free of
      // the pattern, and does not start with it since s does not
      var pieces := [head] + t[1..];
      assert !Contains(head, pat) by {
        SplitJoin(s, pat);
        JoinPrefix(pieces, pat);
        if |pat| <= |head| {
          assert head[..|pat|] == s[..|pat|];
        }
        assert head[1..] == t[0];
      }
      forall i | 0 <= i < |pieces| ensures !Contains(pieces[i], pat) {
        if i > 0 { assert pieces[i] == t[i]; }
      }
    }
  }

  /** Replacement is joining the pieces of the split with the value. */
  lemma {:induction false} ReplaceIsJoin(s: string, pat: string, val: string)
    requires |pat| > 0
    ensures ReplaceAll(s, pat, val) == Join(Split(s, pat), val)
    decreases |s|
  {
    if s == [] {
    } else if StartsWith(s, pat) {
      ReplaceIsJoin(s[|pat|..], pat, val);
      ReplaceAtMatch(s, pat, val);
      SplitAtMatch(s, pat);
      JoinEmptyHead(Split(s[|pat|..], pat), val);
    } else {
      ReplaceIsJoin(s[1..], pat, val);
      SplitPlain(s, pat);
      JoinHead(Split(s[1..], pat), s[0], val);
    }
  }

  /** At an occurrence the value is emitted and the scan resumes after the occurrence. */
  lemma ReplaceAtMatch(s: string, pat: string, val: string)
    requires |pat| > 0 && StartsWith(s, pat)
    ensures ReplaceAll(s, pat, val) == val + ReplaceAll(s[|pat|..], pat, val)
  {
  }

  /** An empty first piece contributes only the separator after it. */
  lemma JoinEmptyHead(t: seq<string>, sep: string)
    requires |t| > 0
    ensures Join([[]] + t, sep) == sep + Join(t, sep)
  {
    assert ([[]] + t)[1..] == t;
  }

  /**
   * Replacement replaces EVERY occurrence: splitting at the occurrences and
   * joining with the pattern gives back the text, no piece holds the pattern,
   * and replacement is joining the same pieces with the value instead.
   */
  lemma ReplaceAllIsSplitJoin(s: string, pat: string, val: string)
    requires |pat| > 0
    ensures Join(Split(s, pat), pat) == s
    ensures forall i :: 0 <= i < |Split(s, pat)| ==> !Contains(Split(s, pat)[i], pat)
    ensures ReplaceAll(s, pat, val) == Join(Split(s, pat), val)
  {
    SplitJoin(s, pat);
    SplitPiecesFree(s, pat);
    ReplaceIsJoin(s, pat, val);
  }

  /** Prefixing the first piece prefixes the joined text. */
  lemma JoinHead(t: seq<string>, c: char, sep: string)
    requires |t| > 0
    ensures Join([[c] + t[0]] + t[1..], sep) == [c] + Join(t, sep)
  {
    var pieces := [[c] + t[0]] + t[1..];
    if |t| > 1 {
      assert pieces[1..] == t[1..];
    }
  }

  /** The first piece is a prefix of the joined text. */
  lemma JoinPrefix(t: seq<string>, sep: string)
    requires |t| > 0
    ensures |t[0]| <= |Join(t, sep)| && Join(t, sep)[..|t[0]|] == t[0]
  {
    if |t| > 1 {
      assert Join(t, sep) == t[0] + (sep + Join(t[1..], sep));
    }
  }
}
