/**
 * Facts about `{key}` placeholders.  A placeholder is a key framed by a pair
 * of braces; keys are plain identifiers, so they hold no brace themselves.
 */
module Placeholders {
  import opened Text

  /** The marker the prompt manager builds for a variable named `key`. */
  function Placeholder(key: string): (p: string)
    ensures |p| == |key| + 2 && p[0] == '{' && p[|p| - 1] == '}'
  {
    "{" + key + "}"
  }

  /** `s` holds neither an opening nor a closing brace. */
  predicate BraceFree(s: string)
  {
    '{' !in s && '}' !in s
  }

  /**
   * Scanning `s` from the left, starting inside an unclosed brace when `open`,
   * no opening brace is met while an earlier one is still unclosed.
   */
  predicate Unnested(s: string, open: bool)
    decreases |s|
  {
    if s == [] then true
    else if s[0] == '{' then !open && Unnested(s[1..], true)
    else if s[0] == '}' then Unnested(s[1..], false)
    else Unnested(s[1..], open)
  }

  /** The number of leading characters of `s` that are not braces. */
  function PlainPrefixLength(s: string): (n: nat)
    ensures n <= |s| && BraceFree(s[..n])
    ensures n < |s| ==> s[n] == '{' || s[n] == '}'
    decreases |s|
  {
    if s == [] || s[0] == '{' || s[0] == '}' then 0
    else
      var m := PlainPrefixLength(s[1..]);
      assert s[..m + 1] == [s[0]] + s[1..][..m];
      m + 1
  }

  /** Brace-free text does not change the scanning state. */
  lemma {:induction false} UnnestedSkip(u: string, r: string, open: bool)
    requires BraceFree(u)
    ensures Unnested(u + r, open) == Unnested(r, open)
    decreases |u|
  {
    if u == [] {
      assert u + r == r;
    } else {
      assert (u + r)[0] == u[0];
      assert (u + r)[1..] == u[1..] + r;
      UnnestedSkip(u[1..], r, open);
    }
  }

  /**
   * Text that starts with a brace-framed brace-free word starts with the
   * placeholder of `key` exactly when that word is `key`.
   */
  lemma FramedPrefix(u: string, key: string, r: string)
    requires BraceFree(u) && BraceFree(key)
    ensures StartsWith("{" + u + "}" + r, Placeholder(key)) <==> u == key
  {
    var t := "{" + u + "}" + r;
    if u == key {
      assert t[..|Placeholder(key)|] == Placeholder(key);
    } else {
      var q := Placeholder(key);
      if |q| <= |t| {
        if |u| < |key| {
          assert t[..|q|][|u| + 1] != q[|u| + 1];
        } else if |u| > |key| {
          assert t[..|q|][|key| + 1] != q[|key| + 1];
        } else {
          var i :| 0 <= i < |u| && u[i] != key[i];
          assert t[..|q|][i + 1] != q[i + 1];
        }
      }
    }
  }

  /**
   * One replacement step of a placeholder by a brace-free value, on a template
   * whose braces do not nest: afterwards the placeholder of `other` occurs
   * exactly when it is not the replaced one and it occurred before, and the
   * braces still do not nest.
   */
  lemma {:induction false} ReplacePlaceholder(s: string, key: string, val: string, other: string)
    requires BraceFree(key) && BraceFree(val) && BraceFree(other)
    requires Unnested(s, false)
    ensures Contains(ReplaceAll(s, Placeholder(key), val), Placeholder(other))
        <==> other != key && Contains(s, Placeholder(other))
    ensures Unnested(ReplaceAll(s, Placeholder(key), val), false)
    decreases |s|
  {
    var pat := Placeholder(key);
    if s == [] {
    } else if StartsWith(s, pat) {
      var rest := s[|pat|..];
      AfterPlaceholder(s, key);
      ReplacePlaceholder(rest, key, val, other);
      MatchStep(s, key, val, other);
    } else if s[0] != '{' {
      ReplacePlaceholder(s[1..], key, val, other);
      PlainStep(s, key, val, other);
    } else {
      var u, w, closed := OpenBrace(s);
      if closed {
        ReplacePlaceholder(w, key, val, other);
        ClosedBraceStep(s, u, w, key, val, other);
      } else {
        UnclosedBraceStep(s, key, val, other);
      }
    }
  }

  /** After a placeholder at the start, the scan is outside braces again. */
  lemma AfterPlaceholder(s: string, key: string)
    requires BraceFree(key) && StartsWith(s, Placeholder(key)) && Unnested(s, false)
    ensures Unnested(s[|Placeholder(key)|..], false)
  {
    var rest := s[|Placeholder(key)|..];
    assert s[1..] == key + ("}" + rest);
    UnnestedSkip(key, "}" + rest, true);
    assert ("}" + rest)[1..] == rest;
  }

  /** The step of `ReplacePlaceholder` where the text starts with the placeholder. */
  lemma MatchStep(s: string, key: string, val: string, other: string)
    requires BraceFree(key) && BraceFree(val) && BraceFree(other)
    requires StartsWith(s, Placeholder(key))
    requires var rest := s[|Placeholder(key)|..];
      && (Contains(ReplaceAll(rest, Placeholder(key), val), Placeholder(other))
          <==> other != key && Contains(rest, Placeholder(other)))
      && Unnested(ReplaceAll(rest, Placeholder(key), val), false)
    ensures Contains(ReplaceAll(s, Placeholder(key), val), Placeholder(other))
        <==> other != key && Contains(s, Placeholder(other))
    ensures Unnested(ReplaceAll(s, Placeholder(key), val), false)
  {
    var pat, q := Placeholder(key), Placeholder(other);
    var rest := s[|pat|..];
    var tail := ReplaceAll(rest, pat, val);
    ReplaceAtMatch(s, pat, val);
    ContainsSkip(val, tail, q);
    UnnestedSkip(val, tail, false);
    MatchedContains(s, key, other);
  }

  /** Text starting with `{key}` holds `{other}` exactly when `other` is `key` or the rest holds it. */
  lemma MatchedContains(s: string, key: string, other: string)
    requires BraceFree(key) && BraceFree(other)
    requires StartsWith(s, Placeholder(key))
    ensures Contains(s, Placeholder(other))
        <==> other == key || Contains(s[|Placeholder(key)|..], Placeholder(other))
  {
    var rest := s[|Placeholder(key)|..];
    assert s == "{" + key + "}" + rest;
    FramedContains(key, rest, other);
  }

  /** The step of `ReplacePlaceholder` where the text starts with a character other than `{`. */
  lemma PlainStep(s: string, key: string, val: string, other: string)
    requires |s| > 0 && s[0] != '{'
    requires Unnested(s, false)
    requires Contains(ReplaceAll(s[1..], Placeholder(key), val), Placeholder(other))
        <==> other != key && Contains(s[1..], Placeholder(other))
    requires Unnested(ReplaceAll(s[1..], Placeholder(key), val), false)
    ensures Contains(ReplaceAll(s, Placeholder(key), val), Placeholder(other))
        <==> other != key && Contains(s, Placeholder(other))
    ensures Unnested(ReplaceAll(s, Placeholder(key), val), false)
  {
    var pat, q := Placeholder(key), Placeholder(other);
    var tail := ReplaceAll(s[1..], pat, val);
    assert ReplaceAll(s, pat, val) == [s[0]] + tail;
    ContainsSkip([s[0]], tail, q);
    ContainsSkip([s[0]], s[1..], q);
    assert s == [s[0]] + s[1..];
    assert ([s[0]] + tail)[1..] == tail;
  }

  /**
   * An opening brace at the start of unnested text is either closed, framing
   * a brace-free word `u` followed by unnested text `w`, or never closed.
   */
  lemma OpenBrace(s: string) returns (u: string, w: string, closed: bool)
    requires |s| > 0 && s[0] == '{' && Unnested(s, false)
    ensures closed ==> s == "{" + u + "}" + w && BraceFree(u) && Unnested(w, false)
    ensures !closed ==> BraceFree(s[1..])
  {
    var t := s[1..];
    assert Unnested(t, true);
    var n := PlainPrefixLength(t);
    u := t[..n];
    var rest := t[n..];
    assert t == u + rest;
    UnnestedSkip(u, rest, true);
    assert Unnested(rest, true);
    closed := n < |t|;
    if closed {
      assert rest[0] == t[n];
      assert rest[0] == '}';
      w := rest[1..];
      assert Unnested(w, false);
      assert rest == "}" + w;
      assert s == "{" + u + "}" + w;
    } else {
      w := [];
      assert t == u;
    }
  }

  /** The step of `ReplacePlaceholder` at a closed brace pair that is not the replaced placeholder. */
  lemma ClosedBraceStep(s: string, u: string, w: string, key: string, val: string, other: string)
    requires BraceFree(key) && BraceFree(val) && BraceFree(other) && BraceFree(u)
    requires s == "{" + u + "}" + w && !StartsWith(s, Placeholder(key))
    requires Contains(ReplaceAll(w, Placeholder(key), val), Placeholder(other))
        <==> other != key && Contains(w, Placeholder(other))
    requires Unnested(ReplaceAll(w, Placeholder(key), val), false)
    ensures Contains(ReplaceAll(s, Placeholder(key), val), Placeholder(other))
        <==> other != key && Contains(s, Placeholder(other))
    ensures Unnested(ReplaceAll(s, Placeholder(key), val), false)
  {
    var pat := Placeholder(key);
    var tail := ReplaceAll(w, pat, val);
    FramedReplace(u, w, key, val);
    FramedPrefix(u, key, w);
    FramedContains(u, w, other);
    FramedContains(u, tail, other);
    FramedUnnested(u, tail);
  }

  /** Replacement copies a brace pair that is not the placeholder. */
  lemma FramedReplace(u: string, w: string, key: string, val: string)
    requires BraceFree(u) && BraceFree(key) && u != key
    ensures ReplaceAll("{" + u + "}" + w, Placeholder(key), val)
        == "{" + u + "}" + ReplaceAll(w, Placeholder(key), val)
  {
    var s := "{" + u + "}" + w;
    FramedPrefix(u, key, w);
    assert s[1..] == (u + "}") + w;
    ReplaceSkip(u + "}", w, Placeholder(key), val);
  }

  /** A brace pair at the start holds a placeholder only when it is that placeholder. */
  lemma FramedContains(u: string, w: string, other: string)
    requires BraceFree(u) && BraceFree(other)
    ensures Contains("{" + u + "}" + w, Placeholder(other)) <==> u == other || Contains(w, Placeholder(other))
  {
    var s := "{" + u + "}" + w;
    FramedPrefix(u, other, w);
    assert s[1..] == (u + "}") + w;
    ContainsSkip(u + "}", w, Placeholder(other));
  }

  /** A closed brace pair at the start keeps the scan outside braces. */
  lemma FramedUnnested(u: string, w: string)
    requires BraceFree(u)
    ensures Unnested("{" + u + "}" + w, false) == Unnested(w, false)
  {
    var s := "{" + u + "}" + w;
    assert s[1..] == u + ("}" + w);
    UnnestedSkip(u, "}" + w, true);
    assert ("}" + w)[1..] == w;
  }

  /** The step of `ReplacePlaceholder` at an opening brace that is never closed. */
  lemma UnclosedBraceStep(s: string, key: string, val: string, other: string)
    requires BraceFree(key) && BraceFree(other)
    requires |s| > 0 && s[0] == '{' && BraceFree(s[1..]) && !StartsWith(s, Placeholder(key))
    requires Unnested(s, false)
    ensures Contains(ReplaceAll(s, Placeholder(key), val), Placeholder(other))
        <==> other != key && Contains(s, Placeholder(other))
    ensures Unnested(ReplaceAll(s, Placeholder(key), val), false)
  {
    var pat, q := Placeholder(key), Placeholder(other);
    var t := s[1..];
    ReplaceSkip(t, [], pat, val);
    assert t + [] == t;
    assert ReplaceAll(s, pat, val) == s;
    assert !StartsWith(s, q) by {
      if StartsWith(s, q) { assert false; }
    }
    ContainsSkip(t, [], q);
  }

  /**
   * Replacing one placeholder, whatever the value, never destroys the
   * placeholder of a different key: the two cannot overlap.
   */
  lemma {:induction false} ReplaceKeepsOtherPlaceholder(s: string, key: string, val: string, other: string)
    requires BraceFree(key) && BraceFree(other) && key != other
    requires Contains(s, Placeholder(other))
    ensures Contains(ReplaceAll(s, Placeholder(key), val), Placeholder(other))
    decreases |s|
  {
    var pat, q := Placeholder(key), Placeholder(other);
    if StartsWith(s, pat) {
      var rest := s[|pat|..];
      assert s == "{" + key + "}" + rest;
      FramedPrefix(key, other, rest);
      assert s[1..] == (key + "}") + rest;
      ContainsSkip(key + "}", rest, q);
      ReplaceKeepsOtherPlaceholder(rest, key, val, other);
      ContainsInSuffix(val, ReplaceAll(rest, pat, val), q);
    } else if Contains(s[1..], q) {
      ReplaceKeepsOtherPlaceholder(s[1..], key, val, other);
      var r := ReplaceAll(s[1..], pat, val);
      assert ([s[0]] + r)[1..] == r;
    } else {
      assert StartsWith(s, q);
      CopiedPlaceholder(s, key, val, other);
    }
  }

  /** A placeholder of another key at the start of the text is copied through. */
  lemma CopiedPlaceholder(s: string, key: string, val: string, other: string)
    requires BraceFree(key) && BraceFree(other) && key != other
    requires StartsWith(s, Placeholder(other)) && !StartsWith(s, Placeholder(key))
    ensures Contains(ReplaceAll(s, Placeholder(key), val), Placeholder(other))
  {
    var pat, q := Placeholder(key), Placeholder(other);
    var rest := s[|q|..];
    assert s == "{" + other + "}" + rest;
    FramedReplace(other, rest, key, val);
    FramedPrefix(other, other, ReplaceAll(rest, pat, val));
    assert StartsWith(ReplaceAll(s, pat, val), q);
  }

  /** A single placeholder after brace-free text is the one replaced. */
  lemma ReplaceOnce(u: string, key: string, w: string, val: string)
    requires '{' !in u && !Contains(w, Placeholder(key))
    ensures ReplaceAll(u + Placeholder(key) + w, Placeholder(key), val) == u + val + w
  {
    var pat := Placeholder(key);
    assert u + pat + w == u + (pat + w);
    ReplaceSkip(u, pat + w, pat, val);
    assert StartsWith(pat + w, pat);
    assert (pat + w)[|pat|..] == w;
    ReplaceAbsent(w, pat, val);
  }
}
