/**
 * Variable substitution of `getOptimizedPrompt`: the variables are visited in
 * order and each one replaces every `{key}` of the text built so far with its
 * value.  Because the steps are sequential, a value that itself holds
 * `{otherKey}` can be rewritten by a later variable.
 */
module Substitution {
  import opened Text
  import opened Placeholders

  /** The `Object.entries(variables)` list: (key, value) pairs in visiting order. */
  type Variables = seq<(string, string)>

  /** The keys of the variables. */
  function Keys(vars: Variables): (ks: set<string>)
    ensures forall i :: 0 <= i < |vars| ==> vars[i].0 in ks
    ensures forall k :: k in ks ==> exists i :: 0 <= i < |vars| && vars[i].0 == k
    decreases |vars|
  {
    if vars == [] then {}
    else
      var ks := Keys(vars[..|vars| - 1]) + {vars[|vars| - 1].0};
      assert forall i :: 0 <= i < |vars| - 1 ==> vars[i] == vars[..|vars| - 1][i];
      ks
  }

  /** Every key and every value is free of braces, as plain identifiers and ordinary text are. */
  predicate PlainVariables(vars: Variables)
  {
    forall i :: 0 <= i < |vars| ==> BraceFree(vars[i].0) && BraceFree(vars[i].1)
  }

  /** Every key is free of braces. */
  predicate PlainKeys(vars: Variables)
  {
    forall i :: 0 <= i < |vars| ==> BraceFree(vars[i].0)
  }

  /** The text after the replacement of each variable in turn. */
  function SubstituteAll(template: string, vars: Variables): string
    decreases |vars|
  {
    if vars == [] then template
    else
      var (key, value) := vars[|vars| - 1];
      ReplaceAll(SubstituteAll(template, vars[..|vars| - 1]), Placeholder(key), value)
  }

  /** Substituting one more variable is one more replacement of the text substituted so far. */
  lemma SubstituteSnoc(template: string, vars: Variables, key: string, value: string)
    ensures SubstituteAll(template, vars + [(key, value)])
         == ReplaceAll(SubstituteAll(template, vars), Placeholder(key), value)
  {
    assert (vars + [(key, value)])[..|vars|] == vars;
  }

  /**
   * For a template whose braces do not nest and variables free of braces, a
   * placeholder `{other}` occurs in the result exactly when `other` is not
   * one of the keys and `{other}` occurs in the template; the result's
   * braces still do not nest.
   */
  lemma {:induction false} SubstituteBraced(template: string, vars: Variables, other: string)
    requires PlainVariables(vars) && BraceFree(other)
    requires Unnested(template, false)
    ensures Contains(SubstituteAll(template, vars), Placeholder(other))
        <==> other !in Keys(vars) && Contains(template, Placeholder(other))
    ensures Unnested(SubstituteAll(template, vars), false)
    decreases |vars|
  {
    if vars != [] {
      var init := vars[..|vars| - 1];
      var (key, value) := vars[|vars| - 1];
      assert PlainVariables(init) by {
        forall i | 0 <= i < |init| ensures BraceFree(init[i].0) && BraceFree(init[i].1) {
          assert init[i] == vars[i];
        }
      }
      SubstituteBraced(template, init, other);
      ReplacePlaceholder(SubstituteAll(template, init), key, value, other);
      assert Keys(vars) == Keys(init) + {key};
    }
  }

  /**
   * Under the same conditions no placeholder of a supplied key is left in
   * the result.
   */
  lemma NoPlaceholderRemains(template: string, vars: Variables, key: string)
    requires PlainVariables(vars) && Unnested(template, false)
    requires key in Keys(vars)
    ensures !Contains(SubstituteAll(template, vars), Placeholder(key))
  {
    var i :| 0 <= i < |vars| && vars[i].0 == key;
    SubstituteBraced(template, vars, key);
  }

  /**
   * A placeholder of the template whose key is not supplied survives
   * literally, whatever the values are.
   */
  lemma {:induction false} SubstituteKeepsUnmatched(template: string, vars: Variables, other: string)
    requires PlainKeys(vars) && BraceFree(other)
    requires other !in Keys(vars)
    requires Contains(template, Placeholder(other))
    ensures Contains(SubstituteAll(template, vars), Placeholder(other))
    decreases |vars|
  {
    if vars != [] {
      var init := vars[..|vars| - 1];
      var (key, value) := vars[|vars| - 1];
      assert PlainKeys(init) by {
        forall i | 0 <= i < |init| ensures BraceFree(init[i].0) {
          assert init[i] == vars[i];
        }
      }
      assert Keys(vars) == Keys(init) + {key};
      SubstituteKeepsUnmatched(template, init, other);
      ReplaceKeepsOtherPlaceholder(SubstituteAll(template, init), key, value, other);
    }
  }

  /** A variable whose placeholder does not occur in the text so far changes nothing. */
  lemma SubstituteAbsentEntry(template: string, vars: Variables, key: string, value: string)
    requires !Contains(SubstituteAll(template, vars), Placeholder(key))
    ensures SubstituteAll(template, vars + [(key, value)]) == SubstituteAll(template, vars)
  {
    SubstituteSnoc(template, vars, key, value);
    ReplaceAbsent(SubstituteAll(template, vars), Placeholder(key), value);
  }

  /** A template holding no placeholder of any supplied key comes back unchanged. */
  lemma {:induction false} SubstituteNothingToReplace(template: string, vars: Variables)
    requires forall i :: 0 <= i < |vars| ==> !Contains(template, Placeholder(vars[i].0))
    ensures SubstituteAll(template, vars) == template
    decreases |vars|
  {
    if vars != [] {
      var init := vars[..|vars| - 1];
      assert forall i :: 0 <= i < |init| ==> init[i] == vars[i];
      SubstituteNothingToReplace(template, init);
      ReplaceAbsent(template, Placeholder(vars[|vars| - 1].0), vars[|vars| - 1].1);
    }
  }

  /**
   * Sequential substitution: a value that introduces the placeholder of a
   * later key is rewritten in turn, so "{a}" with a := "{b}" and then
   * b := x comes out as x, for any keys `a`, `b` and any value `x`.
   */
  lemma LaterValueRewritten(a: string, b: string, x: string)
    ensures SubstituteAll(Placeholder(a), [(a, Placeholder(b)), (b, x)]) == x
  {
    ReplaceWhole(Placeholder(a), Placeholder(b));
    ReplaceWhole(Placeholder(b), x);
    SubstituteSnoc(Placeholder(a), [], a, Placeholder(b));
    assert [] + [(a, Placeholder(b))] == [(a, Placeholder(b))];
    SubstituteSnoc(Placeholder(a), [(a, Placeholder(b))], b, x);
    assert [(a, Placeholder(b))] + [(b, x)] == [(a, Placeholder(b)), (b, x)];
  }

  /**
   * A value that introduces the placeholder of an EARLIER key is not
   * rewritten: "{b}" with a := x and then b := "{a}" comes out as "{a}", so
   * a placeholder of a supplied key remains.
   */
  lemma EarlierValueSurvives(a: string, b: string, x: string)
    requires BraceFree(a) && BraceFree(b) && a != b
    ensures SubstituteAll(Placeholder(b), [(a, x), (b, Placeholder(a))]) == Placeholder(a)
    ensures a in Keys([(a, x), (b, Placeholder(a))])
  {
    assert !Contains(Placeholder(b), Placeholder(a)) by {
      assert Placeholder(b) == "{" + b + "}" + [];
      FramedContains(b, [], a);
    }
    ReplaceAbsent(Placeholder(b), Placeholder(a), x);
    ReplaceWhole(Placeholder(b), Placeholder(a));
    SubstituteSnoc(Placeholder(b), [], a, x);
    assert [] + [(a, x)] == [(a, x)];
    SubstituteSnoc(Placeholder(b), [(a, x)], b, Placeholder(a));
    assert [(a, x)] + [(b, Placeholder(a))] == [(a, x), (b, Placeholder(a))];
  }

  /** A placeholder that is the whole text is replaced by the value. */
  lemma ReplaceWhole(p: string, v: string)
    requires |p| > 0
    ensures ReplaceAll(p, p, v) == v
  {
    assert StartsWith(p, p);
    ReplaceAtMatch(p, p, v);
    assert p[|p|..] == [];
  }

  /**
   * A template with two different placeholders in brace-free text, such as
   * "Hello {name}, amount {amount}", gets both values put in place.
   */
  lemma SubstituteTwo(u: string, k1: string, m: string, k2: string, w: string, v1: string, v2: string)
    requires BraceFree(u) && BraceFree(m) && BraceFree(w) && BraceFree(v1)
    requires BraceFree(k1) && BraceFree(k2) && k1 != k2
    ensures SubstituteAll(u + Placeholder(k1) + m + Placeholder(k2) + w, [(k1, v1), (k2, v2)])
         == u + v1 + m + v2 + w
  {
    var p1, p2 := Placeholder(k1), Placeholder(k2);
    var template := u + p1 + m + p2 + w;
    var once := u + v1 + m + p2 + w;
    assert ReplaceAll(template, p1, v1) == once by { FirstOfTwo(u, k1, m, k2, w, v1); }
    assert ReplaceAll(once, p2, v2) == u + v1 + m + v2 + w by {
      assert once == (u + v1 + m) + p2 + w;
      NoPlaceholderIn(w, k2);
      ReplaceOnce(u + v1 + m, k2, w, v2);
    }
    SubstituteSnoc(template, [], k1, v1);
    assert [] + [(k1, v1)] == [(k1, v1)];
    SubstituteSnoc(template, [(k1, v1)], k2, v2);
    assert [(k1, v1)] + [(k2, v2)] == [(k1, v1), (k2, v2)];
  }

  /** The greeting template "Hello {name}, amount {amount}", filled in. */
  lemma GreetingExample()
    ensures SubstituteAll("Hello {name}, amount {amount}", [("name", "Alice"), ("amount", "100")])
         == "Hello Alice, amount 100"
  {
    GreetingPlain();
    GreetingTemplate();
    SubstituteTwo("Hello ", "name", ", amount ", "amount", "", "Alice", "100");
    GreetingFilled();
  }

  /** The literal pieces of the greeting hold no brace. */
  lemma GreetingPlain()
    ensures BraceFree("Hello ") && BraceFree(", amount ") && BraceFree("") && BraceFree("Alice")
    ensures BraceFree("name") && BraceFree("amount") && "name" != "amount"
  {
  }

  /** The greeting template is its text pieces around the two placeholders. */
  lemma GreetingTemplate()
    ensures "Hello {name}, amount {amount}" == "Hello " + Placeholder("name") + ", amount " + Placeholder("amount") + ""
  {
    assert Placeholder("name") == "{name}";
    assert Placeholder("amount") == "{amount}";
  }

  /** The filled-in greeting is its text pieces around the two values. */
  lemma GreetingFilled()
    ensures "Hello " + "Alice" + ", amount " + "100" + "" == "Hello Alice, amount 100"
  {
  }

  /** The first of two placeholders, replaced. */
  lemma FirstOfTwo(u: string, k1: string, m: string, k2: string, w: string, v1: string)
    requires BraceFree(u) && BraceFree(m) && BraceFree(w)
    requires BraceFree(k1) && BraceFree(k2) && k1 != k2
    ensures ReplaceAll(u + Placeholder(k1) + m + Placeholder(k2) + w, Placeholder(k1), v1)
         == u + v1 + m + Placeholder(k2) + w
  {
    var p1, p2 := Placeholder(k1), Placeholder(k2);
    var rest := m + p2 + w;
    OnlySecondInRest(m, k2, w, k1);
    assert u + p1 + m + p2 + w == u + p1 + rest;
    ReplaceOnce(u, k1, rest, v1);
    assert u + v1 + rest == u + v1 + m + p2 + w;
  }

  /** Brace-free text around the placeholder of another key holds no placeholder of `k1`. */
  lemma OnlySecondInRest(m: string, k2: string, w: string, k1: string)
    requires BraceFree(m) && BraceFree(w) && BraceFree(k1) && BraceFree(k2) && k1 != k2
    ensures !Contains(m + Placeholder(k2) + w, Placeholder(k1))
  {
    var p1, p2 := Placeholder(k1), Placeholder(k2);
    NoPlaceholderIn(w, k1);
    assert m + p2 + w == m + (p2 + w);
    ContainsSkip(m, p2 + w, p1);
    assert p2 + w == "{" + k2 + "}" + w;
    FramedContains(k2, w, k1);
  }

  /** Brace-free text holds no placeholder. */
  lemma NoPlaceholderIn(w: string, key: string)
    requires BraceFree(w)
    ensures !Contains(w, Placeholder(key))
  {
    assert w + [] == w;
    ContainsSkip(w, [], Placeholder(key));
  }
}
