/**
 * Variant selection (`selectBestPrompt`) on values: the default variant when
 * no criteria are given, otherwise the head of the variants stably sorted by
 * descending score.
 */
module Selection {
  import opened Wrappers
  import opened Catalogue
  import opened Scoring

  /** A variant paired with its score, as in the `scoredPrompts` array. */
  datatype Scored = Scored(prompt: PromptConfig, score: int)

  /** The single error `selectBestPrompt` throws. */
  datatype PromptError = NoPromptsAvailable(agentKey: string)

  /** The text of the thrown `Error`. */
  function ErrorMessage(e: PromptError): string
  {
    "No prompts available for agent: " + e.agentKey
  }

  // ---------------------------------------------------------------------------
  // Stable sort by descending score

  /** Scores never increase from left to right. */
  predicate SortedDesc(s: seq<Scored>)
  {
    forall i, j :: 0 <= i < j < |s| ==> s[i].score >= s[j].score
  }

  /**
   * Put `x` behind every element of `t` whose score is at least `x`'s, as the
   * comparator `b.score - a.score` of a stable sort does.
   */
  function InsertDesc(t: seq<Scored>, x: Scored): (r: seq<Scored>)
    ensures |r| == |t| + 1
    decreases |t|
  {
    if t == [] || t[|t| - 1].score >= x.score then t + [x]
    else InsertDesc(t[..|t| - 1], x) + [t[|t| - 1]]
  }

  /** Insertion adds exactly `x` to the elements. */
  lemma {:induction false} InsertDescPermutes(t: seq<Scored>, x: Scored)
    ensures multiset(InsertDesc(t, x)) == multiset(t) + multiset{x}
    decreases |t|
  {
    if t != [] && t[|t| - 1].score < x.score {
      InsertDescPermutes(t[..|t| - 1], x);
      assert t == t[..|t| - 1] + [t[|t| - 1]];
    }
  }

  /**
   * The order a stable sort with comparator `b.score - a.score` leaves: each
   * element in turn inserted after the ones before it that score at least as
   * much.  Every stable sort with that comparator gives this same order.
   */
  function StableSortDesc(s: seq<Scored>): (r: seq<Scored>)
    ensures |r| == |s|
    decreases |s|
  {
    if s == [] then []
    else InsertDesc(StableSortDesc(s[..|s| - 1]), s[|s| - 1])
  }

  /** Inserting into a sorted sequence keeps it sorted. */
  lemma {:induction false} InsertDescSorted(t: seq<Scored>, x: Scored)
    requires SortedDesc(t)
    ensures SortedDesc(InsertDesc(t, x))
    decreases |t|
  {
    if t != [] && t[|t| - 1].score < x.score {
      var init, last := t[..|t| - 1], t[|t| - 1];
      InsertDescSorted(init, x);
      var r' := InsertDesc(init, x);
      InsertDescPermutes(init, x);
      forall i | 0 <= i < |r'| ensures r'[i].score >= last.score {
        assert r'[i] in multiset(r');
        if r'[i] != x {
          assert r'[i] in multiset(init);
          var k :| 0 <= k < |init| && init[k] == r'[i];
          assert t[k] == init[k];
        }
      }
    }
  }

  /** The stable sort yields a sorted permutation of its input. */
  lemma {:induction false} StableSortDescSorted(s: seq<Scored>)
    ensures SortedDesc(StableSortDesc(s))
    ensures multiset(StableSortDesc(s)) == multiset(s)
    decreases |s|
  {
    if s != [] {
      StableSortDescSorted(s[..|s| - 1]);
      InsertDescSorted(StableSortDesc(s[..|s| - 1]), s[|s| - 1]);
      InsertDescPermutes(StableSortDesc(s[..|s| - 1]), s[|s| - 1]);
      assert s == s[..|s| - 1] + [s[|s| - 1]];
    }
  }

  /** The head after an insertion into a non-empty sorted sequence. */
  lemma {:induction false} InsertDescHead(t: seq<Scored>, x: Scored)
    requires |t| > 0 && SortedDesc(t)
    ensures InsertDesc(t, x)[0] == if x.score > t[0].score then x else t[0]
    decreases |t|
  {
    if t[|t| - 1].score < x.score && |t| > 1 {
      InsertDescHead(t[..|t| - 1], x);
    }
  }

  /**
   * The index a left-to-right scan keeps as the best: the first element whose
   * score is the largest.
   */
  function FirstMaxIndex(s: seq<Scored>): (k: nat)
    requires |s| > 0
    ensures k < |s|
    ensures forall j :: 0 <= j < |s| ==> s[j].score <= s[k].score
    ensures forall j :: 0 <= j < k ==> s[j].score < s[k].score
    decreases |s|
  {
    if |s| == 1 then 0
    else
      var k := FirstMaxIndex(s[..|s| - 1]);
      if s[|s| - 1].score > s[k].score then |s| - 1 else k
  }

  /**
   * The head of the stably sorted sequence is the first element of the
   * original order among those with the largest score.
   */
  lemma {:induction false} StableSortHead(s: seq<Scored>)
    requires |s| > 0
    ensures StableSortDesc(s)[0] == s[FirstMaxIndex(s)]
    decreases |s|
  {
    if |s| > 1 {
      var init := s[..|s| - 1];
      StableSortHead(init);
      StableSortDescSorted(init);
      InsertDescHead(StableSortDesc(init), s[|s| - 1]);
    }
  }

  /**
   * The in-place `scoredPrompts.sort((a, b) => b.score - a.score)`, as an
   * insertion sort: it leaves the array in the stable order.
   */
  method SortByScoreDesc(a: array<Scored>)
    modifies a
    ensures a[..] == StableSortDesc(old(a[..]))
  {
    ghost var s := a[..];
    var i := 0;
    while i < a.Length
      invariant 0 <= i <= a.Length
      invariant a[..i] == StableSortDesc(s[..i])
      invariant a[i..] == s[i..]
    {
      ghost var before := a[..];
      InsertAt(a, i);
      SortStep(s, i, before, a[..]);
      i := i + 1;
    }
    assert s[..a.Length] == s;
  }

  /**
   * One round of the insertion sort: inserting the next element of `s` into
   * the sorted prefix extends the sorted prefix by one.
   */
  lemma SortStep(s: seq<Scored>, i: nat, before: seq<Scored>, after: seq<Scored>)
    requires i < |s| == |before| == |after|
    requires before[..i] == StableSortDesc(s[..i]) && before[i..] == s[i..]
    requires after[..i + 1] == InsertDesc(before[..i], before[i])
    requires after[i + 1..] == before[i + 1..]
    ensures after[..i + 1] == StableSortDesc(s[..i + 1]) && after[i + 1..] == s[i + 1..]
  {
    assert s[..i + 1][..i] == s[..i];
    assert before[i] == before[i..][0] == s[i];
    assert before[i + 1..] == before[i..][1..];
    assert s[i + 1..] == s[i..][1..];
  }

  /** Move `a[i]` left past the elements of `a[..i]` that score less than it. */
  method InsertAt(a: array<Scored>, i: nat)
    requires i < a.Length
    modifies a
    ensures a[..i + 1] == InsertDesc(old(a[..i]), old(a[i]))
    ensures a[i + 1..] == old(a[i + 1..])
  {
    ghost var t := a[..i];
    var x := a[i];
    var j := ShiftGreater(a, i, x);
    a[j] := x;
    InsertDescAt(t, j, x);
    InsertedAt(t, j, x, a[..i + 1]);
    assert a[i + 1..] == old(a[i + 1..]);
  }

  /** A sequence that agrees with `t` before `j`, holds `x` at `j` and `t` shifted by one after it. */
  lemma InsertedAt(t: seq<Scored>, j: nat, x: Scored, r: seq<Scored>)
    requires j <= |t| && |r| == |t| + 1
    requires forall k :: 0 <= k < j ==> r[k] == t[k]
    requires r[j] == x
    requires forall k :: j < k < |r| ==> r[k] == t[k - 1]
    ensures r == t[..j] + [x] + t[j..]
  {
    var inserted := t[..j] + [x] + t[j..];
    forall k | 0 <= k < |r| ensures r[k] == inserted[k] {
      if k < j {
        assert inserted[k] == t[k];
      } else if j < k {
        assert inserted[k] == t[j..][k - j - 1];
      }
    }
  }

  /**
   * The inner loop of the insertion: shift right by one every element of
   * `a[..i]`, from the right, that scores less than `x`; `j` is the gap left.
   */
  method ShiftGreater(a: array<Scored>, i: nat, x: Scored) returns (j: nat)
    requires i < a.Length
    modifies a
    ensures j <= i
    ensures forall k :: 0 <= k < j ==> a[k] == old(a[k])
    ensures forall k :: j < k <= i ==> a[k] == old(a[k - 1])
    ensures forall k :: i < k < a.Length ==> a[k] == old(a[k])
    ensures forall k :: j <= k < i ==> old(a[k]).score < x.score
    ensures j == 0 || old(a[j - 1]).score >= x.score
  {
    j := i;
    while j > 0 && a[j - 1].score < x.score
      invariant 0 <= j <= i
      invariant forall k :: 0 <= k < j ==> a[k] == old(a[k])
      invariant forall k :: j < k <= i ==> a[k] == old(a[k - 1])
      invariant forall k :: i < k < a.Length ==> a[k] == old(a[k])
      invariant forall k :: j <= k < i ==> old(a[k]).score < x.score
    {
      a[j] := a[j - 1];
      j := j - 1;
    }
  }

  /**
   * `x` lands at index `j` when the element before `j` scores at least as
   * much and every element from `j` on scores less.
   */
  lemma {:induction false} InsertDescAt(t: seq<Scored>, j: nat, x: Scored)
    requires j <= |t| && (j == 0 || t[j - 1].score >= x.score)
    requires forall k :: j <= k < |t| ==> t[k].score < x.score
    ensures InsertDesc(t, x) == t[..j] + [x] + t[j..]
    decreases |t|
  {
    if j < |t| {
      var init, last := t[..|t| - 1], t[|t| - 1];
      assert t == init + [last];
      InsertDescAt(init, j, x);
      SpliceAppend(init, j, x, last);
    } else {
      assert t[..j] == t;
    }
  }

  /** Splicing `x` in at `j` commutes with appending an element at the end. */
  lemma SpliceAppend(init: seq<Scored>, j: nat, x: Scored, last: Scored)
    requires j <= |init|
    ensures init[..j] + [x] + init[j..] + [last]
         == (init + [last])[..j] + [x] + (init + [last])[j..]
  {
    assert (init + [last])[..j] == init[..j];
    assert (init + [last])[j..] == init[j..] + [last];
  }

  // ---------------------------------------------------------------------------
  // Selection

  /** `prompts.map(prompt => ({prompt, score}))`. */
  function ScoreAll(agentKey: string, prompts: seq<PromptConfig>, criteria: Criteria): (r: seq<Scored>)
    ensures |r| == |prompts|
    ensures forall i :: 0 <= i < |r| ==> r[i] == Scored(prompts[i], Score(agentKey, prompts[i], criteria))
  {
    seq(|prompts|, i requires 0 <= i < |prompts| => Scored(prompts[i], Score(agentKey, prompts[i], criteria)))
  }

  /** `prompts.find(p => p.id === id)`: the first variant with that id, none for an undefined id. */
  function FindById(prompts: seq<PromptConfig>, id: Option<string>): (r: Option<PromptConfig>)
    ensures r.Some? <==> id.Some? && exists i :: 0 <= i < |prompts| && prompts[i].id == id.value
    ensures r.Some? ==> exists i :: (0 <= i < |prompts| && prompts[i] == r.value
      && r.value.id == id.value && forall j :: 0 <= j < i ==> prompts[j].id != id.value)
    decreases |prompts|
  {
    if prompts == [] || id.None? then None
    else if prompts[0].id == id.value then Some(prompts[0])
    else
      var r := FindById(prompts[1..], id);
      assert r.Some? ==> exists i :: (0 < i < |prompts| && prompts[i] == r.value
        && forall j :: 0 <= j < i ==> prompts[j].id != id.value) by {
        if r.Some? {
          var i :| 0 <= i < |prompts[1..]| && prompts[1..][i] == r.value
            && r.value.id == id.value && forall j :: 0 <= j < i ==> prompts[1..][j].id != id.value;
          assert prompts[i + 1] == r.value;
          forall j | 0 <= j < i + 1 ensures prompts[j].id != id.value {
            if j > 0 { assert prompts[j] == prompts[1..][j - 1]; }
          }
        }
      }
      assert (exists i :: 0 <= i < |prompts| && prompts[i].id == id.value)
        ==> exists i :: 0 <= i < |prompts[1..]| && prompts[1..][i].id == id.value by {
        if exists i :: 0 <= i < |prompts| && prompts[i].id == id.value {
          var i :| 0 <= i < |prompts| && prompts[i].id == id.value;
          assert prompts[1..][i - 1] == prompts[i];
        }
      }
      r
  }

  /** With no criteria: the declared default variant, else the first one. */
  function DefaultChoice(prompts: seq<PromptConfig>, defaultId: Option<string>): PromptConfig
    requires |prompts| > 0
  {
    match FindById(prompts, defaultId)
    case Some(p) => p
    case None => prompts[0]
  }

  /**
   * What `selectBestPrompt` returns for the agent's variants `prompts` and
   * the agent's declared default id: the error for no variants, the default
   * choice for empty criteria, else the head of the scored variants after a
   * stable sort by descending score.
   */
  function Choose(prompts: seq<PromptConfig>, defaultId: Option<string>, agentKey: string,
                  criteria: Criteria): (r: Result<PromptConfig, PromptError>)
    ensures r.Failure? <==> prompts == []
    ensures r.Failure? ==> r.error == NoPromptsAvailable(agentKey)
    ensures r.Success? ==> r.value in prompts
  {
    if |prompts| == 0 then Failure(NoPromptsAvailable(agentKey))
    else if |criteria| == 0 then Success(DefaultChoice(prompts, defaultId))
    else
      var sorted := StableSortDesc(ScoreAll(agentKey, prompts, criteria));
      StableSortHead(ScoreAll(agentKey, prompts, criteria));
      Success(sorted[0].prompt)
  }

  /**
   * With empty criteria the result is the first variant whose id is the
   * declared default, and the first variant when no id matches.
   */
  lemma ChooseDefault(prompts: seq<PromptConfig>, defaultId: string, agentKey: string)
    requires |prompts| > 0
    ensures var r := Choose(prompts, Some(defaultId), agentKey, map[]);
      && r.Success?
      && ((exists i :: 0 <= i < |prompts| && prompts[i].id == defaultId) ==>
            exists i :: 0 <= i < |prompts| && prompts[i] == r.value && r.value.id == defaultId
              && forall j :: 0 <= j < i ==> prompts[j].id != defaultId)
      && ((forall i :: 0 <= i < |prompts| ==> prompts[i].id != defaultId) ==> r.value == prompts[0])
  {
  }

  /**
   * With non-empty criteria the result is the variant at index `k` where `k`
   * has the highest score of all variants and every earlier variant scores
   * strictly less: the first variant, in listing order, of maximal score.
   */
  lemma ChooseBest(prompts: seq<PromptConfig>, defaultId: Option<string>, agentKey: string, criteria: Criteria)
    requires |prompts| > 0 && |criteria| > 0
    ensures var r := Choose(prompts, defaultId, agentKey, criteria);
      var k := FirstMaxIndex(ScoreAll(agentKey, prompts, criteria));
      && r == Success(prompts[k])
      && (forall j :: 0 <= j < |prompts| ==>
            Score(agentKey, prompts[j], criteria) <= Score(agentKey, prompts[k], criteria))
      && (forall j :: 0 <= j < k ==>
            Score(agentKey, prompts[j], criteria) < Score(agentKey, prompts[k], criteria))
  {
    var scored := ScoreAll(agentKey, prompts, criteria);
    StableSortHead(scored);
    var k := FirstMaxIndex(scored);
    forall j | 0 <= j < |prompts|
      ensures Score(agentKey, prompts[j], criteria) == scored[j].score
    {
    }
  }

  /**
   * A variant that earns a bonus beats every other variant of no higher
   * priority that earns none, and is therefore the one selected.
   */
  lemma BonusWins(prompts: seq<PromptConfig>, defaultId: Option<string>, agentKey: string,
                  criteria: Criteria, i: nat)
    requires agentKey in RegisteredAgents
    requires i < |prompts|
    requires Score(agentKey, prompts[i], criteria) > 10 * prompts[i].priority
    requires forall j :: 0 <= j < |prompts| && j != i ==>
      prompts[j].priority <= prompts[i].priority
      && Score(agentKey, prompts[j], criteria) == 10 * prompts[j].priority
    ensures Choose(prompts, defaultId, agentKey, criteria) == Success(prompts[i])
  {
    BonusNeedsCriteria(agentKey, prompts[i], criteria);
    ChooseBest(prompts, defaultId, agentKey, criteria);
  }
}
