/** What the text of template rules scores, in terms of the rules as they are written. */
module TemplateMeaning {
  import opened TemplateRules
  import opened TemplateMatch

  predicate Wanted(t: Token) {
    t.op in {"~=", "=~", "=", "~"}
  }

  /** The words in front of the last one, with any white space between them and in front of it; leading space is dropped. */
  function Lead(words: seq<string>): string {
    if words == [] then ""
    else
      var text := Lead(words[..|words| - 1]) + Unescaped(words[|words| - 1]);
      if text == "" then "" else text + "\\s+"
  }

  function Pattern(words: seq<string>): string
    requires words != []
  {
    Lead(words[..|words| - 1]) + words[|words| - 1]
  }

  /** The expression matches a value of the attribute, or the empty text if there is none. */
  predicate Hits(env: Env, t: Token)
    requires t.words != []
  {
    || (env.values(t.attribute) == [] && env.matches(Pattern(t.words), ""))
    || exists v :: v in env.values(t.attribute) && env.matches(Pattern(t.words), v)
  }

  /** Which rules are wanted to hit. */
  function Wishes(tokens: seq<Token>): (w: seq<bool>)
    ensures |w| == |tokens| && forall k :: 0 <= k < |w| ==> w[k] == Wanted(tokens[k])
  {
    seq(|tokens|, k requires 0 <= k < |tokens| => Wanted(tokens[k]))
  }

  /** Which rules do hit. */
  function Facts(env: Env, tokens: seq<Token>): (h: seq<bool>)
    requires forall k :: 0 <= k < |tokens| ==> tokens[k].words != []
    ensures |h| == |tokens| && forall k :: 0 <= k < |h| ==> h[k] == Hits(env, tokens[k])
  {
    seq(|tokens|, k requires 0 <= k < |tokens| => Hits(env, tokens[k]))
  }

  /** All rules from one to the other are wanted. */
  predicate Together(w: seq<bool>, j: nat, k: nat) {
    forall i :: 0 <= i < |w| && (j <= i <= k || k <= i <= j) ==> w[i]
  }

  /** No unwanted expression hits, and of wanted ones that stand together one does. */
  ghost predicate Fits(w: seq<bool>, h: seq<bool>)
    requires |w| == |h|
  {
    && (forall k :: 0 <= k < |w| && !w[k] ==> !h[k])
    && (forall k {:trigger Helped(w, h, k)} :: 0 <= k < |w| && w[k] ==> Helped(w, h, k))
  }

  /** Some expression hits that stands together with expression k. */
  ghost predicate Helped(w: seq<bool>, h: seq<bool>, k: nat)
    requires |w| == |h|
  {
    exists j :: 0 <= j < |w| && Together(w, j, k) && h[j]
  }

  /** The rules that come out as they should. */
  function Fulfilled(w: seq<bool>, h: seq<bool>): set<nat>
    requires |w| == |h|
  {
    set k: nat | k < |w| && w[k] == h[k]
  }

  lemma {:induction false} ExpressionFrom(before: seq<string>, words: seq<string>)
    requires words != []
    ensures Expression(Lead(before), words) == Pattern(before + words)
    decreases |words|
  {
    var all := before + words;
    if |words| == 1 {
      assert all[..|all| - 1] == before;
    } else {
      var next := before + [words[0]];
      assert next[..|before|] == before;
      assert next + words[1..] == all;
      ExpressionFrom(next, words[1..]);
    }
  }

  lemma ExpressionMeans(words: seq<string>)
    requires words != []
    ensures Expression("", words) == Pattern(words)
  {
    ExpressionFrom([], words);
    assert [] + words == words;
  }

  lemma RuleMeans(env: Env, t: Token)
    requires WellFormedToken(env, t)
    ensures RuleOf(t).positive == Wanted(t) && Matches(env, RuleOf(t)) == Hits(env, t)
  {
    ExpressionMeans(t.words);
  }

  lemma {:induction false} RuleAt(tokens: seq<Token>, k: nat)
    requires k < |tokens|
    ensures |RulesOf(tokens)| == |tokens| && RulesOf(tokens)[k] == RuleOf(tokens[k])
  {
    RulesLength(tokens);
    if k > 0 {
      RuleAt(tokens[1..], k - 1);
    }
  }

  lemma {:induction false} RulesLength(tokens: seq<Token>)
    ensures |RulesOf(tokens)| == |tokens|
  {
    if tokens != [] {
      RulesLength(tokens[1..]);
    }
  }

  /** Rules are positive where they are wanted and match where they hit. */
  ghost predicate Correspond(env: Env, w: seq<bool>, h: seq<bool>, rules: seq<Rule>) {
    && |rules| == |w| == |h|
    && forall k :: 0 <= k < |w| ==> rules[k].positive == w[k] && Matches(env, rules[k]) == h[k]
  }

  lemma TokensCorrespond(env: Env, tokens: seq<Token>)
    requires AllWellFormed(env, tokens)
    ensures Correspond(env, Wishes(tokens), Facts(env, tokens), RulesOf(tokens))
  {
    RulesLength(tokens);
    forall k | 0 <= k < |tokens|
      ensures RulesOf(tokens)[k].positive == Wanted(tokens[k])
      ensures Matches(env, RulesOf(tokens)[k]) == Hits(env, tokens[k])
    {
      RuleAt(tokens, k);
      RuleMeans(env, tokens[k]);
    }
  }

  /** The ends of the run of positive rules around k. */
  lemma {:induction false} RunBegin(rules: seq<Rule>, k: nat) returns (i: nat)
    requires k < |rules| && rules[k].positive
    ensures i <= k && AllPositive(rules, i, k + 1) && (i == 0 || !rules[i - 1].positive)
  {
    if k == 0 || !rules[k - 1].positive {
      i := k;
    } else {
      i := RunBegin(rules, k - 1);
    }
  }

  lemma {:induction false} RunStop(rules: seq<Rule>, k: nat) returns (j: nat)
    requires k < |rules| && rules[k].positive
    ensures k < j <= |rules| && AllPositive(rules, k, j) && (j == |rules| || !rules[j].positive)
    decreases |rules| - k
  {
    if k + 1 == |rules| || !rules[k + 1].positive {
      j := k + 1;
    } else {
      j := RunStop(rules, k + 1);
    }
  }

  lemma GroupAround(env: Env, w: seq<bool>, h: seq<bool>, rules: seq<Rule>, k: nat) returns (m: nat)
    requires Correspond(env, w, h, rules) && Hold(env, rules) && k < |w| && w[k]
    ensures m < |w| && Together(w, m, k) && h[m]
  {
    var i := RunBegin(rules, k);
    var j := RunStop(rules, k);
    assert Group(rules, i, j);
    m :| i <= m < j && Matches(env, rules[m]);
  }

  lemma HoldImpliesFits(env: Env, w: seq<bool>, h: seq<bool>, rules: seq<Rule>)
    requires Correspond(env, w, h, rules) && Hold(env, rules)
    ensures Fits(w, h)
  {
    forall k | 0 <= k < |w| && w[k]
      ensures Helped(w, h, k)
    {
      var m := GroupAround(env, w, h, rules, k);
    }
  }

  lemma GroupHits(env: Env, w: seq<bool>, h: seq<bool>, rules: seq<Rule>, i: nat, j: nat)
    requires Correspond(env, w, h, rules) && Fits(w, h)
    requires Group(rules, i, j) && (j == |rules| || !rules[j].positive)
    ensures SomeMatch(env, rules, i, j)
  {
    assert rules[i].positive && Helped(w, h, i);
    var m :| 0 <= m < |w| && Together(w, m, i) && h[m];
    StaysInGroup(w, rules, i, j, m);
    assert Matches(env, rules[m]);
  }

  lemma StaysInGroup(w: seq<bool>, rules: seq<Rule>, i: nat, j: nat, m: nat)
    requires |rules| == |w| && forall k :: 0 <= k < |w| ==> rules[k].positive == w[k]
    requires Group(rules, i, j) && (j == |rules| || !rules[j].positive) && m < |w| && Together(w, m, i)
    ensures i <= m < j
  {
  }

  lemma FitsImpliesHold(env: Env, w: seq<bool>, h: seq<bool>, rules: seq<Rule>)
    requires Correspond(env, w, h, rules) && Fits(w, h)
    ensures Hold(env, rules)
  {
    forall i: nat, j: nat | Group(rules, i, j) && (j == |rules| || !rules[j].positive)
      ensures SomeMatch(env, rules, i, j)
    {
      GroupHits(env, w, h, rules, i, j);
    }
  }

  lemma {:induction false} ScoreCounts(env: Env, w: seq<bool>, h: seq<bool>, rules: seq<Rule>)
    requires Correspond(env, w, h, rules)
    ensures Score(env, rules) == |Fulfilled(w, h)|
  {
    if w != [] {
      var n := |w| - 1;
      ScoreCounts(env, w[..n], h[..n], rules[..n]);
      FulfilledSnoc(w, h);
    }
  }

  lemma FulfilledSnoc(w: seq<bool>, h: seq<bool>)
    requires |w| == |h| > 0
    ensures var n := |w| - 1;
      |Fulfilled(w, h)| == |Fulfilled(w[..n], h[..n])| + if w[n] == h[n] then 1 else 0
  {
    var n := |w| - 1;
    assert Fulfilled(w, h) == Fulfilled(w[..n], h[..n]) + if w[n] == h[n] then {n} else {};
  }

  /**
   * However the rules are spaced, their text scores the number of rules that come out as they should, provided that
   * no unwanted expression hits and that of wanted ones that stand together one does; otherwise nothing.
   */
  lemma TextScores(env: Env, tokens: seq<Token>, spacings: seq<Spacing>)
    requires |tokens| == |spacings| && AllWellFormed(env, tokens)
    ensures var w, h := Wishes(tokens), Facts(env, tokens);
      Eval(env, START, Written(tokens, spacings)) == if Fits(w, h) then |Fulfilled(w, h)| else 0
  {
    var w, h, rules := Wishes(tokens), Facts(env, tokens), RulesOf(tokens);
    RulesEvaluate(env, tokens, spacings);
    TokensCorrespond(env, tokens);
    ScoreCounts(env, w, h, rules);
    if Fits(w, h) {
      FitsImpliesHold(env, w, h, rules);
    } else if Hold(env, rules) {
      HoldImpliesFits(env, w, h, rules);
    }
  }
}
