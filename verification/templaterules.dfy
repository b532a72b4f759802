/** What template rules mean: no negative rule may match, and every group of positive rules needs a match. */
module TemplateRules {
  /** A rule tests an attribute of the system against a regular expression. */
  datatype Rule = Rule(positive: bool, attribute: string, regex: string)

  /** Which expressions compile, what they match, and the lower-cased values of the system's attributes. */
  datatype Env = Env(compiles: string -> bool, matches: (string, string) -> bool, values: string -> seq<string>)

  /** A missing attribute is tested as an empty value. */
  predicate Matches(env: Env, r: Rule) {
    var vs := env.values(r.attribute);
    if vs == [] then env.matches(r.regex, "")
    else exists i :: 0 <= i < |vs| && env.matches(r.regex, vs[i])
  }

  predicate Satisfied(env: Env, r: Rule) {
    r.positive == Matches(env, r)
  }

  function Score(env: Env, rules: seq<Rule>): nat {
    if rules == [] then 0
    else Score(env, rules[..|rules| - 1]) + if Satisfied(env, rules[|rules| - 1]) then 1 else 0
  }

  predicate AllPositive(rules: seq<Rule>, i: nat, j: nat)
    requires i <= j <= |rules|
  {
    forall k :: i <= k < j ==> rules[k].positive
  }

  predicate SomeMatch(env: Env, rules: seq<Rule>, i: nat, j: nat)
    requires i <= j <= |rules|
  {
    exists k :: i <= k < j && Matches(env, rules[k])
  }

  /** A run of positive rules that no other positive rule precedes. */
  predicate Group(rules: seq<Rule>, i: nat, j: nat) {
    i < j <= |rules| && AllPositive(rules, i, j) && (i == 0 || !rules[i - 1].positive)
  }

  ghost predicate NegativesHold(env: Env, rules: seq<Rule>) {
    forall k :: 0 <= k < |rules| && !rules[k].positive ==> !Matches(env, rules[k])
  }

  /** Every group that a negative rule ends has a match. */
  ghost predicate ClosedGroupsHold(env: Env, rules: seq<Rule>) {
    forall i: nat, j: nat :: Group(rules, i, j) && j < |rules| && !rules[j].positive ==> SomeMatch(env, rules, i, j)
  }

  /** The rules match the system. */
  ghost predicate Hold(env: Env, rules: seq<Rule>) {
    && NegativesHold(env, rules) && ClosedGroupsHold(env, rules)
    && forall i: nat :: Group(rules, i, |rules|) ==> SomeMatch(env, rules, i, |rules|)
  }

  /** Progress of the evaluation: 0 after negative rules, 1 in a group without a match so far, 2 in one with a match. */
  datatype Progress = Refuted | Progress(group: nat, score: nat)

  /** A group without a match must not be followed by a negative rule. */
  function Entered(p: Progress, positive: bool): Progress {
    if p.Refuted? then p
    else if positive then p.(group := if p.group == 2 then 2 else 1)
    else if p.group == 1 then Refuted
    else p.(group := 0)
  }

  function Tested(env: Env, p: Progress, r: Rule): Progress {
    if p.Refuted? then p
    else if p.group == 0 then (if Matches(env, r) then Refuted else p.(score := p.score + 1))
    else if Matches(env, r) then Progress(2, p.score + 1)
    else p
  }

  function Judged(env: Env, rules: seq<Rule>): Progress {
    if rules == [] then Progress(0, 0)
    else
      var r := rules[|rules| - 1];
      Tested(env, Entered(Judged(env, rules[..|rules| - 1]), r.positive), r)
  }

  function Result(p: Progress): nat {
    if p.Refuted? || p.group == 1 then 0 else p.score
  }

  /** What the group number says about the last rules. */
  ghost predicate Describes(env: Env, rules: seq<Rule>, group: nat) {
    var n := |rules|;
    && group <= 2
    && (group == 0 <==> n == 0 || !rules[n - 1].positive)
    && (group == 1 ==> forall k :: 0 <= k < n && AllPositive(rules, k, n) ==> !Matches(env, rules[k]))
    && (group == 2 ==> exists k :: 0 <= k < n && AllPositive(rules, k, n) && Matches(env, rules[k]))
  }

  lemma GroupOfPrefix(env: Env, rules: seq<Rule>, r: Rule, i: nat, j: nat)
    requires i <= j <= |rules|
    ensures AllPositive(rules + [r], i, j) <==> AllPositive(rules, i, j)
    ensures Group(rules + [r], i, j) <==> Group(rules, i, j)
    ensures SomeMatch(env, rules + [r], i, j) <==> SomeMatch(env, rules, i, j)
  {
    var all := rules + [r];
    assert forall k :: 0 <= k < |rules| ==> all[k] == rules[k];
    if AllPositive(all, i, j) {
      assert forall k :: i <= k < j ==> all[k].positive;
    }
    if SomeMatch(env, rules, i, j) {
      var k :| i <= k < j && Matches(env, rules[k]);
      assert Matches(env, all[k]);
    }
  }

  /** The rules that a group ends with are positive; so the last group is the one that a positive rule joins. */
  ghost predicate Invariant(env: Env, rules: seq<Rule>, p: Progress) {
    if p.Refuted? then !NegativesHold(env, rules) || !ClosedGroupsHold(env, rules)
    else
      && NegativesHold(env, rules) && ClosedGroupsHold(env, rules)
      && Describes(env, rules, p.group) && p.score == Score(env, rules)
  }

  lemma RefutedStays(env: Env, rules: seq<Rule>, r: Rule)
    requires !NegativesHold(env, rules) || !ClosedGroupsHold(env, rules)
    ensures !NegativesHold(env, rules + [r]) || !ClosedGroupsHold(env, rules + [r])
  {
    var all := rules + [r];
    if !NegativesHold(env, rules) {
      var k :| 0 <= k < |rules| && !rules[k].positive && Matches(env, rules[k]);
      assert all[k] == rules[k];
    } else {
      var i: nat, j: nat :| Group(rules, i, j) && j < |rules| && !rules[j].positive && !SomeMatch(env, rules, i, j);
      GroupOfPrefix(env, rules, r, i, j);
      assert all[j] == rules[j];
    }
  }

  lemma ScoreSnoc(env: Env, rules: seq<Rule>, r: Rule)
    ensures Score(env, rules + [r]) == Score(env, rules) + if Satisfied(env, r) then 1 else 0
  {
    assert (rules + [r])[..|rules|] == rules;
  }

  lemma NegativesSnoc(env: Env, rules: seq<Rule>, r: Rule)
    ensures NegativesHold(env, rules + [r]) <==> NegativesHold(env, rules) && (r.positive || !Matches(env, r))
  {
    var all := rules + [r];
    assert all[|rules|] == r;
    assert forall k :: 0 <= k < |rules| ==> all[k] == rules[k];
    if NegativesHold(env, all) {
      forall k | 0 <= k < |rules| && !rules[k].positive
        ensures !Matches(env, rules[k])
      {
        assert !all[k].positive;
      }
    }
  }

  lemma ClosedSnocPositive(env: Env, rules: seq<Rule>, r: Rule)
    requires ClosedGroupsHold(env, rules) && r.positive
    ensures ClosedGroupsHold(env, rules + [r])
  {
    forall i: nat, j: nat | Group(rules + [r], i, j) && j < |rules + [r]| && !(rules + [r])[j].positive
      ensures SomeMatch(env, rules + [r], i, j)
    {
      GroupOfPrefix(env, rules, r, i, j);
      assert (rules + [r])[j] == rules[j];
    }
  }

  /** The start of the group that the rules end with. */
  function GroupStart(rules: seq<Rule>): (i: nat)
    requires rules != [] && rules[|rules| - 1].positive
    ensures Group(rules, i, |rules|)
    ensures forall k :: 0 <= k < |rules| && AllPositive(rules, k, |rules|) ==> i <= k
  {
    var n := |rules| - 1;
    if n == 0 || !rules[n - 1].positive then n
    else
      var i := GroupStart(rules[..n]);
      assert forall k :: 0 <= k < n ==> rules[..n][k] == rules[k];
      i
  }

  /** All groups that end the rules have a match. */
  ghost predicate LastGroupHolds(env: Env, rules: seq<Rule>) {
    forall i: nat :: Group(rules, i, |rules|) ==> SomeMatch(env, rules, i, |rules|)
  }

  lemma LastGroup(env: Env, rules: seq<Rule>, group: nat)
    requires Describes(env, rules, group)
    ensures LastGroupHolds(env, rules) <==> group != 1
  {
    var n := |rules|;
    if group == 1 {
      var i := GroupStart(rules);
      forall k | i <= k < n
        ensures !Matches(env, rules[k])
      {
        assert AllPositive(rules, k, n);
      }
      assert Group(rules, i, n) && !SomeMatch(env, rules, i, n);
    } else if group == 2 {
      var k :| 0 <= k < n && AllPositive(rules, k, n) && Matches(env, rules[k]);
      forall i: nat | Group(rules, i, n)
        ensures SomeMatch(env, rules, i, n)
      {
        assert i > 0 && k < i ==> k <= i - 1 < n;
      }
    }
  }

  lemma ClosedSnocNegative(env: Env, rules: seq<Rule>, r: Rule)
    requires ClosedGroupsHold(env, rules) && !r.positive
    ensures ClosedGroupsHold(env, rules + [r]) <==> LastGroupHolds(env, rules)
  {
    var all, n := rules + [r], |rules|;
    assert all[n] == r;
    if LastGroupHolds(env, rules) {
      forall i: nat, j: nat | Group(all, i, j) && j < |all| && !all[j].positive
        ensures SomeMatch(env, all, i, j)
      {
        GroupOfPrefix(env, rules, r, i, j);
        if j < n {
          assert all[j] == rules[j];
        }
      }
    }
    if ClosedGroupsHold(env, all) {
      forall i: nat | Group(rules, i, n)
        ensures SomeMatch(env, rules, i, n)
      {
        GroupOfPrefix(env, rules, r, i, n);
        assert Group(all, i, n) && !all[n].positive;
      }
    }
  }

  lemma DescribesNegative(env: Env, rules: seq<Rule>, r: Rule)
    requires !r.positive
    ensures Describes(env, rules + [r], 0)
  {
  }

  lemma PositivesSnoc(rules: seq<Rule>, r: Rule, k: nat)
    requires r.positive && k <= |rules|
    ensures AllPositive(rules + [r], k, |rules| + 1) <==> AllPositive(rules, k, |rules|)
  {
    var all := rules + [r];
    assert forall i :: 0 <= i < |rules| ==> all[i] == rules[i];
    if AllPositive(all, k, |rules| + 1) {
      assert forall i :: k <= i < |rules| ==> all[i].positive;
    }
  }

  lemma DescribesPositive(env: Env, rules: seq<Rule>, r: Rule, group: nat)
    requires r.positive && Describes(env, rules, group)
    ensures Describes(env, rules + [r], if group == 2 || Matches(env, r) then 2 else 1)
  {
    var all, n := rules + [r], |rules|;
    assert all[n] == r && AllPositive(all, n, n + 1);
    if group == 2 {
      var k :| 0 <= k < n && AllPositive(rules, k, n) && Matches(env, rules[k]);
      PositivesSnoc(rules, r, k);
      assert all[k] == rules[k];
    } else if !Matches(env, r) {
      forall k | 0 <= k < n + 1 && AllPositive(all, k, n + 1)
        ensures !Matches(env, all[k])
      {
        if k < n {
          PositivesSnoc(rules, r, k);
          assert all[k] == rules[k];
        }
      }
    }
  }

  lemma StepKeeps(env: Env, rules: seq<Rule>, p: Progress, r: Rule)
    requires Invariant(env, rules, p)
    ensures Invariant(env, rules + [r], Tested(env, Entered(p, r.positive), r))
  {
    if p.Refuted? {
      RefutedStays(env, rules, r);
    } else {
      ScoreSnoc(env, rules, r);
      NegativesSnoc(env, rules, r);
      if r.positive {
        ClosedSnocPositive(env, rules, r);
        DescribesPositive(env, rules, r, p.group);
      } else {
        LastGroup(env, rules, p.group);
        ClosedSnocNegative(env, rules, r);
        DescribesNegative(env, rules, r);
      }
    }
  }

  lemma {:induction false} JudgedInvariant(env: Env, rules: seq<Rule>)
    ensures Invariant(env, rules, Judged(env, rules))
  {
    if rules != [] {
      JudgedInvariant(env, rules[..|rules| - 1]);
      StepKeeps(env, rules[..|rules| - 1], Judged(env, rules[..|rules| - 1]), rules[|rules| - 1]);
      assert rules == rules[..|rules| - 1] + [rules[|rules| - 1]];
    }
  }

  /** The score is that of the satisfied rules if the rules match the system, otherwise 0. */
  lemma ResultMeans(env: Env, rules: seq<Rule>)
    ensures Result(Judged(env, rules)) == if Hold(env, rules) then Score(env, rules) else 0
    ensures Result(Judged(env, rules)) > 0 <==> rules != [] && Hold(env, rules)
  {
    var p := Judged(env, rules);
    JudgedInvariant(env, rules);
    if !p.Refuted? {
      LastGroup(env, rules, p.group);
      if p.group != 1 && rules != [] {
        SomeSatisfied(env, rules, p.group);
      }
    }
  }

  lemma {:induction false} ScorePositive(env: Env, rules: seq<Rule>, k: nat)
    requires k < |rules| && Satisfied(env, rules[k])
    ensures Score(env, rules) > 0
  {
    if k < |rules| - 1 {
      ScorePositive(env, rules[..|rules| - 1], k);
    }
  }

  lemma SomeSatisfied(env: Env, rules: seq<Rule>, group: nat)
    requires rules != [] && NegativesHold(env, rules) && Describes(env, rules, group) && group != 1
    ensures Score(env, rules) > 0
  {
    if group == 2 {
      var k :| 0 <= k < |rules| && AllPositive(rules, k, |rules|) && Matches(env, rules[k]);
      ScorePositive(env, rules, k);
    } else {
      ScorePositive(env, rules, |rules| - 1);
    }
  }
}
