/** The tokeniser and evaluator of template rules: one loop that goes back to what is left of a word. */
module TemplateMatch {
  import opened Common
  import opened TemplateRules

  predicate Letters(s: string) {
    s != "" && forall i :: 0 <= i < |s| ==> 'a' <= s[i] <= 'z' || 'A' <= s[i] <= 'Z'
  }

  predicate OpChar(c: char) {
    c == '=' || c == '~' || c == '!'
  }

  /** The end of the run of characters that are, or are not, operator characters. */
  function RunEnd(part: string, ops: bool, k: nat): (r: nat)
    requires k <= |part|
    ensures k <= r <= |part| && (r < |part| ==> OpChar(part[r]) != ops)
    ensures forall i :: k <= i < r ==> OpChar(part[i]) == ops
    decreases |part| - k
  {
    if k < |part| && OpChar(part[k]) == ops then RunEnd(part, ops, k + 1) else k
  }

  predicate PositiveOp(op: string) {
    op == "~=" || op == "=~" || op == "=" || op == "~"
  }

  predicate NegativeOp(op: string) {
    op == "!=" || op == "!~" || op == "!" || op == "~!"
  }

  /** The states expect an attribute, an operator, the start of a regular expression, or its end. */
  datatype Machine = Machine(state: nat, progress: Progress, attribute: string, regex: string)

  /** The rest of the word is looked at again; nothing is left if it is empty. */
  datatype Step = Stop | Go(machine: Machine, left: string)

  /** Reads characters up to an unescaped slash; a backslash at the end of a word is dropped. */
  function Scan(chars: string, regex: string): (string, Option<string>)
    decreases |chars|
  {
    if chars == "" || chars == "\\" then (regex, None)
    else if chars[0] == '\\' then Scan(chars[2..], regex + chars[..2])
    else if chars[0] == '/' then (regex, Some(chars[1..]))
    else Scan(chars[1..], regex + chars[..1])
  }

  function Evaluate(env: Env, m: Machine, regex: string, left: string): Step {
    if !env.compiles(regex) then Stop
    else
      var p := Tested(env, m.progress, Rule(m.progress.Progress? && m.progress.group != 0, m.attribute, regex));
      if p.Refuted? then Stop else Go(m.(state := 0, progress := p), left)
  }

  function InRegex(env: Env, m: Machine, chars: string, regex: string): Step {
    var (r, end) := Scan(chars, regex);
    match end
    case None => Go(m.(state := 3, regex := r), "")
    case Some(left) => Evaluate(env, m, r, left)
  }

  function Spaced(regex: string): string {
    if regex == "" then "" else regex + "\\s+"
  }

  function Take(env: Env, m: Machine, part: string): Step
    requires part != ""
  {
    if m.state == 0 then
      var k := RunEnd(part, false, 0);
      if !Letters(part[..k]) then Stop else Go(m.(state := 1, attribute := part[..k]), part[k..])
    else if m.state == 1 then
      var k := RunEnd(part, true, 0);
      var op := part[..k];
      if !PositiveOp(op) && !NegativeOp(op) then Stop
      else
        var p := Entered(m.progress, PositiveOp(op));
        if p.Refuted? then Stop else Go(m.(state := 2, progress := p), part[k..])
    else if m.state == 2 then
      if part[0] != '/' then Stop else InRegex(env, m, part[1..], "")
    else InRegex(env, m, part, Spaced(m.regex))
  }

  lemma {:induction false} ScanShortens(chars: string, regex: string)
    ensures Scan(chars, regex).1.Some? ==> |Scan(chars, regex).1.value| < |chars|
    decreases |chars|
  {
    if chars == "" || chars == "\\" || chars[0] == '/' {
    } else if chars[0] == '\\' {
      ScanShortens(chars[2..], regex + chars[..2]);
    } else {
      ScanShortens(chars[1..], regex + chars[..1]);
    }
  }

  /** Every look at a word consumes something, so that going back to it ends. */
  lemma TakeShortens(env: Env, m: Machine, part: string)
    requires part != ""
    ensures Take(env, m, part).Go? ==> |Take(env, m, part).left| < |part|
  {
    ScanShortens(part[1..], "");
    ScanShortens(part, Spaced(m.regex));
  }

  function TotalLength(parts: seq<string>): nat {
    if parts == [] then 0 else |parts[0]| + 1 + TotalLength(parts[1..])
  }

  function Finish(m: Machine): nat {
    if m.state == 0 then Result(m.progress) else 0
  }

  function Eval(env: Env, m: Machine, parts: seq<string>): nat
    decreases TotalLength(parts)
  {
    if parts == [] then Finish(m)
    else if parts[0] == "" then Eval(env, m, parts[1..])
    else
      TakeShortens(env, m, parts[0]);
      match Take(env, m, parts[0])
      case Stop => 0
      case Go(n, left) =>
        if left == "" then Eval(env, n, parts[1..]) else Eval(env, n, [left] + parts[1..])
  }

  const START := Machine(0, Progress(0, 0), "", "")

  /** A rule as it is written: the words of the regular expression are separated by white space. */
  datatype Token = Token(attribute: string, op: string, words: seq<string>)

  /** No slash but escaped ones, and no backslash without the character it escapes. */
  predicate Closed(w: string)
    decreases |w|
  {
    w == "" ||
    if w[0] == '\\' then |w| > 1 && Closed(w[2..])
    else w[0] != '/' && Closed(w[1..])
  }

  /** A word that white space follows may end with a backslash for it. */
  function Unescaped(w: string): string {
    if w != "" && w[|w| - 1] == '\\' && Closed(w[..|w| - 1]) then w[..|w| - 1] else w
  }

  predicate WellFormedToken(env: Env, t: Token) {
    && Letters(t.attribute) && (PositiveOp(t.op) || NegativeOp(t.op)) && WordsOk(t.words, true)
    && env.compiles(Expression("", t.words))
  }

  /** The expression of the words, white space in between standing for any white space. */
  function Expression(regex: string, words: seq<string>): string
    decreases |words|
  {
    if words == [] then regex
    else if |words| == 1 then regex + words[0]
    else Expression(Spaced(regex + Unescaped(words[0])), words[1..])
  }

  function RuleOf(t: Token): Rule {
    Rule(PositiveOp(t.op), t.attribute, Expression("", t.words))
  }

  function RulesOf(tokens: seq<Token>): seq<Rule> {
    if tokens == [] then [] else [RuleOf(tokens[0])] + RulesOf(tokens[1..])
  }

  /** Writes a text in front of the words, joined to the first of them or not. */
  function Put(text: string, joined: bool, parts: seq<string>): seq<string> {
    if joined && parts != [] then [text + parts[0]] + parts[1..] else [text] + parts
  }

  /** The words of the regular expression, the last one closed by a slash. */
  function PutWords(words: seq<string>, joined: bool, parts: seq<string>): seq<string>
    requires words != []
  {
    if |words| == 1 then Put(words[0] + "/", joined, parts) else [words[0]] + PutWords(words[1..], joined, parts)
  }

  /** Which of attribute and operator, operator and expression, and rule and next rule are written together. */
  datatype Spacing = Spacing(opJoined: bool, regexJoined: bool, nextJoined: bool)

  function PutToken(t: Token, sp: Spacing, parts: seq<string>): seq<string>
    requires t.words != []
  {
    var rest := PutWords(t.words, sp.nextJoined, parts);
    Put(t.attribute, sp.opJoined, Put(t.op, sp.regexJoined, ["/" + rest[0]] + rest[1..]))
  }

  /** The rules as the words that white space leaves of their text. */
  function Written(tokens: seq<Token>, spacings: seq<Spacing>): seq<string>
    requires |tokens| == |spacings| && forall i :: 0 <= i < |tokens| ==> tokens[i].words != []
  {
    if tokens == [] then [] else PutToken(tokens[0], spacings[0], Written(tokens[1..], spacings[1..]))
  }

  lemma {:induction false} ScanClosed(w: string, regex: string, rest: string)
    requires Closed(w)
    ensures Scan(w + "/" + rest, regex) == (regex + w, Some(rest))
    ensures Scan(w, regex) == (regex + w, None) && Scan(w + "\\", regex) == (regex + w, None)
    decreases |w|
  {
    if w == "" {
      assert w + "/" + rest == "/" + rest && ("/" + rest)[1..] == rest;
      assert w + "\\" == "\\" && regex + w == regex;
    } else {
      var n := if w[0] == '\\' then 2 else 1;
      ScanClosed(w[n..], regex + w[..n], rest);
      assert (w + "/" + rest)[n..] == w[n..] + "/" + rest && (w + "/" + rest)[..n] == w[..n];
      assert (w + "\\")[n..] == w[n..] + "\\" && (w + "\\")[..n] == w[..n];
      assert (regex + w[..n]) + w[n..] == regex + w;
    }
  }

  lemma ScanUnescaped(w: string, regex: string)
    requires Closed(Unescaped(w))
    ensures Scan(w, regex) == (regex + Unescaped(w), None)
  {
    ScanClosed(Unescaped(w), regex, "");
    if Unescaped(w) != w {
      assert w == w[..|w| - 1] + "\\";
    }
  }

  lemma RunEndIs(part: string, ops: bool, k: nat, r: nat)
    requires k <= r <= |part| && (r < |part| ==> OpChar(part[r]) != ops)
    requires forall i :: k <= i < r ==> OpChar(part[i]) == ops
    ensures RunEnd(part, ops, k) == r
  {
  }

  /** A word in front of others gives the same step, whether it is joined to them or not. */
  lemma PutTaken(env: Env, m: Machine, text: string, joined: bool, parts: seq<string>, n: Machine)
    requires text != "" && (parts != [] ==> parts[0] != "")
    requires Take(env, m, text) == Go(n, "")
    requires joined && parts != [] ==> Take(env, m, text + parts[0]) == Go(n, parts[0])
    ensures Eval(env, m, Put(text, joined, parts)) == Eval(env, n, parts)
  {
    var all := Put(text, joined, parts);
    if joined && parts != [] {
      assert all[0] == text + parts[0] && [parts[0]] + all[1..] == parts;
    } else {
      assert all[0] == text && all[1..] == parts;
    }
  }

  lemma PutStopped(env: Env, m: Machine, text: string, joined: bool, parts: seq<string>)
    requires text != ""
    requires Take(env, m, text) == Stop
    requires joined && parts != [] ==> Take(env, m, text + parts[0]) == Stop
    ensures Eval(env, m, Put(text, joined, parts)) == 0
  {
    var all := Put(text, joined, parts);
    assert all[0] == if joined && parts != [] then text + parts[0] else text;
  }

  /** A word that either refutes the rules or is read to its end. */
  lemma PutStep(env: Env, m: Machine, text: string, joined: bool, parts: seq<string>, n: Machine)
    requires text != "" && (parts != [] ==> parts[0] != "")
    requires Take(env, m, text) == if n.progress.Refuted? then Stop else Go(n, "")
    requires joined && parts != [] ==>
      Take(env, m, text + parts[0]) == if n.progress.Refuted? then Stop else Go(n, parts[0])
    ensures Eval(env, m, Put(text, joined, parts)) == if n.progress.Refuted? then 0 else Eval(env, n, parts)
  {
    if n.progress.Refuted? {
      PutStopped(env, m, text, joined, parts);
    } else {
      PutTaken(env, m, text, joined, parts, n);
    }
  }

  lemma AttributeTaken(env: Env, m: Machine, a: string, joined: bool, parts: seq<string>)
    requires m.state == 0 && Letters(a) && parts != [] && parts[0] != "" && OpChar(parts[0][0])
    ensures Eval(env, m, Put(a, joined, parts)) == Eval(env, m.(state := 1, attribute := a), parts)
  {
    RunEndIs(a, false, 0, |a|);
    var all := a + parts[0];
    assert all[|a|] == parts[0][0] && forall i :: 0 <= i < |a| ==> all[i] == a[i];
    RunEndIs(all, false, 0, |a|);
    assert a[..|a|] == a == all[..|a|] && all[|a|..] == parts[0];
    PutTaken(env, m, a, joined, parts, m.(state := 1, attribute := a));
  }

  lemma OpsAreOps(op: string)
    requires PositiveOp(op) || NegativeOp(op)
    ensures op != "" && forall i :: 0 <= i < |op| ==> OpChar(op[i])
    ensures !(PositiveOp(op) && NegativeOp(op))
  {
  }

  lemma OperatorTaken(env: Env, m: Machine, op: string, joined: bool, parts: seq<string>)
    requires m.state == 1 && (PositiveOp(op) || NegativeOp(op)) && parts != [] && parts[0] != "" && parts[0][0] == '/'
    ensures var p := Entered(m.progress, PositiveOp(op));
      Eval(env, m, Put(op, joined, parts)) ==
      if p.Refuted? then 0 else Eval(env, m.(state := 2, progress := p), parts)
  {
    OpsAreOps(op);
    RunEndIs(op, true, 0, |op|);
    var all := op + parts[0];
    assert all[|op|] == '/' && forall i :: 0 <= i < |op| ==> all[i] == op[i];
    RunEndIs(all, true, 0, |op|);
    assert op[..|op|] == op == all[..|op|] && all[|op|..] == parts[0];
    var p := Entered(m.progress, PositiveOp(op));
    PutStep(env, m, op, joined, parts, m.(state := 2, progress := p));
  }

  function Lead(m: Machine): string {
    if m.state == 2 then "/" else ""
  }

  function Base(m: Machine): string {
    if m.state == 2 then "" else Spaced(m.regex)
  }

  predicate AllWellFormed(env: Env, tokens: seq<Token>) {
    forall i :: 0 <= i < |tokens| ==> tokens[i].words != [] && WellFormedToken(env, tokens[i])
  }

  /** The words of an expression, or those after the first one. */
  predicate WordsOk(words: seq<string>, first: bool) {
    && words != [] && Closed(words[|words| - 1])
    && (forall i :: 0 <= i < |words| - 1 ==> Closed(Unescaped(words[i])))
    && (forall i :: (if first then 1 else 0) <= i < |words| - 1 ==> words[i] != "")
  }

  lemma TakeInRegex(env: Env, m: Machine, c: string)
    requires (m.state == 2 || m.state == 3) && Lead(m) + c != ""
    ensures Take(env, m, Lead(m) + c) == InRegex(env, m, c, Base(m))
  {
    if m.state == 2 {
      assert ("/" + c)[1..] == c;
    } else {
      assert "" + c == c;
    }
  }

  /** The rule that a machine inside an expression is reading. */
  function Reading(m: Machine, regex: string): Rule {
    Rule(m.progress.Progress? && m.progress.group != 0, m.attribute, regex)
  }

  /** The slash that ends an expression, with whatever follows it in the same word. */
  lemma ExpressionEnds(env: Env, m: Machine, w: string, more: string, text: string, p: Progress)
    requires (m.state == 2 || m.state == 3) && Closed(w) && env.compiles(Base(m) + w)
    requires text == Lead(m) + (w + "/" + more)
    requires p == Tested(env, m.progress, Reading(m, Base(m) + w))
    ensures Take(env, m, text) == if p.Refuted? then Stop else Go(m.(state := 0, progress := p), more)
  {
    ScanClosed(w, Base(m), more);
    TakeInRegex(env, m, w + "/" + more);
  }

  lemma SlashGrouped(lead: string, w: string, more: string)
    ensures lead + (w + "/") + more == lead + (w + "/" + more)
    ensures more == "" ==> lead + (w + "/") == lead + (w + "/" + more)
  {
  }

  lemma LastWordTaken(env: Env, m: Machine, w: string, joined: bool, parts: seq<string>)
    requires (m.state == 2 || m.state == 3) && Closed(w) && env.compiles(Base(m) + w)
    requires parts != [] ==> parts[0] != ""
    ensures var p := Tested(env, m.progress, Reading(m, Base(m) + w));
      Eval(env, m, Put(Lead(m) + (w + "/"), joined, parts)) ==
      if p.Refuted? then 0 else Eval(env, m.(state := 0, progress := p), parts)
  {
    var text := Lead(m) + (w + "/");
    var p := Tested(env, m.progress, Reading(m, Base(m) + w));
    SlashGrouped(Lead(m), w, "");
    ExpressionEnds(env, m, w, "", text, p);
    if parts != [] {
      SlashGrouped(Lead(m), w, parts[0]);
      ExpressionEnds(env, m, w, parts[0], text + parts[0], p);
    }
    PutStep(env, m, text, joined, parts, m.(state := 0, progress := p));
  }

  lemma FirstWordTaken(env: Env, m: Machine, w: string, rest: seq<string>)
    requires (m.state == 2 || m.state == 3) && Closed(Unescaped(w)) && Lead(m) + w != ""
    requires rest != [] ==> rest[0] != ""
    ensures Eval(env, m, [Lead(m) + w] + rest) ==
      Eval(env, m.(state := 3, regex := Base(m) + Unescaped(w)), rest)
  {
    ScanUnescaped(w, Base(m));
    TakeInRegex(env, m, w);
    PutTaken(env, m, Lead(m) + w, false, rest, m.(state := 3, regex := Base(m) + Unescaped(w)));
  }

  lemma PutWordsFirst(words: seq<string>, joined: bool, parts: seq<string>)
    requires WordsOk(words, false) && (parts != [] ==> parts[0] != "")
    ensures PutWords(words, joined, parts) != [] && PutWords(words, joined, parts)[0] != ""
  {
  }

  /** The words of an expression are read to its end, where the rule is tested. */
  lemma {:induction false} WordsTaken(env: Env, m: Machine, words: seq<string>, joined: bool, parts: seq<string>)
      returns (n: Machine)
    requires (m.state == 2 || m.state == 3) && WordsOk(words, m.state == 2)
    requires env.compiles(Expression(Base(m), words)) && (parts != [] ==> parts[0] != "")
    ensures var p := Tested(env, m.progress, Reading(m, Expression(Base(m), words)));
      var x := PutWords(words, joined, parts);
      && n.state == 0 && n.progress == p
      && Eval(env, m, [Lead(m) + x[0]] + x[1..]) == if p.Refuted? then 0 else Eval(env, n, parts)
    decreases |words|
  {
    var x := PutWords(words, joined, parts);
    if |words| == 1 {
      n := m.(state := 0, progress := Tested(env, m.progress, Reading(m, Base(m) + words[0])));
      LastWordTaken(env, m, words[0], joined, parts);
      PutJoins(Lead(m), words[0] + "/", joined, parts);
    } else {
      var next := m.(state := 3, regex := Base(m) + Unescaped(words[0]));
      var rest := PutWords(words[1..], joined, parts);
      PutWordsFirst(words[1..], joined, parts);
      FirstWordTaken(env, m, words[0], rest);
      n := WordsTaken(env, next, words[1..], joined, parts);
      assert "" + rest[0] == rest[0];
      assert ["" + rest[0]] + rest[1..] == rest;
      assert x[0] == words[0] && x[1..] == rest;
    }
  }

  lemma PutJoins(lead: string, text: string, joined: bool, parts: seq<string>)
    ensures var x := Put(text, joined, parts);
      [lead + x[0]] + x[1..] == Put(lead + text, joined, parts)
  {
    if joined && parts != [] {
      assert lead + (text + parts[0]) == (lead + text) + parts[0];
    }
  }

  lemma PutFirst(text: string, joined: bool, parts: seq<string>)
    requires text != ""
    ensures Put(text, joined, parts) != [] && Put(text, joined, parts)[0] != ""
    ensures Put(text, joined, parts)[0][0] == text[0]
  {
  }

  /** Whatever its spacing, a rule is read and tested as one rule. */
  lemma TokenTaken(env: Env, m: Machine, t: Token, sp: Spacing, parts: seq<string>) returns (n: Machine)
    requires m.state == 0 && m.progress.Progress? && WellFormedToken(env, t) && (parts != [] ==> parts[0] != "")
    ensures var p := Tested(env, Entered(m.progress, RuleOf(t).positive), RuleOf(t));
      && n.state == 0 && n.progress == p
      && Eval(env, m, PutToken(t, sp, parts)) == if p.Refuted? then 0 else Eval(env, n, parts)
  {
    var p := Entered(m.progress, PositiveOp(t.op));
    var x := PutWords(t.words, sp.nextJoined, parts);
    var regex := ["/" + x[0]] + x[1..];
    var a := m.(state := 1, attribute := t.attribute);
    var b := a.(state := 2, progress := p);
    OpsAreOps(t.op);
    PutFirst(t.op, sp.regexJoined, regex);
    AttributeTaken(env, m, t.attribute, sp.opJoined, Put(t.op, sp.regexJoined, regex));
    OperatorTaken(env, a, t.op, sp.regexJoined, regex);
    n := WordsTaken(env, b, t.words, sp.nextJoined, parts);
    if !p.Refuted? {
      EnteredGroup(m.progress, PositiveOp(t.op));
      assert Reading(b, Expression("", t.words)).attribute == t.attribute;
      TestedByGroup(env, p, Reading(b, Expression("", t.words)), RuleOf(t));
    }
  }

  lemma EnteredGroup(p: Progress, positive: bool)
    requires p.Progress? && Entered(p, positive).Progress?
    ensures Entered(p, positive).group != 0 <==> positive
  {
  }

  lemma TestedByGroup(env: Env, p: Progress, r: Rule, q: Rule)
    requires r.attribute == q.attribute && r.regex == q.regex
    ensures Tested(env, p, r) == Tested(env, p, q)
  {
  }

  function JudgedOn(env: Env, p: Progress, rules: seq<Rule>): Progress
    decreases |rules|
  {
    if rules == [] then p else JudgedOn(env, Tested(env, Entered(p, rules[0].positive), rules[0]), rules[1..])
  }

  lemma {:induction false} JudgedOnIsJudged(env: Env, before: seq<Rule>, rules: seq<Rule>)
    ensures JudgedOn(env, Judged(env, before), rules) == Judged(env, before + rules)
    decreases |rules|
  {
    if rules == [] {
      assert before + rules == before;
    } else {
      assert (before + [rules[0]])[..|before|] == before;
      JudgedOnIsJudged(env, before + [rules[0]], rules[1..]);
      assert before + rules == (before + [rules[0]]) + rules[1..];
    }
  }

  lemma {:induction false} RefutedOn(env: Env, rules: seq<Rule>)
    ensures JudgedOn(env, Refuted, rules) == Refuted
    decreases |rules|
  {
    if rules != [] {
      RefutedOn(env, rules[1..]);
    }
  }

  lemma WrittenFirst(env: Env, tokens: seq<Token>, spacings: seq<Spacing>)
    requires |tokens| == |spacings| && AllWellFormed(env, tokens)
    ensures Written(tokens, spacings) != [] ==> Written(tokens, spacings)[0] != ""
  {
  }

  lemma {:induction false} WrittenEval(env: Env, m: Machine, tokens: seq<Token>, spacings: seq<Spacing>)
    requires m.state == 0 && m.progress.Progress?
    requires |tokens| == |spacings| && AllWellFormed(env, tokens)
    ensures Eval(env, m, Written(tokens, spacings)) == Result(JudgedOn(env, m.progress, RulesOf(tokens)))
    decreases |tokens|
  {
    if tokens != [] {
      var rest := Written(tokens[1..], spacings[1..]);
      WrittenFirst(env, tokens[1..], spacings[1..]);
      var n := TokenTaken(env, m, tokens[0], spacings[0], rest);
      assert RulesOf(tokens)[1..] == RulesOf(tokens[1..]);
      if n.progress.Refuted? {
        RefutedOn(env, RulesOf(tokens[1..]));
      } else {
        WrittenEval(env, n, tokens[1..], spacings[1..]);
      }
    }
  }

  /** However well-formed rules are spaced, their text is evaluated to the score if they hold and to 0 if not. */
  lemma RulesEvaluate(env: Env, tokens: seq<Token>, spacings: seq<Spacing>)
    requires |tokens| == |spacings| && AllWellFormed(env, tokens)
    ensures var rules := RulesOf(tokens);
      Eval(env, START, Written(tokens, spacings)) == if Hold(env, rules) then Score(env, rules) else 0
    ensures Eval(env, START, Written(tokens, spacings)) > 0 <==> tokens != [] && Hold(env, RulesOf(tokens))
  {
    WrittenEval(env, START, tokens, spacings);
    JudgedOnIsJudged(env, [], RulesOf(tokens));
    assert [] + RulesOf(tokens) == RulesOf(tokens);
    ResultMeans(env, RulesOf(tokens));
  }

  /** The loop over the words of the rules; a word that has something left is looked at again. */
  method Match(env: Env, words: seq<string>) returns (score: nat)
    ensures score == Eval(env, START, words)
  {
    var parts, i, m := words, 0, START;
    assert parts[0..] == words;
    while i < |parts|
      invariant 0 <= i <= |parts|
      invariant Eval(env, m, parts[i..]) == Eval(env, START, words)
      decreases TotalLength(parts[i..])
    {
      assert parts[i..][0] == parts[i] && parts[i..][1..] == parts[i + 1..];
      if parts[i] == "" {
        i := i + 1;
        continue;
      }
      TakeShortens(env, m, parts[i]);
      var step := TakeWord(env, m, parts[i]);
      if step.Stop? {
        return 0;
      }
      m := step.machine;
      if step.left == "" {
        i := i + 1;
      } else {
        parts := parts[i := step.left];
        assert parts[i..] == [step.left] + parts[i + 1..];
      }
    }
    score := Finish(m);
  }

  method TakeWord(env: Env, m: Machine, part: string) returns (step: Step)
    requires part != ""
    ensures step == Take(env, m, part)
  {
    if m.state == 0 {
      var k := SkipRun(part, false);
      if !Letters(part[..k]) { return Stop; }
      return Go(m.(state := 1, attribute := part[..k]), part[k..]);
    }
    if m.state == 1 {
      var k := SkipRun(part, true);
      var op := part[..k];
      if !PositiveOp(op) && !NegativeOp(op) { return Stop; }
      var p := Entered(m.progress, PositiveOp(op));
      return if p.Refuted? then Stop else Go(m.(state := 2, progress := p), part[k..]);
    }
    if m.state == 2 {
      if part[0] != '/' { return Stop; }
      step := ScanRegex(env, m, part[1..], "");
    } else {
      step := ScanRegex(env, m, part, Spaced(m.regex));
    }
  }

  method SkipRun(part: string, ops: bool) returns (k: nat)
    ensures k == RunEnd(part, ops, 0)
  {
    k := 0;
    while k < |part| && OpChar(part[k]) == ops
      invariant k <= |part| && RunEnd(part, ops, k) == RunEnd(part, ops, 0)
    {
      k := k + 1;
    }
  }

  method ScanRegex(env: Env, m: Machine, chars: string, start: string) returns (step: Step)
    ensures step == InRegex(env, m, chars, start)
  {
    var regex, k := start, 0;
    assert chars[0..] == chars;
    while k < |chars|
      invariant 0 <= k <= |chars|
      invariant Scan(chars[k..], regex) == Scan(chars, start)
    {
      assert chars[k..][..1] == [chars[k]] && chars[k..][1..] == chars[k + 1..];
      if chars[k] == '\\' {
        if k == |chars| - 1 {
          assert chars[k..] == "\\";
          k := k + 1;
          break;
        }
        assert chars[k..][..2] == [chars[k], chars[k + 1]] && chars[k..][2..] == chars[k + 2..];
        regex := regex + [chars[k], chars[k + 1]];
        k := k + 2;
      } else if chars[k] == '/' {
        return Evaluate(env, m, regex, chars[k + 1..]);
      } else {
        regex := regex + [chars[k]];
        k := k + 1;
      }
    }
    return Go(m.(state := 3, regex := regex), "");
  }
}
