/** Aggregate audit queries: grouping and counting distinct values while entries stream by. */
module Aggregates {
  import opened Common

  type Entry = seq<string>

  /** A count: which entries it accepts and the columns whose combinations are counted once. */
  datatype Count = Count(accepts: Entry -> bool, unique: seq<nat>)

  /** Groups are formed by the first columns; at most maxAnswers groups are answered. */
  datatype Query = Query(width: nat, selected: nat, mac: nat, counts: seq<Count>, maxAnswers: int)

  datatype Counter = Counter(count: nat, seen: set<string>)
  datatype Answer = Answer(selected: seq<string>, counters: seq<Counter>)
  datatype Totals = Totals(known: set<string>, master: seq<Counter>, answers: map<string, Answer>)

  predicate InRange(ks: seq<nat>, n: nat) {
    forall i :: 0 <= i < |ks| ==> ks[i] < n
  }

  predicate WellFormed(q: Query) {
    && q.selected <= q.width && q.mac < q.width
    && forall i :: 0 <= i < |q.counts| ==> InRange(q.counts[i].unique, q.width)
  }

  /** Values come from XML text and hold no '<'. */
  predicate Legal(q: Query, e: Entry) {
    |e| == q.width && forall k :: 0 <= k < |e| ==> '<' !in e[k]
  }

  function Columns(e: Entry, ks: seq<nat>): seq<string>
    requires InRange(ks, |e|)
  {
    if ks == [] then [] else Columns(e, ks[..|ks| - 1]) + [e[ks[|ks| - 1]]]
  }

  function Joined(values: seq<string>): string {
    if values == [] then "" else Joined(values[..|values| - 1]) + values[|values| - 1] + "<"
  }

  predicate Plain(values: seq<string>) {
    forall k :: 0 <= k < |values| ==> '<' !in values[k]
  }

  /** Joining with the separator loses nothing. */
  lemma {:induction false} JoinedInjective(a: seq<string>, b: seq<string>)
    requires Plain(a) && Plain(b) && Joined(a) == Joined(b)
    ensures a == b
  {
    if a == [] || b == [] {
      assert |Joined(a)| == 0;
    } else {
      var u, v := a[|a| - 1], b[|b| - 1];
      var fa, fb := Joined(a[..|a| - 1]), Joined(b[..|b| - 1]);
      assert (fa + u + "<")[..|fa + u|] == fa + u;
      assert (fb + v + "<")[..|fb + v|] == fb + v;
      JoinedEnds(a[..|a| - 1]);
      JoinedEnds(b[..|b| - 1]);
      SameSplit(fa, u, fb, v);
      JoinedInjective(a[..|a| - 1], b[..|b| - 1]);
      assert a == a[..|a| - 1] + [u] && b == b[..|b| - 1] + [v];
    }
  }

  lemma JoinedEnds(a: seq<string>)
    ensures Joined(a) == "" || Joined(a)[|Joined(a)| - 1] == '<'
  {
  }

  lemma SameSplit(fa: string, u: string, fb: string, v: string)
    requires fa + u == fb + v && '<' !in u && '<' !in v
    requires (fa == "" || fa[|fa| - 1] == '<') && (fb == "" || fb[|fb| - 1] == '<')
    ensures fa == fb && u == v
  {
    NotShorter(fa, u, fb, v);
    NotShorter(fb, v, fa, u);
    assert (fa + u)[..|fa|] == fa && (fb + v)[..|fb|] == fb;
    assert (fa + u)[|fa|..] == u && (fb + v)[|fb|..] == v;
  }

  lemma NotShorter(fa: string, u: string, fb: string, v: string)
    requires fa + u == fb + v && '<' !in u
    requires fb == "" || fb[|fb| - 1] == '<'
    ensures |fa| >= |fb|
  {
    assert fb != "" ==> (fb + v)[|fb| - 1] == fb[|fb| - 1];
    assert forall i :: |fa| <= i < |fa + u| ==> (fa + u)[i] in u;
  }

  /** Counts an accepted entry unless its combination of unique columns has been seen. */
  function Step(c: Count, n: Counter, e: Entry): Counter
    requires InRange(c.unique, |e|)
  {
    var uni := Joined(Columns(e, c.unique));
    if !c.accepts(e) || uni in n.seen then n
    else Counter(n.count + 1, if uni != "" then n.seen + {uni} else n.seen)
  }

  predicate AllLegal(q: Query, h: seq<Entry>) {
    forall i :: 0 <= i < |h| ==> Legal(q, h[i])
  }

  predicate AllInRange(c: Count, h: seq<Entry>) {
    forall i :: 0 <= i < |h| ==> InRange(c.unique, |h[i]|)
  }

  function Counted(c: Count, h: seq<Entry>): Counter
    requires AllInRange(c, h)
  {
    if h == [] then Counter(0, {}) else Step(c, Counted(c, h[..|h| - 1]), h[|h| - 1])
  }

  /** The combinations of unique columns among the accepted entries. */
  function Combinations(c: Count, h: seq<Entry>): set<seq<string>>
    requires AllInRange(c, h)
  {
    set i | 0 <= i < |h| && c.accepts(h[i]) :: Columns(h[i], c.unique)
  }

  /** The query's meaning: distinct combinations if there are unique columns, otherwise entries. */
  function Meaning(c: Count, h: seq<Entry>): nat
    requires AllInRange(c, h)
  {
    if c.unique == [] then |Select(h, c.accepts)| else |Combinations(c, h)|
  }

  lemma {:induction false} ColumnsPlain(e: Entry, ks: seq<nat>)
    requires InRange(ks, |e|) && Plain(e)
    ensures Plain(Columns(e, ks)) && |Columns(e, ks)| == |ks|
  {
    if ks != [] {
      ColumnsPlain(e, ks[..|ks| - 1]);
    }
  }

  /** The columns are picked in the order of the list. */
  lemma {:induction false} ColumnsMean(e: Entry, ks: seq<nat>, i: nat)
    requires InRange(ks, |e|) && i < |ks|
    ensures |Columns(e, ks)| == |ks| && Columns(e, ks)[i] == e[ks[i]]
  {
    ColumnsLength(e, ks);
    if i < |ks| - 1 {
      ColumnsMean(e, ks[..|ks| - 1], i);
    }
  }

  lemma {:induction false} ColumnsLength(e: Entry, ks: seq<nat>)
    requires InRange(ks, |e|)
    ensures |Columns(e, ks)| == |ks|
  {
    if ks != [] {
      ColumnsLength(e, ks[..|ks| - 1]);
    }
  }

  lemma JoinedNonempty(values: seq<string>)
    ensures Joined(values) == "" <==> values == []
  {
  }

  lemma CombinationsSnoc(c: Count, h: seq<Entry>, e: Entry)
    requires AllInRange(c, h) && InRange(c.unique, |e|)
    ensures Combinations(c, h + [e]) == Combinations(c, h) + if c.accepts(e) then {Columns(e, c.unique)} else {}
  {
    var all := h + [e];
    assert forall i :: 0 <= i < |h| ==> all[i] == h[i];
    assert all[|h|] == e;
    forall t | t in Combinations(c, all)
      ensures t in Combinations(c, h) + if c.accepts(e) then {Columns(e, c.unique)} else {}
    {
      var i :| 0 <= i < |all| && c.accepts(all[i]) && t == Columns(all[i], c.unique);
      if i < |h| {
        assert h[i] == all[i];
      }
    }
  }

  /** The counter has the number of combinations and their strings. */
  ghost predicate Reflects(c: Count, h: seq<Entry>, n: Counter)
    requires AllInRange(c, h)
  {
    n.count == |Combinations(c, h)| && AllJoined(n.seen, Combinations(c, h))
  }

  predicate AllJoined(seen: set<string>, all: set<seq<string>>) {
    seen == set t | t in all :: Joined(t)
  }

  /** A streaming count is the number the query asks for. */
  lemma {:induction false} CountedMeans(q: Query, c: Count, h: seq<Entry>)
    requires AllLegal(q, h) && InRange(c.unique, q.width)
    ensures Counted(c, h).count == Meaning(c, h)
    ensures c.unique == [] ==> Counted(c, h).seen == {}
    ensures c.unique != [] ==> Reflects(c, h, Counted(c, h))
  {
    if h != [] {
      var before, e := h[..|h| - 1], h[|h| - 1];
      CountedMeans(q, c, before);
      assert h == before + [e];
      if c.unique == [] {
        assert Columns(e, c.unique) == [];
      } else {
        StepReflects(q, c, before, Counted(c, before), e);
      }
    }
  }

  lemma StepReflects(q: Query, c: Count, h: seq<Entry>, n: Counter, e: Entry)
    requires AllLegal(q, h) && Legal(q, e) && InRange(c.unique, q.width) && c.unique != []
    requires Reflects(c, h, n)
    ensures Reflects(c, h + [e], Step(c, n, e))
  {
    var t := Columns(e, c.unique);
    CombinationsSnoc(c, h, e);
    SeenIffCombined(q, c, h, e, n);
    if c.accepts(e) && t !in Combinations(c, h) {
      NewReflects(c, h, n, e, t);
    } else {
      assert c.accepts(e) ==> Combinations(c, h) + {t} == Combinations(c, h);
    }
  }

  lemma NewReflects(c: Count, h: seq<Entry>, n: Counter, e: Entry, t: seq<string>)
    requires AllInRange(c, h) && InRange(c.unique, |e|) && Reflects(c, h, n) && t !in Combinations(c, h)
    requires Combinations(c, h + [e]) == Combinations(c, h) + {t}
    ensures Reflects(c, h + [e], Counter(n.count + 1, n.seen + {Joined(t)}))
  {
    JoinedMore(n.seen, Combinations(c, h), t);
  }

  lemma JoinedMore(seen: set<string>, all: set<seq<string>>, t: seq<string>)
    requires AllJoined(seen, all)
    ensures AllJoined(seen + {Joined(t)}, all + {t})
  {
  }

  lemma SeenIffCombined(q: Query, c: Count, h: seq<Entry>, e: Entry, n: Counter)
    requires AllLegal(q, h) && Legal(q, e) && InRange(c.unique, q.width) && c.unique != [] && Reflects(c, h, n)
    ensures var t := Columns(e, c.unique);
      Joined(t) != "" && (Joined(t) in n.seen <==> t in Combinations(c, h))
  {
    var t := Columns(e, c.unique);
    ColumnsPlain(e, c.unique);
    JoinedNonempty(t);
    forall u | u in Combinations(c, h) && Joined(u) == Joined(t)
      ensures u == t
    {
      var i :| 0 <= i < |h| && u == Columns(h[i], c.unique);
      ColumnsPlain(h[i], c.unique);
      JoinedInjective(u, t);
    }
  }

  function KeyOf(q: Query, e: Entry): seq<string>
    requires q.selected <= |e|
  {
    e[..q.selected]
  }

  function StepEach(q: Query, cs: seq<Counter>, e: Entry): (r: seq<Counter>)
    requires WellFormed(q) && |cs| == |q.counts| && Legal(q, e)
    ensures |r| == |cs|
    ensures forall i :: 0 <= i < |r| ==> r[i] == Step(q.counts[i], cs[i], e)
  {
    seq(|cs|, i requires 0 <= i < |cs| => Step(q.counts[i], cs[i], e))
  }

  function Zeros(q: Query): seq<Counter> {
    seq(|q.counts|, i => Counter(0, {}))
  }

  predicate Shaped(q: Query, t: Totals) {
    |t.master| == |q.counts| && ShapedAnswers(q, t.answers)
  }

  predicate ShapedAnswers(q: Query, answers: map<string, Answer>) {
    forall k :: k in answers ==> |answers[k].counters| == |q.counts|
  }

  /** The group of the entry, if it has one, exists already or still fits. */
  predicate Admitted(q: Query, answers: map<string, Answer>, key: string) {
    q.selected > 0 && (key in answers || |answers| < q.maxAnswers)
  }

  function StepAnswers(q: Query, answers: map<string, Answer>, e: Entry): map<string, Answer>
    requires WellFormed(q) && Legal(q, e) && ShapedAnswers(q, answers)
  {
    var key := Joined(KeyOf(q, e));
    if !Admitted(q, answers, key) then answers
    else
      var a := if key in answers then answers[key] else Answer(KeyOf(q, e), Zeros(q));
      answers[key := a.(counters := StepEach(q, a.counters, e))]
  }

  function StepAll(q: Query, t: Totals, e: Entry): Totals
    requires WellFormed(q) && Shaped(q, t) && Legal(q, e)
  {
    Totals(t.known + {e[q.mac]}, StepEach(q, t.master, e), StepAnswers(q, t.answers, e))
  }

  function Totalled(q: Query, h: seq<Entry>): (t: Totals)
    requires WellFormed(q) && AllLegal(q, h)
    ensures Shaped(q, t)
  {
    if h == [] then Totals({}, Zeros(q), map[]) else StepAll(q, Totalled(q, h[..|h| - 1]), h[|h| - 1])
  }

  /** The distinct group keys in the order in which they first occur. */
  function Groups(q: Query, h: seq<Entry>): seq<seq<string>>
    requires WellFormed(q) && AllLegal(q, h)
  {
    if h == [] then []
    else
      var before, k := Groups(q, h[..|h| - 1]), KeyOf(q, h[|h| - 1]);
      if k in before then before else before + [k]
  }

  /** The groups that are answered. */
  function FirstGroups(q: Query, h: seq<Entry>): seq<seq<string>>
    requires WellFormed(q) && AllLegal(q, h)
  {
    var all := Groups(q, h);
    if q.selected == 0 || q.maxAnswers <= 0 then []
    else if |all| <= q.maxAnswers then all
    else all[..q.maxAnswers]
  }

  function HasKey(q: Query, k: seq<string>): Entry -> bool {
    (e: Entry) => q.selected <= |e| && e[..q.selected] == k
  }

  function GroupOf(q: Query, h: seq<Entry>, k: seq<string>): seq<Entry> {
    Select(h, HasKey(q, k))
  }

  /** The totals are what the query means for the entries so far. */
  ghost predicate Answers(q: Query, h: seq<Entry>, t: Totals)
    requires WellFormed(q) && AllLegal(q, h)
  {
    && t.known == (set i | 0 <= i < |h| :: h[i][q.mac])
    && |t.master| == |q.counts|
    && (forall i :: 0 <= i < |q.counts| ==> t.master[i].count == Meaning(q.counts[i], h))
    && KeysAre(FirstGroups(q, h), t.answers.Keys) && |t.answers| == |FirstGroups(q, h)|
    && forall k :: k in FirstGroups(q, h) ==> AnswersGroup(q, h, k, t)
  }

  ghost predicate AnswersGroup(q: Query, h: seq<Entry>, k: seq<string>, t: Totals)
    requires WellFormed(q) && AllLegal(q, h)
  {
    Joined(k) in t.answers &&
    var a := t.answers[Joined(k)];
    && a.selected == k && |a.counters| == |q.counts|
    && forall i :: 0 <= i < |q.counts| ==>
         AllInRange(q.counts[i], GroupOf(q, h, k)) && a.counters[i].count == Meaning(q.counts[i], GroupOf(q, h, k))
  }

  lemma FirstGroupsStep(q: Query, h: seq<Entry>, e: Entry)
    requires WellFormed(q) && AllLegal(q, h) && Legal(q, e)
    ensures var g, k := FirstGroups(q, h), KeyOf(q, e);
      FirstGroups(q, h + [e]) == if q.selected > 0 && k !in g && |g| < q.maxAnswers then g + [k] else g
  {
    var all := h + [e];
    assert all[..|all| - 1] == h && all[|h|] == e;
  }

  lemma {:induction false} GroupLegal(q: Query, h: seq<Entry>, k: seq<string>)
    requires AllLegal(q, h)
    ensures AllLegal(q, GroupOf(q, h, k))
  {
    if h != [] {
      GroupLegal(q, h[..|h| - 1], k);
    }
  }

  lemma GroupSnoc(q: Query, h: seq<Entry>, e: Entry, k: seq<string>)
    requires Legal(q, e) && q.selected <= q.width
    ensures GroupOf(q, h + [e], k) == GroupOf(q, h, k) + if KeyOf(q, e) == k then [e] else []
  {
    assert (h + [e])[..|h|] == h;
  }

  /** A key that is not among the answered groups while there is room has not occurred. */
  lemma {:induction false} NewGroupIsEmpty(q: Query, h: seq<Entry>, k: seq<string>)
    requires WellFormed(q) && AllLegal(q, h) && k !in Groups(q, h)
    ensures GroupOf(q, h, k) == []
  {
    if h != [] {
      NewGroupIsEmpty(q, h[..|h| - 1], k);
    }
  }

  /** The counters are those of the entries so far. */
  ghost predicate Runs(q: Query, h: seq<Entry>, cs: seq<Counter>)
    requires WellFormed(q)
  {
    && |cs| == |q.counts| && AllLegal(q, h)
    && forall i :: 0 <= i < |cs| ==> cs[i] == Counted(q.counts[i], h)
  }

  lemma RunsStep(q: Query, h: seq<Entry>, cs: seq<Counter>, e: Entry)
    requires WellFormed(q) && Runs(q, h, cs) && Legal(q, e)
    ensures Runs(q, h + [e], StepEach(q, cs, e))
  {
    assert (h + [e])[..|h|] == h;
  }

  ghost predicate RunsGroup(q: Query, h: seq<Entry>, k: seq<string>, answers: map<string, Answer>)
    requires WellFormed(q)
  {
    && Joined(k) in answers && answers[Joined(k)].selected == k
    && Runs(q, GroupOf(q, h, k), answers[Joined(k)].counters)
  }

  /** The answers are those of the given groups. */
  ghost predicate RunsGroups(q: Query, h: seq<Entry>, g: seq<seq<string>>, answers: map<string, Answer>)
    requires WellFormed(q)
  {
    && KeysAre(g, answers.Keys) && |answers| == |g|
    && AllRun(q, h, g, answers)
  }

  ghost predicate AllRun(q: Query, h: seq<Entry>, g: seq<seq<string>>, answers: map<string, Answer>)
    requires WellFormed(q)
  {
    forall k :: k in g ==> Plain(k) && RunsGroup(q, h, k, answers)
  }

  lemma AllRunSnoc(q: Query, h: seq<Entry>, g: seq<seq<string>>, answers: map<string, Answer>, k: seq<string>)
    requires WellFormed(q) && AllRun(q, h, g, answers) && Plain(k) && RunsGroup(q, h, k, answers)
    ensures AllRun(q, h, g + [k], answers)
  {
  }

  ghost predicate KeysAre(g: seq<seq<string>>, keys: set<string>) {
    forall s :: s in keys <==> exists k :: k in g && s == Joined(k)
  }

  lemma OneMoreKey(g: seq<seq<string>>, keys: set<string>, k: seq<string>)
    requires KeysAre(g, keys)
    ensures KeysAre(g + [k], keys + {Joined(k)})
  {
    forall s | s in keys + {Joined(k)}
      ensures exists j :: j in g + [k] && s == Joined(j)
    {
      if s == Joined(k) {
        assert k in g + [k];
      } else {
        var j :| j in g && s == Joined(j);
        assert j in g + [k];
      }
    }
  }

  lemma KeyPlain(q: Query, e: Entry)
    requires WellFormed(q) && Legal(q, e)
    ensures Plain(KeyOf(q, e))
  {
  }

  lemma KnownKey(q: Query, h: seq<Entry>, g: seq<seq<string>>, answers: map<string, Answer>, e: Entry)
    requires WellFormed(q) && Legal(q, e) && RunsGroups(q, h, g, answers)
    ensures Joined(KeyOf(q, e)) in answers <==> KeyOf(q, e) in g
  {
    KeyPlain(q, e);
    forall k | k in g && Joined(k) == Joined(KeyOf(q, e))
      ensures k == KeyOf(q, e)
    {
      JoinedInjective(k, KeyOf(q, e));
    }
  }

  /** An entry leaves the other groups as they are. */
  lemma OtherGroups(q: Query, h: seq<Entry>, k: seq<string>, answers: map<string, Answer>, e: Entry, a: Answer)
    requires WellFormed(q) && Legal(q, e) && Plain(k) && RunsGroup(q, h, k, answers) && k != KeyOf(q, e)
    ensures RunsGroup(q, h + [e], k, answers) && RunsGroup(q, h + [e], k, answers[Joined(KeyOf(q, e)) := a])
  {
    KeyPlain(q, e);
    if Joined(k) == Joined(KeyOf(q, e)) {
      JoinedInjective(k, KeyOf(q, e));
    }
    GroupSnoc(q, h, e, k);
    assert GroupOf(q, h, k) + [] == GroupOf(q, h, k);
  }

  lemma SameGroup(q: Query, h: seq<Entry>, answers: map<string, Answer>, e: Entry)
    requires WellFormed(q) && Legal(q, e) && RunsGroup(q, h, KeyOf(q, e), answers)
    ensures var s, k := Joined(KeyOf(q, e)), KeyOf(q, e);
      RunsGroup(q, h + [e], k, answers[s := answers[s].(counters := StepEach(q, answers[s].counters, e))])
  {
    var k := KeyOf(q, e);
    GroupSnoc(q, h, e, k);
    RunsStep(q, GroupOf(q, h, k), answers[Joined(k)].counters, e);
  }

  lemma NewGroup(q: Query, h: seq<Entry>, answers: map<string, Answer>, e: Entry)
    requires WellFormed(q) && Legal(q, e) && GroupOf(q, h, KeyOf(q, e)) == []
    ensures var s, k := Joined(KeyOf(q, e)), KeyOf(q, e);
      RunsGroup(q, h + [e], k, answers[s := Answer(k, StepEach(q, Zeros(q), e))])
  {
    var k := KeyOf(q, e);
    GroupSnoc(q, h, e, k);
    RunsStep(q, [], Zeros(q), e);
    assert [] + [e] == [e];
  }

  lemma OthersStay(q: Query, h: seq<Entry>, g: seq<seq<string>>, answers: map<string, Answer>, e: Entry, a: Answer)
    requires WellFormed(q) && Legal(q, e) && RunsGroups(q, h, g, answers)
    ensures forall k :: k in g && k != KeyOf(q, e) ==>
      Plain(k) && RunsGroup(q, h + [e], k, answers) && RunsGroup(q, h + [e], k, answers[Joined(KeyOf(q, e)) := a])
  {
    forall k | k in g && k != KeyOf(q, e)
      ensures Plain(k) && RunsGroup(q, h + [e], k, answers)
      ensures RunsGroup(q, h + [e], k, answers[Joined(KeyOf(q, e)) := a])
    {
      OtherGroups(q, h, k, answers, e, a);
    }
  }

  lemma ExistingGroupStep(q: Query, h: seq<Entry>, g: seq<seq<string>>, answers: map<string, Answer>, e: Entry)
    requires WellFormed(q) && Legal(q, e) && RunsGroups(q, h, g, answers) && KeyOf(q, e) in g
    ensures var s := Joined(KeyOf(q, e));
      RunsGroups(q, h + [e], g, answers[s := answers[s].(counters := StepEach(q, answers[s].counters, e))])
  {
    var s := Joined(KeyOf(q, e));
    var a := answers[s].(counters := StepEach(q, answers[s].counters, e));
    OthersStay(q, h, g, answers, e, a);
    SameGroup(q, h, answers, e);
    KeyPlain(q, e);
    Overwritten(answers, s, a);
  }

  lemma Overwritten<K, V>(m: map<K, V>, k: K, v: V)
    requires k in m
    ensures m[k := v].Keys == m.Keys && |m[k := v]| == |m|
  {
    assert m[k := v].Keys == m.Keys;
    assert |m[k := v]| == |m[k := v].Keys| && |m| == |m.Keys|;
  }

  lemma NewGroupStep(q: Query, h: seq<Entry>, g: seq<seq<string>>, answers: map<string, Answer>, e: Entry)
    requires WellFormed(q) && Legal(q, e) && RunsGroups(q, h, g, answers)
    requires KeyOf(q, e) !in g && GroupOf(q, h, KeyOf(q, e)) == []
    ensures RunsGroups(q, h + [e], g + [KeyOf(q, e)], WithNewGroup(q, answers, e))
  {
    var k := KeyOf(q, e);
    var more := WithNewGroup(q, answers, e);
    NewGroup(q, h, answers, e);
    KeyPlain(q, e);
    OthersRun(q, h, g, answers, e, Answer(k, StepEach(q, Zeros(q), e)));
    AllRunSnoc(q, h + [e], g, more, k);
    KnownKey(q, h, g, answers, e);
    OneMoreKey(g, answers.Keys, k);
    Inserted(answers, Joined(k), Answer(k, StepEach(q, Zeros(q), e)));
  }

  function WithNewGroup(q: Query, answers: map<string, Answer>, e: Entry): map<string, Answer>
    requires WellFormed(q) && Legal(q, e)
  {
    answers[Joined(KeyOf(q, e)) := Answer(KeyOf(q, e), StepEach(q, Zeros(q), e))]
  }

  lemma OthersRun(q: Query, h: seq<Entry>, g: seq<seq<string>>, answers: map<string, Answer>, e: Entry, a: Answer)
    requires WellFormed(q) && Legal(q, e) && RunsGroups(q, h, g, answers) && KeyOf(q, e) !in g
    ensures AllRun(q, h + [e], g, answers[Joined(KeyOf(q, e)) := a])
  {
    OthersStay(q, h, g, answers, e, a);
  }

  lemma Inserted<K, V>(m: map<K, V>, k: K, v: V)
    requires k !in m
    ensures m[k := v].Keys == m.Keys + {k} && |m[k := v]| == |m| + 1
  {
    assert m[k := v].Keys == m.Keys + {k};
    assert |m[k := v]| == |m[k := v].Keys| && |m| == |m.Keys|;
  }

  lemma NoGroupStep(q: Query, h: seq<Entry>, g: seq<seq<string>>, answers: map<string, Answer>, e: Entry)
    requires WellFormed(q) && Legal(q, e) && RunsGroups(q, h, g, answers) && KeyOf(q, e) !in g
    ensures RunsGroups(q, h + [e], g, answers)
  {
    OthersStay(q, h, g, answers, e, Answer([], []));
  }

  lemma AnswersStep(q: Query, h: seq<Entry>, answers: map<string, Answer>, e: Entry)
    requires WellFormed(q) && AllLegal(q, h) && Legal(q, e) && ShapedAnswers(q, answers)
    requires RunsGroups(q, h, FirstGroups(q, h), answers)
    ensures RunsGroups(q, h + [e], FirstGroups(q, h + [e]), StepAnswers(q, answers, e))
  {
    var g, k := FirstGroups(q, h), KeyOf(q, e);
    FirstGroupsStep(q, h, e);
    KnownKey(q, h, g, answers, e);
    if k in g {
      ExistingGroupStep(q, h, g, answers, e);
    } else if q.selected > 0 && |g| < q.maxAnswers {
      NewGroupIsEmpty(q, h, k);
      NewGroupStep(q, h, g, answers, e);
    } else {
      NoGroupStep(q, h, g, answers, e);
    }
  }

  lemma {:induction false} TotalledRuns(q: Query, h: seq<Entry>)
    requires WellFormed(q) && AllLegal(q, h)
    ensures var t := Totalled(q, h);
      && Runs(q, h, t.master) && RunsGroups(q, h, FirstGroups(q, h), t.answers)
      && t.known == (set i | 0 <= i < |h| :: h[i][q.mac])
  {
    if h != [] {
      var before, e := h[..|h| - 1], h[|h| - 1];
      assert h == before + [e];
      TotalledRuns(q, before);
      RunsStep(q, before, Totalled(q, before).master, e);
      AnswersStep(q, before, Totalled(q, before).answers, e);
      KnownSnoc(q, before, e);
    }
  }

  lemma KnownSnoc(q: Query, h: seq<Entry>, e: Entry)
    requires WellFormed(q) && AllLegal(q, h) && Legal(q, e)
    ensures (set i | 0 <= i < |h + [e]| :: (h + [e])[i][q.mac]) == (set i | 0 <= i < |h| :: h[i][q.mac]) + {e[q.mac]}
  {
    var all := h + [e];
    assert all[|h|] == e;
    assert forall i :: 0 <= i < |h| ==> all[i] == h[i];
  }

  lemma GroupMeans(q: Query, h: seq<Entry>, k: seq<string>, t: Totals)
    requires WellFormed(q) && AllLegal(q, h) && RunsGroup(q, h, k, t.answers)
    ensures AnswersGroup(q, h, k, t)
  {
    GroupLegal(q, h, k);
    forall i | 0 <= i < |q.counts|
      ensures AllInRange(q.counts[i], GroupOf(q, h, k))
      ensures t.answers[Joined(k)].counters[i].count == Meaning(q.counts[i], GroupOf(q, h, k))
    {
      CountedMeans(q, q.counts[i], GroupOf(q, h, k));
    }
  }

  /** Streaming over the entries computes the query: every count, overall and in each of the first groups. */
  lemma TotalsAnswerQuery(q: Query, h: seq<Entry>)
    requires WellFormed(q) && AllLegal(q, h)
    ensures Answers(q, h, Totalled(q, h))
  {
    var t := Totalled(q, h);
    TotalledRuns(q, h);
    forall i | 0 <= i < |q.counts|
      ensures t.master[i].count == Meaning(q.counts[i], h)
    {
      CountedMeans(q, q.counts[i], h);
    }
    forall k | k in FirstGroups(q, h)
      ensures AnswersGroup(q, h, k, t)
    {
      GroupMeans(q, h, k, t);
    }
  }

  // ----- which groups are answered

  /** The keys of the first n entries. */
  function KeysBefore(q: Query, h: seq<Entry>, n: nat): set<seq<string>>
    requires AllLegal(q, h) && q.selected <= q.width && n <= |h|
  {
    set i | 0 <= i < n :: h[i][..q.selected]
  }

  /** Entry i has the key, and fewer other keys than the limit came before it. */
  predicate InTime(q: Query, h: seq<Entry>, k: seq<string>, i: nat)
    requires AllLegal(q, h) && q.selected <= q.width
  {
    i < |h| && h[i][..q.selected] == k && |KeysBefore(q, h, i) - {k}| < q.maxAnswers
  }

  predicate Distinct(g: seq<seq<string>>) {
    forall i, j :: 0 <= i < j < |g| ==> g[i] != g[j]
  }

  function Elements(g: seq<seq<string>>): set<seq<string>> {
    set k | k in g
  }

  lemma {:induction false} DistinctSize(g: seq<seq<string>>)
    requires Distinct(g)
    ensures |Elements(g)| == |g|
  {
    if g != [] {
      var n := |g| - 1;
      DistinctSize(g[..n]);
      assert g == g[..n] + [g[n]];
      assert Elements(g) == Elements(g[..n]) + {g[n]};
    }
  }

  lemma Subsets(a: set<seq<string>>, b: set<seq<string>>)
    requires a <= b
    ensures |a| <= |b|
  {
    assert b == a + (b - a);
  }

  lemma KeysSnoc(q: Query, h: seq<Entry>, e: Entry, n: nat)
    requires AllLegal(q, h) && Legal(q, e) && q.selected <= q.width && n <= |h|
    ensures AllLegal(q, h + [e])
    ensures KeysBefore(q, h + [e], n) == KeysBefore(q, h, n)
    ensures KeysBefore(q, h + [e], |h| + 1) == KeysBefore(q, h, |h|) + {KeyOf(q, e)}
  {
    var all := h + [e];
    assert all[|h|] == e && forall i :: 0 <= i < |h| ==> all[i] == h[i];
    assert KeyOf(q, e) == all[|h|][..q.selected];
    forall i | 0 <= i < |h|
      ensures all[i][..q.selected] in KeysBefore(q, h, |h|)
    {
      assert h[i][..q.selected] in KeysBefore(q, h, |h|);
    }
  }

  /** The groups are distinct keys; if some key has none, there are as many as the limit allows. */
  ghost predicate Fitting(q: Query, g: seq<seq<string>>, keys: set<seq<string>>) {
    Distinct(g) && Elements(g) <= keys && (Elements(g) == keys || q.selected == 0 || |g| >= q.maxAnswers)
  }

  ghost predicate GroupsFit(q: Query, h: seq<Entry>)
    requires WellFormed(q) && AllLegal(q, h)
  {
    Fitting(q, FirstGroups(q, h), KeysBefore(q, h, |h|))
  }

  function NextGroups(q: Query, g: seq<seq<string>>, k: seq<string>): seq<seq<string>> {
    if q.selected > 0 && k !in g && |g| < q.maxAnswers then g + [k] else g
  }

  lemma FitsNext(q: Query, g: seq<seq<string>>, keys: set<seq<string>>, k: seq<string>)
    requires Fitting(q, g, keys)
    ensures Fitting(q, NextGroups(q, g, k), keys + {k})
  {
    assert Elements(g + [k]) == Elements(g) + {k};
  }

  lemma GroupsAndKeys(q: Query, h: seq<Entry>, e: Entry)
    requires WellFormed(q) && AllLegal(q, h) && Legal(q, e) && AllLegal(q, h + [e])
    ensures FirstGroups(q, h + [e]) == NextGroups(q, FirstGroups(q, h), KeyOf(q, e))
    ensures KeysBefore(q, h + [e], |h + [e]|) == KeysBefore(q, h, |h|) + {KeyOf(q, e)}
  {
    FirstGroupsStep(q, h, e);
    KeysSnoc(q, h, e, 0);
  }

  lemma {:induction false} GroupsAlwaysFit(q: Query, h: seq<Entry>)
    requires WellFormed(q) && AllLegal(q, h)
    ensures GroupsFit(q, h)
  {
    if h != [] {
      var before, e := h[..|h| - 1], h[|h| - 1];
      assert h == before + [e];
      GroupsAlwaysFit(q, before);
      GroupsAndKeys(q, before, e);
      FitsNext(q, FirstGroups(q, before), KeysBefore(q, before, |before|), KeyOf(q, e));
    }
  }

  /** A key has a group exactly if it occurs before as many others as there may be groups. */
  lemma {:induction false} GroupIffInTime(q: Query, h: seq<Entry>, k: seq<string>)
    requires WellFormed(q) && AllLegal(q, h)
    ensures k in FirstGroups(q, h) <==> q.selected > 0 && SomeInTime(q, h, k)
  {
    if h != [] {
      var before, e := h[..|h| - 1], h[|h| - 1];
      assert h == before + [e];
      GroupIffInTime(q, before, k);
      FirstGroupsStep(q, before, e);
      GroupsAlwaysFit(q, before);
      InTimeSnoc(q, before, e, k);
      LastInTime(q, before, e, k);
    }
  }

  lemma InTimeAt(q: Query, h: seq<Entry>, e: Entry, k: seq<string>, i: nat)
    requires WellFormed(q) && AllLegal(q, h) && Legal(q, e) && i < |h|
    ensures AllLegal(q, h + [e]) && (InTime(q, h + [e], k, i) <==> InTime(q, h, k, i))
  {
    KeysSnoc(q, h, e, i);
    assert (h + [e])[i] == h[i];
  }

  ghost predicate SomeInTime(q: Query, h: seq<Entry>, k: seq<string>)
    requires AllLegal(q, h) && q.selected <= q.width
  {
    exists i: nat :: InTime(q, h, k, i)
  }

  lemma EarlierInTime(q: Query, h: seq<Entry>, e: Entry, k: seq<string>, i: nat)
    requires WellFormed(q) && AllLegal(q, h) && Legal(q, e) && AllLegal(q, h + [e])
    requires InTime(q, h + [e], k, i) && i != |h|
    ensures SomeInTime(q, h, k)
  {
    InTimeAt(q, h, e, k, i);
  }

  lemma StillInTime(q: Query, h: seq<Entry>, e: Entry, k: seq<string>)
    requires WellFormed(q) && AllLegal(q, h) && Legal(q, e) && AllLegal(q, h + [e]) && SomeInTime(q, h, k)
    ensures SomeInTime(q, h + [e], k)
  {
    var i: nat :| InTime(q, h, k, i);
    InTimeAt(q, h, e, k, i);
  }

  lemma ThenInTime(q: Query, h: seq<Entry>, e: Entry, k: seq<string>)
    requires WellFormed(q) && AllLegal(q, h) && Legal(q, e) && AllLegal(q, h + [e]) && SomeInTime(q, h + [e], k)
    ensures SomeInTime(q, h, k) || InTime(q, h + [e], k, |h|)
  {
    var i: nat :| InTime(q, h + [e], k, i);
    if i != |h| {
      EarlierInTime(q, h, e, k, i);
    }
  }

  lemma InTimeSnoc(q: Query, h: seq<Entry>, e: Entry, k: seq<string>)
    requires WellFormed(q) && AllLegal(q, h) && Legal(q, e) && AllLegal(q, h + [e])
    ensures SomeInTime(q, h + [e], k) <==> SomeInTime(q, h, k) || InTime(q, h + [e], k, |h|)
  {
    if SomeInTime(q, h + [e], k) {
      ThenInTime(q, h, e, k);
    } else if SomeInTime(q, h, k) {
      StillInTime(q, h, e, k);
    }
  }

  /** The last entry is in time for its key if it has a group already or there is room for one. */
  lemma LastInTime(q: Query, h: seq<Entry>, e: Entry, k: seq<string>)
    requires WellFormed(q) && AllLegal(q, h) && Legal(q, e) && GroupsFit(q, h)
    ensures AllLegal(q, h + [e])
    ensures k !in FirstGroups(q, h) && q.selected > 0 ==>
      (InTime(q, h + [e], k, |h|) <==> k == KeyOf(q, e) && |FirstGroups(q, h)| < q.maxAnswers)
  {
    var g, keys := FirstGroups(q, h), KeysBefore(q, h, |h|);
    KeysSnoc(q, h, e, |h|);
    DistinctSize(g);
    assert (h + [e])[|h|] == e && KeyOf(q, e) == e[..q.selected];
    if k !in g {
      Subsets(Elements(g), keys - {k});
      Subsets(keys - {k}, keys);
    }
  }

  /** The state that the callback updates for every entry. */
  class Aggregator {
    const q: Query
    var known: set<string>
    var master: seq<Counter>
    var answers: map<string, Answer>

    ghost function Model(): Totals
      reads this
    {
      Totals(known, master, answers)
    }

    constructor (q: Query)
      requires WellFormed(q)
      ensures this.q == q && Model() == Totalled(q, [])
    {
      this.q := q;
      known, master, answers := {}, Zeros(q), map[];
    }

    method Callback(entry: Entry)
      requires WellFormed(q) && Legal(q, entry) && Shaped(q, Model())
      modifies this
      ensures Model() == StepAll(q, old(Model()), entry)
    {
      known := known + {entry[q.mac]};
      var key := Key(entry[..q.selected]);
      JoinedNonempty(KeyOf(q, entry));
      if key != "" && key !in answers {
        if |answers| < q.maxAnswers {
          answers := answers[key := Answer(entry[..q.selected], Zeros(q))];
        } else {
          key := "";
        }
      }
      master := CountEach(q, master, entry);
      if key != "" {
        var group := CountEach(q, answers[key].counters, entry);
        answers := answers[key := answers[key].(counters := group)];
      }
    }
  }

  /** The columns joined, each with a separator behind it. */
  method Key(columns: seq<string>) returns (key: string)
    ensures key == Joined(columns)
  {
    key := "";
    for i := 0 to |columns|
      invariant key == Joined(columns[..i])
    {
      assert columns[..i + 1][..i] == columns[..i];
      key := key + columns[i] + "<";
    }
    assert columns[..|columns|] == columns;
  }

  method UniqueKey(entry: Entry, unique: seq<nat>) returns (uni: string)
    requires InRange(unique, |entry|)
    ensures uni == Joined(Columns(entry, unique))
  {
    uni := "";
    for i := 0 to |unique|
      invariant uni == Joined(Columns(entry, unique[..i]))
    {
      assert unique[..i + 1][..i] == unique[..i];
      uni := uni + entry[unique[i]] + "<";
    }
    assert unique[..|unique|] == unique;
  }

  /** Updates the counters whose filter accepts the entry. */
  method CountEach(q: Query, cs: seq<Counter>, entry: Entry) returns (r: seq<Counter>)
    requires WellFormed(q) && |cs| == |q.counts| && Legal(q, entry)
    ensures r == StepEach(q, cs, entry)
  {
    r := cs;
    for i := 0 to |q.counts|
      invariant |r| == |cs|
      invariant forall k :: 0 <= k < i ==> r[k] == Step(q.counts[k], cs[k], entry)
      invariant forall k :: i <= k < |cs| ==> r[k] == cs[k]
    {
      if q.counts[i].accepts(entry) {
        var uni := UniqueKey(entry, q.counts[i].unique);
        if uni !in r[i].seen {
          r := r[i := Counter(r[i].count + 1, if uni != "" then r[i].seen + {uni} else r[i].seen)];
        }
      }
    }
  }
}
