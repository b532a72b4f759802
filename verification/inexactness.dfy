/** The condition of QueryExactness is also necessary, if the translation is to be exact in whatever order the list is given. */
module QueryInexactness {
  import opened QueryClauses
  import opened QueryExactness

  ghost predicate Reordered(p: seq<Descriptor>, jobs: seq<Descriptor>) {
    multiset(p) == multiset(jobs)
  }

  /** A list's meaning does not depend on its order; this says the translation is exact for every order. */
  ghost predicate ExactInEveryOrder(jobs: seq<Descriptor>) {
    forall p :: Reordered(p, jobs) ==> Exact(p)
  }

  // ----- lists and multisets

  lemma TwoOf(s: seq<Descriptor>, i: nat, j: nat)
    requires i < j < |s|
    ensures multiset{s[i], s[j]} <= multiset(s)
  {
    assert s == s[..i] + [s[i]] + s[i + 1..j] + [s[j]] + s[j + 1..];
  }

  lemma Another(s: seq<Descriptor>, j: nat) returns (i: nat)
    requires j < |s| && multiset(s)[s[j]] >= 2
    ensures i < |s| && i != j && s[i] == s[j]
  {
    assert s == s[..j] + [s[j]] + s[j + 1..];
    var others := s[..j] + s[j + 1..];
    assert multiset(others)[s[j]] >= 1;
    assert s[j] in others;
    var k :| 0 <= k < |others| && others[k] == s[j];
    i := if k < j then k else k + 1;
  }

  /** In a reordered list, two different positions have counterparts at two different positions. */
  lemma Counterpart(p: seq<Descriptor>, q: seq<Descriptor>, i: nat, j: nat, j': nat) returns (i': nat)
    requires Reordered(p, q) && i < |p| && j < |p| && i != j && j' < |q| && q[j'] == p[j]
    ensures i' < |q| && i' != j' && q[i'] == p[i]
  {
    assert p[i] in multiset(q);
    if p[i] == p[j] {
      if i < j {
        TwoOf(p, i, j);
      } else {
        TwoOf(p, j, i);
      }
      i' := Another(q, j');
    } else {
      i' :| 0 <= i' < |q| && q[i'] == p[i];
    }
  }

  lemma MembersOf(p: seq<Descriptor>, q: seq<Descriptor>)
    requires Reordered(p, q)
    ensures forall d :: d in p <==> d in q
  {
    assert forall d :: d in p <==> d in multiset(p);
    assert forall d :: d in q <==> d in multiset(q);
  }

  lemma StarsReordered(p: seq<Descriptor>, q: seq<Descriptor>)
    requires Reordered(p, q) && Stars(q)
    ensures Stars(p)
  {
    MembersOf(p, q);
    forall i, j, k | 0 <= i < |p| && 0 <= j < |p| && 0 <= k < |p| && Free(p, p[j])
      ensures !(SharesJob(p, i, j) && SharesMac(p, k, j))
    {
      if SharesJob(p, i, j) && SharesMac(p, k, j) {
        assert p[j] in q;
        var j' :| 0 <= j' < |q| && q[j'] == p[j];
        var i' := Counterpart(p, q, i, j, j');
        var k' := Counterpart(p, q, k, j, j');
        StarsAt(q, i', j', k');
      }
    }
  }

  lemma TranslatableReordered(p: seq<Descriptor>, jobs: seq<Descriptor>)
    requires Reordered(p, jobs) && Translatable(jobs)
    ensures Translatable(p)
  {
    MembersOf(p, jobs);
    if !(exists d :: d in jobs && d.Everything()) {
      StarsReordered(p, jobs);
      assert jobs[0] in p;
    }
  }

  lemma {:induction false} SeqOf(ms: multiset<Descriptor>) returns (s: seq<Descriptor>)
    ensures multiset(s) == ms
  {
    if ms == multiset{} {
      s := [];
    } else {
      var d :| d in ms;
      var t := SeqOf(ms - multiset{d});
      s := [d] + t;
    }
  }

  lemma BroughtToFront(jobs: seq<Descriptor>, front: seq<Descriptor>) returns (p: seq<Descriptor>, rest: seq<Descriptor>)
    requires multiset(front) <= multiset(jobs)
    ensures p == front + rest && Reordered(p, jobs)
  {
    rest := SeqOf(multiset(jobs) - multiset(front));
    p := front + rest;
  }

  lemma FreshString(names: seq<string>) returns (f: string)
    ensures f !in names && f != ""
  {
    f := "x";
    var i := 0;
    while i < |names|
      invariant 0 <= i <= |names| && |f| > 0
      invariant forall k :: 0 <= k < i ==> |names[k]| < |f|
    {
      f := f + names[i];
      i := i + 1;
    }
  }

  function Macs(jobs: seq<Descriptor>): seq<string> {
    seq(|jobs|, i requires 0 <= i < |jobs| => jobs[i].mac)
  }

  function Types(jobs: seq<Descriptor>): seq<string> {
    seq(|jobs|, i requires 0 <= i < |jobs| => jobs[i].job)
  }

  lemma FreshMac(jobs: seq<Descriptor>) returns (mac: string)
    ensures forall d :: d in jobs ==> d.mac != mac
  {
    mac := FreshString(Macs(jobs));
    assert forall i :: 0 <= i < |jobs| ==> Macs(jobs)[i] == jobs[i].mac;
  }

  lemma FreshHeader(jobs: seq<Descriptor>) returns (header: string)
    ensures forall d :: d in jobs ==> Header(d.job) != header
  {
    var job := FreshString(Types(jobs));
    header := Header(job);
    forall d | d in jobs
      ensures Header(d.job) != header
    {
      var i :| 0 <= i < |jobs| && jobs[i] == d;
      assert Types(jobs)[i] == d.job;
      if Header(d.job) == Header(job) {
        HeaderInjective(d.job, job);
      }
    }
  }

  // ----- how the recursion treats the first descriptors

  ghost predicate Passes(jobs: seq<Descriptor>, machines: set<string>, jobtypes: set<string>, row: Row) {
    Accepted(Clauses(jobs, machines, jobtypes), row)
  }

  lemma PairPasses(d: Descriptor, rest: seq<Descriptor>, machines: set<string>, jobtypes: set<string>, row: Row)
    requires d.Pair()
    requires d.job !in jobtypes ==> Passes(rest, machines, jobtypes + {d.job}, row)
    requires d.mac !in machines || d.job in jobtypes ==> Passes(rest, machines + {d.mac}, jobtypes, row)
    ensures Passes([d] + rest, machines, jobtypes, row)
  {
    assert ([d] + rest)[1..] == rest;
  }

  lemma AlonePasses(d: Descriptor, rest: seq<Descriptor>, machines: set<string>, jobtypes: set<string>, row: Row)
    requires d.MachineOnly() || d.JobOnly()
    requires if d.HasJob() then Passes(rest, machines, jobtypes + {d.job}, row) else Passes(rest, machines + {d.mac}, jobtypes, row)
    ensures Passes([d] + rest, machines, jobtypes, row)
  {
    assert ([d] + rest)[1..] == rest;
  }

  lemma HasPasses(rest: seq<Descriptor>, machines: set<string>, jobtypes: set<string>, row: Row, job: string)
    requires row.mac in machines || (job in jobtypes && Header(job) == row.header)
    ensures Passes(rest, machines, jobtypes, row)
  {
    SatisfiedAccepted(rest, machines, jobtypes, row);
  }

  /** A pair after its machine on its own: rows of its job type pass on every machine. */
  lemma MachineThenPair(w: Descriptor, d: Descriptor, rest: seq<Descriptor>, row: Row)
    requires w.MachineOnly() && d.Pair() && w.mac == d.mac && row.header == Header(d.job)
    ensures Passes([w] + ([d] + rest), {}, {}, row)
  {
    HasPasses(rest, {} + {w.mac}, {} + {d.job}, row, d.job);
    PairPasses(d, rest, {} + {w.mac}, {}, row);
    AlonePasses(w, [d] + rest, {}, {}, row);
  }

  /** A pair after its job type on its own: rows of its machine pass with every job type. */
  lemma TypeThenPair(w: Descriptor, d: Descriptor, rest: seq<Descriptor>, row: Row)
    requires w.JobOnly() && d.Pair() && w.job == d.job && row.mac == d.mac
    ensures Passes([w] + ([d] + rest), {}, {}, row)
  {
    HasPasses(rest, {} + {d.mac}, {} + {w.job}, row, d.job);
    PairPasses(d, rest, {}, {} + {w.job}, row);
    AlonePasses(w, [d] + rest, {}, {}, row);
  }

  /** The same pair twice: rows of its machine pass with every job type. */
  lemma PairTwice(d: Descriptor, e: Descriptor, rest: seq<Descriptor>, row: Row)
    requires d.Pair() && e.Pair() && d.mac == e.mac == row.mac && d.job == e.job
    ensures Passes([d] + ([e] + rest), {}, {}, row)
  {
    HasPasses(rest, {} + {e.mac}, {} + {d.job}, row, d.job);
    PairPasses(e, rest, {}, {} + {d.job}, row);
    HasPasses([e] + rest, {} + {d.mac}, {}, row, d.job);
    PairPasses(d, [e] + rest, {}, {}, row);
  }

  /** Pairs (a,t), (m,t), (m,x): rows (a,x) pass. */
  lemma PathPasses(e1: Descriptor, e2: Descriptor, e3: Descriptor, rest: seq<Descriptor>, row: Row)
    requires e1.Pair() && e2.Pair() && e3.Pair()
    requires e1.job == e2.job && e2.mac == e3.mac && row == Row(e1.mac, Header(e3.job)) && e3.job != e2.job
    ensures Passes([e1] + ([e2] + ([e3] + rest)), {}, {}, row)
  {
    var t := {} + {e1.job};
    HasPasses(rest, {} + {e2.mac}, t + {e3.job}, row, e3.job);
    PairPasses(e3, rest, {} + {e2.mac}, t, row);
    PairPasses(e2, [e3] + rest, {}, t, row);
    HasPasses([e2] + ([e3] + rest), {} + {e1.mac}, {}, row, e3.job);
    PairPasses(e1, [e2] + ([e3] + rest), {}, {}, row);
  }

  /** Two machines times two job types: the second machine's rows pass with every job type. */
  lemma SquarePasses(e1: Descriptor, e2: Descriptor, e3: Descriptor, e4: Descriptor, rest: seq<Descriptor>, row: Row)
    requires e1.Pair() && e2.Pair() && e3.Pair() && e4.Pair()
    requires e1.mac == e2.mac && e3.mac == e4.mac == row.mac && e1.job == e3.job && e2.job == e4.job
    requires e1.job != e2.job && e1.mac != e3.mac
    ensures Passes([e1] + ([e2] + ([e3] + ([e4] + rest))), {}, {}, row)
  {
    var r4 := [e4] + rest;
    var r3 := [e3] + r4;
    var t, x, a := {} + {e1.job}, {} + {e2.job}, {} + {e1.mac};
    // first pair: job branch
    HasPasses(r4, {} + {e3.mac}, t + {e2.job}, row, e1.job);
    PairPasses(e3, r4, {}, t + {e2.job}, row);
    HasPasses(r4, a + {e3.mac}, t, row, e1.job);
    PairPasses(e3, r4, {} + {e2.mac}, t, row);
    PairPasses(e2, r3, {}, t, row);
    // first pair: machine branch
    HasPasses(rest, a + {e4.mac}, x + {e3.job}, row, e1.job);
    PairPasses(e4, rest, a, x + {e3.job}, row);
    HasPasses(r4, a + {e3.mac}, x, row, e1.job);
    PairPasses(e3, r4, a, x, row);
    PairPasses(e2, r3, a, {}, row);
    PairPasses(e1, [e2] + r3, {}, {}, row);
  }

  // ----- a list that breaks the condition has an order that is translated inexactly

  lemma NotExact(p: seq<Descriptor>, row: Row)
    requires Passes(p, {}, {}, row) && !Described(p, row)
    ensures !Exact(p)
  {
  }

  ghost predicate Plain(jobs: seq<Descriptor>) {
    forall d :: d in jobs ==> !d.Everything()
  }

  lemma MachineListed(jobs: seq<Descriptor>, d: Descriptor)
    requires Plain(jobs) && d in jobs && d.Pair() && NamedAlone(jobs, d.mac) && !TypeAlone(jobs, d.job)
    ensures !ExactInEveryOrder(jobs)
  {
    var w :| w in jobs && w.MachineOnly() && w.mac == d.mac;
    var p, rest := BroughtToFront(jobs, [w, d]);
    var mac := FreshMac(jobs);
    var row := Row(mac, Header(d.job));
    assert p == [w] + ([d] + rest);
    MachineThenPair(w, d, rest, row);
    MembersOf(p, jobs);
    forall e | e in p
      ensures !Selects(e, row)
    {
      if e.HasJob() && Header(e.job) == Header(d.job) {
        HeaderInjective(e.job, d.job);
      }
    }
    NotExact(p, row);
  }

  lemma TypeListed(jobs: seq<Descriptor>, d: Descriptor)
    requires Plain(jobs) && d in jobs && d.Pair() && !NamedAlone(jobs, d.mac) && TypeAlone(jobs, d.job)
    ensures !ExactInEveryOrder(jobs)
  {
    var w :| w in jobs && w.JobOnly() && w.job == d.job;
    var p, rest := BroughtToFront(jobs, [w, d]);
    var header := FreshHeader(jobs);
    var row := Row(d.mac, header);
    assert p == [w] + ([d] + rest);
    TypeThenPair(w, d, rest, row);
    MembersOf(p, jobs);
    NotExact(p, row);
  }

  lemma PairListedTwice(jobs: seq<Descriptor>, i: nat, j: nat)
    requires Plain(jobs) && i < |jobs| && j < |jobs| && i != j && Free(jobs, jobs[j])
    requires jobs[i].Pair() && jobs[i].mac == jobs[j].mac && jobs[i].job == jobs[j].job
    ensures !ExactInEveryOrder(jobs)
  {
    if i < j {
      TwoOf(jobs, i, j);
    } else {
      TwoOf(jobs, j, i);
    }
    assert multiset([jobs[i], jobs[j]]) == multiset{jobs[i], jobs[j]};
    var p, rest := BroughtToFront(jobs, [jobs[i], jobs[j]]);
    var header := FreshHeader(jobs);
    var row := Row(jobs[j].mac, header);
    assert p == [jobs[i]] + ([jobs[j]] + rest);
    PairTwice(jobs[i], jobs[j], rest, row);
    MembersOf(p, jobs);
    NotExact(p, row);
  }

  lemma SquareListed(jobs: seq<Descriptor>, e1: Descriptor, e2: Descriptor, e3: Descriptor, e4: Descriptor)
    requires Plain(jobs) && e1 in jobs && e2 in jobs && e3 in jobs && e4 in jobs
    requires e1.Pair() && e2.Pair() && e3.Pair() && e4.Pair() && !NamedAlone(jobs, e3.mac)
    requires e1.mac == e2.mac && e3.mac == e4.mac && e1.job == e3.job && e2.job == e4.job
    requires e1.job != e2.job && e1.mac != e3.mac
    ensures !ExactInEveryOrder(jobs)
  {
    var p, rest := BroughtToFront(jobs, [e1, e2, e3, e4]);
    var header := FreshHeader(jobs);
    assert p == [e1] + ([e2] + ([e3] + ([e4] + rest)));
    SquarePasses(e1, e2, e3, e4, rest, Row(e3.mac, header));
    MembersOf(p, jobs);
    NotExact(p, Row(e3.mac, header));
  }

  lemma PathListed(jobs: seq<Descriptor>, e1: Descriptor, e2: Descriptor, e3: Descriptor)
    requires Plain(jobs) && Aligned(jobs) && e1 in jobs && e2 in jobs && e3 in jobs
    requires Free(jobs, e1) && Free(jobs, e2) && Free(jobs, e3)
    requires e1.job == e2.job && e2.mac == e3.mac && e1.mac != e2.mac && e2.job != e3.job
    ensures !ExactInEveryOrder(jobs)
  {
    var row := Row(e1.mac, Header(e3.job));
    if e4 :| e4 in jobs && Selects(e4, row) {
      if e4.HasJob() {
        HeaderInjective(e4.job, e3.job);
      }
      assert e4.Pair();
      SquareListed(jobs, e1, e4, e2, e3);
    } else {
      var p, rest := BroughtToFront(jobs, [e1, e2, e3]);
      assert p == [e1] + ([e2] + ([e3] + rest));
      PathPasses(e1, e2, e3, rest, row);
      MembersOf(p, jobs);
      NotExact(p, row);
    }
  }

  lemma EmptyIsInexact()
    ensures !Exact([])
  {
    var row := Row("", "");
    assert !Described([], row) && Accepted(Clauses([], {}, {}), row);
  }

  /**
   * The main result: a list is translated exactly in whatever order it is given, if and only if it contains a
   * descriptor for everything, or it is not empty, lists a pair's machine on its own just when it lists the
   * pair's job type on its own, and has no free pair that shares both its job type and its machine with others.
   */
  lemma ExactIffTranslatable(jobs: seq<Descriptor>)
    ensures ExactInEveryOrder(jobs) <==> Translatable(jobs)
  {
    if Translatable(jobs) {
      forall p | Reordered(p, jobs)
        ensures Exact(p)
      {
        TranslatableReordered(p, jobs);
        TranslatableIsExact(p);
      }
    } else {
      UntranslatableIsInexact(jobs);
    }
  }

  lemma UntranslatableIsInexact(jobs: seq<Descriptor>)
    requires !Translatable(jobs)
    ensures !ExactInEveryOrder(jobs)
  {
    if jobs == [] {
      EmptyIsInexact();
      assert Reordered([], jobs);
    } else if !Aligned(jobs) {
      var d :| d in jobs && d.Pair() && !(NamedAlone(jobs, d.mac) <==> TypeAlone(jobs, d.job));
      if NamedAlone(jobs, d.mac) {
        MachineListed(jobs, d);
      } else {
        TypeListed(jobs, d);
      }
    } else {
      var i, j, k :| 0 <= i < |jobs| && 0 <= j < |jobs| && 0 <= k < |jobs| && Free(jobs, jobs[j])
                     && SharesJob(jobs, i, j) && SharesMac(jobs, k, j);
      if jobs[i].mac == jobs[j].mac {
        PairListedTwice(jobs, i, j);
      } else if jobs[k].job == jobs[j].job {
        PairListedTwice(jobs, k, j);
      } else {
        PathListed(jobs, jobs[i], jobs[j], jobs[k]);
      }
    }
  }

  /** A condition that is easier to check: no machine twice, and no pair's job type on its own. */
  lemma SimpleListsAreExact(jobs: seq<Descriptor>)
    requires jobs != []
    requires forall i, j :: 0 <= i < j < |jobs| && !jobs[i].AnyMachine() && !jobs[j].AnyMachine() ==> jobs[i].mac != jobs[j].mac
    requires forall d :: d in jobs && d.Pair() ==> !TypeAlone(jobs, d.job)
    ensures ExactInEveryOrder(jobs)
  {
    forall d | d in jobs && d.Pair()
      ensures !NamedAlone(jobs, d.mac)
    {
    }
    assert Stars(jobs);
    ExactIffTranslatable(jobs);
  }

  /** Two machines and two job types, fully combined in this order, also select other jobs of the second machine. */
  lemma CrossProductIsInexact(a: string, b: string, t: string, u: string)
    requires a != b && t != u && t != "" && u != ""
    ensures !Exact([Descriptor("n", a, t), Descriptor("n", a, u), Descriptor("n", b, t), Descriptor("n", b, u)])
  {
    var e1, e2 := Descriptor("n", a, t), Descriptor("n", a, u);
    var e3, e4 := Descriptor("n", b, t), Descriptor("n", b, u);
    var jobs := [e1, e2, e3, e4];
    var header := FreshHeader(jobs);
    SquarePasses(e1, e2, e3, e4, [], Row(b, header));
    assert jobs == [e1] + ([e2] + ([e3] + ([e4] + [])));
    NotExact(jobs, Row(b, header));
  }

  /** Two job types for a, then one of them for b: the rows of b with the other one pass, though not asked for. */
  lemma ThreePairsAreInexact(a: string, b: string, t: string, u: string)
    requires a != b && t != u && t != "" && u != ""
    ensures !Exact([Descriptor("n", a, t), Descriptor("n", a, u), Descriptor("n", b, t)])
  {
    var e1, e2, e3 := Descriptor("n", a, t), Descriptor("n", a, u), Descriptor("n", b, t);
    var row := Row(b, Header(u));
    ThreePairsPass(e1, e2, e3, row);
    if Header(t) == Header(u) {
      HeaderInjective(t, u);
    }
    assert [e1, e2, e3] == [e1] + ([e2] + ([e3] + []));
    NotExact([e1, e2, e3], row);
  }

  lemma ThreePairsPass(e1: Descriptor, e2: Descriptor, e3: Descriptor, row: Row)
    requires e1.Pair() && e2.Pair() && e3.Pair()
    requires e1.mac == e2.mac && e1.job == e3.job && row == Row(e3.mac, Header(e2.job))
    ensures Passes([e1] + ([e2] + ([e3] + [])), {}, {}, row)
  {
    var a, t := {} + {e1.mac}, {} + {e1.job};
    // first pair: job branch
    HasPasses([], a + {e3.mac}, t, row, e2.job);
    PairPasses(e3, [], a, t, row);
    HasPasses([e3] + [], {}, t + {e2.job}, row, e2.job);
    PairPasses(e2, [e3] + [], {}, t, row);
    // first pair: machine branch
    HasPasses([e3] + [], a, {} + {e2.job}, row, e2.job);
    PairPasses(e2, [e3] + [], a, {}, row);
    PairPasses(e1, [e2] + ([e3] + []), {}, {}, row);
  }
}
