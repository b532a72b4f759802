/** The jobs of one server as a table shows them, keyed by the id their owner gave them. */
module Views {
  import opened Common
  import opened Jobs
  import opened JobServers

  type View = map<nat, Fields>

  function ViewOf(jobs: seq<Job>, server: string): View {
    if jobs == [] then map[]
    else
      var last, before := jobs[|jobs| - 1], ViewOf(jobs[..|jobs| - 1], server);
      if last.From(server) then before[last.original := last.fields] else before
  }

  // ----- keys that tell rows apart

  ghost predicate DistinctBy<K>(jobs: seq<Job>, key: Job -> K) {
    forall i, j :: 0 <= i < j < |jobs| ==> key(jobs[i]) != key(jobs[j])
  }

  /** The owner of a job together with the id it has there. */
  function OriginOf(): Job -> (string, nat) {
    (j: Job) => (Text(j.fields, Siserver), j.original)
  }

  function IdOf(): Job -> nat {
    (j: Job) => j.id
  }

  lemma SameKeySameRow<K>(jobs: seq<Job>, key: Job -> K, a: Job, b: Job)
    requires DistinctBy(jobs, key) && a in jobs && b in jobs && key(a) == key(b)
    ensures a == b
  {
  }

  lemma {:induction false} DistinctSelect<K>(jobs: seq<Job>, key: Job -> K, p: Filter)
    requires DistinctBy(jobs, key)
    ensures DistinctBy(Select(jobs, p), key)
  {
    if jobs != [] {
      var init := jobs[..|jobs| - 1];
      DistinctSelect(init, key, p);
      SelectMember(init, p);
      assert forall x :: x in Select(init, p) ==> x in init && key(x) != key(jobs[|jobs| - 1]);
    }
  }

  lemma DistinctMap<K>(jobs: seq<Job>, key: Job -> K, g: Job -> Job)
    requires DistinctBy(jobs, key) && forall j :: key(g(j)) == key(j)
    ensures DistinctBy(Map(jobs, g), key)
  {
    MapAt(jobs, g);
  }

  lemma MapMember(jobs: seq<Job>, g: Job -> Job)
    ensures forall y :: y in Map(jobs, g) <==> exists x :: x in jobs && y == g(x)
  {
    MapAt(jobs, g);
  }

  lemma DistinctRewritten<K>(jobs: seq<Job>, key: Job -> K, f: Filter, g: Job -> Job)
    requires DistinctBy(jobs, key) && forall j :: key(g(j)) == key(j)
    ensures DistinctBy(Rewritten(jobs, f, g), key)
  {
    var rest, found := Select(jobs, Not(f)), Select(jobs, f);
    DistinctSelect(jobs, key, Not(f));
    DistinctSelect(jobs, key, f);
    DistinctMap(found, key, g);
    SelectMember(jobs, f);
    SelectMember(jobs, Not(f));
    MapMember(found, g);
    forall x, y | x in rest && y in Map(found, g)
      ensures key(x) != key(y)
    {
      var z :| z in found && y == g(z);
      if key(x) == key(y) {
        SameKeySameRow(jobs, key, x, z);
      }
    }
  }

  // ----- what each table operation does to a view

  lemma OverrideOne(v: View, w: View, n: nat, fields: Fields)
    ensures (v + w)[n := fields] == v + w[n := fields]
  {
  }

  lemma {:induction false} ViewConcat(a: seq<Job>, b: seq<Job>, server: string)
    ensures ViewOf(a + b, server) == ViewOf(a, server) + ViewOf(b, server)
  {
    if b == [] {
      assert a + b == a;
    } else {
      var init, last := b[..|b| - 1], b[|b| - 1];
      assert (a + b)[..|a + b| - 1] == a + init;
      assert (a + b)[|a + b| - 1] == last;
      ViewConcat(a, init, server);
      OverrideOne(ViewOf(a, server), ViewOf(init, server), last.original, last.fields);
    }
  }

  lemma ViewSnoc(jobs: seq<Job>, row: Job, server: string)
    ensures ViewOf(jobs + [row], server) ==
      if row.From(server) then ViewOf(jobs, server)[row.original := row.fields] else ViewOf(jobs, server)
  {
    assert (jobs + [row])[..|jobs|] == jobs;
  }

  lemma {:induction false} ViewKeys(jobs: seq<Job>, server: string)
    ensures forall n :: n in ViewOf(jobs, server) <==> exists j :: j in jobs && j.From(server) && j.original == n
  {
    if jobs != [] {
      var init, last := jobs[..|jobs| - 1], jobs[|jobs| - 1];
      ViewKeys(init, server);
      assert forall j :: j in jobs <==> j in init || j == last;
    }
  }

  lemma {:induction false} ViewRow(jobs: seq<Job>, server: string, row: Job)
    requires DistinctBy(jobs, OriginOf()) && row in jobs && row.From(server)
    ensures row.original in ViewOf(jobs, server) && ViewOf(jobs, server)[row.original] == row.fields
  {
    var init, last := jobs[..|jobs| - 1], jobs[|jobs| - 1];
    if row == last {
    } else {
      ViewRow(init, server, row);
      var i :| 0 <= i < |init| && init[i] == row;
      assert OriginOf()(jobs[i]) != OriginOf()(jobs[|jobs| - 1]);
    }
  }

  lemma {:induction false} ViewUntouched(jobs: seq<Job>, server: string, p: Filter)
    requires forall j :: j in jobs && j.From(server) ==> p(j)
    ensures ViewOf(Select(jobs, p), server) == ViewOf(jobs, server)
  {
    if jobs != [] {
      var init, last := jobs[..|jobs| - 1], jobs[|jobs| - 1];
      ViewUntouched(init, server, p);
      ViewConcat(Select(init, p), if p(last) then [last] else [], server);
      assert [last][..0] == [];
    }
  }

  lemma {:induction false} ViewForeign(jobs: seq<Job>, server: string)
    requires forall j :: j in jobs ==> !j.From(server)
    ensures ViewOf(jobs, server) == map[]
  {
    if jobs != [] {
      ViewForeign(jobs[..|jobs| - 1], server);
    }
  }

  function Without(v: View, original: Option<nat>): View {
    if original.Some? then v - {original.value} else map[]
  }

  lemma WithoutOther(v: View, n: nat, key: nat, fields: Fields)
    requires key != n
    ensures v[key := fields] - {n} == (v - {n})[key := fields]
  {
  }

  lemma WithoutSame(v: View, n: nat, fields: Fields)
    ensures v[n := fields] - {n} == v - {n}
  {
  }

  /** Removing all of a server's jobs, or the one with a given id, wherever they are in the table. */
  lemma {:induction false} ViewRemoveOrigin(jobs: seq<Job>, origin: Origin)
    ensures ViewOf(Select(jobs, Not(OfOrigin(origin))), origin.server)
            == Without(ViewOf(jobs, origin.server), origin.original)
  {
    if jobs != [] {
      var init, last := jobs[..|jobs| - 1], jobs[|jobs| - 1];
      ViewRemoveOrigin(init, origin);
      RemoveOriginLast(Select(init, Not(OfOrigin(origin))), ViewOf(init, origin.server), origin, last);
    }
  }

  /** One more row, kept or removed. */
  lemma RemoveOriginLast(kept: seq<Job>, v: View, origin: Origin, last: Job)
    requires ViewOf(kept, origin.server) == Without(v, origin.original)
    ensures ViewOf(kept + if Not(OfOrigin(origin))(last) then [last] else [], origin.server)
            == Without(if last.From(origin.server) then v[last.original := last.fields] else v, origin.original)
  {
    if origin.Selects(last) {
      assert kept + [] == kept;
      WithoutSame(v, last.original, last.fields);
    } else {
      ViewSnoc(kept, last, origin.server);
      if last.From(origin.server) {
        WithoutOther(v, origin.original.value, last.original, last.fields);
      }
    }
  }

  ghost function Originals(jobs: seq<Job>): set<nat> {
    set j | j in jobs :: j.original
  }

  /** Removing selected jobs of one server takes exactly their keys out of its view. */
  lemma ViewRemoved(jobs: seq<Job>, server: string, f: Filter)
    requires DistinctBy(jobs, OriginOf()) && forall j :: j in jobs && f(j) ==> j.From(server)
    ensures ViewOf(Select(jobs, Not(f)), server) == ViewOf(jobs, server) - Originals(Select(jobs, f))
  {
    var rest, found := Select(jobs, Not(f)), Select(jobs, f);
    var v, w := ViewOf(rest, server), ViewOf(jobs, server) - Originals(found);
    SelectMember(jobs, f);
    SelectMember(jobs, Not(f));
    DistinctSelect(jobs, OriginOf(), Not(f));
    ViewKeys(rest, server);
    ViewKeys(jobs, server);
    forall n | n in v
      ensures n in w && v[n] == w[n]
    {
      var row :| row in rest && row.From(server) && row.original == n;
      ViewRow(rest, server, row);
      ViewRow(jobs, server, row);
      if n in Originals(found) {
        var other :| other in found && other.original == n;
        SameKeySameRow(jobs, OriginOf(), row, other);
      }
    }
    forall n | n in w
      ensures n in v
    {
      var row :| row in jobs && row.From(server) && row.original == n;
      assert row in rest;
    }
  }

  ghost predicate KeepsOrigin(g: Job -> Job) {
    forall j :: OriginOf()(g(j)) == OriginOf()(j)
  }

  lemma {:induction false} ViewMapKeys(found: seq<Job>, server: string, g: Job -> Job)
    requires KeepsOrigin(g) && forall j :: j in found ==> j.From(server)
    ensures ViewOf(Map(found, g), server).Keys == Originals(found)
  {
    if found != [] {
      var init, last := found[..|found| - 1], found[|found| - 1];
      ViewMapKeys(init, server, g);
      assert OriginOf()(g(last)) == OriginOf()(last);
      assert Originals(found) == Originals(init) + {last.original};
      ViewConcat(Map(init, g), [g(last)], server);
      assert [g(last)][..0] == [];
    }
  }

  /** Rewriting selected jobs of one server overrides exactly their entries. */
  lemma ViewRewritten(jobs: seq<Job>, server: string, f: Filter, g: Job -> Job)
    requires DistinctBy(jobs, OriginOf()) && KeepsOrigin(g)
    requires forall j :: j in jobs && f(j) ==> j.From(server)
    ensures ViewOf(Rewritten(jobs, f, g), server) == ViewOf(jobs, server) + ViewOf(Map(Select(jobs, f), g), server)
  {
    ViewConcat(Select(jobs, Not(f)), Map(Select(jobs, f), g), server);
    ViewRemoved(jobs, server, f);
    SelectMember(jobs, f);
    ViewMapKeys(Select(jobs, f), server, g);
  }

  /** Rewriting jobs of other servers leaves a view alone. */
  lemma ViewRewrittenOthers(jobs: seq<Job>, server: string, f: Filter, g: Job -> Job)
    requires KeepsOrigin(g) && forall j :: j in jobs && f(j) ==> !j.From(server)
    ensures ViewOf(Rewritten(jobs, f, g), server) == ViewOf(jobs, server)
  {
    ViewConcat(Select(jobs, Not(f)), Map(Select(jobs, f), g), server);
    ViewUntouched(jobs, server, Not(f));
    SelectMember(jobs, f);
    MapMember(Select(jobs, f), g);
    forall j | j in Map(Select(jobs, f), g)
      ensures !j.From(server)
    {
      var x :| x in Select(jobs, f) && j == g(x);
      assert OriginOf()(g(x)) == OriginOf()(x);
    }
    ViewForeign(Map(Select(jobs, f), g), server);
  }

  // ----- edits keep a job's identity

  lemma MergeKeeps(fields: Fields, update: Fields, tag: Tag)
    requires tag.Siserver? || tag.Headertag? || tag.Macaddress? || tag.OtherTag?
    ensures tag in Merge(fields, update) <==> tag in fields
    ensures Text(Merge(fields, update), tag) == Text(fields, tag)
  {
    WritesAll(update);
  }

  lemma EditKeepsOrigin(update: Fields)
    ensures KeepsOrigin(Edited(update)) && KeepsOrigin(Overwritten(update))
  {
    forall j: Job
      ensures OriginOf()(Edited(update)(j)) == OriginOf()(j) && OriginOf()(Overwritten(update)(j)) == OriginOf()(j)
    {
      MergeKeeps(j.fields, update, Siserver);
    }
  }
}
