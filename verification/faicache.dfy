/** The loops that fill the cache of FAI classes, and the lookup by nearest ancestor that they speed up. */
module FaiCache {
  import opened Common
  import opened Bits
  import opened FaiClasses
  import ByteSearch
  import Sequences

  /** The position of the last comma before the given one, or -1. */
  function LastComma(s: string, end: nat): (r: int)
    requires end <= |s|
    ensures -1 <= r < end
  {
    if end == 0 then -1
    else if s[end - 1] == ',' then end - 1
    else LastComma(s, end - 1)
  }

  /** The release's ancestors and itself, the root first, that end before the given position. */
  function LevelsFrom(release: string, end: int): seq<string>
    requires end <= |release|
    decreases end
  {
    if end <= 0 then []
    else
      var start := LastComma(release, end) + 1;
      [release[start..]] + LevelsFrom(release, start - 1)
  }

  function Levels(release: string): seq<string> {
    LevelsFrom(release, |release|)
  }

  lemma TypesSnoc(infos: Infos, c: string, levels: seq<string>, r: string)
    ensures Types(infos, c, levels + [r]) == Inherit(Types(infos, c, levels), InfoAt(infos, c, r).types)
    ensures Tag(infos, c, levels + [r]) ==
      if InfoAt(infos, c, r).tag != "" then InfoAt(infos, c, r).tag else Tag(infos, c, levels)
  {
    assert (levels + [r])[..|levels|] == levels;
  }

  /** Where the level that ends before the given position starts. */
  function Start(release: string, end: nat): nat
    requires end <= |release|
  {
    LastComma(release, end) + 1
  }

  lemma LevelsUnfold(release: string, end: int)
    requires 0 < end <= |release|
    ensures Start(release, end) <= end
    ensures LevelsFrom(release, end) ==
      [release[Start(release, end)..]] + LevelsFrom(release, Start(release, end) - 1)
  {
  }

  /** The level adds its bits and, if it has one, its tag to what its parent has. */
  function Added(infos: Infos, c: string, i: Info, level: string): Info {
    var info := InfoAt(infos, c, level);
    Info(Inherit(i.types, info.types), if info.tag != "" then info.tag else i.tag)
  }

  function AddedTo(infos: Infos, c: string): (Info, string) -> Info {
    (i: Info, level: string) => Added(infos, c, i, level)
  }

  /** What the last of the levels has if the first one inherits from the given bits. */
  function Climbed(add: (Info, string) -> Info, i: Info, levels: seq<string>): Info
    decreases |levels|
  {
    if levels == [] then i else Climbed(add, add(i, levels[0]), levels[1..])
  }

  /** The same, one level at a time from the root on. */
  function Folded(add: (Info, string) -> Info, i: Info, levels: seq<string>): Info {
    if levels == [] then i else add(Folded(add, i, levels[..|levels| - 1]), levels[|levels| - 1])
  }

  lemma {:induction false} ClimbedIsFolded(add: (Info, string) -> Info, i: Info, before: seq<string>, levels: seq<string>)
    ensures Climbed(add, Folded(add, i, before), levels) == Folded(add, i, before + levels)
    decreases |levels|
  {
    if levels == [] {
      assert before + levels == before;
    } else {
      var next := before + [levels[0]];
      ClimbedIsFolded(add, i, next, levels[1..]);
      assert next[..|before|] == before;
      assert before + levels == next + levels[1..];
    }
  }

  lemma {:induction false} FoldedIsTypes(infos: Infos, c: string, levels: seq<string>)
    ensures Folded(AddedTo(infos, c), Info(0, ""), levels) == InfoOf(infos, c, levels)
  {
    if levels != [] {
      var before := levels[..|levels| - 1];
      FoldedIsTypes(infos, c, before);
      InfoSnoc(infos, c, before, levels[|levels| - 1]);
      assert levels == before + [levels[|levels| - 1]];
    }
  }

  function InfoOf(infos: Infos, c: string, levels: seq<string>): Info {
    Info(Types(infos, c, levels), Tag(infos, c, levels))
  }

  lemma InfoSnoc(infos: Infos, c: string, levels: seq<string>, r: string)
    ensures InfoOf(infos, c, levels + [r]) == Added(infos, c, InfoOf(infos, c, levels), r)
  {
    TypesSnoc(infos, c, levels, r);
  }

  lemma ClimbedAll(infos: Infos, c: string, levels: seq<string>)
    ensures Climbed(AddedTo(infos, c), Info(0, ""), levels) == InfoOf(infos, c, levels)
  {
    ClimbedIsFolded(AddedTo(infos, c), Info(0, ""), [], levels);
    FoldedIsTypes(infos, c, levels);
    assert [] + levels == levels;
  }

  lemma ClimbedNext(add: (Info, string) -> Info, i: Info, release: string, comma: nat, start: nat)
    requires 0 < comma <= |release| && start == Start(release, comma)
    ensures start <= comma
    ensures Climbed(add, i, LevelsFrom(release, comma)) ==
      Climbed(add, add(i, release[start..]), LevelsFrom(release, start - 1))
  {
    LevelsUnfold(release, comma);
    ClimbedFirst(add, i, release[start..], LevelsFrom(release, start - 1));
  }

  lemma ClimbedFirst(add: (Info, string) -> Info, i: Info, level: string, levels: seq<string>)
    ensures Climbed(add, i, [level] + levels) == Climbed(add, add(i, level), levels)
  {
    assert ([level] + levels)[1..] == levels;
  }

  /** Walks from the root of a release to the release itself, combining bits. */
  method Inherited(infos: Infos, c: string, release: string) returns (i: Info)
    ensures i == InfoOf(infos, c, Levels(release))
  {
    i := Info(0, "");
    var comma: int := |release|;
    ghost var goal := InfoOf(infos, c, Levels(release));
    ClimbedAll(infos, c, Levels(release));
    while comma > 0
      invariant comma <= |release|
      invariant Climbed(AddedTo(infos, c), i, LevelsFrom(release, comma)) == goal
    {
      i, comma := Climb(infos, c, i, release, comma, goal);
    }
  }

  /** One round of the walk. */
  method Climb(infos: Infos, c: string, i: Info, release: string, comma: nat, ghost goal: Info)
    returns (j: Info, next: int)
    requires 0 < comma <= |release|
    requires Climbed(AddedTo(infos, c), i, LevelsFrom(release, comma)) == goal
    ensures next < comma
    ensures Climbed(AddedTo(infos, c), j, LevelsFrom(release, next)) == goal
  {
    var start: int := Start(release, comma);
    next := start - 1;
    ClimbedNext(AddedTo(infos, c), i, release, comma, start);
    j := AddLevel(infos, c, i, release[start..]);
  }

  method AddLevel(infos: Infos, c: string, i: Info, level: string) returns (j: Info)
    ensures j == AddedTo(infos, c)(i, level)
  {
    var info := InfoAt(infos, c, level);
    var types := Combine(i.types, info.types);
    j := Info(types, if info.tag != "" then info.tag else i.tag);
  }

  method Combine(types: nat, t: nat) returns (r: nat)
    ensures r == Inherit(types, t)
  {
    var removed := And(ShiftRight(t, 8), 0x7f);
    r := AndNot(types, Or(removed, ShiftLeft(removed, 16)));
    r := AndNot(r, ShiftLeft(And(t, 0x7f), 16));
    r := Or(r, t);
  }

  /** An entry of the cache. */
  datatype Fai = Fai(release: string, kind: nat, class_: string, tag: string, frozen: bool)

  function FaiOf(c: string, release: string, tag: string, types: nat, i: nat): seq<Fai> {
    if Explicit(types, i) || Frozen(types, i) then [Fai(release, i, c, tag, Frozen(types, i))] else []
  }

  /** The cache entries of a class in a release, for the first n types. */
  function Emitted(c: string, release: string, tag: string, types: nat, n: nat): seq<Fai> {
    if n == 0 then [] else Emitted(c, release, tag, types, n - 1) + FaiOf(c, release, tag, types, n - 1)
  }

  method Collect(entries: seq<Entry>) returns (infos: Infos)
    ensures infos == Collected(entries)
  {
    infos := map[];
    for n := 0 to |entries|
      invariant infos == Collected(entries[..n])
    {
      var e := entries[n];
      assert entries[..n + 1][..n] == entries[..n];
      if e.cn != "" && e.release != "" {
        var typ := if e.kind.Some? && e.kind.value < TYPES then Pow2(e.kind.value) else 0;
        var remove := ByteSearch.Has(e.state, "remove");
        var freeze := ByteSearch.Has(e.state, "freeze");
        if remove { typ := ShiftLeft(typ, 8); }
        if freeze { typ := Or(typ, ShiftLeft(typ, 16)); }
        infos := infos[(e.cn, e.release) := Info(Or(typ, InfoAt(infos, e.cn, e.release).types), e.tag)];
      }
    }
    assert entries[..|entries|] == entries;
  }

  /** The cache entries of all the given classes and releases. */
  ghost function Cached(entries: seq<Entry>, pairs: seq<(string, string)>): seq<Fai> {
    if pairs == [] then []
    else
      var p := pairs[|pairs| - 1];
      var infos, levels := Collected(entries), Levels(p.1);
      Cached(entries, pairs[..|pairs| - 1]) +
      Emitted(p.0, p.1, Tag(infos, p.0, levels), Types(infos, p.0, levels), TYPES)
  }

  /** Fills the cache; the pairs are the classes and releases in the order in which the maps deliver them. */
  method Fill(entries: seq<Entry>, pairs: seq<(string, string)>) returns (faidb: seq<Fai>)
    ensures faidb == Cached(entries, pairs)
  {
    var infos := Collect(entries);
    faidb := [];
    for n := 0 to |pairs|
      invariant faidb == Cached(entries, pairs[..n])
    {
      assert pairs[..n + 1][..n] == pairs[..n];
      var i := Inherited(infos, pairs[n].0, pairs[n].1);
      var more := Emit(pairs[n].0, pairs[n].1, i.tag, i.types);
      faidb := faidb + more;
    }
    assert pairs[..|pairs|] == pairs;
  }

  method Emit(c: string, release: string, tag: string, types: nat) returns (faidb: seq<Fai>)
    ensures faidb == Emitted(c, release, tag, types, TYPES)
  {
    faidb := [];
    for i := 0 to TYPES
      invariant faidb == Emitted(c, release, tag, types, i)
    {
      var explicit := Bit(types, i);
      var freeze := Bit(types, i + 16);
      if explicit || freeze {
        faidb := faidb + [Fai(release, i, c, tag, freeze)];
      }
    }
  }

  lemma {:induction false} EmittedMembers(c: string, release: string, tag: string, types: nat, n: nat, f: Fai)
    ensures f in Emitted(c, release, tag, types, n) <==>
      f.kind < n && f in FaiOf(c, release, tag, types, f.kind)
  {
    if n > 0 {
      EmittedMembers(c, release, tag, types, n - 1, f);
    }
  }

  /** The cache has a class in a release, with its state, exactly if the nearest release that mentions it has it so. */
  lemma {:induction false} CachedMeans(entries: seq<Entry>, pairs: seq<(string, string)>, f: Fai)
    ensures f in Cached(entries, pairs) <==>
      && f.kind < TYPES && (f.class_, f.release) in pairs
      && f.tag == Tag(Collected(entries), f.class_, Levels(f.release))
      && Nearest(entries, f.class_, Levels(f.release), f.kind) == Instance(f.frozen)
  {
    if pairs != [] {
      var before, p := pairs[..|pairs| - 1], pairs[|pairs| - 1];
      var infos, levels := Collected(entries), Levels(p.1);
      var types := Types(infos, p.0, levels);
      assert pairs == before + [p];
      CachedMeans(entries, before, f);
      EmittedMembers(p.0, p.1, Tag(infos, p.0, levels), types, TYPES, f);
      if f.kind < TYPES {
        TypesMean(entries, p.0, levels, f.kind);
      }
    }
  }

  /** The name of a release given from the root on, behind position k, in reverse order. */
  function Behind(parts: seq<string>, k: nat): string
    requires k < |parts|
    decreases |parts| - k
  {
    if k + 1 == |parts| then "ou=" + parts[k] else Behind(parts, k + 1) + "," + "ou=" + parts[k]
  }

  /** A release such as ou=4.1.0,ou=plophos from the parts plophos and 4.1.0. */
  function ReleaseName(parts: seq<string>): string
    requires parts != []
  {
    Behind(parts, 0)
  }

  predicate PlainParts(parts: seq<string>) {
    parts != [] && forall i :: 0 <= i < |parts| ==> ',' !in parts[i]
  }

  /** The ancestor that the first k+1 parts name. */
  function Ancestor(parts: seq<string>, k: nat): string
    requires k < |parts|
  {
    if k == 0 then "ou=" + parts[0] else "ou=" + parts[k] + "," + Ancestor(parts, k - 1)
  }

  /** All ancestors from the n-th on, the nearest to the root first. */
  function Ancestors(parts: seq<string>, k: nat): seq<string>
    requires k <= |parts|
    decreases |parts| - k
  {
    if k == |parts| then [] else [Ancestor(parts, k)] + Ancestors(parts, k + 1)
  }

  /** The name of a directory object below a base. */
  function Below(name: string, base: string): string {
    name + "," + base
  }

  function AllBelow(names: seq<string>, base: string): seq<string> {
    if names == [] then [] else [Below(names[0], base)] + AllBelow(names[1..], base)
  }

  /** Below each base in turn, the release itself comes first and the root last. */
  function Hierarchy(bases: seq<string>, parts: seq<string>): seq<string> {
    if bases == [] then [] else AllBelow(Reversed(Ancestors(parts, 0)), bases[0]) + Hierarchy(bases[1..], parts)
  }

  method ResolveRelease(bases: seq<string>, parts: seq<string>) returns (r: seq<string>)
    ensures r == Hierarchy(bases, parts)
  {
    r := [];
    assert bases[|bases|..] == [];
    for i := |bases| downto 0
      invariant r == Hierarchy(bases[i..], parts)
    {
      assert bases[i..][1..] == bases[i + 1..];
      r := ResolveBelow(bases[i], parts, r);
    }
    assert bases[0..] == bases;
  }

  method ResolveBelow(base: string, parts: seq<string>, after: seq<string>) returns (r: seq<string>)
    ensures r == AllBelow(Reversed(Ancestors(parts, 0)), base) + after
  {
    r := after;
    var prev := base;
    ghost var done: seq<string> := [];
    assert [] + Ancestors(parts, 0) == Ancestors(parts, 0) && [] + after == after;
    for k := 0 to |parts|
      invariant prev == if k > 0 then Below(Ancestor(parts, k - 1), base) else base
      invariant r == AllBelow(Reversed(done), base) + after
      invariant Ancestors(parts, 0) == done + Ancestors(parts, k)
    {
      prev := "ou=" + parts[k] + "," + prev;
      DeeperName(parts, k, base);
      OneMore(done, Ancestor(parts, k), base, after);
      OneLess(done, Ancestor(parts, k), Ancestors(parts, k + 1));
      r := [prev] + r;
      done := done + [Ancestor(parts, k)];
    }
    assert done + [] == done;
  }

  lemma DeeperName(parts: seq<string>, k: nat, base: string)
    requires k < |parts|
    ensures Below(Ancestor(parts, k), base) ==
      "ou=" + parts[k] + "," + if k > 0 then Below(Ancestor(parts, k - 1), base) else base
  {
    if k > 0 {
      var o, a := "ou=" + parts[k] + ",", Ancestor(parts, k - 1);
      Sequences.Regroup(o, a, ",");
      Sequences.Regroup(o, a + ",", base);
    }
  }

  lemma OneMore(done: seq<string>, name: string, base: string, after: seq<string>)
    ensures AllBelow(Reversed(done + [name]), base) + after == [Below(name, base)] + (AllBelow(Reversed(done), base) + after)
  {
    assert (done + [name])[..|done|] == done;
    assert Reversed(done + [name])[1..] == Reversed(done);
  }

  lemma OneLess(done: seq<string>, name: string, left: seq<string>)
    ensures done + ([name] + left) == (done + [name]) + left
  {
  }

  lemma OneBase(base: string, parts: seq<string>)
    ensures Hierarchy([base], parts) == AllBelow(Reversed(Ancestors(parts, 0)), base)
  {
    assert [base][1..] == [] && Hierarchy([], parts) == [];
  }

  function Reversed(s: seq<string>): seq<string> {
    if s == [] then [] else [s[|s| - 1]] + Reversed(s[..|s| - 1])
  }

  /** The object with the name that a class and type have in a release. */
  function ObjectAt(entries: seq<Entry>, c: string, r: string, i: nat): Option<Entry> {
    if entries == [] then None
    else if About(entries[0], c, r, i) then Some(entries[0])
    else ObjectAt(entries[1..], c, r, i)
  }

  /** The lookup's own mark for a removal. */
  ghost predicate Dropped(e: Entry) {
    ByteSearch.Contains(e.state, "removed")
  }

  /** What the lookup finds: the object of the nearest release that has one, unless it is marked. */
  ghost function Found(entries: seq<Entry>, c: string, levels: seq<string>, i: nat): Option<Entry> {
    if levels == [] then None
    else
      match ObjectAt(entries, c, levels[|levels| - 1], i)
      case None => Found(entries, c, levels[..|levels| - 1], i)
      case Some(e) => if Dropped(e) then None else Some(e)
  }

  /** Reads the object of a class and type that lies below a directory name. */
  function Read(entries: seq<Entry>, base: string, c: string, dn: string, i: nat): Option<Entry> {
    if entries == [] then None
    else if About(entries[0], c, entries[0].release, i) && Below(entries[0].release, base) == dn then Some(entries[0])
    else Read(entries[1..], base, c, dn, i)
  }

  lemma BelowInjective(a: string, b: string, base: string)
    requires Below(a, base) == Below(b, base)
    ensures a == b
  {
    assert |a| == |b|;
    assert Below(a, base)[..|a|] == a && Below(b, base)[..|b|] == b;
  }

  lemma {:induction false} ReadIsObject(entries: seq<Entry>, base: string, c: string, r: string, i: nat)
    ensures Read(entries, base, c, Below(r, base), i) == ObjectAt(entries, c, r, i)
  {
    if entries != [] {
      if Below(entries[0].release, base) == Below(r, base) {
        BelowInjective(entries[0].release, r, base);
      }
      ReadIsObject(entries[1..], base, c, r, i);
    }
  }

  /** The first object along the hierarchy decides; nothing is found if it is marked as removed. */
  method EffectiveClass(entries: seq<Entry>, base: string, hierarchy: seq<string>, c: string, i: nat, ghost levels: seq<string>)
      returns (found: Option<Entry>)
    requires hierarchy == AllBelow(Reversed(levels), base)
    ensures found == Found(entries, c, levels, i)
  {
    ghost var rest := levels;
    for n := 0 to |hierarchy|
      invariant hierarchy[n..] == AllBelow(Reversed(rest), base)
      invariant Found(entries, c, levels, i) == Found(entries, c, rest, i)
    {
      assert hierarchy[n..][0] == hierarchy[n] && hierarchy[n..][1..] == hierarchy[n + 1..];
      ReadIsObject(entries, base, c, rest[|rest| - 1], i);
      assert Reversed(rest)[1..] == Reversed(rest[..|rest| - 1]);
      var e := Read(entries, base, c, hierarchy[n], i);
      if e.Some? {
        var removed := ByteSearch.Has(e.value.state, "removed");
        return if removed then None else e;
      }
      rest := rest[..|rest| - 1];
    }
    return None;
  }

  /** Resolves a release below the one base and looks a class up along its hierarchy. */
  method LookUpClass(entries: seq<Entry>, base: string, parts: seq<string>, c: string, i: nat) returns (found: Option<Entry>)
    ensures found == Found(entries, c, Ancestors(parts, 0), i)
  {
    var hierarchy := ResolveRelease([base], parts);
    OneBase(base, parts);
    found := EffectiveClass(entries, base, hierarchy, c, i, Ancestors(parts, 0));
  }

  lemma {:induction false} NameSplits(parts: seq<string>, k: nat)
    requires k + 1 < |parts|
    ensures ReleaseName(parts) == Behind(parts, k + 1) + "," + Ancestor(parts, k)
    decreases k
  {
    if k > 0 {
      NameSplits(parts, k - 1);
      var b, o, a := Behind(parts, k + 1), "ou=" + parts[k], Ancestor(parts, k - 1);
      assert (b + "," + o) + "," + a == b + "," + (o + "," + a);
    }
  }

  lemma {:induction false} LastCommaIs(s: string, end: nat, at: int)
    requires -1 <= at < end <= |s| && (at >= 0 ==> s[at] == ',') && forall i :: at < i < end ==> s[i] != ','
    ensures LastComma(s, end) == at
    decreases end
  {
    if at < end - 1 {
      LastCommaIs(s, end - 1, at);
    }
  }

  /** The level that ends where the parts from k on end is the ancestor of the first k+1 parts. */
  lemma LevelIsAncestor(parts: seq<string>, k: nat)
    requires PlainParts(parts) && k < |parts|
    ensures 0 < |Behind(parts, k)| <= |ReleaseName(parts)|
    ensures var start := Start(ReleaseName(parts), |Behind(parts, k)|);
      && ReleaseName(parts)[start..] == Ancestor(parts, k)
      && start - 1 == if k + 1 < |parts| then |Behind(parts, k + 1)| else -1
  {
    var name, here := ReleaseName(parts), Behind(parts, k);
    var o := "ou=" + parts[k];
    BehindIsPrefix(parts, k);
    if k + 1 < |parts| {
      var b := Behind(parts, k + 1);
      NameSplits(parts, k);
      assert here == b + "," + o;
      PlainTail(name, here, b, o);
      LastCommaIs(name, |here|, |b|);
    } else {
      LastAncestor(parts);
      assert forall i :: 0 <= i < |here| ==> name[i] == here[i] != ',';
      LastCommaIs(name, |here|, -1);
    }
  }

  lemma PlainTail(name: string, here: string, b: string, o: string)
    requires here <= name && here == b + "," + o && ',' !in o
    ensures name[|b|] == ',' && forall i :: |b| < i < |here| ==> name[i] != ','
  {
    assert forall i :: |b| < i < |here| ==> here[i] == o[i - |b| - 1];
  }

  lemma {:induction false} BehindIsPrefix(parts: seq<string>, k: nat)
    requires parts != [] && k < |parts|
    ensures Behind(parts, k) <= ReleaseName(parts) && Behind(parts, k) != ""
    decreases k
  {
    if k > 0 {
      BehindIsPrefix(parts, k - 1);
      assert Behind(parts, k) <= Behind(parts, k - 1);
    }
  }

  lemma LastAncestor(parts: seq<string>)
    requires parts != []
    ensures Ancestor(parts, |parts| - 1) == ReleaseName(parts)
  {
    var n := |parts|;
    if n > 1 {
      NameSplits(parts, n - 2);
      assert Behind(parts, n - 1) == "ou=" + parts[n - 1];
    }
  }

  lemma {:induction false} LevelsAreAncestors(parts: seq<string>, k: nat)
    requires PlainParts(parts) && k < |parts|
    ensures |Behind(parts, k)| <= |ReleaseName(parts)|
    ensures LevelsFrom(ReleaseName(parts), |Behind(parts, k)|) == Ancestors(parts, k)
    decreases |parts| - k
  {
    LevelIsAncestor(parts, k);
    LevelsUnfold(ReleaseName(parts), |Behind(parts, k)|);
    if k + 1 < |parts| {
      LevelsAreAncestors(parts, k + 1);
    }
  }

  /** The suffixes that the walk takes from a release's name are the ancestors that the lookup goes through backwards. */
  lemma LevelsOfName(parts: seq<string>)
    requires PlainParts(parts)
    ensures Levels(ReleaseName(parts)) == Ancestors(parts, 0)
  {
    LevelsAreAncestors(parts, 0);
  }

  // ----- where the cache and the lookup agree

  /** In a directory a name belongs to one object. */
  predicate NamesAreUnique(entries: seq<Entry>, c: string, i: nat) {
    forall e, d :: e in entries && d in entries && About(e, c, e.release, i) && About(d, c, e.release, i) ==> e == d
  }

  /** The cache's mark without the lookup's. */
  ghost predicate Ambiguous(e: Entry) {
    Removes(e) && !Dropped(e)
  }

  /** The object of the nearest release that has one is ambiguous. */
  ghost predicate Misread(entries: seq<Entry>, c: string, levels: seq<string>, i: nat) {
    levels != [] &&
    match ObjectAt(entries, c, levels[|levels| - 1], i)
    case None => Misread(entries, c, levels[..|levels| - 1], i)
    case Some(e) => Ambiguous(e)
  }

  lemma {:induction false} ObjectIs(entries: seq<Entry>, c: string, r: string, i: nat)
    ensures ObjectAt(entries, c, r, i).None? ==> forall e :: e in entries ==> !About(e, c, r, i)
    ensures ObjectAt(entries, c, r, i).Some? ==>
      ObjectAt(entries, c, r, i).value in entries && About(ObjectAt(entries, c, r, i).value, c, r, i)
  {
    if entries != [] && !About(entries[0], c, r, i) {
      ObjectIs(entries[1..], c, r, i);
    }
  }

  lemma LongerMark(state: string)
    requires ByteSearch.Contains(state, "removed")
    ensures ByteSearch.Contains(state, "remove")
  {
    var i: nat :| ByteSearch.OccursAt(state, "removed", i);
    assert state[i..i + 6] == state[i..i + 7][..6] == "remove";
    assert ByteSearch.OccursAt(state, "remove", i);
  }

  /** What the objects of a release say is what the one object says. */
  lemma OneObjectSays(entries: seq<Entry>, c: string, r: string, i: nat)
    requires NamesAreUnique(entries, c, i)
    ensures var o := ObjectAt(entries, c, r, i);
      Said(entries, c, r, i) ==
      if o.None? then Silent else if Removes(o.value) then Removal else Instance(Freezes(o.value))
  {
    ObjectIs(entries, c, r, i);
    var o := ObjectAt(entries, c, r, i);
    if o.Some? {
      assert forall e :: e in entries && About(e, c, r, i) ==> e == o.value;
    }
  }

  /** The lookup finds what the nearest word says, unless it misreads the object that decides. */
  lemma {:induction false} FoundIsNearest(entries: seq<Entry>, c: string, levels: seq<string>, i: nat)
    requires NamesAreUnique(entries, c, i)
    ensures var found, w := Found(entries, c, levels, i), Nearest(entries, c, levels, i);
      && (Misread(entries, c, levels, i) ==> found.Some? && w == Removal)
      && (!Misread(entries, c, levels, i) ==> (found.Some? <==> w.Instance?))
      && (found.Some? && w.Instance? ==> w == Instance(Freezes(found.value)))
  {
    if levels != [] {
      var r := levels[|levels| - 1];
      FoundIsNearest(entries, c, levels[..|levels| - 1], i);
      OneObjectSays(entries, c, r, i);
      var o := ObjectAt(entries, c, r, i);
      if o.Some? && Dropped(o.value) {
        LongerMark(o.value.state);
      }
    }
  }

  /** The cache has the class and type in the release, in whatever state. */
  ghost predicate Caches(entries: seq<Entry>, pairs: seq<(string, string)>, c: string, release: string, i: nat) {
    exists f :: f in Cached(entries, pairs) && f.class_ == c && f.release == release && f.kind == i
  }

  lemma CachesNearest(entries: seq<Entry>, pairs: seq<(string, string)>, c: string, release: string, i: nat)
    requires (c, release) in pairs && i < TYPES
    ensures Caches(entries, pairs, c, release, i) <==> Nearest(entries, c, Levels(release), i).Instance?
  {
    var w := Nearest(entries, c, Levels(release), i);
    if w.Instance? {
      var f := Fai(release, i, c, Tag(Collected(entries), c, Levels(release)), w.frozen);
      CachedMeans(entries, pairs, f);
    }
    forall f | f in Cached(entries, pairs) && f.class_ == c && f.release == release && f.kind == i
      ensures w == Instance(f.frozen)
    {
      CachedMeans(entries, pairs, f);
    }
  }

  /**
   * The cache lists a class of a release exactly if the lookup finds it, if and only if the object that decides is not
   * marked with "remove" but not with "removed".
   */
  lemma CacheAgreesIffNotMisread(entries: seq<Entry>, pairs: seq<(string, string)>, c: string, i: nat, parts: seq<string>)
    requires PlainParts(parts) && (c, ReleaseName(parts)) in pairs && i < TYPES && NamesAreUnique(entries, c, i)
    ensures (Caches(entries, pairs, c, ReleaseName(parts), i) <==> Found(entries, c, Ancestors(parts, 0), i).Some?)
      <==> !Misread(entries, c, Ancestors(parts, 0), i)
  {
    LevelsOfName(parts);
    CachesNearest(entries, pairs, c, ReleaseName(parts), i);
    FoundIsNearest(entries, c, Ancestors(parts, 0), i);
  }

  /** Where nothing is misread, the cache has exactly the objects that the lookup finds, in their state. */
  lemma CacheAgreesWithLookup(entries: seq<Entry>, pairs: seq<(string, string)>, f: Fai, parts: seq<string>)
    requires PlainParts(parts) && f.release == ReleaseName(parts) && (f.class_, f.release) in pairs && f.kind < TYPES
    requires NamesAreUnique(entries, f.class_, f.kind) && !Misread(entries, f.class_, Ancestors(parts, 0), f.kind)
    ensures var found := Found(entries, f.class_, Ancestors(parts, 0), f.kind);
      f in Cached(entries, pairs) <==>
      && f.tag == Tag(Collected(entries), f.class_, Ancestors(parts, 0))
      && found.Some? && Freezes(found.value) == f.frozen
  {
    LevelsOfName(parts);
    CachedMeans(entries, pairs, f);
    FoundIsNearest(entries, f.class_, Ancestors(parts, 0), f.kind);
  }

  /** An object whose state is just "remove" is found by the lookup, but its class is not in the cache. */
  lemma RemoveIsMisread(c: string, part: string, i: nat)
    requires c != "" && ',' !in part && i < TYPES
    ensures var r := "ou=" + part;
      var entries := [Entry(c, r, Some(i), "remove", "")];
      && !Caches(entries, [(c, r)], c, r, i)
      && Found(entries, c, Ancestors([part], 0), i) == Some(entries[0])
  {
    var r := "ou=" + part;
    var e := Entry(c, r, Some(i), "remove", "");
    var parts, levels := [part], Ancestors([part], 0);
    assert Ancestors(parts, 1) == [] && Ancestor(parts, 0) == r;
    assert levels == [r];
    assert ByteSearch.OccursAt(e.state, "remove", 0);
    assert !Dropped(e);
    assert ObjectAt([e], c, levels[|levels| - 1], i) == Some(e);
    assert Misread([e], c, levels, i);
    CacheAgreesIffNotMisread([e], [(c, r)], c, i, parts);
  }
}
