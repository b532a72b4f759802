/** The merge loop over two package lists, on raw line data. */
module PackageMerge {
  import opened Bits
  import opened PackageLines
  import opened PackageLists
  import opened PathOrder
  import opened Merging
  import ByteSearch

  function PathOf(p: Package): string {
    p.dir + "/" + p.stem + Suffix(p.arch)[..|Suffix(p.arch)| - 1]
  }

  function RecordOf(x: Item): Record {
    Record(x.bitmap, PathOf(x.pkg), x.pkg.section, x.description, x.templates)
  }

  function TextOf(x: Item): string {
    Line(RecordOf(x))
  }

  function Tail(x: Item): string {
    x.description + "|" + x.templates + "\n"
  }

  /** The item can be stored as one line and read back. */
  predicate Clean(x: Item) {
    && WellFormed(x.pkg) && x.bitmap < WORD
    && '|' !in x.description && '\n' !in x.description && '\n' !in x.templates
    && '\n' !in x.pkg.dir && '\n' !in x.pkg.stem && '\n' !in x.pkg.section
  }

  predicate TextAt(data: string, ofs: nat, x: Item) {
    Has(data, ofs, TextOf(x))
  }

  predicate TextsAt(data: string, ofs: seq<nat>, items: seq<Item>) {
    |ofs| == |items| && forall i :: 0 <= i < |ofs| ==> TextAt(data, ofs[i], items[i])
  }

  predicate AllClean(items: seq<Item>) {
    forall i :: 0 <= i < |items| ==> Clean(items[i])
  }

  /** The lines of the list are those of the given items. */
  ghost predicate Holds(list: PackageList, items: seq<Item>)
    reads list
  {
    list.Valid() && TextsAt(list.data, list.lineOfs, items) && AllClean(items)
  }

  lemma TextIsHead(x: Item)
    ensures TextOf(x) == BitmapBytes(x.bitmap, RPBYTES) + (Head(x.pkg) + Tail(x))
  {
    var p := x.pkg;
    PathThenPipe(p);
    Regrouped(BitmapBytes(x.bitmap, RPBYTES), PathOf(p), p.section, x.description, x.templates);
    HeadRegrouped(p);
  }

  lemma PathThenPipe(p: Package)
    ensures PathOf(p) + "|" == p.dir + "/" + p.stem + Suffix(p.arch)
  {
    var u, a := p.dir + "/" + p.stem, Suffix(p.arch);
    assert a[..|a| - 1] + "|" == a;
    assert u + a[..|a| - 1] + "|" == u + (a[..|a| - 1] + "|");
  }

  lemma Regrouped(b: string, path: string, section: string, d: string, t: string)
    ensures b + "|" + path + "|" + section + "|" + d + "|" + t + "\n" ==
      b + (("|" + (path + "|") + section + "|") + (d + "|" + t + "\n"))
  {
  }

  lemma HeadRegrouped(p: Package)
    ensures Head(p) == "|" + (p.dir + "/" + p.stem + Suffix(p.arch)) + p.section + "|"
  {
  }

  lemma PathIsStorable(p: Package)
    requires WellFormed(p)
    ensures '|' !in PathOf(p)
    ensures '\n' !in p.dir && '\n' !in p.stem ==> '\n' !in PathOf(p)
  {
    var a := Suffix(p.arch)[..|Suffix(p.arch)| - 1];
    assert '|' !in a && '\n' !in a;
  }

  /** A clean item reads back from anywhere in a list's data. */
  lemma ItemReads(data: string, ofs: nat, x: Item)
    requires TextAt(data, ofs, x) && Clean(x)
    ensures Parse(data[ofs..]) == Fields(RecordOf(x))
  {
    var rest := data[ofs + |TextOf(x)|..];
    assert data[ofs..] == TextOf(x) + rest;
    PathIsStorable(x.pkg);
    RoundTrip(RecordOf(x), rest);
  }

  /** Comparing the raw data at two lines compares their packages. */
  lemma ItemsCompare(o: Options, data: string, ofs: nat, x: Item, other: string, at: nat, y: Item, v: Verdict)
    requires TextAt(data, ofs, x) && Clean(x) && TextAt(other, at, y) && Clean(y)
    requires ofs + RPBYTES < |data| && at + RPBYTES < |other|
    requires v == Compared(o, data[ofs + RPBYTES..], other[at + RPBYTES..], 0, 0, 0)
    ensures v == Order(o, x.pkg, y.pkg)
  {
    var rest, more := data[ofs + |TextOf(x)|..], other[at + |TextOf(y)|..];
    BehindBitmap(data, ofs, x);
    BehindBitmap(other, at, y);
    ComparedIsOrder(o, x.pkg, Tail(x) + rest, y.pkg, Tail(y) + more);
  }

  lemma ItemInBounds(data: string, ofs: nat, x: Item)
    requires TextAt(data, ofs, x)
    ensures ofs + RPBYTES < |data|
  {
  }

  lemma BehindBitmap(data: string, ofs: nat, x: Item)
    requires TextAt(data, ofs, x)
    ensures ofs + RPBYTES < |data|
    ensures data[ofs + RPBYTES..] == Head(x.pkg) + (Tail(x) + data[ofs + |TextOf(x)|..])
  {
    var t := TextOf(x);
    TextIsHead(x);
    var h := Head(x.pkg) + Tail(x);
    assert t[RPBYTES..] == h;
    assert data[ofs..] == t + data[ofs + |t|..];
    assert data[ofs + RPBYTES..] == h + data[ofs + |t|..];
  }

  lemma TextsAtExtends(data: string, more: string, ofs: seq<nat>, items: seq<Item>)
    requires TextsAt(data, ofs, items)
    ensures TextsAt(data + more, ofs, items)
  {
    forall i | 0 <= i < |ofs|
      ensures TextAt(data + more, ofs[i], items[i])
    {
      assert TextAt(data, ofs[i], items[i]);
      var end := ofs[i] + |TextOf(items[i])|;
      assert (data + more)[ofs[i]..end] == data[ofs[i]..end];
    }
  }

  /** A comparison of items that is the order of their packages. */
  ghost predicate Represents(cmp: (Item, Item) -> Verdict, o: Options) {
    forall x: Item, y: Item {:trigger Order(o, x.pkg, y.pkg)} :: cmp(x, y) == Order(o, x.pkg, y.pkg)
  }

  function ByPackage(o: Options): (Item, Item) -> Verdict {
    (x: Item, y: Item) => Order(o, x.pkg, y.pkg)
  }

  lemma ComparisonLaws(cmp: (Item, Item) -> Verdict, o: Options, x: Item, y: Item, z: Item)
    requires Represents(cmp, o)
    ensures cmp(y, x) == cmp(x, y).Flip() && Chain(cmp(x, y), cmp(y, z), cmp(x, z))
  {
    OrderFlips(o, x.pkg, y.pkg);
    OrderChains(o, x.pkg, y.pkg, z.pkg);
  }

  predicate SortedBy(o: Options, s: seq<Item>) {
    forall i, j :: 0 <= i < j < |s| ==> Order(o, s[i].pkg, s[j].pkg) != Greater
  }

  ghost predicate Sorted(cmp: (Item, Item) -> Verdict, s: seq<Item>) {
    forall i, j :: 0 <= i < j < |s| ==> cmp(s[i], s[j]) != Greater
  }

  lemma SortedIsByPackage(o: Options, s: seq<Item>)
    requires Sorted(ByPackage(o), s)
    ensures SortedBy(o, s)
  {
    forall i, j | 0 <= i < j < |s|
      ensures Order(o, s[i].pkg, s[j].pkg) != Greater
    {
      assert ByPackage(o)(s[i], s[j]) != Greater;
    }
  }

  /** The items with one more behind those that do not come after it. */
  function InsertBy(cmp: (Item, Item) -> Verdict, items: seq<Item>, x: Item): seq<Item> {
    if items == [] then [x]
    else
      var last := items[|items| - 1];
      if cmp(last, x) == Greater then InsertBy(cmp, items[..|items| - 1], x) + [last] else items + [x]
  }

  function SortBy(cmp: (Item, Item) -> Verdict, items: seq<Item>): seq<Item> {
    if items == [] then [] else InsertBy(cmp, SortBy(cmp, items[..|items| - 1]), items[|items| - 1])
  }

  lemma {:induction false} InsertBySorts(cmp: (Item, Item) -> Verdict, o: Options, items: seq<Item>, x: Item)
    requires Represents(cmp, o) && Sorted(cmp, items)
    ensures Sorted(cmp, InsertBy(cmp, items, x)) && multiset(InsertBy(cmp, items, x)) == multiset(items) + multiset{x}
  {
    if items != [] {
      var front, last := items[..|items| - 1], items[|items| - 1];
      assert items == front + [last];
      ComparisonLaws(cmp, o, last, x, last);
      if cmp(last, x) == Greater {
        InsertBySorts(cmp, o, front, x);
        LastStays(cmp, front, x, last, InsertBy(cmp, front, x));
      } else {
        AllBefore(cmp, o, front, last, x);
      }
    }
  }

  lemma AllBefore(cmp: (Item, Item) -> Verdict, o: Options, front: seq<Item>, last: Item, x: Item)
    requires Represents(cmp, o) && Sorted(cmp, front + [last]) && cmp(last, x) != Greater
    ensures forall i :: 0 <= i < |front| ==> cmp(front[i], x) != Greater
  {
    forall i | 0 <= i < |front|
      ensures cmp(front[i], x) != Greater
    {
      assert (front + [last])[i] == front[i] && (front + [last])[|front|] == last;
      ComparisonLaws(cmp, o, front[i], last, x);
    }
  }

  lemma LastStays(cmp: (Item, Item) -> Verdict, front: seq<Item>, x: Item, last: Item, more: seq<Item>)
    requires Sorted(cmp, front + [last]) && cmp(x, last) != Greater
    requires Sorted(cmp, more) && multiset(more) == multiset(front) + multiset{x}
    ensures Sorted(cmp, more + [last])
  {
    forall i | 0 <= i < |more|
      ensures cmp(more[i], last) != Greater
    {
      assert more[i] in multiset(more);
      if more[i] != x {
        assert more[i] in multiset(front);
        var k :| 0 <= k < |front| && front[k] == more[i];
        assert (front + [last])[k] == front[k] && (front + [last])[|front|] == last;
      }
    }
  }

  lemma {:induction false} SortBySorts(cmp: (Item, Item) -> Verdict, o: Options, items: seq<Item>)
    requires Represents(cmp, o)
    ensures Sorted(cmp, SortBy(cmp, items)) && multiset(SortBy(cmp, items)) == multiset(items)
  {
    if items != [] {
      var front, last := items[..|items| - 1], items[|items| - 1];
      assert items == front + [last];
      SortBySorts(cmp, o, front);
      InsertBySorts(cmp, o, SortBy(cmp, front), last);
    }
  }

  /** The source's sort of the line offsets; how the library sorts is not part of the model. */
  method Sort(o: Options, list: PackageList, ghost items: seq<Item>) returns (ghost sorted: seq<Item>)
    requires Holds(list, items)
    modifies list`lineOfs
    ensures Holds(list, sorted) && SortedBy(o, sorted) && multiset(sorted) == multiset(items)
  {
    ghost var cmp := ByPackage(o);
    StoredMeans(list.data, list.lineOfs, items);
    var ofs := SortLines(o, list.data, list.lineOfs, items, cmp);
    sorted := SortBy(cmp, items);
    SortBySorts(cmp, o, items);
    SortedIsByPackage(o, sorted);
    StoredMeans(list.data, ofs, sorted);
    TextsStart(list.data, ofs, sorted);
    list.lineOfs := ofs;
  }

  method SortLines(o: Options, data: string, source: seq<nat>, ghost items: seq<Item>, ghost cmp: (Item, Item) -> Verdict)
      returns (ofs: seq<nat>)
    requires Stored(data, source, items) && Represents(cmp, o)
    ensures Stored(data, ofs, SortBy(cmp, items))
  {
    ofs := [];
    for i := 0 to |source|
      invariant |items| == |source| && Stored(data, ofs, SortBy(cmp, items[..i]))
    {
      assert items[..i + 1][..i] == items[..i];
      ofs := Insert(o, data, ofs, SortBy(cmp, items[..i]), source, items, i, cmp);
    }
    assert items[..|items|] == items;
  }

  lemma TextsStart(data: string, ofs: seq<nat>, items: seq<Item>)
    requires TextsAt(data, ofs, items)
    ensures AllStart(data, ofs)
  {
    forall i | 0 <= i < |ofs|
      ensures PackageLists.LineStarts(data, ofs[i])
    {
      TextStarts(data, ofs[i], items[i]);
    }
  }

  lemma TextStarts(data: string, ofs: nat, x: Item)
    requires TextAt(data, ofs, x)
    ensures PackageLists.LineStarts(data, ofs)
  {
    var t := TextOf(x);
    assert data[ofs..ofs + |t|][|t| - 1] == '\n';
  }

  /** Inserts line k of the source behind the lines of a sorted list that do not come after it. */
  method Insert(o: Options, data: string, ofs: seq<nat>, ghost items: seq<Item>, source: seq<nat>,
                ghost all: seq<Item>, k: nat, ghost cmp: (Item, Item) -> Verdict)
      returns (longer: seq<nat>)
    requires Stored(data, ofs, items) && Represents(cmp, o) && Stored(data, source, all)
    requires k < |source| == |all|
    ensures Stored(data, longer, InsertBy(cmp, items, all[k]))
    decreases |ofs|
  {
    StoredFront(data, ofs, items);
    if |ofs| == 0 {
      StoredOne(data, ofs, items, source, all, k);
      return [source[k]];
    }
    var n := |ofs| - 1;
    var v := CompareBy(o, data, ofs, items, n, source, all, k, cmp);
    if v != Greater {
      StoredOne(data, ofs, items, source, all, k);
      return ofs + [source[k]];
    }
    longer := Insert(o, data, ofs[..n], items[..n], source, all, k, cmp);
    StoredOne(data, longer, InsertBy(cmp, items[..n], all[k]), ofs, items, n);
    longer := longer + [ofs[n]];
  }

  lemma StoredFront(data: string, ofs: seq<nat>, items: seq<Item>)
    requires Stored(data, ofs, items)
    ensures |ofs| == |items| && (ofs != [] ==> Stored(data, ofs[..|ofs| - 1], items[..|ofs| - 1]))
  {
    StoredMeans(data, ofs, items);
    if ofs != [] {
      StoredMeans(data, ofs[..|ofs| - 1], items[..|ofs| - 1]);
    }
  }

  lemma StoredOne(data: string, ofs: seq<nat>, items: seq<Item>, source: seq<nat>, all: seq<Item>, k: nat)
    requires Stored(data, ofs, items) && Stored(data, source, all) && k < |source| && k < |all|
    ensures Stored(data, ofs + [source[k]], items + [all[k]])
    ensures ofs == [] ==> Stored(data, [source[k]], [all[k]])
  {
    StoredMeans(data, ofs, items);
    StoredMeans(data, source, all);
    StoredMeans(data, ofs + [source[k]], items + [all[k]]);
    StoredMeans(data, [source[k]], [all[k]]);
  }

  method CompareBy(o: Options, data: string, ofs: seq<nat>, ghost items: seq<Item>, i: nat,
                   at: seq<nat>, ghost others: seq<Item>, j: nat, ghost cmp: (Item, Item) -> Verdict)
      returns (v: Verdict)
    requires Stored(data, ofs, items) && i < |ofs| && Stored(data, at, others) && j < |at| && Represents(cmp, o)
    ensures v == cmp(items[i], others[j]) && v.Flip() == cmp(others[j], items[i])
  {
    v := CompareAt(o, data, ofs, items, i, data, at, others, j);
    ComparisonLaws(cmp, o, items[i], others[j], items[i]);
  }

  /** The offsets are those of the lines of the items in the data of a list. */
  ghost predicate Stored(data: string, ofs: seq<nat>, items: seq<Item>)
    decreases |ofs|
  {
    && |ofs| == |items| && Terminated(data) == data
    && (ofs != [] ==>
      TextAt(data, ofs[0], items[0]) && Clean(items[0]) && Stored(data, ofs[1..], items[1..]))
  }

  lemma {:induction false} StoredMeans(data: string, ofs: seq<nat>, items: seq<Item>)
    ensures Stored(data, ofs, items) <==> TextsAt(data, ofs, items) && AllClean(items) && Terminated(data) == data
    decreases |ofs|
  {
    if |ofs| == |items| && ofs != [] {
      StoredMeans(data, ofs[1..], items[1..]);
      TextsFirst(data, ofs, items);
    }
  }

  lemma TextsFirst(data: string, ofs: seq<nat>, items: seq<Item>)
    requires |ofs| == |items| && ofs != []
    ensures TextsAt(data, ofs, items) <==> TextAt(data, ofs[0], items[0]) && TextsAt(data, ofs[1..], items[1..])
    ensures AllClean(items) <==> Clean(items[0]) && AllClean(items[1..])
  {
    assert forall i :: 0 < i < |ofs| ==> ofs[1..][i - 1] == ofs[i] && items[1..][i - 1] == items[i];
  }

  lemma StoredAt(data: string, ofs: seq<nat>, items: seq<Item>, i: nat)
    requires Stored(data, ofs, items) && i < |ofs|
    ensures i < |items| && ofs[i] + RPBYTES < |data| && Terminated(data) == data
  {
    StoredMeans(data, ofs, items);
    ItemInBounds(data, ofs[i], items[i]);
  }

  lemma LinesCompare(o: Options, data: string, ofs: seq<nat>, items: seq<Item>, i: nat,
                     other: string, at: seq<nat>, others: seq<Item>, j: nat, v: Verdict)
    requires Stored(data, ofs, items) && i < |ofs| && Stored(other, at, others) && j < |at|
    requires ofs[i] + RPBYTES < |data| && at[j] + RPBYTES < |other|
    requires v == Compared(o, data[ofs[i] + RPBYTES..], other[at[j] + RPBYTES..], 0, 0, 0)
    ensures i < |items| && j < |others| && v == Order(o, items[i].pkg, others[j].pkg)
  {
    StoredMeans(data, ofs, items);
    StoredMeans(other, at, others);
    ItemsCompare(o, data, ofs[i], items[i], other, at[j], others[j], v);
  }

  lemma TailTerminated(data: string, k: nat)
    requires k < |data| && Terminated(data) == data
    ensures data[k..] != "" && data[k..][|data[k..]| - 1] == '\n'
  {
  }

  method CompareAt(o: Options, data: string, ofs: seq<nat>, ghost items: seq<Item>, i: nat,
                   other: string, at: seq<nat>, ghost others: seq<Item>, j: nat)
      returns (v: Verdict)
    requires Stored(data, ofs, items) && i < |ofs| && Stored(other, at, others) && j < |at|
    ensures v == Order(o, items[i].pkg, others[j].pkg)
  {
    StoredAt(data, ofs, items, i);
    StoredAt(other, at, others, j);
    TailTerminated(data, ofs[i] + RPBYTES);
    TailTerminated(other, at[j] + RPBYTES);
    v := Compare(o, data[ofs[i] + RPBYTES..], other[at[j] + RPBYTES..]);
    LinesCompare(o, data, ofs, items, i, other, at, others, j, v);
  }

  /** Appends one line of an item. */
  method Put(list: PackageList, r: Record, ghost items: seq<Item>, ghost x: Item)
    requires Holds(list, items) && Clean(x) && r == RecordOf(x)
    modifies list
    ensures Holds(list, items + [x])
  {
    PutHolds(list.data, list.lineOfs, items, x);
    list.Append(r);
  }

  lemma PutHolds(data: string, ofs: seq<nat>, items: seq<Item>, x: Item)
    requires TextsAt(data, ofs, items) && AllClean(items) && Clean(x)
    ensures TextsAt(data + TextOf(x), ofs + [|data|], items + [x]) && AllClean(items + [x])
  {
    TextsAtExtends(data, TextOf(x), ofs, items);
    assert (data + TextOf(x))[|data|..|data| + |TextOf(x)|] == TextOf(x);
  }

  method Fetch(list: PackageList, i: nat, ghost items: seq<Item>) returns (r: Record)
    requires Holds(list, items) && i < |items|
    ensures r == RecordOf(items[i])
  {
    ItemReads(list.data, list.lineOfs[i], items[i]);
    var e := list.Get(i);
    r := e.record;
  }

  lemma {:induction false} AndAtMost(a: nat, b: nat)
    ensures And(a, b) <= a
    decreases a
  {
    if a != 0 && b != 0 {
      AndAtMost(a / 2, b / 2);
    }
  }

  /** The fields of a line that the two lists share. */
  method Unite(o: Options, r: Record, r2: Record, mask: nat, ghost x: Item, ghost y: Item) returns (u: Record)
    requires r == RecordOf(x) && r2 == RecordOf(y) && x.pkg.section == y.pkg.section
    ensures u == RecordOf(Matched(o, x, y, mask))
  {
    var path := r.path;
    if o.merge && |path| > 8 {
      PathEnds(x.pkg);
      var i386 := ByteSearch.Has(path[|path| - 8..], "i386");
      if i386 {
        path := r2.path;
      }
    }
    PathLong(x.pkg);
    var templates := r.templates;
    if |templates| == 1 && templates[0] == '?' {
      templates := r2.templates;
    }
    if |templates| == 1 && |r2.templates| == 0 {
      templates := r2.templates;
    }
    if |templates| < 2 && |r2.templates| > 2 {
      templates := r2.templates;
    }
    u := Record(Or(r.bitmap, And(r2.bitmap, mask)), path, r.section, r.description, templates);
  }

  lemma PathLong(p: Package)
    ensures |PathOf(p)| > 8
  {
  }

  lemma PathEnds(p: Package)
    ensures |PathOf(p)| > 8
    ensures ByteSearch.Contains(PathOf(p)[|PathOf(p)| - 8..], "i386") <==> p.arch == I386
  {
    var middle, end := SuffixEnds(p.arch);
    EndOf(p.dir + "/" + p.stem, middle, end);
  }

  lemma SuffixEnds(a: Arch) returns (middle: string, end: string)
    ensures |end| == 8 && Suffix(a)[..|Suffix(a)| - 1] == middle + end
    ensures ByteSearch.Contains(end, "i386") <==> a == I386
  {
    if a == I386 {
      HasI386(".deb");
      middle, end := "_", "i386" + ".deb";
    } else if a == All {
      NoI386("_all.deb");
      middle, end := "", "_all.deb";
    } else {
      NoI386("md64.deb");
      middle, end := "_a", "md64.deb";
    }
  }

  lemma EndOf(front: string, middle: string, end: string)
    requires |end| == 8
    ensures var s := front + (middle + end); |s| >= 8 && s[|s| - 8..] == end
  {
  }

  lemma HasI386(end: string)
    ensures ByteSearch.Contains("i386" + end, "i386")
  {
    assert ByteSearch.OccursAt("i386" + end, "i386", 0);
  }

  lemma FirstChar(e: string, w: string, i: nat)
    requires w != "" && ByteSearch.OccursAt(e, w, i)
    ensures i < |e| && e[i] == w[0]
  {
    assert e[i..i + |w|][0] == e[i];
  }

  lemma NoI386(e: string)
    requires 'i' !in e
    ensures !ByteSearch.Contains(e, "i386")
  {
    if i: nat :| ByteSearch.OccursAt(e, "i386", i) {
      FirstChar(e, "i386", i);
    }
  }

  lemma MatchedIsClean(o: Options, x: Item, y: Item, mask: nat)
    requires Clean(x) && Clean(y)
    ensures Clean(Matched(o, x, y, mask))
  {
    AndAtMost(y.bitmap, mask);
    Pow2Word();
    OrBounded(x.bitmap, And(y.bitmap, mask), 64);
  }

  /** Copies a line of the second list unless it is masked out. */
  method Contribute(out: PackageList, p2: PackageList, j: nat, only: bool, mask: nat,
                    ghost items: seq<Item>, ghost b: seq<Item>)
    requires out != p2 && Holds(out, items) && Holds(p2, b) && j < |b|
    modifies out
    ensures Holds(out, items + Contributed(b[j], only, mask))
  {
    assert items + [] == items;
    if !only {
      var r := Fetch(p2, j, b);
      var bitmap := And(r.bitmap, mask);
      if bitmap != 0 {
        AndAtMost(b[j].bitmap, mask);
        Put(out, r.(bitmap := bitmap), items, b[j].(bitmap := bitmap));
      }
    }
  }

  method Combine(o: Options, out: PackageList, p1: PackageList, p2: PackageList, mask: nat, i: nat, j: nat,
                 ghost items: seq<Item>, ghost a: seq<Item>, ghost b: seq<Item>)
    requires out != p1 && out != p2 && Holds(out, items) && Holds(p1, a) && Holds(p2, b) && i < |a| && j < |b|
    requires Order(o, a[i].pkg, b[j].pkg) == Equal
    modifies out
    ensures Holds(out, items + [Matched(o, a[i], b[j], mask)])
  {
    OrderFlips(o, a[i].pkg, b[j].pkg);
    MatchedIsClean(o, a[i], b[j], mask);
    var r := Fetch(p1, i, a);
    var r2 := Fetch(p2, j, b);
    var u := Unite(o, r, r2, mask, a[i], b[j]);
    Put(out, u, items, Matched(o, a[i], b[j], mask));
  }

  lemma MergeUnfolds(o: Options, a: seq<Item>, i: nat, b: seq<Item>, j: nat, only: bool, mask: nat)
    requires i < |a| && j < |b|
    ensures var v, all := Order(o, a[i].pkg, b[j].pkg), Merge(o, a[i..], b[j..], only, mask);
      && !v.Panic?
      && (v == Less ==> all == [a[i]] + Merge(o, a[i + 1..], b[j..], only, mask))
      && (v == Greater ==> all == Contributed(b[j], only, mask) + Merge(o, a[i..], b[j + 1..], only, mask))
      && (v == Equal ==> all == [Matched(o, a[i], b[j], mask)] + Merge(o, a[i + 1..], b[j + 1..], only, mask))
  {
    OrderFlips(o, a[i].pkg, b[j].pkg);
    assert a[i..][1..] == a[i + 1..] && b[j..][1..] == b[j + 1..];
  }

  lemma MergeSecondUnfolds(o: Options, b: seq<Item>, j: nat, only: bool, mask: nat)
    requires j < |b|
    ensures Merge(o, [], b[j..], only, mask) ==
      Contributed(b[j], only, mask) + Merge(o, [], b[j + 1..], only, mask)
  {
    assert b[j..][1..] == b[j + 1..];
  }

  /** One round of the merge loop. */
  method MergeLine(o: Options, out: PackageList, p1: PackageList, p2: PackageList, only: bool, mask: nat,
                   i: nat, j: nat, ghost items: seq<Item>, ghost a: seq<Item>, ghost b: seq<Item>)
      returns (i2: nat, j2: nat, ghost added: seq<Item>)
    requires out != p1 && out != p2 && Holds(out, items) && Holds(p1, a) && Holds(p2, b) && i < |a| && j < |b|
    modifies out
    ensures i <= i2 <= |a| && j <= j2 <= |b| && i + j < i2 + j2
    ensures Holds(out, items + added)
    ensures Merge(o, a[i..], b[j..], only, mask) == added + Merge(o, a[i2..], b[j2..], only, mask)
  {
    StoredMeans(p1.data, p1.lineOfs, a);
    StoredMeans(p2.data, p2.lineOfs, b);
    var v := CompareAt(o, p1.data, p1.lineOfs, a, i, p2.data, p2.lineOfs, b, j);
    MergeUnfolds(o, a, i, b, j, only, mask);
    if v == Less {
      var r := Fetch(p1, i, a);
      Put(out, r, items, a[i]);
      return i + 1, j, [a[i]];
    } else if v == Greater {
      Contribute(out, p2, j, only, mask, items, b);
      return i, j + 1, Contributed(b[j], only, mask);
    } else {
      Combine(o, out, p1, p2, mask, i, j, items, a, b);
      return i + 1, j + 1, [Matched(o, a[i], b[j], mask)];
    }
  }

  /** Sorts both lists and appends their merge. The three lists must be distinct. */
  method AppendMerge(o: Options, out: PackageList, p1: PackageList, p2: PackageList, only: bool, mask: nat,
                     ghost before: seq<Item>, ghost a: seq<Item>, ghost b: seq<Item>)
      returns (ghost sa: seq<Item>, ghost sb: seq<Item>)
    requires out != p1 && out != p2 && p1 != p2
    requires Holds(out, before) && Holds(p1, a) && Holds(p2, b)
    modifies out, p1`lineOfs, p2`lineOfs
    ensures Holds(p1, sa) && SortedBy(o, sa) && multiset(sa) == multiset(a)
    ensures Holds(p2, sb) && SortedBy(o, sb) && multiset(sb) == multiset(b)
    ensures Holds(out, before + Merge(o, sa, sb, only, mask))
  {
    sa := Sort(o, p1, a);
    sb := Sort(o, p2, b);
    MergeSorted(o, out, p1, p2, only, mask, before, sa, sb);
  }

  lemma Associate(x: seq<Item>, y: seq<Item>, z: seq<Item>)
    ensures (x + y) + z == x + (y + z)
  {
  }

  method MergeSorted(o: Options, out: PackageList, p1: PackageList, p2: PackageList, only: bool, mask: nat,
                     ghost before: seq<Item>, ghost a: seq<Item>, ghost b: seq<Item>)
    requires out != p1 && out != p2 && Holds(out, before) && Holds(p1, a) && Holds(p2, b)
    modifies out
    ensures Holds(out, before + Merge(o, a, b, only, mask))
  {
    var i: nat, j: nat := 0, 0;
    ghost var items := before;
    assert a[0..] == a && b[0..] == b;
    while i < |p1.lineOfs| && j < |p2.lineOfs|
      invariant i <= |a| && j <= |b|
      invariant Holds(out, items) && Holds(p1, a) && Holds(p2, b)
      invariant items + Merge(o, a[i..], b[j..], only, mask) == before + Merge(o, a, b, only, mask)
      decreases |a| + |b| - i - j
    {
      ghost var added;
      i, j, added := MergeLine(o, out, p1, p2, only, mask, i, j, items, a, b);
      Associate(items, added, Merge(o, a[i..], b[j..], only, mask));
      items := items + added;
    }
    CopyRest(o, out, p1, p2, only, mask, i, j, items, a, b);
  }

  /** Copies what is left of one list when the other is used up. */
  method CopyRest(o: Options, out: PackageList, p1: PackageList, p2: PackageList, only: bool, mask: nat,
                  i: nat, j: nat, ghost items: seq<Item>, ghost a: seq<Item>, ghost b: seq<Item>)
    requires out != p1 && out != p2 && Holds(out, items) && Holds(p1, a) && Holds(p2, b)
    requires i <= |a| && j <= |b| && (i == |a| || j == |b|)
    modifies out
    ensures Holds(out, items + Merge(o, a[i..], b[j..], only, mask))
  {
    CopyFirst(out, p1, i, items, a);
    MergeOneSided(o, a[i..], b[j..], only, mask);
    if only {
      NothingContributed(o, [], b[j..], mask);
      assert a[i..] + [] == a[i..];
    } else {
      CopySecond(o, out, p2, mask, j, items + a[i..], b);
      Associate(items, a[i..], Merge(o, [], b[j..], false, mask));
    }
  }

  lemma {:induction false} NothingContributed(o: Options, a: seq<Item>, b: seq<Item>, mask: nat)
    requires a == [] || b == []
    ensures Merge(o, a, b, true, mask) == a
  {
    if b != [] {
      NothingContributed(o, a, b[1..], mask);
    }
  }

  lemma MergeOneSided(o: Options, a: seq<Item>, b: seq<Item>, only: bool, mask: nat)
    requires a == [] || b == []
    ensures Merge(o, a, b, only, mask) == a + Merge(o, [], b, only, mask)
  {
    if b == [] {
      assert a + [] == a;
    } else {
      assert [] + Merge(o, [], b, only, mask) == Merge(o, [], b, only, mask);
    }
  }

  method CopyFirst(out: PackageList, p1: PackageList, i: nat, ghost items: seq<Item>, ghost a: seq<Item>)
    requires out != p1 && Holds(out, items) && Holds(p1, a) && i <= |a|
    modifies out
    ensures Holds(out, items + a[i..])
  {
    ghost var all, goal := items, items + a[i..];
    for n := i to |p1.lineOfs|
      invariant Holds(out, all) && Holds(p1, a)
      invariant LeadsFirst(all, a, n, goal)
    {
      ghost var more := LeadsFirstOn(all, a, n, goal);
      var r := Fetch(p1, n, a);
      Put(out, r, all, a[n]);
      all := more;
    }
    assert all + [] == all;
  }

  /** With the lines of the first list from line n on, the items become the goal. */
  ghost predicate LeadsFirst(items: seq<Item>, a: seq<Item>, n: nat, goal: seq<Item>) {
    n <= |a| && items + a[n..] == goal
  }

  lemma LeadsFirstOn(items: seq<Item>, a: seq<Item>, n: nat, goal: seq<Item>) returns (more: seq<Item>)
    requires LeadsFirst(items, a, n, goal) && n < |a|
    ensures more == items + [a[n]] && LeadsFirst(more, a, n + 1, goal)
  {
    more := items + [a[n]];
    assert a[n..] == [a[n]] + a[n + 1..];
    Associate(items, [a[n]], a[n + 1..]);
  }

  method CopySecond(o: Options, out: PackageList, p2: PackageList, mask: nat, j: nat,
                    ghost items: seq<Item>, ghost b: seq<Item>)
    requires out != p2 && Holds(out, items) && Holds(p2, b) && j <= |b|
    modifies out
    ensures Holds(out, items + Merge(o, [], b[j..], false, mask))
  {
    ghost var all, goal := items, items + Merge(o, [], b[j..], false, mask);
    for n := j to |p2.lineOfs|
      invariant Holds(out, all) && Holds(p2, b)
      invariant Leads(o, all, b, n, mask, goal)
    {
      ghost var more := LeadsOn(o, all, b, n, mask, goal);
      Contribute(out, p2, n, false, mask, all, b);
      all := more;
    }
  }

  /** With the contributions of the second list from line n on, the items become the goal. */
  ghost predicate Leads(o: Options, items: seq<Item>, b: seq<Item>, n: nat, mask: nat, goal: seq<Item>) {
    n <= |b| && items + Merge(o, [], b[n..], false, mask) == goal
  }

  lemma LeadsOn(o: Options, items: seq<Item>, b: seq<Item>, n: nat, mask: nat, goal: seq<Item>)
      returns (more: seq<Item>)
    requires Leads(o, items, b, n, mask, goal) && n < |b|
    ensures more == items + Contributed(b[n], false, mask) && Leads(o, more, b, n + 1, mask, goal)
  {
    more := items + Contributed(b[n], false, mask);
    MergeSecondUnfolds(o, b, n, false, mask);
    Associate(items, Contributed(b[n], false, mask), Merge(o, [], b[n + 1..], false, mask));
  }

  /** Sorting a list without repeated keys leaves it ascending, so that its merges are too. */
  lemma SortedDistinctAscends(o: Options, s: seq<Item>)
    requires SortedBy(o, s) && Regular(s)
    requires forall i, j :: 0 <= i < j < |s| ==> KeyOf(o, s[i].pkg) != KeyOf(o, s[j].pkg)
    ensures Ascending(o, s)
  {
    forall i, j | 0 <= i < j < |s|
      ensures Order(o, s[i].pkg, s[j].pkg) == Less
    {
      KeysDecide(o, s[i].pkg, s[j].pkg);
    }
  }
}
