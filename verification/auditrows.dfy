/** What the rows of a document mean, column by column. */
module AuditRows {
  import opened Common
  import opened PropTree
  import opened AuditScan
  import opened AuditDocument
  import opened AuditFile

  /** No two names have the same column. */
  predicate Injective(table: Table) {
    forall m, n :: m in table && n in table && table[m] == table[n] ==> m == n
  }

  lemma {:induction false} FirstIndexesInjective(props: seq<string>)
    ensures Injective(FirstIndexes(props))
    ensures forall n :: n in FirstIndexes(props) ==> FirstIndexes(props)[n] < |props|
  {
    if props != [] {
      FirstIndexesInjective(props[..|props| - 1]);
    }
  }

  /** The element gives column n its value. */
  predicate Gives(table: Table, e: Element, n: string) {
    e.tag + ">" == n && Seen(table, e)
  }

  function Value(e: Element): string {
    if e.value.Some? then e.value.value else ""
  }

  /** The value that the last element which gives one has for a column, or else the given value. */
  function ColumnValue(table: Table, elements: seq<Element>, n: string, otherwise: string): string {
    if elements == [] then otherwise
    else
      var last := elements[|elements| - 1];
      if Gives(table, last, n) then Value(last) else ColumnValue(table, elements[..|elements| - 1], n, otherwise)
  }

  lemma {:induction false} ColumnValueCons(table: Table, elements: seq<Element>, n: string, otherwise: string)
    requires elements != []
    ensures ColumnValue(table, elements, n, otherwise) == ColumnValue(table, elements[1..], n,
      if Gives(table, elements[0], n) then Value(elements[0]) else otherwise)
  {
    var init := elements[..|elements| - 1];
    if |elements| == 1 {
      assert init == [] && elements[1..] == [];
    } else {
      ColumnValueCons(table, init, n, otherwise);
      assert init[1..] == elements[1..][..|elements| - 2];
    }
  }

  /** Among tags that are all different, a column's element decides. */
  lemma {:induction false} OnlyValue(table: Table, elements: seq<Element>, n: string, otherwise: string, i: nat)
    requires i < |elements| && elements[i].tag + ">" == n
    requires forall j :: 0 <= j < |elements| && j != i ==> elements[j].tag + ">" != n
    ensures ColumnValue(table, elements, n, otherwise) == if Seen(table, elements[i]) then Value(elements[i]) else otherwise
  {
    var init := elements[..|elements| - 1];
    if i < |init| {
      OnlyValue(table, init, n, otherwise, i);
    } else {
      NoValue(table, init, n, otherwise);
    }
  }

  lemma {:induction false} NoValue(table: Table, elements: seq<Element>, n: string, otherwise: string)
    requires forall j :: 0 <= j < |elements| ==> elements[j].tag + ">" != n
    ensures ColumnValue(table, elements, n, otherwise) == otherwise
  {
    if elements != [] {
      NoValue(table, elements[..|elements| - 1], n, otherwise);
    }
  }

  /** An empty tag clears its column, but not if a longer name is requested as well. */
  lemma EmptyTagOverlooked(space: string, tag: string, more: string, otherwise: string)
    requires Storable(tag) && Storable(tag + more) && more != ""
    ensures var elements := [Element(space, tag, None)];
      && ColumnValue(FirstIndexes([tag]), elements, tag + ">", otherwise) == ""
      && ColumnValue(FirstIndexes([tag, tag + more]), elements, tag + ">", otherwise) == otherwise
  {
    var one, two := FirstIndexes([tag]), FirstIndexes([tag, tag + more]);
    OneName(tag);
    DifferentMarks(tag, more);
    assert [tag, tag + more][..1] == [tag];
    assert tag + more + ">" in two;
    assert Longer(two, tag) && !Longer(one, tag);
    OnlyValue(one, [Element(space, tag, None)], tag + ">", otherwise, 0);
    OnlyValue(two, [Element(space, tag, None)], tag + ">", otherwise, 0);
  }

  lemma OneName(name: string)
    requires Storable(name)
    ensures FirstIndexes([name]) == map[name + ">" := 0]
  {
    assert [name][..0] == [];
    assert FirstIndexes([name][..0]) == map[];
  }

  lemma DifferentMarks(tag: string, more: string)
    requires more != ""
    ensures tag + more + ">" != tag + ">" && tag <= tag + more + ">"
  {
    assert |tag + more + ">"| > |tag + ">"|;
  }

  /** A requested column has the value of its last element, if the entry has one. */
  lemma {:induction false} RowMeans(table: Table, elements: seq<Element>, row: Row, n: string)
    requires Injective(table) && n in table && forall m :: m in table ==> table[m] < |row|
    ensures |AllApplied(table, elements, row)| == |row|
    ensures AllApplied(table, elements, row)[table[n]] == ColumnValue(table, elements, n, row[table[n]])
    decreases |elements|
  {
    if elements != [] {
      RowMeans(table, elements[1..], Applied(table, elements[0], row), n);
      ColumnValueCons(table, elements, n, row[table[n]]);
    }
  }

  function GlobalValue(g: Globals, n: string): string {
    if n == "macaddress>" then g.mac
    else if n == "ipaddress>" then g.ip
    else if n == "hostname>" then g.host
    else if n == "lastaudit>" then g.lastAudit
    else ""
  }

  lemma SetColumnMeans(table: Table, row: Row, m: string, value: string, n: string)
    requires Injective(table) && n in table && table[n] < |row| && (m in table ==> table[m] < |row|)
    ensures SetColumn(row, if m in table then table[m] else -1, value)[table[n]] ==
      if m == n then value else row[table[n]]
  {
  }

  /** Before its elements are read, a row has the global values. */
  lemma BaseMeans(t: Tree, table: Table, g: Globals, size: nat, n: string)
    requires Requested(t, table, size) && Injective(table) && n in table
    ensures Base(t, g, size)[table[n]] == GlobalValue(g, n)
  {
    IndexOfIsTable(t, table, "macaddress>");
    IndexOfIsTable(t, table, "ipaddress>");
    IndexOfIsTable(t, table, "hostname>");
    IndexOfIsTable(t, table, "lastaudit>");
    var r0 := AuditScan.Blank(size);
    var r1 := SetColumn(r0, IndexOf(t, "macaddress>"), g.mac);
    var r2 := SetColumn(r1, IndexOf(t, "ipaddress>"), g.ip);
    var r3 := SetColumn(r2, IndexOf(t, "hostname>"), g.host);
    SetColumnMeans(table, r0, "macaddress>", g.mac, n);
    SetColumnMeans(table, r1, "ipaddress>", g.ip, n);
    SetColumnMeans(table, r2, "hostname>", g.host, n);
    SetColumnMeans(table, r3, "lastaudit>", g.lastAudit, n);
  }

  lemma AuditEndStops(data: string, q: nat, space: string)
    requires White(space) && At(data, q, space + "</audit>")
    ensures Stops(data, q)
  {
    assert space + "</audit>" == space + "</" + "audit>";
    EndTagStops(data, q, space, "audit>");
  }

  lemma EndTagStops(data: string, q: nat, space: string, name: string)
    requires White(space) && |name| == 6 && name[0] > '<' && name != "entry>" && At(data, q, space + "</" + name)
    ensures Stops(data, q)
  {
    AtSplit(data, q, space + "</", name);
    AtSplit(data, q, space, "</");
    AtChar(data, q + |space|, "</", 0);
    AtChar(data, q + |space|, "</", 1);
    AtSlice(data, q + |space| + 2, name);
    AtChar(data, q + |space| + 2, name, 0);
    forall j | q <= j < q + |space|
      ensures data[j] <= ' '
    {
      AtChar(data, q, space, j - q);
    }
    SkipLowIs(data, q, q + |space| + 2);
  }

  /** Requested names without a slash suit the tree that is made from them. */
  lemma PropsRequested(t: Tree, props: seq<string>)
    requires Built(t, FirstIndexes(props)) && forall n :: n in props ==> '/' !in n
    ensures Requested(t, FirstIndexes(props), |props|) && Injective(FirstIndexes(props))
  {
    FirstIndexesInjective(props);
    NamesAreProps(props);
    forall n | n in FirstIndexes(props)
      ensures '/' !in n
    {
      assert n == n[..|n| - 1] + ">";
    }
  }

  lemma PropsHaveRoom(props: seq<string>, data: string, q: nat)
    requires forall n :: n in props ==> q + |n| < |data| + 10
    ensures RoomTo(FirstIndexes(props), data, q)
  {
    NamesAreProps(props);
    forall n | n in FirstIndexes(props)
      ensures q + |n| < |data| + 11
    {
      assert n[..|n| - 1] in props;
    }
  }

  /** A printed document followed by its end tag is a file that the scan reads entry by entry. */
  lemma DocumentIsFile(t: Tree, props: seq<string>, data: string, start: nat, docs: seq<EntryDoc>, space: string, q: nat)
    requires Built(t, FirstIndexes(props)) && forall n :: n in props ==> '/' !in n
    requires At(data, start, DocText(docs)) && q == start + |DocText(docs)|
    requires White(space) && At(data, q, space + "</audit>")
    requires forall i :: 0 <= i < |docs| ==> EntryOk(docs[i])
    requires forall n :: n in props ==> q + |n| < |data| + 10
    ensures Requested(t, FirstIndexes(props), |props|)
    ensures FileAt(FirstIndexes(props), data, start, docs, q)
  {
    PropsRequested(t, props);
    PropsHaveRoom(props, data, q);
    AuditEndStops(data, q, space);
  }

  /** Every row has the value of each requested column, or the global value where the entry has no such element. */
  lemma DocumentRowMeans(t: Tree, props: seq<string>, g: Globals, d: EntryDoc, n: string)
    requires Built(t, FirstIndexes(props)) && (forall n :: n in props ==> '/' !in n)
    requires n in FirstIndexes(props)
    ensures var table, row := FirstIndexes(props), AllApplied(FirstIndexes(props), d.elements, Base(t, g, |props|));
      |row| == |props| && table[n] < |row| && row[table[n]] == ColumnValue(table, d.elements, n, GlobalValue(g, n))
  {
    PropsRequested(t, props);
    BaseMeans(t, FirstIndexes(props), g, |props|, n);
    RowMeans(FirstIndexes(props), d.elements, Base(t, g, |props|), n);
  }

  /** The names in the table are those of the list with their end mark. */
  lemma {:induction false} NamesAreProps(props: seq<string>)
    ensures forall n :: n in FirstIndexes(props) ==> n != "" && n[..|n| - 1] in props && n == n[..|n| - 1] + ">"
  {
    if props != [] {
      var before, name := props[..|props| - 1], props[|props| - 1];
      NamesAreProps(before);
      assert (name + ">")[..|name|] == name;
      assert props == before + [name];
    }
  }
}
