/** The scan of an audit file, entry by entry and element by element. */
module AuditFile {
  import opened Common
  import opened ByteSearch
  import opened PropTree
  import opened AuditScan
  import opened AuditDocument
  import Sequences

  method SkipTo(data: string, from: nat) returns (r: Option<nat>)
    ensures r == SkipLow(data, from)
  {
    var i := from;
    while i < |data| && data[i] <= '<'
      invariant from <= i && SkipLow(data, i) == SkipLow(data, from)
      decreases |data| - i
    {
      i := i + 1;
    }
    r := if i < |data| then Some(i) else None;
  }

  method FollowLinks(t: Tree, data: string, i: nat) returns (found: Found)
    ensures found == Walk(t, data, i, i)
  {
    var k := i;
    while k < |data|
      invariant i <= k && Walk(t, data, i, k) == Walk(t, data, i, i)
      decreases |data| - k
    {
      if data[i..k + 1] !in t {
        return Missing;
      }
      match t[data[i..k + 1]]
      case Leaf(name, index) => return Named(name, index);
      case Inner => k := k + 1;
    }
    return OutOfRange;
  }

  method SkipUnrequested(data: string, i: nat) returns (r: Option<nat>)
    ensures r == SkipElement(data, i)
  {
    var gt := Seek(data, i, '>');
    if gt.None? || gt.value == 0 { return None; }
    if data[gt.value - 1] == '/' {
      r := Seek(data, gt.value, '<');
    } else {
      var end := Seek(data, gt.value, '<');
      if end.None? { return None; }
      r := Seek(data, end.value + 1, '<');
    }
  }

  /** The element whose name starts at i; nothing is returned if the data ends too early. */
  method ReadElement(t: Tree, data: string, i: nat, row: Row) returns (r: Option<(nat, Row)>)
    ensures r == TakeElement(t, data, i, row)
  {
    var found := FollowLinks(t, data, i);
    match found {
      case OutOfRange => return None;
      case Missing =>
        var at := SkipUnrequested(data, i);
        return Skipped(at, row);
      case Named(name, index) =>
        r := ReadNamed(data, i, row, name, index);
    }
  }

  /** The element whose name the tree takes for the given one. */
  method ReadNamed(data: string, i: nat, row: Row, name: string, index: nat) returns (r: Option<(nat, Row)>)
    ensures r == TakeNamed(data, i, row, name, index)
  {
    var k := i + |name|;
    if k > |data| || index >= |row| { return None; }
    if data[i..k] == name {
      var end := Seek(data, k, '<');
      if end.None? { return None; }
      return Some((end.value + |name| + 2, row[index := data[k..end.value]]));
    }
    if k == |data| { return None; }
    if EmptyTag(data, i, name) {
      return Some((k + 1, row[index := ""]));
    }
    var at := SkipUnrequested(data, i);
    return Skipped(at, row);
  }

  /** Reads one element; if it is one of a plan it is applied, and the scan goes on as from its end. */
  method TakeNext(t: Tree, data: string, i: nat, row: Row, ghost table: Table, ghost planned: bool, ghost s: Place)
      returns (r: Option<(nat, Row)>)
    requires i < |data| && data[i] > '<'
    requires planned ==> i == s.name && Requested(t, table, |row|) && Readable(table, data, s)
    ensures r.Some? ==> i < r.value.0 && |r.value.1| == |row|
    ensures planned ==> ReadTo(table, data, s, row, r)
  {
    r := ReadElement(t, data, i, row);
    TakeGoesOn(t, data, i, row);
    if planned {
      TakesPlace(t, table, data, s, row);
    }
  }

  const NOWHERE := Place(0, 0, 0, Element("", "", None))

  /** At the end of a plan is the end tag, before it the next place. */
  lemma PlanSays(table: Table, data: string, p: nat, places: seq<Place>, row: Row, stop: nat, goal: Row, j: Option<nat>)
    requires Plan(table, data, p, places, row, stop, goal) && SkipLow(data, p) == j
    ensures j.Some? && 0 < j.value <= |data| && (places == [] <==> data[j.value - 1] == '/')
    ensures places == [] ==> j.value + 6 == stop && goal == row
    ensures places != [] ==> j.value == places[0].name && Readable(table, data, places[0])
  {
  }

  /** One round of the loop: the entry is over, the data ends too early, or one more element has been read. */
  method Advance(t: Tree, data: string, i: nat, row: Row, ghost table: Table, ghost planned: bool, ghost p: nat,
                 ghost places: seq<Place>, ghost stop: nat, ghost goal: Row)
      returns (over: bool, next: Option<nat>, more: Row)
    requires planned ==> SkipLow(data, i) == SkipLow(data, p) && Requested(t, table, |row|)
    requires planned ==> Plan(table, data, p, places, row, stop, goal)
    ensures next.Some? ==> i < next.value
    ensures !over ==> next.Some? && i < |data|
    ensures planned && places == [] ==> over && next == Some(stop) && more == goal
    ensures planned && places != [] ==>
      !over && more == Applied(table, places[0].e, row) && SkipLow(data, next.value) == SkipLow(data, places[0].end)
  {
    var j := SkipTo(data, i);
    if planned {
      PlanSays(table, data, p, places, row, stop, goal, j);
    }
    if j.None? || j.value == 0 {
      return true, None, row;
    }
    if data[j.value - 1] == '/' {
      return true, Some(j.value + 6), row;
    }
    over, next, more := AdvanceTo(t, data, j.value, row, table, planned, if planned then places[0] else NOWHERE);
  }

  /** Reads the element at i, unless the data ends too early. */
  method AdvanceTo(t: Tree, data: string, i: nat, row: Row, ghost table: Table, ghost planned: bool, ghost s: Place)
      returns (over: bool, next: Option<nat>, more: Row)
    requires i < |data| && data[i] > '<'
    requires planned ==> i == s.name && Requested(t, table, |row|) && Readable(table, data, s)
    ensures next.Some? ==> i < next.value
    ensures over <==> next.None?
    ensures planned ==>
      !over && more == Applied(table, s.e, row) && SkipLow(data, next.value) == SkipLow(data, s.end)
  {
    var r := TakeNext(t, data, i, row, table, planned, s);
    if r.None? {
      return true, None, row;
    }
    return false, Some(r.value.0), r.value.1;
  }

  /**
   * Reads an entry from behind its start tag. If there is a plan for it, the result is the plan's row and the
   * position behind the entry.
   */
  method ReadEntry(t: Tree, data: string, from: nat, base: Row, ghost table: Table, ghost planned: bool,
                   ghost places: seq<Place>, ghost stop: nat, ghost goal: Row)
      returns (end: Option<nat>, row: Row)
    requires planned ==> Requested(t, table, |base|) && Plan(table, data, from, places, base, stop, goal)
    ensures end.Some? ==> from < end.value
    ensures planned ==> end == Some(stop) && row == goal
  {
    row := base;
    var i := from;
    ghost var p: nat, left := from, places;
    while true
      invariant from <= i
      invariant planned ==> SkipLow(data, i) == SkipLow(data, p) && Requested(t, table, |row|)
      invariant planned ==> Plan(table, data, p, left, row, stop, goal)
      decreases if i < |data| then |data| - i else 0
    {
      var over;
      over, end, row := Advance(t, data, i, row, table, planned, p, left, stop, goal);
      if over {
        return;
      }
      if planned {
        p, left := left[0].end, left[1..];
      }
      i := end.value;
    }
  }

  /** An entry as documents have them. */
  predicate EntryOk(d: EntryDoc) {
    White(d.space) && AllOk(d.elements) && White(d.last)
  }

  predicate AllEntriesOk(docs: seq<EntryDoc>) {
    forall i :: 0 <= i < |docs| ==> EntryOk(docs[i])
  }

  /** What follows the last entry is no entry. */
  predicate Stops(data: string, q: nat) {
    var j := SkipLow(data, q);
    j.None? || j.value + 6 > |data| || data[j.value..j.value + 6] != "entry>"
  }

  function RowsOf(table: Table, docs: seq<EntryDoc>, base: Row): seq<Row> {
    if docs == [] then [] else [AllApplied(table, docs[0].elements, base)] + RowsOf(table, docs[1..], base)
  }

  /** The rest of the file, from position p to position q, consists of the given entries. */
  ghost predicate FileAt(table: Table, data: string, p: nat, docs: seq<EntryDoc>, q: nat) {
    && At(data, p, DocText(docs)) && AllEntriesOk(docs)
    && q == p + |DocText(docs)| && Stops(data, q) && RoomTo(table, data, q)
  }

  /** Behind position p there are a start tag, the rest of its entry, and the other entries. */
  predicate EntryFrom(data: string, p: nat, space: nat, rest: string, others: string) {
    var j := p + space + 1;
    && SkipLow(data, p) == Some(j) && j + 6 <= |data| && data[j..j + 6] == "entry>"
    && At(data, j + 6, rest) && At(data, j + 6 + |rest|, others)
  }

  lemma EntryAt(data: string, p: nat, docs: seq<EntryDoc>, rest: string, others: string)
    requires docs != [] && White(docs[0].space) && At(data, p, DocText(docs))
    requires rest == Rest(docs[0].elements, docs[0].last) && others == DocText(docs[1..])
    ensures EntryFrom(data, p, |docs[0].space|, rest, others)
    ensures |DocText(docs)| == |docs[0].space| + 7 + |rest| + |others|
  {
    var tag, all := docs[0].space + "<entry>", DocText(docs);
    EntryParts(docs, tag, rest, others);
    EntryIn(data, p, all, docs[0].space, tag, rest, others);
  }

  lemma EntryIn(data: string, p: nat, all: string, space: string, tag: string, rest: string, others: string)
    requires At(data, p, all) && all == tag + rest + others && tag == space + "<entry>" && |tag| == |space| + 7
    requires White(space)
    ensures EntryFrom(data, p, |space|, rest, others)
  {
    AtThree(data, p, tag, rest, others);
    StartTagAt(data, p, space);
    EntryTagIs(data, p + |space| + 1);
  }

  lemma EntryTagIs(data: string, j: nat)
    requires At(data, j, "entry>")
    ensures j + 6 <= |data| && data[j..j + 6] == "entry>"
  {
    AtSlice(data, j, "entry>");
  }

  lemma EntryParts(docs: seq<EntryDoc>, tag: string, rest: string, others: string)
    requires docs != [] && tag == docs[0].space + "<entry>"
    requires rest == Rest(docs[0].elements, docs[0].last) && others == DocText(docs[1..])
    ensures DocText(docs) == tag + rest + others && |tag| == |docs[0].space| + 7
  {
  }

  lemma AtThree(data: string, p: nat, u: string, v: string, w: string)
    requires At(data, p, u + v + w)
    ensures At(data, p, u) && At(data, p + |u|, v) && At(data, p + |u| + |v|, w)
  {
    AtSplit(data, p, u + v, w);
    AtSplit(data, p, u, v);
  }

  lemma StartTagAt(data: string, p: nat, space: string)
    requires White(space) && At(data, p, space + "<entry>")
    ensures SkipLow(data, p) == Some(p + |space| + 1) && At(data, p + |space| + 1, "entry>")
  {
    Sequences.Regroup(space, "<", "entry>");
    assert "<" + "entry>" == "<entry>";
    StartOfTag(data, p, space, "entry>");
  }

  lemma StartOfTag(data: string, p: nat, space: string, name: string)
    requires White(space) && At(data, p, space + "<" + name) && name != "" && name[0] > '<'
    ensures SkipLow(data, p) == Some(p + |space| + 1) && At(data, p + |space| + 1, name)
  {
    TagParts(data, p, space, name);
    SkipToTag(data, p, space, name);
  }

  /** The plan of the first entry and the rest of the file behind it. */
  lemma FirstEntry(t: Tree, table: Table, data: string, p: nat, docs: seq<EntryDoc>, base: Row, q: nat)
      returns (from: nat, places: seq<Place>, stop: nat, goal: Row)
    requires Requested(t, table, |base|) && FileAt(table, data, p, docs, q) && docs != []
    ensures Planned(t, table, data, p, from, places, base, stop, goal)
    ensures goal == AllApplied(table, docs[0].elements, base)
    ensures FileAt(table, data, stop, docs[1..], q)
  {
    var d := docs[0];
    from, goal := p + |d.space| + 7, AllApplied(table, d.elements, base);
    stop := from + |Rest(d.elements, d.last)|;
    RestOfFile(table, data, p, docs, base, q, stop);
    places := FirstPlan(t, table, data, p, docs, base, q, from, stop, goal);
  }

  lemma RestOfFile(table: Table, data: string, p: nat, docs: seq<EntryDoc>, base: Row, q: nat, stop: nat)
    requires FileAt(table, data, p, docs, q) && docs != []
    requires stop == p + |docs[0].space| + 7 + |Rest(docs[0].elements, docs[0].last)|
    ensures FileAt(table, data, stop, docs[1..], q) && stop <= q
  {
    OthersOk(docs);
    OthersAt(data, p, docs, Rest(docs[0].elements, docs[0].last), DocText(docs[1..]), stop);
  }

  lemma OthersOk(docs: seq<EntryDoc>)
    requires AllEntriesOk(docs) && docs != []
    ensures EntryOk(docs[0]) && AllEntriesOk(docs[1..])
  {
  }

  lemma OthersAt(data: string, p: nat, docs: seq<EntryDoc>, rest: string, others: string, stop: nat)
    requires docs != [] && EntryOk(docs[0]) && At(data, p, DocText(docs))
    requires rest == Rest(docs[0].elements, docs[0].last) && others == DocText(docs[1..])
    requires stop == p + |docs[0].space| + 7 + |rest|
    ensures At(data, stop, others) && stop + |others| == p + |DocText(docs)|
  {
    EntryAt(data, p, docs, rest, others);
  }

  lemma FirstPlan(t: Tree, table: Table, data: string, p: nat, docs: seq<EntryDoc>, base: Row, q: nat,
                  from: nat, stop: nat, goal: Row)
      returns (places: seq<Place>)
    requires Requested(t, table, |base|) && FileAt(table, data, p, docs, q) && docs != [] && stop <= q
    requires from == p + |docs[0].space| + 7 && stop == from + |Rest(docs[0].elements, docs[0].last)|
    requires goal == AllApplied(table, docs[0].elements, base)
    ensures Planned(t, table, data, p, from, places, base, stop, goal)
  {
    var d := docs[0];
    assert EntryOk(d);
    EntryAt(data, p, docs, Rest(docs[0].elements, docs[0].last), DocText(docs[1..]));
    places := DocumentPlan(table, data, from, d.elements, d.last, base, stop, goal);
  }

  /** An entry begins behind position p: its start tag ends at the given position, and there is a plan for it. */
  ghost predicate Planned(t: Tree, table: Table, data: string, p: nat, from: nat, places: seq<Place>, base: Row,
                          stop: nat, goal: Row) {
    && 6 <= from <= |data| && SkipLow(data, p) == Some(from - 6) && data[from - 6..from] == "entry>"
    && Requested(t, table, |base|) && Plan(table, data, from, places, base, stop, goal)
  }

  /** Reads the next entry, if there is one. */
  method NextEntry(t: Tree, data: string, i: nat, base: Row, ghost table: Table, ghost planned: bool, ghost from: nat,
                   ghost places: seq<Place>, ghost stop: nat, ghost goal: Row)
      returns (end: Option<nat>, row: Row)
    requires planned ==> Planned(t, table, data, i, from, places, base, stop, goal)
    ensures end.Some? ==> i < |data| && i < end.value
    ensures !planned && Stops(data, i) ==> end == None
    ensures planned ==> end == Some(stop) && row == goal
  {
    var j := SkipTo(data, i);
    if j.None? || j.value + 6 > |data| || data[j.value..j.value + 6] != "entry>" {
      return None, base;
    }
    end, row := ReadEntry(t, data, j.value + 6, base, table, planned, places, stop, goal);
  }

  /** The rows so far and those of the entries that are left are the rows of the file. */
  predicate Collected(table: Table, base: Row, rows: seq<Row>, left: seq<EntryDoc>, all: seq<Row>) {
    rows + RowsOf(table, left, base) == all
  }

  lemma CollectedMore(table: Table, base: Row, rows: seq<Row>, left: seq<EntryDoc>, all: seq<Row>)
    requires Collected(table, base, rows, left, all) && left != []
    ensures Collected(table, base, rows + [AllApplied(table, left[0].elements, base)], left[1..], all)
  {
  }

  /**
   * Scans the entries of a file from position start on. If they are a document, every entry gives its row, in
   * order; whatever the data is, the scan ends and stays within it.
   */
  method AuditScanFile(t: Tree, g: Globals, data: string, start: nat, size: nat, ghost table: Table,
                       ghost isDoc: bool, ghost docs: seq<EntryDoc>, ghost q: nat)
      returns (rows: seq<Row>)
    requires Valid(t, table)
    requires isDoc ==> Requested(t, table, size) && FileAt(table, data, start, docs, q)
    ensures isDoc ==> rows == RowsOf(table, docs, Base(t, g, size))
  {
    var base := StartRow(t, g, size, table);
    rows := [];
    var i := start;
    ghost var left, all := docs, RowsOf(table, docs, base);
    assert [] + all == all;
    while true
      invariant isDoc ==> FileAt(table, data, i, left, q)
      invariant isDoc ==> Collected(table, base, rows, left, all)
      decreases if i < |data| then |data| - i else 0
    {
      ghost var planned, from: nat, places: seq<Place>, stop: nat, goal := isDoc && left != [], 0, [], 0, base;
      if planned {
        from, places, stop, goal := FirstEntry(t, table, data, i, left, base, q);
      }
      var end, row := NextEntry(t, data, i, base, table, planned, from, places, stop, goal);
      if end.None? {
        assert rows + [] == rows;
        return;
      }
      if planned {
        CollectedMore(table, base, rows, left, all);
        left := left[1..];
      }
      rows := rows + [row];
      i := end.value;
    }
  }

  /** The values that are the same in the whole file are put where they are requested. */
  method StartRow(t: Tree, g: Globals, size: nat, ghost table: Table) returns (row: Row)
    requires Valid(t, table)
    ensures row == Base(t, g, size)
  {
    var mac := LookUp(t, "macaddress>", table);
    var ip := LookUp(t, "ipaddress>", table);
    var host := LookUp(t, "hostname>", table);
    var last := LookUp(t, "lastaudit>", table);
    row := SetColumn(AuditScan.Blank(size), mac, g.mac);
    row := SetColumn(row, ip, g.ip);
    row := SetColumn(row, host, g.host);
    row := SetColumn(row, last, g.lastAudit);
  }
}
