/** Audit documents as they are printed, and what scanning them must give. */
module AuditDocument {
  import opened Common
  import opened ByteSearch
  import opened PropTree
  import opened AuditScan
  import Sequences

  /** An element with white space in front of it; without a value it is written as an empty tag. */
  datatype Element = Element(space: string, tag: string, value: Option<string>)

  datatype EntryDoc = EntryDoc(space: string, elements: seq<Element>, last: string)

  predicate White(s: string) {
    forall i :: 0 <= i < |s| ==> s[i] <= ' '
  }

  predicate TagOk(tag: string) {
    tag != "" && tag[0] > '<' && forall i :: 0 <= i < |tag| ==> tag[i] != '<' && tag[i] != '>' && tag[i] != '/'
  }

  predicate ElementOk(e: Element) {
    White(e.space) && TagOk(e.tag) && (e.value.Some? ==> '<' !in e.value.value)
  }

  function TagText(e: Element): string {
    match e.value
    case Some(v) => e.tag + ">" + v + "</" + e.tag + ">"
    case None => e.tag + "/>"
  }

  function ElementText(e: Element): string {
    e.space + "<" + TagText(e)
  }

  function Body(elements: seq<Element>): string {
    if elements == [] then "" else ElementText(elements[0]) + Body(elements[1..])
  }

  function EntryText(d: EntryDoc): string {
    d.space + "<entry>" + Rest(d.elements, d.last)
  }

  /** The elements of an entry and its end tag. */
  function Rest(elements: seq<Element>, last: string): string {
    Body(elements) + (last + "</entry>")
  }

  function DocText(docs: seq<EntryDoc>): string {
    if docs == [] then "" else EntryText(docs[0]) + DocText(docs[1..])
  }

  /** An empty tag is not seen if another requested name begins with it. */
  predicate Seen(table: Table, e: Element) {
    e.value.Some? || !Longer(table, e.tag)
  }

  /** What an element does to the row of its entry. */
  function Applied(table: Table, e: Element, row: Row): Row {
    if e.tag + ">" in table && table[e.tag + ">"] < |row| && Seen(table, e) then
      row[table[e.tag + ">"] := if e.value.Some? then e.value.value else ""]
    else row
  }

  function AllApplied(table: Table, elements: seq<Element>, row: Row): Row
    decreases |elements|
  {
    if elements == [] then row else AllApplied(table, elements[1..], Applied(table, elements[0], row))
  }

  /** The requested names have no slash, their indexes are those of columns, and the data goes on behind i for long enough. */
  ghost predicate Requested(t: Tree, table: Table, size: nat) {
    && Built(t, table)
    && (forall n :: n in table ==> '/' !in n && table[n] < size)
  }

  ghost predicate Room(table: Table, data: string, i: nat) {
    forall n :: n in table ==> i + |n| < |data|
  }

  /** What an entry that ends here needs: the shortest element and the end tag take eleven bytes. */
  ghost predicate RoomTo(table: Table, data: string, end: nat) {
    forall n :: n in table ==> end + |n| < |data| + 11
  }

  /** The data holds s from position i on, or at least its bytes from the n-th on. */
  predicate At(data: string, i: nat, s: string, n: nat := 0)
    decreases |s| - n
  {
    i + |s| <= |data| && (n >= |s| || (data[i + n] == s[n] && At(data, i, s, n + 1)))
  }

  lemma {:induction false} AtChars(data: string, i: nat, s: string, n: nat)
    ensures At(data, i, s, n) <==> i + |s| <= |data| && forall k :: n <= k < |s| ==> data[i + k] == s[k]
    decreases |s| - n
  {
    if n < |s| {
      AtChars(data, i, s, n + 1);
    }
  }

  lemma AtSplit(data: string, i: nat, u: string, v: string)
    requires At(data, i, u + v)
    ensures At(data, i, u) && At(data, i + |u|, v)
  {
    var s := u + v;
    AtChars(data, i, s, 0);
    AtChars(data, i, u, 0);
    AtChars(data, i + |u|, v, 0);
    assert forall k :: 0 <= k < |u| ==> data[i + k] == s[k] == u[k];
    assert forall k :: 0 <= k < |v| ==> data[i + |u| + k] == s[|u| + k] == v[k];
  }

  lemma AtChar(data: string, i: nat, s: string, k: nat)
    requires At(data, i, s) && k < |s|
    ensures i + k < |data| && data[i + k] == s[k]
  {
    AtChars(data, i, s, 0);
  }

  lemma AtSlice(data: string, i: nat, s: string)
    requires At(data, i, s)
    ensures i + |s| <= |data| && data[i..i + |s|] == s
  {
    AtChars(data, i, s, 0);
  }

  lemma {:induction false} SkipLowIs(data: string, i: nat, at: nat)
    requires i <= at < |data| && data[at] > '<' && forall j :: i <= j < at ==> data[j] <= '<'
    ensures SkipLow(data, i) == Some(at)
    decreases at - i
  {
    if i < at {
      SkipLowIs(data, i + 1, at);
    }
  }

  lemma TagParts(data: string, i: nat, space: string, rest: string)
    requires At(data, i, space + "<" + rest)
    ensures At(data, i, space) && i + |space| < |data| && data[i + |space|] == '<' && At(data, i + |space| + 1, rest)
  {
    AtSplit(data, i, space + "<", rest);
    AtSplit(data, i, space, "<");
    AtChar(data, i + |space|, "<", 0);
  }

  /** White space and an opening bracket are skipped. */
  lemma SkipToTag(data: string, i: nat, space: string, rest: string)
    requires White(space) && At(data, i, space) && i + |space| < |data| && data[i + |space|] == '<'
    requires At(data, i + |space| + 1, rest) && rest != "" && rest[0] > '<'
    ensures SkipLow(data, i) == Some(i + |space| + 1)
  {
    AtChar(data, i + |space| + 1, rest, 0);
    SpaceAt(data, i, space);
    SkipLowIs(data, i, i + |space| + 1);
  }

  lemma SpaceAt(data: string, i: nat, space: string)
    requires White(space) && At(data, i, space)
    ensures i + |space| <= |data| && forall j :: i <= j < i + |space| ==> data[j] <= ' '
  {
    AtChars(data, i, space, 0);
    assert forall j :: i <= j < i + |space| ==> data[j] == space[j - i];
  }

  /** Following links finds a name that the data holds. */
  lemma {:induction false} WalkFinds(t: Tree, table: Table, data: string, i: nat, name: string, p: string, k: nat)
    requires Valid(t, table) && name in table && p in t && t[p] == Leaf(name, table[name])
    requires At(data, i, p) && i <= k < i + |p|
    ensures Walk(t, data, i, k) == Named(name, table[name])
    decreases i + |p| - k
  {
    AtSlice(data, i, p);
    assert data[i..k + 1] == data[i..i + |p|][..k + 1 - i] == p[..k + 1 - i];
    assert p[..|p|] == p;
    if k + 1 < i + |p| {
      PrefixesAreInner(t, table, p, k + 1 - i);
      WalkFinds(t, table, data, i, name, p, k + 1);
    }
  }

  lemma NameFound(t: Tree, table: Table, data: string, i: nat, name: string)
    requires Valid(t, table) && name in table && At(data, i, name)
    ensures Walk(t, data, i, i) == Named(name, table[name])
  {
    var p :| p in t && t[p] == Leaf(name, table[name]);
    assert NodeValid(t, table, p);
    assert name == p + name[|p|..];
    AtSplit(data, i, p, name[|p|..]);
    WalkFinds(t, table, data, i, name, p, i);
  }

  /** What the walk finds is a leaf on its way. */
  lemma {:induction false} WalkLeaf(t: Tree, data: string, i: nat, k: nat, m: nat)
    requires i <= k <= m < |data| && data[i..m + 1] !in t
    ensures Walk(t, data, i, k).Named? ==> exists j: nat :: k <= j < m && LeafOn(t, data, i, j, Walk(t, data, i, k).name)
    decreases m - k
  {
    if data[i..k + 1] in t {
      if t[data[i..k + 1]].Inner? {
        WalkLeaf(t, data, i, k + 1, m);
      } else {
        assert k != m;
        assert LeafOn(t, data, i, k, t[data[i..k + 1]].name);
      }
    }
  }

  predicate LeafOn(t: Tree, data: string, i: nat, j: nat, name: string)
    requires i <= j < |data|
  {
    data[i..j + 1] in t && t[data[i..j + 1]].Leaf? && t[data[i..j + 1]].name == name
  }

  /** The walk ends within the data if some of its bytes lead nowhere, and what it finds is in the table. */
  lemma {:induction false} WalkEnds(t: Tree, table: Table, data: string, i: nat, k: nat, m: nat)
    requires Valid(t, table) && i <= k <= m < |data| && data[i..m + 1] !in t
    ensures !Walk(t, data, i, k).OutOfRange?
    ensures Walk(t, data, i, k).Named? ==>
      var n := Walk(t, data, i, k).name;
      n in table && table[n] == Walk(t, data, i, k).index && Marked(n)
    decreases m - k
  {
    if data[i..k + 1] in t {
      assert NodeValid(t, table, data[i..k + 1]);
      if t[data[i..k + 1]].Inner? {
        WalkEnds(t, table, data, i, k + 1, m);
      }
    }
  }

  lemma EndMark(tag: string)
    requires TagOk(tag)
    ensures Marked(tag + ">")
  {
    assert (tag + ">")[..|tag|] == tag;
  }

  lemma UnrequestedIsNoNode(t: Tree, table: Table, tag: string)
    requires Valid(t, table) && TagOk(tag) && tag + ">" !in table
    ensures tag + ">" !in t
  {
    EndMark(tag);
    assert tag + ">" in t ==> NodeValid(t, table, tag + ">");
    if tag + ">" in t {
      if t[tag + ">"].Leaf? {
        MarkedPrefix(tag + ">", t[tag + ">"].name);
      } else {
        InnerIsUnmarked(t, table, tag + ">");
      }
    }
  }

  lemma SlashIsNoNode(t: Tree, table: Table, tag: string)
    requires Valid(t, table) && forall n :: n in table ==> '/' !in n
    ensures tag + "/" !in t
  {
    var p := tag + "/";
    assert p[|tag|] == '/';
    assert p in t ==> NodeValid(t, table, p);
  }

  /** The next tag behind position end begins at position next. */
  predicate NextTag(data: string, end: nat, next: nat) {
    end <= next < |data| && data[next] == '<' && forall j :: end <= j < next ==> data[j] <= ' '
  }

  /** The scan goes on from here as it does from the end of the element. */
  predicate GoesOn(data: string, at: nat, end: nat, next: nat) {
    at == end || at == next
  }

  lemma {:induction false} SkipLowSame(data: string, end: nat, next: nat)
    requires NextTag(data, end, next)
    ensures SkipLow(data, end) == SkipLow(data, next)
    decreases next - end
  {
    if end < next {
      SkipLowSame(data, end + 1, next);
    }
  }

  lemma NoBracket(data: string, k: nat, v: string)
    requires At(data, k, v) && '<' !in v
    ensures forall j :: k <= j < k + |v| ==> data[j] != '<'
  {
    forall j | k <= j < k + |v|
      ensures data[j] != '<'
    {
      AtChar(data, k, v, j - k);
    }
  }

  lemma NameAt(data: string, i: nat, tag: string, mark: string)
    requires At(data, i, tag + mark) && mark != ""
    ensures i + |tag| < |data| && data[i + |tag|] == mark[0] && data[i..i + |tag|] == tag
    ensures forall j :: i <= j < i + |tag| ==> data[j] == tag[j - i]
  {
    AtSplit(data, i, tag, mark);
    AtSlice(data, i, tag);
    AtChar(data, i + |tag|, mark, 0);
    forall j | i <= j < i + |tag|
      ensures data[j] == tag[j - i]
    {
      AtChar(data, i, tag, j - i);
    }
  }

  /** The parts of an element with a value: its name, the value behind position k, and the end tag. */
  lemma ValueParts(data: string, i: nat, e: Element)
    requires At(data, i, TagText(e)) && ElementOk(e) && e.value.Some?
    ensures var k := i + |e.tag| + 1;
      && At(data, i, e.tag + ">") && At(data, k, e.value.value)
      && Find(data, k - 1, '<') == Some(k + |e.value.value|) == Find(data, k, '<')
      && k + |e.value.value| + |e.tag| + 3 == i + |TagText(e)|
  {
    var v, close := e.value.value, "</" + e.tag + ">";
    TagTextIs(e);
    ValueAt(data, i, TagText(e), e.tag + ">", v, close);
  }

  /** The text of an element with a value, grouped in two ways. */
  lemma TagTextIs(e: Element)
    requires e.value.Some?
    ensures var close := "</" + e.tag + ">";
      && |close| == |e.tag| + 3 && close[0] == '<'
      && TagText(e) == (e.tag + ">" + e.value.value) + close == (e.tag + ">") + (e.value.value + close)
  {
    var tag, v := e.tag, e.value.value;
    TagTextGroups(tag, v);
    Sequences.Enclosed(tag, ">", v, "</" + tag + ">");
  }

  lemma TagTextGroups(tag: string, v: string)
    ensures tag + ">" + v + "</" + tag + ">" == tag + ">" + v + ("</" + tag + ">")
  {
    Sequences.Regroup(tag + ">" + v, "</" + tag, ">");
    Sequences.Regroup(tag + ">" + v, "</", tag);
  }

  lemma ValueAt(data: string, i: nat, all: string, name: string, v: string, close: string)
    requires At(data, i, all) && all == name + (v + close)
    requires name != "" && name[|name| - 1] == '>' && close != "" && close[0] == '<' && '<' !in v
    ensures At(data, i, name) && At(data, i + |name|, v)
    ensures Find(data, i + |name| - 1, '<') == Some(i + |name| + |v|)
    ensures Find(data, i + |name|, '<') == Some(i + |name| + |v|)
  {
    ThreeAt(data, i, all, name, v, close);
    AtChar(data, i, name, |name| - 1);
    ValueEnds(data, i + |name|, v, close);
  }

  lemma ThreeAt(data: string, i: nat, all: string, u: string, v: string, w: string)
    requires At(data, i, all) && all == u + (v + w)
    ensures At(data, i, u) && At(data, i + |u|, v) && At(data, i + |u| + |v|, w)
  {
    AtSplit(data, i, u, v + w);
    AtSplit(data, i + |u|, v, w);
  }

  lemma ValueEnds(data: string, k: nat, v: string, close: string)
    requires At(data, k, v) && At(data, k + |v|, close) && close != "" && close[0] == '<' && '<' !in v
    requires 0 < k && data[k - 1] == '>'
    ensures Find(data, k - 1, '<') == Some(k + |v|) == Find(data, k, '<')
  {
    AtChar(data, k + |v|, close, 0);
    NoBracket(data, k, v);
    FindIs(data, k, '<', k + |v|);
    FindIs(data, k - 1, '<', k + |v|);
  }

  /** The element was read up to the given position, with the given row as result. */
  predicate Taken(r: Option<(nat, Row)>, at: nat, more: Row) {
    r.Some? && r.value.0 == at && r.value.1 == more
  }

  lemma TakesOwnName(data: string, i: nat, e: Element, row: Row, index: nat)
    requires ElementOk(e) && e.value.Some? && At(data, i, TagText(e)) && index < |row|
    ensures Taken(TakeNamed(data, i, row, e.tag + ">", index), i + |TagText(e)|, row[index := e.value.value])
  {
    ValueParts(data, i, e);
    TakesValue(data, i, row, e.tag + ">", e.value.value, index);
  }

  lemma TakesValue(data: string, i: nat, row: Row, name: string, v: string, index: nat)
    requires At(data, i, name) && At(data, i + |name|, v) && index < |row|
    requires Find(data, i + |name|, '<') == Some(i + |name| + |v|)
    ensures Taken(TakeNamed(data, i, row, name, index), i + |name| + |v| + |name| + 2, row[index := v])
  {
    AtSlice(data, i, name);
    AtSlice(data, i + |name|, v);
    TakesHeld(data, i, row, name, index, i + |name| + |v|);
  }

  lemma TakesHeld(data: string, i: nat, row: Row, name: string, index: nat, end: nat)
    requires i + |name| <= end <= |data| && data[i..i + |name|] == name && index < |row|
    requires Find(data, i + |name|, '<') == Some(end)
    ensures Taken(TakeNamed(data, i, row, name, index), end + |name| + 2, row[index := data[i + |name|..end]])
  {
  }

  lemma TakesSkipped(data: string, i: nat, row: Row, name: string, index: nat, next: nat)
    requires i + |name| < |data| && data[i..i + |name|] != name && !EmptyTag(data, i, name) && index < |row|
    requires SkipElement(data, i) == Some(next)
    ensures Taken(TakeNamed(data, i, row, name, index), next, row)
  {
  }

  lemma TakesRequested(t: Tree, table: Table, data: string, i: nat, e: Element, row: Row)
    requires Requested(t, table, |row|) && ElementOk(e) && e.value.Some? && At(data, i, TagText(e))
    requires e.tag + ">" in table
    ensures Taken(TakeElement(t, data, i, row), i + |TagText(e)|, Applied(table, e, row))
  {
    ValueParts(data, i, e);
    NameFound(t, table, data, i, e.tag + ">");
    TakesOwnName(data, i, e, row, table[e.tag + ">"]);
  }

  lemma MarkedChars(n: string)
    requires Marked(n)
    ensures n[|n| - 1] == '>' && forall i :: 0 <= i < |n| - 1 ==> n[i] != '>'
  {
    assert forall i :: 0 <= i < |n| - 1 ==> n[..|n| - 1][i] == n[i];
  }

  lemma SliceChars(data: string, i: nat, k: nat, s: string)
    requires i <= k <= |data| && data[i..k] == s
    ensures forall j :: i <= j < k ==> data[j] == s[j - i]
  {
    forall j | i <= j < k
      ensures data[j] == s[j - i]
    {
      assert data[i..k][j - i] == data[j];
    }
  }

  /** A tag name up to position m, where its mark is. */
  predicate TagAt(data: string, i: nat, tag: string, m: nat) {
    && m == i + |tag| < |data| && data[i..m] == tag && TagOk(tag)
    && forall j :: i <= j < m ==> data[j] != '>' && data[j] != '/' && data[j] != '<'
  }

  lemma TagIsAt(data: string, i: nat, tag: string, mark: string)
    requires TagOk(tag) && At(data, i, tag + mark) && mark != ""
    ensures TagAt(data, i, tag, i + |tag|) && data[i + |tag|] == mark[0]
  {
    NameAt(data, i, tag, mark);
  }

  /** A name that the data holds in place of a tag is that of the tag. */
  lemma OnlyOwnName(data: string, i: nat, tag: string, m: nat, n: string)
    requires TagAt(data, i, tag, m) && data[m] == '>' && Marked(n) && i + |n| <= |data|
    ensures data[i..i + |n|] == n ==> n == tag + ">"
  {
    if data[i..i + |n|] == n {
      HeldIsOwn(data, i, tag, m, n);
    }
  }

  lemma HeldIsOwn(data: string, i: nat, tag: string, m: nat, n: string)
    requires TagAt(data, i, tag, m) && data[m] == '>' && Marked(n) && i + |n| <= |data| && data[i..i + |n|] == n
    ensures n == tag + ">"
  {
    MarkedChars(n);
    SliceChars(data, i, i + |n|, n);
    assert data[i + |n| - 1] == '>';
    assert i + |n| - 1 == m;
    assert data[i..m + 1] == data[i..m] + [data[m]];
  }

  lemma NotEmptyTag(data: string, i: nat, tag: string, m: nat, n: string)
    requires TagAt(data, i, tag, m) && data[m] == '>' && Marked(n) && i + |n| < |data|
    ensures !EmptyTag(data, i, n)
  {
    MarkedChars(n);
    if EmptyTag(data, i, n) {
      SliceChars(data, i, i + |n| - 1, n[..|n| - 1]);
    }
  }

  lemma SkipsValue(data: string, i: nat, e: Element, next: nat)
    requires ElementOk(e) && e.value.Some? && At(data, i, TagText(e)) && NextTag(data, i + |TagText(e)|, next)
    ensures SkipElement(data, i) == Some(next)
  {
    var m := i + |e.tag|;
    ValueParts(data, i, e);
    NameEnds(data, i, e.tag);
    EndTagAt(data, i, e);
    AfterEndTag(data, m + 1 + |e.value.value|, e.tag, next);
    SkipsBoth(data, i, m, m + 1 + |e.value.value|, next);
  }

  lemma NameEnds(data: string, i: nat, tag: string)
    requires TagOk(tag) && At(data, i, tag + ">")
    ensures Find(data, i, '>') == Some(i + |tag|) && 0 < i + |tag| && data[i + |tag| - 1] != '/'
  {
    TagIsAt(data, i, tag, ">");
    FindIs(data, i, '>', i + |tag|);
  }

  lemma SkipsBoth(data: string, i: nat, gt: nat, end: nat, next: nat)
    requires Find(data, i, '>') == Some(gt) && 0 < gt && data[gt - 1] != '/'
    requires Find(data, gt, '<') == Some(end) && Find(data, end + 1, '<') == Some(next)
    ensures SkipElement(data, i) == Some(next)
  {
  }

  lemma EndTagAt(data: string, i: nat, e: Element)
    requires e.value.Some? && At(data, i, TagText(e))
    ensures At(data, i + |e.tag| + 1 + |e.value.value|, "</" + e.tag + ">")
  {
    TagTextIs(e);
    AtSplit(data, i, e.tag + ">" + e.value.value, "</" + e.tag + ">");
  }

  lemma AfterEndTag(data: string, end: nat, tag: string, next: nat)
    requires At(data, end, "</" + tag + ">") && TagOk(tag) && NextTag(data, end + |tag| + 3, next)
    ensures Find(data, end + 1, '<') == Some(next)
  {
    forall j | end + 1 <= j < next
      ensures data[j] != '<'
    {
      if j < end + |tag| + 3 {
        AtChar(data, end, "</" + tag + ">", j - end);
      }
    }
    FindIs(data, end + 1, '<', next);
  }

  lemma TakesOtherName(data: string, i: nat, e: Element, row: Row, next: nat, n: string, index: nat)
    requires ElementOk(e) && e.value.Some? && At(data, i, TagText(e)) && NextTag(data, i + |TagText(e)|, next)
    requires Marked(n) && n != e.tag + ">" && i + |n| < |data| && index < |row|
    ensures Taken(TakeNamed(data, i, row, n, index), next, row)
  {
    ValueParts(data, i, e);
    SkipsValue(data, i, e, next);
    OtherNameSkipped(data, i, e.tag, row, next, n, index);
  }

  lemma OtherNameSkipped(data: string, i: nat, tag: string, row: Row, next: nat, n: string, index: nat)
    requires TagOk(tag) && At(data, i, tag + ">") && Marked(n) && n != tag + ">" && i + |n| < |data| && index < |row|
    requires SkipElement(data, i) == Some(next)
    ensures Taken(TakeNamed(data, i, row, n, index), next, row)
  {
    TagIsAt(data, i, tag, ">");
    NotEmptyTag(data, i, tag, i + |tag|, n);
    OnlyOwnName(data, i, tag, i + |tag|, n);
    TakesSkipped(data, i, row, n, index, next);
  }

  lemma TakesUnrequested(t: Tree, table: Table, data: string, i: nat, e: Element, row: Row, next: nat)
    requires Requested(t, table, |row|) && Room(table, data, i)
    requires ElementOk(e) && e.value.Some? && At(data, i, TagText(e)) && NextTag(data, i + |TagText(e)|, next)
    requires e.tag + ">" !in table
    ensures Taken(TakeElement(t, data, i, row), next, row)
  {
    UnrequestedWalk(t, table, data, i, e);
    var found := Walk(t, data, i, i);
    if found.Named? {
      TakesOtherName(data, i, e, row, next, found.name, found.index);
    } else {
      SkipsValue(data, i, e, next);
    }
  }

  lemma UnrequestedWalk(t: Tree, table: Table, data: string, i: nat, e: Element)
    requires Valid(t, table) && ElementOk(e) && e.value.Some? && At(data, i, TagText(e)) && e.tag + ">" !in table
    ensures var found := Walk(t, data, i, i);
      && !found.OutOfRange?
      && (found.Named? ==> found.name in table && table[found.name] == found.index && Marked(found.name))
  {
    ValueParts(data, i, e);
    AtSlice(data, i, e.tag + ">");
    UnrequestedIsNoNode(t, table, e.tag);
    WalkEnds(t, table, data, i, i, i + |e.tag|);
  }

  lemma SkipsEmpty(data: string, i: nat, tag: string, next: nat)
    requires TagOk(tag) && At(data, i, tag + "/>") && NextTag(data, i + |tag| + 2, next)
    ensures SkipElement(data, i) == Some(next)
  {
    var m := i + |tag|;
    TagIsAt(data, i, tag, "/>");
    AtChar(data, i, tag + "/>", |tag| + 1);
    FindIs(data, i, '>', m + 1);
    FindIs(data, m + 1, '<', next);
  }

  /** Whether the walk reaches the name or not, an empty tag is recognized or skipped. */
  lemma TakesEmpty(t: Tree, table: Table, data: string, i: nat, e: Element, row: Row, next: nat) returns (at: nat)
    requires Requested(t, table, |row|) && Room(table, data, i)
    requires ElementOk(e) && e.value.None? && At(data, i, TagText(e)) && NextTag(data, i + |TagText(e)|, next)
    ensures GoesOn(data, at, i + |TagText(e)|, next) && Taken(TakeElement(t, data, i, row), at, Applied(table, e, row))
  {
    EmptyWalk(t, table, data, i, e.tag);
    SkipsEmpty(data, i, e.tag, next);
    var found := Walk(t, data, i, i);
    if e.tag + ">" in table && !Longer(table, e.tag) {
      EmptyIsSeen(t, table, data, i, e.tag);
    } else if found.Named? {
      EmptyIsHidden(t, table, data, i, e.tag);
    }
    at := next;
    if found.Named? {
      at := TakesEmptyNamed(table, data, i, e, row, next, found.name);
    }
  }

  /** The walk reaches a tag that no other name begins with before its end mark. */
  lemma EmptyIsSeen(t: Tree, table: Table, data: string, i: nat, tag: string)
    requires Built(t, table) && tag + ">" in table && !Longer(table, tag) && TagOk(tag) && At(data, i, tag + "/>")
    ensures Walk(t, data, i, i) == Named(tag + ">", table[tag + ">"])
  {
    var name := tag + ">";
    var p :| p in t && t[p] == Leaf(name, table[name]);
    assert NodeValid(t, table, p);
    OthersAreShort(t, table, tag, p);
    assert tag + "/>" == p + (tag + "/>")[|p|..];
    AtSplit(data, i, p, (tag + "/>")[|p|..]);
    WalkFinds(t, table, data, i, name, p, i);
  }

  /** Otherwise the walk finds other names only. */
  lemma EmptyIsHidden(t: Tree, table: Table, data: string, i: nat, tag: string)
    requires Valid(t, table) && (forall n :: n in table ==> '/' !in n) && TagOk(tag) && At(data, i, tag + "/>")
    requires (tag + ">" !in table || Longer(table, tag)) && Walk(t, data, i, i).Named?
    ensures Walk(t, data, i, i).name != tag + ">"
  {
    var m := i + |tag|;
    TagIsAt(data, i, tag, "/>");
    SlashIsNoNode(t, table, tag);
    assert data[i..m + 1] == data[i..m] + [data[m]] == tag + "/";
    WalkLeaf(t, data, i, i, m);
    var j: nat :| i <= j < m && LeafOn(t, data, i, j, Walk(t, data, i, i).name);
    var q := data[i..j + 1];
    assert q == data[i..m][..|q|] == tag[..|q|];
    assert NodeValid(t, table, q);
    if t[q].name == tag + ">" {
      LongerIsDeep(t, table, tag, q);
    }
  }

  lemma EmptyWalk(t: Tree, table: Table, data: string, i: nat, tag: string)
    requires Valid(t, table) && (forall n :: n in table ==> '/' !in n) && TagOk(tag) && At(data, i, tag + "/>")
    ensures var found := Walk(t, data, i, i);
      && !found.OutOfRange?
      && (found.Named? ==> found.name in table && table[found.name] == found.index && Marked(found.name))
  {
    TagIsAt(data, i, tag, "/>");
    SlashIsNoNode(t, table, tag);
    assert data[i..i + |tag| + 1] == data[i..i + |tag|] + [data[i + |tag|]];
    WalkEnds(t, table, data, i, i, i + |tag|);
  }

  lemma TakesEmptyNamed(table: Table, data: string, i: nat, e: Element, row: Row, next: nat, n: string) returns (at: nat)
    requires n in table && Marked(n) && '/' !in n && i + |n| < |data| && table[n] < |row|
    requires TagOk(e.tag) && At(data, i, e.tag + "/>") && SkipElement(data, i) == Some(next)
    requires e.value.None? && (n == e.tag + ">" <==> e.tag + ">" in table && !Longer(table, e.tag))
    ensures GoesOn(data, at, i + |e.tag| + 2, next) && Taken(TakeNamed(data, i, row, n, table[n]), at, Applied(table, e, row))
  {
    TagIsAt(data, i, e.tag, "/>");
    AtChar(data, i, e.tag + "/>", |e.tag| + 1);
    NotHeld(data, i, e.tag, n);
    at := next;
    if EmptyTag(data, i, n) {
      EmptyIsOwn(data, i, e.tag, n);
      at := i + |n| + 1;
    } else if n == e.tag + ">" {
      OwnIsEmpty(data, i, e.tag);
    }
  }

  lemma OwnIsEmpty(data: string, i: nat, tag: string)
    requires TagAt(data, i, tag, i + |tag|) && data[i + |tag|] == '/'
    requires i + |tag| + 1 < |data| && data[i + |tag| + 1] == '>'
    ensures EmptyTag(data, i, tag + ">")
  {
    assert (tag + ">")[..|tag|] == tag;
  }

  lemma NotHeld(data: string, i: nat, tag: string, n: string)
    requires TagAt(data, i, tag, i + |tag|) && data[i + |tag|] == '/' && Marked(n) && '/' !in n && i + |n| <= |data|
    ensures data[i..i + |n|] != n
  {
    MarkedChars(n);
    if data[i..i + |n|] == n {
      SliceChars(data, i, i + |n|, n);
    }
  }

  lemma EmptyIsOwn(data: string, i: nat, tag: string, n: string)
    requires TagAt(data, i, tag, i + |tag|) && data[i + |tag|] == '/' && Marked(n) && '/' !in n && i + |n| < |data|
    requires EmptyTag(data, i, n)
    ensures n == tag + ">"
  {
    SliceChars(data, i, i + |n| - 1, n[..|n| - 1]);
    assert i + |n| - 1 == i + |tag|;
    assert n == n[..|n| - 1] + ">";
  }

  /** One element, requested or not, empty or not, is applied to the row. */
  lemma TakesAny(t: Tree, table: Table, data: string, i: nat, e: Element, row: Row, next: nat) returns (at: nat)
    requires Requested(t, table, |row|) && Room(table, data, i)
    requires ElementOk(e) && At(data, i, TagText(e)) && NextTag(data, i + |TagText(e)|, next)
    ensures GoesOn(data, at, i + |TagText(e)|, next) && Taken(TakeElement(t, data, i, row), at, Applied(table, e, row))
  {
    if e.value.None? {
      at := TakesEmpty(t, table, data, i, e, row, next);
    } else if e.tag + ">" in table {
      at := i + |TagText(e)|;
      TakesRequested(t, table, data, i, e, row);
    } else {
      at := next;
      TakesUnrequested(t, table, data, i, e, row, next);
    }
  }

  /** Where an element lies: its name, its end, and the next tag. */
  datatype Place = Place(name: nat, end: nat, next: nat, e: Element)

  /** What reading the element at a place needs to know. */
  ghost predicate Readable(table: Table, data: string, s: Place) {
    && Room(table, data, s.name) && ElementOk(s.e) && At(data, s.name, TagText(s.e))
    && s.end == s.name + |TagText(s.e)| && NextTag(data, s.end, s.next)
  }

  /** The element at a place was read into the row, and the scan goes on as from its end. */
  predicate ReadTo(table: Table, data: string, s: Place, row: Row, r: Option<(nat, Row)>) {
    r.Some? && r.value.1 == Applied(table, s.e, row) && SkipLow(data, r.value.0) == SkipLow(data, s.end)
  }

  lemma TakesPlace(t: Tree, table: Table, data: string, s: Place, row: Row)
    requires Requested(t, table, |row|) && Readable(table, data, s)
    ensures ReadTo(table, data, s, row, TakeElement(t, data, s.name, row))
  {
    var at := TakesAny(t, table, data, s.name, s.e, row, s.next);
    SkipLowSame(data, s.end, s.next);
  }

  /** What follows the elements that are left begins with white space and a tag. */
  function SpaceOf(elements: seq<Element>, last: string): string {
    if elements == [] then last else elements[0].space
  }

  predicate AllOk(elements: seq<Element>) {
    forall i :: 0 <= i < |elements| ==> ElementOk(elements[i])
  }

  lemma RestUnfolds(elements: seq<Element>, last: string)
    requires elements != []
    ensures Rest(elements, last) == ElementText(elements[0]) + Rest(elements[1..], last)
    ensures ElementText(elements[0]) == elements[0].space + "<" + TagText(elements[0])
  {
  }

  lemma RestNextTag(data: string, end: nat, elements: seq<Element>, last: string)
    requires At(data, end, Rest(elements, last)) && AllOk(elements) && White(last)
    ensures NextTag(data, end, end + |SpaceOf(elements, last)|)
  {
    var space := SpaceOf(elements, last);
    if elements == [] {
      assert Rest(elements, last) == last + "</entry>";
      SpaceThenTag(data, end, last, "</entry>");
    } else {
      RestAt(data, end, elements, last);
      ElementNextTag(data, end, elements[0]);
    }
  }

  lemma ElementNextTag(data: string, end: nat, e: Element)
    requires At(data, end, ElementText(e)) && White(e.space)
    ensures NextTag(data, end, end + |e.space|)
  {
    assert ElementText(e) == e.space + ("<" + TagText(e));
    SpaceThenTag(data, end, e.space, "<" + TagText(e));
  }

  lemma SpaceThenTag(data: string, end: nat, space: string, tag: string)
    requires White(space) && At(data, end, space + tag) && tag != "" && tag[0] == '<'
    ensures NextTag(data, end, end + |space|)
  {
    AtSplit(data, end, space, tag);
    AtChar(data, end + |space|, tag, 0);
    forall j | end <= j < end + |space|
      ensures data[j] <= ' '
    {
      AtChar(data, end, space, j - end);
    }
  }

  lemma TagTextStarts(e: Element)
    requires TagOk(e.tag)
    ensures TagText(e) != "" && TagText(e)[0] == e.tag[0]
  {
  }

  lemma TagReached(data: string, p: nat, e: Element)
    requires ElementOk(e) && At(data, p, ElementText(e))
    ensures var i := p + |e.space| + 1;
      && SkipLow(data, p) == Some(i) && At(data, i, TagText(e)) && data[i - 1] == '<'
      && i + |TagText(e)| == p + |ElementText(e)|
  {
    TagTextStarts(e);
    TagParts(data, p, e.space, TagText(e));
    SkipToTag(data, p, e.space, TagText(e));
  }

  lemma RoomBefore(table: Table, data: string, i: nat, end: nat)
    requires RoomTo(table, data, end) && i + 11 <= end
    ensures Room(table, data, i)
  {
  }

  lemma ShortestEnd(e: Element, elements: seq<Element>, last: string)
    requires TagOk(e.tag)
    ensures |TagText(e)| + |Rest(elements, last)| >= 11
  {
  }

  lemma RestAt(data: string, p: nat, elements: seq<Element>, last: string)
    requires elements != [] && At(data, p, Rest(elements, last))
    ensures At(data, p, ElementText(elements[0]))
    ensures At(data, p + |ElementText(elements[0])|, Rest(elements[1..], last))
    ensures |Rest(elements, last)| == |ElementText(elements[0])| + |Rest(elements[1..], last)|
  {
    RestUnfolds(elements, last);
    AtSplit(data, p, ElementText(elements[0]), Rest(elements[1..], last));
  }

  lemma AtEntryEnd(data: string, p: nat, last: string)
    requires White(last) && At(data, p, Rest([], last))
    ensures var j := p + |last| + 2;
      SkipLow(data, p) == Some(j) && data[j - 1] == '/' && j + 6 == p + |Rest([], last)|
  {
    assert Rest([], last) == last + "</" + "entry>";
    AtSplit(data, p, last + "</", "entry>");
    AtSplit(data, p, last, "</");
    AtChar(data, p + |last|, "</", 0);
    AtChar(data, p + |last|, "</", 1);
    AtChar(data, p + |last| + 2, "entry>", 0);
    SpaceAt(data, p, last);
    SkipLowIs(data, p, p + |last| + 2);
  }

  function PlaceOf(p: nat, left: seq<Element>, last: string): Place
    requires left != []
  {
    var e := left[0];
    var end := p + |ElementText(e)|;
    Place(p + |e.space| + 1, end, end + |SpaceOf(left[1..], last)|, e)
  }

  /** The next element is found where the elements that are left begin. */
  lemma PlaceFound(data: string, p: nat, left: seq<Element>, last: string)
    requires left != [] && At(data, p, Rest(left, last)) && ElementOk(left[0])
    ensures var s := PlaceOf(p, left, last);
      && SkipLow(data, p) == Some(s.name) && data[s.name - 1] == '<'
      && At(data, s.name, TagText(s.e)) && s.end == s.name + |TagText(s.e)|
  {
    RestAt(data, p, left, last);
    TagReached(data, p, left[0]);
  }

  lemma TagBehindPlace(data: string, p: nat, left: seq<Element>, last: string)
    requires left != [] && At(data, p, Rest(left, last)) && AllOk(left) && White(last)
    ensures NextTag(data, PlaceOf(p, left, last).end, PlaceOf(p, left, last).next)
  {
    RestAt(data, p, left, last);
    RestNextTag(data, p + |ElementText(left[0])|, left[1..], last);
  }

  /** The elements of an entry, one behind the other, and its end tag. */
  ghost predicate Plan(table: Table, data: string, p: nat, places: seq<Place>, row: Row, end: nat, goal: Row)
    decreases |places|
  {
    if places == [] then
      6 < end && end - 7 < |data| && SkipLow(data, p) == Some(end - 6) && data[end - 7] == '/' && goal == row
    else
      var s := places[0];
      && 0 < s.name <= |data| && SkipLow(data, p) == Some(s.name) && data[s.name - 1] == '<'
      && Readable(table, data, s) && Plan(table, data, s.end, places[1..], Applied(table, s.e, row), end, goal)
  }

  lemma PlanFirst(table: Table, data: string, p: nat, s: Place, places: seq<Place>, row: Row, end: nat, goal: Row)
    requires 0 < s.name <= |data| && SkipLow(data, p) == Some(s.name) && data[s.name - 1] == '<'
    requires Readable(table, data, s) && Plan(table, data, s.end, places, Applied(table, s.e, row), end, goal)
    ensures Plan(table, data, p, [s] + places, row, end, goal)
  {
    assert ([s] + places)[1..] == places;
  }

  lemma PlaceReadable(table: Table, data: string, p: nat, left: seq<Element>, last: string, end: nat)
    requires left != [] && At(data, p, Rest(left, last)) && AllOk(left) && White(last)
    requires RoomTo(table, data, end) && end == p + |Rest(left, last)|
    ensures Readable(table, data, PlaceOf(p, left, last))
  {
    PlaceFound(data, p, left, last);
    TagBehindPlace(data, p, left, last);
    RestAt(data, p, left, last);
    ShortestEnd(left[0], left[1..], last);
    RoomBefore(table, data, PlaceOf(p, left, last).name, end);
  }

  lemma PlanEnds(table: Table, data: string, p: nat, last: string, row: Row, end: nat)
    requires At(data, p, Rest([], last)) && White(last) && end == p + |Rest([], last)|
    ensures Plan(table, data, p, [], row, end, row)
  {
    AtEntryEnd(data, p, last);
  }

  /** A document's entry has a plan that leads to its row. */
  lemma {:induction false} DocumentPlan(table: Table, data: string, p: nat, left: seq<Element>, last: string, row: Row,
                                        end: nat, goal: Row)
      returns (places: seq<Place>)
    requires RoomTo(table, data, end) && At(data, p, Rest(left, last)) && AllOk(left) && White(last)
    requires end == p + |Rest(left, last)| && goal == AllApplied(table, left, row)
    ensures Plan(table, data, p, places, row, end, goal)
    decreases |left|
  {
    if left == [] {
      places := [];
      PlanEnds(table, data, p, last, row, end);
    } else {
      var s := PlaceOf(p, left, last);
      TailOf(table, data, p, left, last, row);
      places := DocumentPlan(table, data, s.end, left[1..], last, Applied(table, s.e, row), end, goal);
      PlanLonger(table, data, p, left, last, row, end, goal, places);
      places := [s] + places;
    }
  }

  lemma PlanLonger(table: Table, data: string, p: nat, left: seq<Element>, last: string, row: Row, end: nat, goal: Row,
                   places: seq<Place>)
    requires RoomTo(table, data, end) && left != [] && At(data, p, Rest(left, last)) && AllOk(left) && White(last)
    requires end == p + |Rest(left, last)|
    requires var s := PlaceOf(p, left, last); Plan(table, data, s.end, places, Applied(table, s.e, row), end, goal)
    ensures Plan(table, data, p, [PlaceOf(p, left, last)] + places, row, end, goal)
  {
    PlaceFound(data, p, left, last);
    PlaceReadable(table, data, p, left, last, end);
    PlanFirst(table, data, p, PlaceOf(p, left, last), places, row, end, goal);
  }

  lemma TailOf(table: Table, data: string, p: nat, left: seq<Element>, last: string, row: Row)
    requires left != [] && At(data, p, Rest(left, last)) && AllOk(left)
    ensures var s := PlaceOf(p, left, last);
      && At(data, s.end, Rest(left[1..], last)) && AllOk(left[1..])
      && s.end + |Rest(left[1..], last)| == p + |Rest(left, last)|
      && AllApplied(table, left, row) == AllApplied(table, left[1..], Applied(table, s.e, row))
  {
    RestAt(data, p, left, last);
  }
}
