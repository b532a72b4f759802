/** What a query on audit files gets from a document, column by column. */
module AuditMeaning {
  import opened Common
  import opened PropTree
  import opened AuditScan
  import opened AuditDocument
  import opened AuditFile
  import opened AuditRows

  /** Another requested name begins with this one, which hides empty tags. */
  predicate Hidden(props: seq<string>, name: string) {
    exists m :: m in props && m != name && name <= m && '>' !in m
  }

  /** The element has a value for the column of the name. */
  predicate Tells(props: seq<string>, name: string, e: Element) {
    e.tag == name && (e.value.Some? || !Hidden(props, name))
  }

  ghost predicate LastTells(props: seq<string>, name: string, elements: seq<Element>, k: nat) {
    && k < |elements| && Tells(props, name, elements[k])
    && forall j :: k < j < |elements| ==> !Tells(props, name, elements[j])
  }

  /** The text is that of the last element with a value for the column, or else the global value of that name, if any. */
  ghost predicate Cell(props: seq<string>, g: Globals, elements: seq<Element>, name: string, text: string) {
    if exists k :: 0 <= k < |elements| && Tells(props, name, elements[k]) then
      exists k: nat :: LastTells(props, name, elements, k)
                       && text == if elements[k].value.Some? then elements[k].value.value else ""
    else
      && (name == "macaddress" ==> text == g.mac)
      && (name == "ipaddress" ==> text == g.ip)
      && (name == "hostname" ==> text == g.host)
      && (name == "lastaudit" ==> text == g.lastAudit)
      && (name !in {"macaddress", "ipaddress", "hostname", "lastaudit"} ==> text == "")
  }

  lemma HiddenMeans(props: seq<string>, name: string)
    requires Storable(name)
    ensures Longer(FirstIndexes(props), name) <==> Hidden(props, name)
  {
    var table := FirstIndexes(props);
    NamesAreProps(props);
    if n :| n in table && n != name + ">" && name <= n {
      var m := n[..|n| - 1];
      FirstIndexesMean(props, m);
      LongerName(name, m);
    }
    if m :| m in props && m != name && name <= m && '>' !in m {
      FirstIndexesMean(props, m);
      assert m + ">" in table && name <= m + ">";
      assert (m + ">")[..|m|] == m && (name + ">")[..|name|] == name;
    }
  }

  lemma LongerName(name: string, m: string)
    requires Storable(name) && m + ">" != name + ">" && name <= m + ">"
    ensures m != name && name <= m
  {
    assert |name| > |m| ==> name == m + ">";
  }

  lemma TellsMeans(props: seq<string>, name: string, e: Element)
    requires Storable(name)
    ensures Gives(FirstIndexes(props), e, name + ">") <==> Tells(props, name, e)
  {
    assert e.tag + ">" == name + ">" <==> e.tag == name by {
      assert (e.tag + ">")[..|e.tag + ">"| - 1] == e.tag;
      assert (name + ">")[..|name + ">"| - 1] == name;
    }
    HiddenMeans(props, name);
  }

  lemma {:induction false} ValueIsCell(props: seq<string>, g: Globals, elements: seq<Element>, name: string)
    requires Storable(name)
    ensures Cell(props, g, elements, name, ColumnValue(FirstIndexes(props), elements, name + ">", GlobalValue(g, name + ">")))
  {
    if elements == [] {
      GlobalNames(g, name);
    } else {
      var init, last := elements[..|elements| - 1], elements[|elements| - 1];
      ValueIsCell(props, g, init, name);
      TellsMeans(props, name, last);
      CellSnoc(props, g, init, last, name,
               ColumnValue(FirstIndexes(props), init, name + ">", GlobalValue(g, name + ">")));
      assert elements == init + [last];
    }
  }

  lemma GlobalNames(g: Globals, name: string)
    ensures Cell([], g, [], name, GlobalValue(g, name + ">"))
    ensures forall props :: Cell(props, g, [], name, GlobalValue(g, name + ">"))
  {
    var n := name + ">";
    assert n[..|n| - 1] == name;
    assert "macaddress>"[..10] == "macaddress" && "ipaddress>"[..9] == "ipaddress";
    assert "hostname>"[..8] == "hostname" && "lastaudit>"[..9] == "lastaudit";
    assert n == "macaddress>" <==> name == "macaddress";
    assert n == "ipaddress>" <==> name == "ipaddress";
    assert n == "hostname>" <==> name == "hostname";
    assert n == "lastaudit>" <==> name == "lastaudit";
  }

  lemma CellSnoc(props: seq<string>, g: Globals, init: seq<Element>, last: Element, name: string, text: string)
    requires Cell(props, g, init, name, text)
    ensures Cell(props, g, init + [last], name,
                 if Tells(props, name, last) then Value(last) else text)
  {
    var all, n := init + [last], |init|;
    assert all[n] == last && forall k :: 0 <= k < n ==> all[k] == init[k];
    if Tells(props, name, last) {
      assert LastTells(props, name, all, n);
    } else {
      forall k: nat
        ensures LastTells(props, name, all, k) <==> LastTells(props, name, init, k)
      {
      }
      if k :| 0 <= k < n && Tells(props, name, init[k]) {
        assert Tells(props, name, all[k]);
        var j: nat :| LastTells(props, name, init, j)
                      && text == if init[j].value.Some? then init[j].value.value else "";
        assert LastTells(props, name, all, j) && all[j] == init[j];
      }
    }
  }

  lemma {:induction false} RowsOfAt(table: Table, docs: seq<EntryDoc>, base: Row, i: nat)
    requires i < |docs|
    ensures |RowsOf(table, docs, base)| == |docs|
    ensures RowsOf(table, docs, base)[i] == AllApplied(table, docs[i].elements, base)
  {
    RowsOfLength(table, docs, base);
    if i > 0 {
      RowsOfAt(table, docs[1..], base, i - 1);
    }
  }

  lemma {:induction false} RowsOfLength(table: Table, docs: seq<EntryDoc>, base: Row)
    ensures |RowsOf(table, docs, base)| == |docs|
  {
    if docs != [] {
      RowsOfLength(table, docs[1..], base);
    }
  }

  lemma FirstIsIndex(props: seq<string>, c: nat)
    requires c < |props| && Storable(props[c]) && props[c] !in props[..c]
    ensures props[c] + ">" in FirstIndexes(props) && FirstIndexes(props)[props[c] + ">"] == c
  {
    FirstIndexesMean(props, props[c]);
    var i := FirstIndexes(props)[props[c] + ">"];
    FirstIsOnly(props, c, i);
  }

  lemma FirstIsOnly(props: seq<string>, c: nat, i: nat)
    requires c < |props| && i < |props| && props[i] == props[c]
    requires props[c] !in props[..c] && props[c] !in props[..i]
    ensures i == c
  {
    assert forall k :: 0 <= k < c ==> props[k] in props[..c];
    assert forall k :: 0 <= k < i ==> props[k] in props[..i];
  }

  /** Of a document every entry gives a row, in order, and the column of each requested name has its cell. */
  lemma RowsHoldCells(t: Tree, props: seq<string>, g: Globals, docs: seq<EntryDoc>, i: nat, c: nat)
    requires Built(t, FirstIndexes(props)) && (forall n :: n in props ==> '/' !in n)
    requires i < |docs| && c < |props| && props[c] != "" && '>' !in props[c] && props[c] !in props[..c]
    ensures var rows := RowsOf(FirstIndexes(props), docs, Base(t, g, |props|));
      |rows| == |docs| && |rows[i]| == |props| && Cell(props, g, docs[i].elements, props[c], rows[i][c])
  {
    RowsOfAt(FirstIndexes(props), docs, Base(t, g, |props|), i);
    FirstIsIndex(props, c);
    DocumentRowMeans(t, props, g, docs[i], props[c] + ">");
    ValueIsCell(props, g, docs[i].elements, props[c]);
  }
}
