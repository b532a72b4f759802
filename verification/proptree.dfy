/**
 * The search tree for element names. A node is addressed by the bytes that lead to it from the root, so
 * that the link of a node for a byte is the node whose address is one byte longer.
 */
module PropTree {
  /** A node with a name is the only one below its address; an inner node leads on. */
  datatype Node = Inner | Leaf(name: string, index: nat)

  type Tree = map<string, Node>

  const ROOT: Tree := map["" := Inner]

  /** A name as it is stored: its end mark is its last byte and occurs nowhere else. */
  predicate Marked(name: string) {
    name != "" && name[|name| - 1] == '>' && '>' !in name[..|name| - 1]
  }

  /** Which names the tree holds, with their indexes. */
  type Table = map<string, nat>

  predicate NodeValid(t: Tree, table: Table, p: string) {
    p in t
    && (p != "" ==> p[..|p| - 1] in t && t[p[..|p| - 1]].Inner?)
    && match t[p]
       case Inner => p == "" || exists name :: name in table && p < name
       case Leaf(name, index) => p != "" && p <= name && name in table && table[name] == index
  }

  ghost predicate Valid(t: Tree, table: Table) {
    && "" in t && t[""].Inner?
    && (forall name :: name in table ==> Marked(name))
    && (forall p {:trigger NodeValid(t, table, p)} :: p in t ==> NodeValid(t, table, p))
    && (forall name :: name in table ==> exists p :: p in t && t[p] == Leaf(name, table[name]))
  }

  /** Follows the links for the bytes of a name from position k on; the bytes before led here. */
  function Search(t: Tree, name: string, k: nat): int
    requires k <= |name|
    decreases |name| - k
  {
    if k == |name| || name[..k + 1] !in t then -1
    else
      match t[name[..k + 1]]
      case Leaf(n, index) => if n == name then index else -1
      case Inner => Search(t, name, k + 1)
  }

  function IndexOf(t: Tree, name: string): int {
    if name == "" || name[|name| - 1] != '>' then -1 else Search(t, name, 0)
  }

  /** Every address on the way to a node is that of an inner node. */
  lemma {:induction false} PrefixesAreInner(t: Tree, table: Table, p: string, k: nat)
    requires Valid(t, table) && p in t && k < |p|
    ensures p[..k] in t && t[p[..k]].Inner?
    decreases |p|
  {
    assert NodeValid(t, table, p);
    var q := p[..|p| - 1];
    if k < |q| {
      PrefixesAreInner(t, table, q, k);
      assert q[..k] == p[..k];
    }
  }

  lemma {:induction false} SearchFinds(t: Tree, table: Table, name: string, p: string, k: nat)
    requires Valid(t, table) && name in table && p in t && t[p] == Leaf(name, table[name]) && k < |p| <= |name|
    ensures Search(t, name, k) == table[name]
    decreases |p| - k
  {
    assert NodeValid(t, table, p);
    assert p[..k + 1] == name[..k + 1] && p[..|p|] == p;
    if k + 1 < |p| {
      PrefixesAreInner(t, table, p, k + 1);
      SearchFinds(t, table, name, p, k + 1);
    }
  }

  lemma {:induction false} SearchMisses(t: Tree, table: Table, name: string, k: nat)
    requires Valid(t, table) && name !in table && k <= |name|
    ensures Search(t, name, k) == -1
    decreases |name| - k
  {
    if k < |name| && name[..k + 1] in t {
      assert NodeValid(t, table, name[..k + 1]);
      if t[name[..k + 1]].Inner? {
        SearchMisses(t, table, name, k + 1);
      }
    }
  }

  /** Looking up a name gives its index in the table, or -1. */
  lemma IndexOfIsTable(t: Tree, table: Table, name: string)
    requires Valid(t, table)
    ensures IndexOf(t, name) == if name in table then table[name] else -1
  {
    if name in table {
      assert Marked(name);
      var p :| p in t && t[p] == Leaf(name, table[name]);
      assert NodeValid(t, table, p);
      SearchFinds(t, table, name, p, 0);
    } else {
      SearchMisses(t, table, name, 0);
    }
  }

  /** No node's address is longer than what a marked name can lead to: an inner address has no end mark. */
  lemma InnerIsUnmarked(t: Tree, table: Table, p: string)
    requires Valid(t, table) && p in t && t[p].Inner?
    ensures '>' !in p
  {
    assert NodeValid(t, table, p);
    if p != "" {
      var name :| name in table && p < name;
      assert Marked(name);
      assert forall i :: 0 <= i < |p| ==> p[i] == name[..|name| - 1][i];
    }
  }

  lemma MarkedPrefix(a: string, b: string)
    requires Marked(a) && Marked(b) && a <= b
    ensures a == b
  {
    assert forall i :: 0 <= i < |b| - 1 ==> b[..|b| - 1][i] == b[i];
  }

  /** A name whose next link is missing is not in the tree yet. */
  lemma NotStored(t: Tree, table: Table, name: string, k: nat)
    requires Valid(t, table) && k < |name| && name[..k] in t && t[name[..k]].Inner? && name[..k + 1] !in t
    ensures name !in table
  {
    if name in table {
      var q :| q in t && t[q] == Leaf(name, table[name]);
      assert NodeValid(t, table, q);
      assert q == name[..|q|] && (k < |q| ==> q[..k + 1] == name[..k + 1]);
      assert |q| < k ==> name[..k][..|q|] == q;
      if k + 1 < |q| {
        PrefixesAreInner(t, table, q, k + 1);
      } else if |q| < k {
        PrefixesAreInner(t, table, name[..k], |q|);
      }
    }
  }

  /** A new leaf below an inner node. */
  lemma LeafAdded(t: Tree, table: Table, name: string, k: nat, index: nat)
    requires Valid(t, table) && Marked(name) && k < |name|
    requires name[..k] in t && t[name[..k]].Inner? && name[..k + 1] !in t
    ensures Valid(t[name[..k + 1] := Leaf(name, index)], table[name := index])
  {
    var p := name[..k + 1];
    var u, more := t[p := Leaf(name, index)], table[name := index];
    NotStored(t, table, name, k);
    assert p[..k] == name[..k];
    forall q | q in u
      ensures NodeValid(u, more, q)
    {
      if q != p {
        assert NodeValid(t, table, q);
        LeafLeaves(t, table, more, q, name);
      }
    }
    forall n | n in more
      ensures exists q :: q in u && u[q] == Leaf(n, more[n])
    {
      if n == name {
        assert u[p] == Leaf(name, more[name]);
      } else {
        var q :| q in t && t[q] == Leaf(n, table[n]);
        assert u[q] == t[q];
      }
    }
  }

  /** A longer table keeps what a node says. */
  lemma LeafLeaves(t: Tree, table: Table, more: Table, q: string, name: string)
    requires NodeValid(t, table, q) && name !in table && (forall n :: n in table ==> n in more && more[n] == table[n])
    ensures t[q].Inner? ==> q == "" || exists n :: n in more && q < n
    ensures t[q].Leaf? ==> t[q].name in more && more[t[q].name] == t[q].index
  {
    if t[q].Inner? && q != "" {
      var n :| n in table && q < n;
      assert n in more;
    }
  }

  /** A leaf in the way moves one byte further down. */
  lemma LeafMoved(t: Tree, table: Table, p: string)
    requires Valid(t, table) && p in t && t[p].Leaf? && p != t[p].name
    ensures var n := t[p].name;
      |p| < |n| && p == n[..|p|] && Valid(Moved(t, p, n[..|p| + 1]), table)
  {
    assert NodeValid(t, table, p);
    LongerPrefix(p, t[p].name);
    MovedValid(t, table, p, t[p].name[..|p| + 1]);
  }

  lemma LongerPrefix(p: string, n: string)
    requires p <= n && p != n
    ensures |p| < |n| && p == n[..|p|] && p <= n[..|p| + 1] <= n && n[..|p| + 1][..|p|] == p
  {
  }

  lemma MovedValid(t: Tree, table: Table, p: string, c: string)
    requires Valid(t, table) && p in t && t[p].Leaf? && p != "" && p < t[p].name && t[p].name in table
    requires |c| == |p| + 1 && p <= c <= t[p].name
    ensures Valid(Moved(t, p, c), table)
  {
    NothingBelow(t, table, p, c);
    MovedNodes(t, table, p, c);
    MovedNames(t, table, p, c);
  }

  lemma NothingBelow(t: Tree, table: Table, p: string, c: string)
    requires Valid(t, table) && p in t && t[p].Leaf? && p <= c && |c| == |p| + 1
    ensures c[..|p|] == p && c !in t
  {
    assert c[..|p|] == p;
    assert c in t ==> NodeValid(t, table, c);
  }

  function Moved(t: Tree, p: string, c: string): Tree
    requires p in t
  {
    t[c := t[p]][p := Inner]
  }

  lemma MovedNodes(t: Tree, table: Table, p: string, c: string)
    requires Valid(t, table) && p in t && t[p].Leaf? && p != "" && p < t[p].name && t[p].name in table
    requires |c| == |p| + 1 && c <= t[p].name && c[..|p|] == p && c !in t
    ensures forall q :: q in Moved(t, p, c) ==> NodeValid(Moved(t, p, c), table, q)
  {
    var u := Moved(t, p, c);
    assert NodeValid(t, table, p);
    forall q | q in u
      ensures NodeValid(u, table, q)
    {
      if q != p && q != c {
        assert NodeValid(t, table, q);
      }
    }
  }

  lemma MovedNames(t: Tree, table: Table, p: string, c: string)
    requires Valid(t, table) && p in t && t[p].Leaf? && p != c && c !in t
    ensures forall m :: m in table ==> exists q :: q in Moved(t, p, c) && Moved(t, p, c)[q] == Leaf(m, table[m])
  {
    var u := Moved(t, p, c);
    forall m | m in table
      ensures exists q :: q in u && u[q] == Leaf(m, table[m])
    {
      var q :| q in t && t[q] == Leaf(m, table[m]);
      if q == p {
        assert u[c] == t[p];
      } else {
        assert u[q] == t[q];
      }
    }
  }

  /** A name can be stored if it is not empty and has no end mark of its own. */
  predicate Storable(name: string) {
    name != "" && '>' !in name
  }

  /** Every storable name with its first position in the list. */
  function FirstIndexes(props: seq<string>): Table {
    if props == [] then map[]
    else
      var before, name := FirstIndexes(props[..|props| - 1]), props[|props| - 1];
      if !Storable(name) || name + ">" in before then before else before[name + ">" := |props| - 1]
  }

  lemma {:induction false} FirstIndexesMean(props: seq<string>, name: string)
    ensures name + ">" in FirstIndexes(props) <==> Storable(name) && name in props
    ensures name + ">" in FirstIndexes(props) ==>
      var i := FirstIndexes(props)[name + ">"];
      i < |props| && props[i] == name && name !in props[..i]
  {
    if props != [] {
      var before, last := props[..|props| - 1], props[|props| - 1];
      assert props == before + [last];
      FirstIndexesMean(before, name);
      if name + ">" in FirstIndexes(before) {
        var i := FirstIndexes(before)[name + ">"];
        assert before[..i] == props[..i];
      } else if last + ">" == name + ">" {
        assert (last + ">")[..|last|] == last && (name + ">")[..|name|] == name;
      }
    }
  }

  /** The walk that inserts a name stands at an inner node. */
  ghost predicate AtInner(t: Tree, table: Table, name: string, k: nat) {
    Valid(t, table) && Marked(name) && k < |name| && name[..k] in t && t[name[..k]].Inner?
  }

  lemma InnerGoesOn(t: Tree, table: Table, name: string, k: nat)
    requires Valid(t, table) && Marked(name) && k < |name| && name[..k + 1] in t && t[name[..k + 1]].Inner?
    ensures AtInner(t, table, name, k + 1)
  {
    assert name[..k + 1][k] == name[k];
    InnerIsUnmarked(t, table, name[..k + 1]);
  }

  // ----- the tree is no deeper than it has to be

  predicate TwoBelow(names: set<string>, p: string) {
    exists m, n :: m in names && n in names && m != n && p < m && p < n
  }

  /** Inner nodes other than the root are shared by names. */
  predicate Branching(t: Tree, names: set<string>) {
    forall p :: p in t && t[p].Inner? && p != "" ==> TwoBelow(names, p)
  }

  /** A tree as it is built for a table. */
  ghost predicate Built(t: Tree, table: Table) {
    Valid(t, table) && Branching(t, table.Keys)
  }

  lemma BranchingMore(t: Tree, names: set<string>, more: set<string>)
    requires Branching(t, names) && names <= more
    ensures Branching(t, more)
  {
    forall p | p in t && t[p].Inner? && p != ""
      ensures TwoBelow(more, p)
    {
      var m, n :| m in names && n in names && m != n && p < m && p < n;
      assert m in more && n in more;
    }
  }

  lemma BranchingMoved(t: Tree, names: set<string>, p: string, c: string, m: string, n: string)
    requires Branching(t, names) && p in t && t[p].Leaf? && m in names && n in names && m != n && p < m && p < n
    ensures Branching(Moved(t, p, c), names)
  {
    assert TwoBelow(names, p);
  }

  /** Another name in the table begins with the tag. */
  predicate Longer(table: Table, tag: string) {
    exists n :: n in table && n != tag + ">" && tag <= n
  }

  /** No two leaves lie on the way to one name. */
  lemma OneLeaf(t: Tree, table: Table, p: string, q: string, n: string)
    requires Valid(t, table) && p in t && q in t && t[p].Leaf? && t[q].Leaf? && p <= n && q <= n
    ensures p == q
  {
    assert p == n[..|p|] && q == n[..|q|];
    assert |p| < |q| ==> p == q[..|p|];
    assert |q| < |p| ==> q == p[..|q|];
    if |p| < |q| {
      PrefixesAreInner(t, table, q, |p|);
    } else if |q| < |p| {
      PrefixesAreInner(t, table, p, |q|);
    }
  }

  /** A tag that another name begins with is told apart by its end mark only. */
  lemma LongerIsDeep(t: Tree, table: Table, tag: string, p: string)
    requires Valid(t, table) && Longer(table, tag) && p in t && t[p].Leaf? && t[p].name == tag + ">"
    ensures !(p <= tag)
  {
    if p <= tag {
      var n :| n in table && n != tag + ">" && tag <= n;
      var q :| q in t && t[q] == Leaf(n, table[n]);
      assert NodeValid(t, table, q);
      OneLeaf(t, table, p, q, n);
    }
  }

  /** Any other tag is known before its end mark. */
  lemma OthersAreShort(t: Tree, table: Table, tag: string, p: string)
    requires Built(t, table) && !Longer(table, tag) && tag != "" && p in t && t[p].Leaf? && t[p].name == tag + ">"
    ensures p <= tag
  {
    assert NodeValid(t, table, p);
    PrefixOfMarked(tag, p);
    if !(p <= tag) {
      InnerIsLonger(t, table, tag);
    }
  }

  lemma PrefixOfMarked(tag: string, p: string)
    requires p <= tag + ">" && p != ""
    ensures p <= tag || p[..|p| - 1] == tag
  {
    assert |p| <= |tag| ==> p == (tag + ">")[..|p|] == tag[..|p|];
    assert |p| > |tag| ==> p == tag + ">";
  }

  lemma InnerIsLonger(t: Tree, table: Table, tag: string)
    requires Built(t, table) && tag != "" && tag in t && t[tag].Inner?
    ensures Longer(table, tag)
  {
    assert TwoBelow(table.Keys, tag);
    var m, n :| m in table && n in table && m != n && tag < m && tag < n;
    assert m != tag + ">" || n != tag + ">";
  }

  /** A leaf of another name at an address makes room for an inner node there. */
  method MakeRoom(t: Tree, name: string, k: nat, ghost table: Table) returns (u: Tree)
    requires AtInner(t, table, name, k) && name[..k + 1] in t && t[name[..k + 1]].Leaf?
    requires t[name[..k + 1]].name != name && Branching(t, table.Keys + {name})
    ensures AtInner(u, table, name, k + 1) && Branching(u, table.Keys + {name})
  {
    var p := name[..k + 1];
    var leaf := t[p];
    assert NodeValid(t, table, p);
    LeafIsProper(t, table, name, p);
    LeafMoved(t, table, p);
    u := Moved(t, p, leaf.name[..k + 2]);
    InnerGoesOn(u, table, name, k);
    BranchingMoved(t, table.Keys + {name}, p, leaf.name[..k + 2], leaf.name, name);
  }

  lemma LeafIsProper(t: Tree, table: Table, name: string, p: string)
    requires Valid(t, table) && Marked(name) && p <= name && p in t && t[p].Leaf? && t[p].name != name
    ensures p != t[p].name
  {
    assert NodeValid(t, table, p);
    assert Marked(t[p].name);
    if p == t[p].name {
      MarkedPrefix(p, name);
    }
  }

  /** Inserts a name with its index; a name that is there already keeps its index. */
  method Insert(t: Tree, name: string, index: nat, ghost table: Table) returns (u: Tree)
    requires Built(t, table) && Marked(name)
    ensures Built(u, if name in table then table else table[name := index])
  {
    u := t;
    var k := 0;
    BranchingMore(t, table.Keys, table.Keys + {name});
    assert name[..0] == "";
    while true
      invariant AtInner(u, table, name, k) && Branching(u, table.Keys + {name})
      decreases |name| - k
    {
      var p := name[..k + 1];
      if p !in u {
        NotStored(u, table, name, k);
        LeafAdded(u, table, name, k, index);
        assert table[name := index].Keys == table.Keys + {name};
        u := u[p := Leaf(name, index)];
        return;
      }
      if u[p].Leaf? {
        assert NodeValid(u, table, p);
        if u[p].name == name {
          assert table.Keys + {name} == table.Keys;
          return;
        }
        u := MakeRoom(u, name, k, table);
      } else {
        InnerGoesOn(u, table, name, k);
      }
      k := k + 1;
    }
  }

  /** Builds the search tree; every lookup gives the first index of a storable name, or -1. */
  method MakePropTree(props: seq<string>) returns (t: Tree)
    ensures Built(t, FirstIndexes(props))
  {
    t := ROOT;
    for p := 0 to |props|
      invariant Built(t, FirstIndexes(props[..p]))
    {
      assert props[..p + 1][..p] == props[..p];
      var name := props[p];
      if name != "" && '>' !in name {
        assert (name + ">")[..|name|] == name;
        t := Insert(t, name + ">", p, FirstIndexes(props[..p]));
      }
    }
    assert props[..|props|] == props;
  }

  /** What a tree made from a list finds: the first position of a storable name. */
  lemma TreeFindsFirst(t: Tree, props: seq<string>, name: string)
    requires Valid(t, FirstIndexes(props))
    ensures var i := IndexOf(t, name + ">");
      if Storable(name) && name in props then 0 <= i < |props| && props[i] == name && name !in props[..i] else i == -1
  {
    IndexOfIsTable(t, FirstIndexes(props), name + ">");
    FirstIndexesMean(props, name);
  }

  /** The lookup loop; it leaves the tree before it runs out of bytes. */
  method LookUp(t: Tree, name: string, ghost table: Table) returns (index: int)
    requires Valid(t, table)
    ensures index == IndexOf(t, name)
  {
    if name == "" || name[|name| - 1] != '>' {
      return -1;
    }
    var k := 0;
    while true
      invariant k < |name| && Search(t, name, k) == Search(t, name, 0)
      decreases |name| - k
    {
      if name[..k + 1] !in t {
        return -1;
      }
      if t[name[..k + 1]].Leaf? {
        return if t[name[..k + 1]].name == name then t[name[..k + 1]].index else -1;
      }
      assert name[..k + 1][k] == name[k];
      InnerIsUnmarked(t, table, name[..k + 1]);
      k := k + 1;
    }
  }
}
