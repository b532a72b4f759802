/** Merging sorted package lists: matching lines unite their repositories and keep the better templates. */
module Merging {
  import opened Common
  import opened Bits
  import opened PathOrder

  /** A line of a package list. */
  datatype Item = Item(pkg: Package, bitmap: nat, description: string, templates: string)

  /** What lines are matched by. */
  datatype Key = Key(dir: string, stem: string, arch: Arch, section: string)

  function KeyOf(o: Options, p: Package): Key {
    Key(p.dir, p.stem, Counted(o, p.arch, Kernel(o, p)), p.section)
  }

  /** Templates not scanned, expected, absent, or present. */
  function Level(templates: string): nat {
    if templates == "?" then 0
    else if |templates| == 1 then 1
    else if templates == "" then 2
    else 3
  }

  function Preferred(t: string, u: string): string {
    var t1 := if t == "?" then u else t;
    var t2 := if |t1| == 1 && |u| == 0 then u else t1;
    if |t2| < 2 && |u| > 2 then u else t2
  }

  /** Neither "?", "D", "" nor base64 text has length 2. */
  predicate Proper(templates: string) {
    |templates| != 2
  }

  lemma PreferredIsHigher(t: string, u: string)
    requires Proper(t) && Proper(u)
    ensures Level(Preferred(t, u)) == (if Level(t) < Level(u) then Level(u) else Level(t))
    ensures Preferred(t, u) == (if Level(t) < Level(u) then u else t)
  {
  }

  function Matched(o: Options, x: Item, y: Item, mask: nat): Item {
    Item(if o.merge && x.pkg.arch == I386 then y.pkg else x.pkg,
         Or(x.bitmap, And(y.bitmap, mask)), x.description, Preferred(x.templates, y.templates))
  }

  /** A line of the second list that has no match. */
  function Contributed(y: Item, only: bool, mask: nat): seq<Item> {
    if only || And(y.bitmap, mask) == 0 then [] else [y.(bitmap := And(y.bitmap, mask))]
  }

  function Merge(o: Options, a: seq<Item>, b: seq<Item>, only: bool, mask: nat): seq<Item>
    decreases |a| + |b|
  {
    if a == [] && b == [] then []
    else if b == [] then a
    else if a == [] then Contributed(b[0], only, mask) + Merge(o, a, b[1..], only, mask)
    else
      match Order(o, a[0].pkg, b[0].pkg)
      case Less => [a[0]] + Merge(o, a[1..], b, only, mask)
      case Greater => Contributed(b[0], only, mask) + Merge(o, a, b[1..], only, mask)
      case _ => [Matched(o, a[0], b[0], mask)] + Merge(o, a[1..], b[1..], only, mask)
  }

  predicate Regular(s: seq<Item>) {
    forall x :: x in s ==> WellFormed(x.pkg)
  }

  /** Sorted, and no two lines have the same key. */
  predicate Ascending(o: Options, s: seq<Item>) {
    forall i, j :: 0 <= i < j < |s| ==> Order(o, s[i].pkg, s[j].pkg) == Less
  }

  function Lookup(o: Options, s: seq<Item>, k: Key): Option<Item> {
    if s == [] then None
    else if KeyOf(o, s[0].pkg) == k then Some(s[0])
    else Lookup(o, s[1..], k)
  }

  /** What the merged list holds for a key. */
  function Combined(o: Options, x: Option<Item>, y: Option<Item>, only: bool, mask: nat): Option<Item> {
    match (x, y)
    case (Some(v), Some(w)) => Some(Matched(o, v, w, mask))
    case (Some(v), None) => Some(v)
    case (None, Some(w)) =>
      if only || And(w.bitmap, mask) == 0 then None else Some(w.(bitmap := And(w.bitmap, mask)))
    case (None, None) => None
  }

  lemma KeysDecide(o: Options, p: Package, q: Package)
    requires WellFormed(p) && WellFormed(q)
    ensures Order(o, p, q) == Equal <==> KeyOf(o, p) == KeyOf(o, q)
    ensures Order(o, q, p) == Order(o, p, q).Flip()
    ensures Order(o, p, q) != Panic
  {
    OrderIsTotalPreorder(o, p, q, p);
  }

  lemma {:induction false} LookupBelow(o: Options, s: seq<Item>, p: Package)
    requires Regular(s) && WellFormed(p)
    requires forall i :: 0 <= i < |s| ==> Order(o, p, s[i].pkg) == Less
    ensures Lookup(o, s, KeyOf(o, p)) == None
  {
    if s != [] {
      KeysDecide(o, p, s[0].pkg);
      LookupBelow(o, s[1..], p);
    }
  }

  lemma AscendingTail(o: Options, s: seq<Item>)
    requires s != [] && Regular(s) && Ascending(o, s)
    ensures Regular(s[1..]) && Ascending(o, s[1..])
    ensures Lookup(o, s[1..], KeyOf(o, s[0].pkg)) == None
  {
    LookupBelow(o, s[1..], s[0].pkg);
  }

  /** Everything in an ascending list that starts above p is above p. */
  lemma AllAbove(o: Options, p: Package, s: seq<Item>)
    requires s != [] && Ascending(o, s) && Order(o, p, s[0].pkg) == Less
    ensures forall i :: 0 <= i < |s| ==> Order(o, p, s[i].pkg) == Less
  {
    forall i | 0 <= i < |s|
      ensures Order(o, p, s[i].pkg) == Less
    {
      if i > 0 {
        OrderChains(o, p, s[0].pkg, s[i].pkg);
      }
    }
  }

  lemma LookupConcat(o: Options, x: seq<Item>, s: seq<Item>, k: Key)
    requires |x| <= 1
    ensures Lookup(o, x + s, k) == if |x| == 1 && KeyOf(o, x[0].pkg) == k then Some(x[0]) else Lookup(o, s, k)
  {
    if |x| == 1 {
      assert (x + s)[1..] == s;
    } else {
      assert x + s == s;
    }
  }

  lemma {:induction false} LookupMissing(o: Options, a: seq<Item>, p: Package)
    requires Regular(a) && WellFormed(p)
    requires a == [] || (Ascending(o, a) && Order(o, p, a[0].pkg) == Less)
    ensures Lookup(o, a, KeyOf(o, p)) == None
  {
    if a != [] {
      AllAbove(o, p, a);
      LookupBelow(o, a, p);
    }
  }

  lemma MatchedKey(o: Options, x: Item, y: Item, mask: nat)
    requires WellFormed(x.pkg) && WellFormed(y.pkg) && Order(o, x.pkg, y.pkg) == Equal
    ensures KeyOf(o, Matched(o, x, y, mask).pkg) == KeyOf(o, x.pkg) == KeyOf(o, y.pkg)
  {
    KeysDecide(o, x.pkg, y.pkg);
  }

  /** For every key, merging combines what the two lists hold for it. */
  lemma {:induction false} MergeCombines(o: Options, a: seq<Item>, b: seq<Item>, only: bool, mask: nat, k: Key)
    requires Regular(a) && Regular(b) && Ascending(o, a) && Ascending(o, b)
    ensures Lookup(o, Merge(o, a, b, only, mask), k) == Combined(o, Lookup(o, a, k), Lookup(o, b, k), only, mask)
    decreases |a| + |b|
  {
    if b == [] {
    } else if a == [] {
      AscendingTail(o, b);
      MergeCombines(o, a, b[1..], only, mask, k);
      LookupConcat(o, Contributed(b[0], only, mask), Merge(o, a, b[1..], only, mask), k);
    } else {
      KeysDecide(o, a[0].pkg, b[0].pkg);
      AscendingTail(o, a);
      AscendingTail(o, b);
      if Order(o, a[0].pkg, b[0].pkg) == Less {
        CombinesLess(o, a, b, only, mask, k);
      } else if Order(o, a[0].pkg, b[0].pkg) == Greater {
        CombinesGreater(o, a, b, only, mask, k);
      } else {
        CombinesEqual(o, a, b, only, mask, k);
      }
    }
  }

  lemma CombinesLess(o: Options, a: seq<Item>, b: seq<Item>, only: bool, mask: nat, k: Key)
    requires a != [] && b != [] && Regular(a) && Regular(b) && Ascending(o, a) && Ascending(o, b)
    requires Order(o, a[0].pkg, b[0].pkg) == Less
    ensures Lookup(o, Merge(o, a, b, only, mask), k) == Combined(o, Lookup(o, a, k), Lookup(o, b, k), only, mask)
    decreases |a| + |b|, 0
  {
    LookupMissing(o, b, a[0].pkg);
    AscendingTail(o, a);
    MergeCombines(o, a[1..], b, only, mask, k);
    LookupConcat(o, [a[0]], Merge(o, a[1..], b, only, mask), k);
  }

  lemma CombinesGreater(o: Options, a: seq<Item>, b: seq<Item>, only: bool, mask: nat, k: Key)
    requires a != [] && b != [] && Regular(a) && Regular(b) && Ascending(o, a) && Ascending(o, b)
    requires Order(o, a[0].pkg, b[0].pkg) == Greater
    ensures Lookup(o, Merge(o, a, b, only, mask), k) == Combined(o, Lookup(o, a, k), Lookup(o, b, k), only, mask)
    decreases |a| + |b|, 0
  {
    KeysDecide(o, a[0].pkg, b[0].pkg);
    LookupMissing(o, a, b[0].pkg);
    AscendingTail(o, b);
    MergeCombines(o, a, b[1..], only, mask, k);
    LookupConcat(o, Contributed(b[0], only, mask), Merge(o, a, b[1..], only, mask), k);
  }

  lemma CombinesEqual(o: Options, a: seq<Item>, b: seq<Item>, only: bool, mask: nat, k: Key)
    requires a != [] && b != [] && Regular(a) && Regular(b) && Ascending(o, a) && Ascending(o, b)
    requires Order(o, a[0].pkg, b[0].pkg) == Equal
    ensures Lookup(o, Merge(o, a, b, only, mask), k) == Combined(o, Lookup(o, a, k), Lookup(o, b, k), only, mask)
    decreases |a| + |b|, 0
  {
    AscendingTail(o, a);
    AscendingTail(o, b);
    MergeCombines(o, a[1..], b[1..], only, mask, k);
    MatchedKey(o, a[0], b[0], mask);
    LookupConcat(o, [Matched(o, a[0], b[0], mask)], Merge(o, a[1..], b[1..], only, mask), k);
  }

  /** p comes before every line of s. */
  predicate Below(o: Options, p: Package, s: seq<Item>) {
    forall i :: 0 <= i < |s| ==> Order(o, p, s[i].pkg) == Less
  }

  lemma BelowConcat(o: Options, p: Package, x: seq<Item>, s: seq<Item>)
    requires Below(o, p, x) && Below(o, p, s)
    ensures Below(o, p, x + s)
  {
  }

  lemma {:induction false} MergeBelow(o: Options, p: Package, a: seq<Item>, b: seq<Item>, only: bool, mask: nat)
    requires Below(o, p, a) && Below(o, p, b)
    ensures Below(o, p, Merge(o, a, b, only, mask))
    decreases |a| + |b|
  {
    if b == [] {
    } else if a == [] || Order(o, a[0].pkg, b[0].pkg) == Greater {
      MergeBelow(o, p, a, b[1..], only, mask);
      BelowConcat(o, p, Contributed(b[0], only, mask), Merge(o, a, b[1..], only, mask));
    } else if Order(o, a[0].pkg, b[0].pkg) == Less {
      MergeBelow(o, p, a[1..], b, only, mask);
      BelowConcat(o, p, [a[0]], Merge(o, a[1..], b, only, mask));
    } else {
      MergeBelow(o, p, a[1..], b[1..], only, mask);
      BelowConcat(o, p, [Matched(o, a[0], b[0], mask)], Merge(o, a[1..], b[1..], only, mask));
    }
  }

  lemma AscendingConcat(o: Options, x: seq<Item>, s: seq<Item>)
    requires |x| <= 1 && Ascending(o, s) && (|x| == 1 ==> Below(o, x[0].pkg, s))
    ensures Ascending(o, x + s)
  {
  }

  lemma BelowTail(o: Options, s: seq<Item>)
    requires s != [] && Ascending(o, s)
    ensures Below(o, s[0].pkg, s[1..]) && Ascending(o, s[1..])
  {
  }

  /** Lines that tie have the same lines above them. */
  lemma BelowTied(o: Options, p: Package, q: Package, s: seq<Item>)
    requires Order(o, p, q) == Equal && Below(o, q, s)
    ensures Below(o, p, s)
  {
    forall i | 0 <= i < |s|
      ensures Order(o, p, s[i].pkg) == Less
    {
      OrderChains(o, p, q, s[i].pkg);
    }
  }

  lemma RegularConcat(x: seq<Item>, s: seq<Item>)
    requires Regular(x) && Regular(s)
    ensures Regular(x + s)
  {
  }

  /** The merged list is sorted with distinct keys again. */
  lemma {:induction false} MergeAscends(o: Options, a: seq<Item>, b: seq<Item>, only: bool, mask: nat)
    requires Regular(a) && Regular(b) && Ascending(o, a) && Ascending(o, b)
    ensures Regular(Merge(o, a, b, only, mask)) && Ascending(o, Merge(o, a, b, only, mask))
    decreases |a| + |b|
  {
    if b == [] {
    } else if a == [] {
      BelowTail(o, b);
      AscendsContributed(o, a, b, only, mask);
    } else {
      KeysDecide(o, a[0].pkg, b[0].pkg);
      if Order(o, a[0].pkg, b[0].pkg) == Less {
        AscendsLess(o, a, b, only, mask);
      } else if Order(o, a[0].pkg, b[0].pkg) == Greater {
        AllAbove(o, b[0].pkg, a);
        AscendsContributed(o, a, b, only, mask);
      } else {
        AscendsEqual(o, a, b, only, mask);
      }
    }
  }

  lemma AscendsLess(o: Options, a: seq<Item>, b: seq<Item>, only: bool, mask: nat)
    requires a != [] && b != [] && Regular(a) && Regular(b) && Ascending(o, a) && Ascending(o, b)
    requires Order(o, a[0].pkg, b[0].pkg) == Less
    ensures Regular(Merge(o, a, b, only, mask)) && Ascending(o, Merge(o, a, b, only, mask))
    decreases |a| + |b|, 0
  {
    BelowTail(o, a);
    AllAbove(o, a[0].pkg, b);
    MergeAscends(o, a[1..], b, only, mask);
    MergeBelow(o, a[0].pkg, a[1..], b, only, mask);
    AscendingConcat(o, [a[0]], Merge(o, a[1..], b, only, mask));
  }

  lemma AscendsContributed(o: Options, a: seq<Item>, b: seq<Item>, only: bool, mask: nat)
    requires b != [] && Regular(a) && Regular(b) && Ascending(o, a) && Ascending(o, b)
    requires a == [] || (Order(o, a[0].pkg, b[0].pkg) == Greater && Below(o, b[0].pkg, a))
    ensures Regular(Merge(o, a, b, only, mask)) && Ascending(o, Merge(o, a, b, only, mask))
    decreases |a| + |b|, 0
  {
    BelowTail(o, b);
    MergeAscends(o, a, b[1..], only, mask);
    MergeBelow(o, b[0].pkg, a, b[1..], only, mask);
    AscendingConcat(o, Contributed(b[0], only, mask), Merge(o, a, b[1..], only, mask));
    RegularConcat(Contributed(b[0], only, mask), Merge(o, a, b[1..], only, mask));
  }

  lemma AscendsEqual(o: Options, a: seq<Item>, b: seq<Item>, only: bool, mask: nat)
    requires a != [] && b != [] && Regular(a) && Regular(b) && Ascending(o, a) && Ascending(o, b)
    requires Order(o, a[0].pkg, b[0].pkg) == Equal
    ensures Regular(Merge(o, a, b, only, mask)) && Ascending(o, Merge(o, a, b, only, mask))
    decreases |a| + |b|, 0
  {
    var x, rest := Matched(o, a[0], b[0], mask), Merge(o, a[1..], b[1..], only, mask);
    BelowTail(o, a);
    BelowTail(o, b);
    KeysDecide(o, a[0].pkg, b[0].pkg);
    BelowTied(o, a[0].pkg, b[0].pkg, b[1..]);
    BelowTied(o, b[0].pkg, a[0].pkg, a[1..]);
    MergeAscends(o, a[1..], b[1..], only, mask);
    MergeBelow(o, x.pkg, a[1..], b[1..], only, mask);
    AscendingConcat(o, [x], rest);
    RegularConcat([x], rest);
  }

  /** The lines of all lists, merged one list after the other as the package lists come in. */
  function MergeAll(o: Options, lists: seq<seq<Item>>): seq<Item> {
    if lists == [] then []
    else Merge(o, MergeAll(o, lists[..|lists| - 1]), lists[|lists| - 1], false, WORD - 1)
  }

  /** A sorted list with distinct keys whose lines belong to a repository and have proper templates. */
  predicate Mergeable(o: Options, s: seq<Item>) {
    && Regular(s) && Ascending(o, s)
    && forall x :: x in s ==> 0 < x.bitmap < WORD && Proper(x.templates)
  }

  predicate HasBit(o: Options, s: seq<Item>, k: Key, i: nat) {
    Lookup(o, s, k).Some? && Bit(Lookup(o, s, k).value.bitmap, i)
  }

  /** Whether the list has the key with templates of at least the given level. */
  predicate HasLevel(o: Options, s: seq<Item>, k: Key, level: nat) {
    Lookup(o, s, k).Some? && level <= Level(Lookup(o, s, k).value.templates)
  }

  lemma {:induction false} LookupMember(o: Options, s: seq<Item>, k: Key)
    requires Lookup(o, s, k).Some?
    ensures Lookup(o, s, k).value in s
  {
    if KeyOf(o, s[0].pkg) != k {
      LookupMember(o, s[1..], k);
    }
  }

  lemma MaskAll(bitmap: nat)
    requires bitmap < WORD
    ensures And(bitmap, WORD - 1) == bitmap
  {
    Pow2Word();
    AndOnes(bitmap, 64);
  }

  /** What is true of the lines of a merged list. */
  predicate Sane(s: Option<Item>) {
    s.Some? ==> 0 < s.value.bitmap < WORD && Proper(s.value.templates)
  }

  lemma CombinedIsSane(o: Options, x: Option<Item>, y: Option<Item>)
    requires Sane(x) && Sane(y)
    ensures Sane(Combined(o, x, y, false, WORD - 1))
    ensures Combined(o, x, y, false, WORD - 1).Some? <==> x.Some? || y.Some?
  {
    if y.Some? {
      MaskAll(y.value.bitmap);
      if x.Some? {
        Pow2Word();
        OrBounded(x.value.bitmap, y.value.bitmap, 64);
        OrAtLeast(x.value.bitmap, y.value.bitmap);
        PreferredIsHigher(x.value.templates, y.value.templates);
      }
    }
  }

  lemma {:induction false} OrAtLeast(a: nat, b: nat)
    ensures Or(a, b) >= a
    decreases a
  {
    if a != 0 && b != 0 {
      OrAtLeast(a / 2, b / 2);
    }
  }

  lemma CombinedBits(o: Options, x: Option<Item>, y: Option<Item>, i: nat)
    requires Sane(x) && Sane(y) && (x.Some? || y.Some?)
    ensures Combined(o, x, y, false, WORD - 1).Some?
    ensures Bit(Combined(o, x, y, false, WORD - 1).value.bitmap, i) <==>
      (x.Some? && Bit(x.value.bitmap, i)) || (y.Some? && Bit(y.value.bitmap, i))
  {
    CombinedIsSane(o, x, y);
    if y.Some? {
      MaskAll(y.value.bitmap);
      if x.Some? {
        BitOr(x.value.bitmap, y.value.bitmap, i);
      }
    }
  }

  lemma CombinedLevel(o: Options, x: Option<Item>, y: Option<Item>, level: nat)
    requires Sane(x) && Sane(y) && (x.Some? || y.Some?)
    ensures Combined(o, x, y, false, WORD - 1).Some?
    ensures level <= Level(Combined(o, x, y, false, WORD - 1).value.templates) <==>
      (x.Some? && level <= Level(x.value.templates)) || (y.Some? && level <= Level(y.value.templates))
  {
    CombinedIsSane(o, x, y);
    if x.Some? && y.Some? {
      PreferredIsHigher(x.value.templates, y.value.templates);
    }
  }

  function Later(o: Options, lists: seq<seq<Item>>, k: Key): Option<Item>
    requires lists != []
  {
    Combined(o, Lookup(o, MergeAll(o, lists[..|lists| - 1]), k), Lookup(o, lists[|lists| - 1], k), false, WORD - 1)
  }

  lemma {:induction false} MergeAllIsSane(o: Options, lists: seq<seq<Item>>, k: Key)
    requires forall s :: s in lists ==> Mergeable(o, s)
    ensures Regular(MergeAll(o, lists)) && Ascending(o, MergeAll(o, lists))
    ensures Sane(Lookup(o, MergeAll(o, lists), k))
    ensures lists != [] ==> Sane(Lookup(o, lists[|lists| - 1], k))
    ensures lists != [] ==> Lookup(o, MergeAll(o, lists), k) == Later(o, lists, k)
  {
    if lists != [] {
      var before, last := lists[..|lists| - 1], lists[|lists| - 1];
      assert last in lists;
      MergeAllIsSane(o, before, k);
      MergeAscends(o, MergeAll(o, before), last, false, WORD - 1);
      MergeCombines(o, MergeAll(o, before), last, false, WORD - 1, k);
      if Lookup(o, last, k).Some? {
        LookupMember(o, last, k);
      }
      CombinedIsSane(o, Lookup(o, MergeAll(o, before), k), Lookup(o, last, k));
    }
  }

  /** A repository is in the merged line of a key if and only if some list has it there. */
  lemma {:induction false} MergedBits(o: Options, lists: seq<seq<Item>>, k: Key, i: nat)
    requires forall s :: s in lists ==> Mergeable(o, s)
    ensures HasBit(o, MergeAll(o, lists), k, i) <==> exists s :: s in lists && HasBit(o, s, k, i)
  {
    if lists != [] {
      var before, last := lists[..|lists| - 1], lists[|lists| - 1];
      assert lists == before + [last];
      MergedBits(o, before, k, i);
      MergeAllIsSane(o, lists, k);
      MergeAllIsSane(o, before, k);
      if Lookup(o, MergeAll(o, before), k).Some? || Lookup(o, last, k).Some? {
        CombinedBits(o, Lookup(o, MergeAll(o, before), k), Lookup(o, last, k), i);
      }
      assert HasBit(o, MergeAll(o, lists), k, i) <==> HasBit(o, MergeAll(o, before), k, i) || HasBit(o, last, k, i);
    }
  }

  /** The templates of the merged line are the best that any list has for its key. */
  lemma {:induction false} MergedLevel(o: Options, lists: seq<seq<Item>>, k: Key, level: nat)
    requires forall s :: s in lists ==> Mergeable(o, s)
    ensures HasLevel(o, MergeAll(o, lists), k, level) <==> exists s :: s in lists && HasLevel(o, s, k, level)
  {
    if lists != [] {
      var before, last := lists[..|lists| - 1], lists[|lists| - 1];
      assert lists == before + [last];
      MergedLevel(o, before, k, level);
      MergeAllIsSane(o, lists, k);
      MergeAllIsSane(o, before, k);
      if Lookup(o, MergeAll(o, before), k).Some? || Lookup(o, last, k).Some? {
        CombinedLevel(o, Lookup(o, MergeAll(o, before), k), Lookup(o, last, k), level);
      }
      assert HasLevel(o, MergeAll(o, lists), k, level) <==>
        HasLevel(o, MergeAll(o, before), k, level) || HasLevel(o, last, k, level);
    }
  }

  /** Bitmaps and template levels do not depend on the order in which the lists come in. */
  lemma MergeOrderIrrelevant(o: Options, lists: seq<seq<Item>>, others: seq<seq<Item>>, k: Key)
    requires forall s :: s in lists ==> Mergeable(o, s)
    requires forall s :: s in lists <==> s in others
    ensures var x, y := Lookup(o, MergeAll(o, lists), k), Lookup(o, MergeAll(o, others), k);
      && (x.Some? <==> y.Some?)
      && (x.Some? ==> x.value.bitmap == y.value.bitmap && Level(x.value.templates) == Level(y.value.templates))
  {
    var x, y := Lookup(o, MergeAll(o, lists), k), Lookup(o, MergeAll(o, others), k);
    forall level: nat
      ensures HasLevel(o, MergeAll(o, lists), k, level) <==> HasLevel(o, MergeAll(o, others), k, level)
    {
      MergedLevel(o, lists, k, level);
      MergedLevel(o, others, k, level);
    }
    assert x.Some? ==> HasLevel(o, MergeAll(o, lists), k, Level(x.value.templates));
    assert y.Some? ==> HasLevel(o, MergeAll(o, others), k, Level(y.value.templates));
    if x.Some? {
      forall i: nat
        ensures Bit(x.value.bitmap, i) == Bit(y.value.bitmap, i)
      {
        MergedBits(o, lists, k, i);
        MergedBits(o, others, k, i);
        assert HasBit(o, MergeAll(o, lists), k, i) <==> Bit(x.value.bitmap, i);
        assert HasBit(o, MergeAll(o, others), k, i) <==> Bit(y.value.bitmap, i);
      }
      SameBits(x.value.bitmap, y.value.bitmap);
    }
  }
}
