/** Inheritance of FAI classes along a release's ancestors, for seven types at once in the bits of one word. */
module FaiClasses {
  import opened Common
  import opened Bits
  import ByteSearch

  /** A FAI object: its class, release, type (unless its object class is unknown), state and unit tag. */
  datatype Entry = Entry(cn: string, release: string, kind: Option<nat>, state: string, tag: string)

  /** Bits 0 to 6: explicit, 8 to 14: removed, 16 to 22: frozen. */
  datatype Info = Info(types: nat, tag: string)

  const TYPES := 7

  predicate Explicit(types: nat, i: nat) {
    Bit(types, i)
  }

  predicate Removed(types: nat, i: nat) {
    Bit(types, i + 8)
  }

  predicate Frozen(types: nat, i: nat) {
    Bit(types, i + 16)
  }

  /** The bits of one object: a removal moves its type up by 8, a freeze is recorded 16 above. */
  function TypeBits(kind: Option<nat>, remove: bool, freeze: bool): nat {
    var typ := if kind.Some? && kind.value < TYPES then Pow2(kind.value) else 0;
    var moved := if remove then ShiftLeft(typ, 8) else typ;
    if freeze then Or(moved, ShiftLeft(moved, 16)) else moved
  }

  /** What a release adds to what its parent has. */
  function Inherit(types: nat, t: nat): nat {
    var removed := And(ShiftRight(t, 8), 0x7f);
    var kept := AndNot(types, Or(removed, ShiftLeft(removed, 16)));
    var thawed := AndNot(kept, ShiftLeft(And(t, 0x7f), 16));
    Or(thawed, t)
  }

  lemma {:induction false} BitOfPow2(k: nat, i: nat)
    ensures Bit(Pow2(k), i) <==> i == k
  {
    if i == 0 {
    } else if k == 0 {
      BitZero(i - 1);
    } else {
      BitOfPow2(k - 1, i - 1);
    }
  }

  lemma TypeBitsMean(kind: Option<nat>, remove: bool, freeze: bool, i: nat)
    requires i < TYPES
    ensures var t := TypeBits(kind, remove, freeze);
      && (Explicit(t, i) <==> kind == Some(i) && !remove)
      && (Removed(t, i) <==> kind == Some(i) && remove)
      && (Frozen(t, i) <==> kind == Some(i) && !remove && freeze)
  {
    forall j: nat
      ensures Bit(TypeBits(kind, remove, freeze), j) <==> TypeBit(kind, remove, freeze, j)
    {
      TypeBitIs(kind, remove, freeze, j);
    }
  }

  /** Bit j of the bits of one object. */
  predicate TypeBit(kind: Option<nat>, remove: bool, freeze: bool, j: nat) {
    kind.Some? && kind.value < TYPES &&
    var at := if remove then kind.value + 8 else kind.value;
    j == at || (freeze && j == at + 16)
  }

  /** Bit j of the bits of one object before freezing. */
  lemma MovedBitIs(kind: nat, remove: bool, j: nat)
    ensures Bit(if remove then ShiftLeft(Pow2(kind), 8) else Pow2(kind), j) <==>
      j == if remove then kind + 8 else kind
  {
    BitOfPow2(kind, j);
    BitLeft(Pow2(kind), 8, j);
    if j >= 8 {
      BitOfPow2(kind, j - 8);
    }
  }

  lemma TypeBitIs(kind: Option<nat>, remove: bool, freeze: bool, j: nat)
    ensures Bit(TypeBits(kind, remove, freeze), j) <==> TypeBit(kind, remove, freeze, j)
  {
    var typ := if kind.Some? && kind.value < TYPES then Pow2(kind.value) else 0;
    var moved := if remove then ShiftLeft(typ, 8) else typ;
    BitLeft(moved, 16, j);
    BitOr(moved, ShiftLeft(moved, 16), j);
    if kind.Some? && kind.value < TYPES {
      MovedBitIs(kind.value, remove, j);
      if j >= 16 {
        MovedBitIs(kind.value, remove, j - 16);
      }
    } else {
      NothingMoves(remove, j);
      if j >= 16 {
        NothingMoves(remove, j - 16);
      }
    }
  }

  lemma NothingMoves(remove: bool, j: nat)
    ensures !Bit(if remove then ShiftLeft(0, 8) else 0, j)
  {
    BitZero(j);
    BitLeft(0, 8, j);
    if j >= 8 {
      BitZero(j - 8);
    }
  }

  lemma SevenBits(j: nat)
    ensures Bit(0x7f, j) <==> j < TYPES
  {
    BitOnes(7, j);
    assert Pow2(7) == 0x80;
  }

  /** Bit j after inheriting. */
  predicate InheritedBit(types: nat, t: nat, j: nat) {
    || Bit(t, j)
    || (&& Bit(types, j)
        && !(j < TYPES && Bit(t, j + 8))
        && !(16 <= j < 16 + TYPES && (Bit(t, j - 8) || Bit(t, j - 16))))
  }

  lemma RemovedBit(t: nat, j: nat)
    ensures Bit(And(ShiftRight(t, 8), 0x7f), j) <==> j < TYPES && Bit(t, j + 8)
  {
    BitAnd(ShiftRight(t, 8), 0x7f, j);
    BitRight(t, 8, j);
    SevenBits(j);
  }

  /** Bit j of a 7-bit word that has been moved up by 16. */
  lemma HighBit(low: nat, j: nat)
    ensures Bit(ShiftLeft(low, 16), j) <==> j >= 16 && Bit(low, j - 16)
  {
    BitLeft(low, 16, j);
  }

  /** A removal of a type clears its instance and its freeze. */
  lemma MaskBit(t: nat, removed: nat, j: nat)
    requires removed == And(ShiftRight(t, 8), 0x7f)
    ensures Bit(Or(removed, ShiftLeft(removed, 16)), j) <==>
      (j < TYPES && Bit(t, j + 8)) || (16 <= j < 16 + TYPES && Bit(t, j - 8))
  {
    BitOr(removed, ShiftLeft(removed, 16), j);
    HighBit(removed, j);
    RemovedBit(t, j);
    if j >= 16 {
      RemovedBit(t, j - 16);
    }
  }

  /** A new instance clears a freeze. */
  lemma ThawBit(t: nat, j: nat)
    ensures Bit(ShiftLeft(And(t, 0x7f), 16), j) <==> 16 <= j < 16 + TYPES && Bit(t, j - 16)
  {
    HighBit(And(t, 0x7f), j);
    if j >= 16 {
      BitAnd(t, 0x7f, j - 16);
      SevenBits(j - 16);
    }
  }

  lemma InheritBit(types: nat, t: nat, j: nat)
    ensures Bit(Inherit(types, t), j) <==> InheritedBit(types, t, j)
  {
    var removed := And(ShiftRight(t, 8), 0x7f);
    var mask, thaw := Or(removed, ShiftLeft(removed, 16)), ShiftLeft(And(t, 0x7f), 16);
    var kept := AndNot(types, mask);
    MaskBit(t, removed, j);
    ThawBit(t, j);
    BitAndNot(types, mask, j);
    BitAndNot(kept, thaw, j);
    BitOr(AndNot(kept, thaw), t, j);
  }

  lemma InheritMeans(types: nat, t: nat, i: nat)
    requires i < TYPES
    ensures Explicit(Inherit(types, t), i) <==> Explicit(t, i) || (Explicit(types, i) && !Removed(t, i))
    ensures Frozen(Inherit(types, t), i) <==>
      Frozen(t, i) || (Frozen(types, i) && !Removed(t, i) && !Explicit(t, i))
  {
    InheritBit(types, t, i);
    InheritBit(types, t, i + 16);
  }

  ghost predicate Removes(e: Entry) {
    ByteSearch.Contains(e.state, "remove")
  }

  ghost predicate Freezes(e: Entry) {
    ByteSearch.Contains(e.state, "freeze")
  }

  predicate Listed(e: Entry) {
    e.cn != "" && e.release != ""
  }

  ghost function BitsOf(e: Entry): nat {
    TypeBits(e.kind, Removes(e), Freezes(e))
  }

  type Infos = map<(string, string), Info>

  function InfoAt(infos: Infos, c: string, r: string): Info {
    if (c, r) in infos then infos[(c, r)] else Info(0, "")
  }

  function Added(infos: Infos, e: Entry, bits: nat): Infos {
    if !Listed(e) then infos
    else infos[(e.cn, e.release) := Info(Or(bits, InfoAt(infos, e.cn, e.release).types), e.tag)]
  }

  ghost function Collected(entries: seq<Entry>): Infos {
    if entries == [] then map[]
    else
      var e := entries[|entries| - 1];
      Added(Collected(entries[..|entries| - 1]), e, BitsOf(e))
  }

  /** What the objects of a release say about a class and type. */
  datatype Word = Silent | Removal | Instance(frozen: bool)

  predicate About(e: Entry, c: string, r: string, i: nat) {
    Listed(e) && e.cn == c && e.release == r && e.kind == Some(i)
  }

  ghost predicate SaysInstance(entries: seq<Entry>, c: string, r: string, i: nat) {
    exists e :: e in entries && About(e, c, r, i) && !Removes(e)
  }

  ghost predicate SaysRemoved(entries: seq<Entry>, c: string, r: string, i: nat) {
    exists e :: e in entries && About(e, c, r, i) && Removes(e)
  }

  ghost predicate SaysFrozen(entries: seq<Entry>, c: string, r: string, i: nat) {
    exists e :: e in entries && About(e, c, r, i) && !Removes(e) && Freezes(e)
  }

  ghost function Said(entries: seq<Entry>, c: string, r: string, i: nat): Word {
    if SaysInstance(entries, c, r, i) then Instance(SaysFrozen(entries, c, r, i))
    else if SaysRemoved(entries, c, r, i) then Removal
    else Silent
  }

  lemma {:induction false} CollectedMeans(entries: seq<Entry>, c: string, r: string, i: nat)
    requires i < TYPES
    ensures var t := InfoAt(Collected(entries), c, r).types;
      && (Explicit(t, i) <==> SaysInstance(entries, c, r, i))
      && (Removed(t, i) <==> SaysRemoved(entries, c, r, i))
      && (Frozen(t, i) <==> SaysFrozen(entries, c, r, i))
  {
    if entries == [] {
      BitZero(i);
      BitZero(i + 8);
      BitZero(i + 16);
    } else {
      var before, e := entries[..|entries| - 1], entries[|entries| - 1];
      assert entries == before + [e];
      CollectedMeans(before, c, r, i);
      if Listed(e) && e.cn == c && e.release == r {
        AddedMeans(InfoAt(Collected(before), c, r).types, e, i);
      }
    }
  }

  lemma AddedMeans(t: nat, e: Entry, i: nat)
    requires i < TYPES
    ensures Explicit(Or(BitsOf(e), t), i) <==> Explicit(t, i) || (e.kind == Some(i) && !Removes(e))
    ensures Removed(Or(BitsOf(e), t), i) <==> Removed(t, i) || (e.kind == Some(i) && Removes(e))
    ensures Frozen(Or(BitsOf(e), t), i) <==> Frozen(t, i) || (e.kind == Some(i) && !Removes(e) && Freezes(e))
  {
    TypeBitsMean(e.kind, Removes(e), Freezes(e), i);
    BitOr(BitsOf(e), t, i);
    BitOr(BitsOf(e), t, i + 8);
    BitOr(BitsOf(e), t, i + 16);
  }

  /** The types that the last of the releases has; each of them inherits from the one before. */
  function Types(infos: Infos, c: string, levels: seq<string>): nat {
    if levels == [] then 0
    else Inherit(Types(infos, c, levels[..|levels| - 1]), InfoAt(infos, c, levels[|levels| - 1]).types)
  }

  function Tag(infos: Infos, c: string, levels: seq<string>): string {
    if levels == [] then ""
    else
      var tag := InfoAt(infos, c, levels[|levels| - 1]).tag;
      if tag != "" then tag else Tag(infos, c, levels[..|levels| - 1])
  }

  /** The word of the nearest release that says anything about the class and type. */
  ghost function Nearest(entries: seq<Entry>, c: string, levels: seq<string>, i: nat): Word {
    if levels == [] then Silent
    else
      var w := Said(entries, c, levels[|levels| - 1], i);
      if w.Silent? then Nearest(entries, c, levels[..|levels| - 1], i) else w
  }

  /** Folding the words of all releases from the root on gives, for each type at once, the nearest word. */
  lemma {:induction false} TypesMean(entries: seq<Entry>, c: string, levels: seq<string>, i: nat)
    requires i < TYPES
    ensures var t := Types(Collected(entries), c, levels);
      && (Explicit(t, i) <==> Nearest(entries, c, levels, i).Instance?)
      && (Frozen(t, i) <==> Nearest(entries, c, levels, i) == Instance(true))
  {
    if levels == [] {
      BitZero(i);
      BitZero(i + 16);
    } else {
      var before, r := levels[..|levels| - 1], levels[|levels| - 1];
      TypesMean(entries, c, before, i);
      CollectedMeans(entries, c, r, i);
      InheritMeans(Types(Collected(entries), c, before), InfoAt(Collected(entries), c, r).types, i);
    }
  }
}
