/** What the order of package lines, their merging and their bitmap bytes mean, field by field. */
module PackageMeaning {
  import opened Common
  import opened Bits
  import opened PackageLines
  import opened PathOrder
  import opened Merging

  // ----- merging

  /** Templates u replace t: nothing but "?" gives way to one letter, letters give way to none, all to real ones. */
  predicate Overrides(u: string, t: string) {
    || (t == "?" && u != "?")
    || (|t| == 1 && (u == "" || |u| > 2))
    || (t == "" && |u| > 2)
  }

  /** Item z unites x of the first list and y of the second. */
  ghost predicate Unites(o: Options, x: Item, y: Item, mask: nat, z: Item) {
    && (o.merge && x.pkg.arch == Amd64 ==> z.pkg == x.pkg)
    && (o.merge && y.pkg.arch == Amd64 ==> z.pkg == y.pkg)
    && (!o.merge || (x.pkg.arch != Amd64 && y.pkg.arch != Amd64) ==> z.pkg == x.pkg)
    && (forall i: nat :: Bit(z.bitmap, i) <==> Bit(x.bitmap, i) || (Bit(y.bitmap, i) && Bit(mask, i)))
    && z.description == x.description
    && z.templates == if Overrides(y.templates, x.templates) then y.templates else x.templates
  }

  /** Item z is y of the second list without the repositories that are masked out. */
  ghost predicate Contributes(y: Item, mask: nat, z: Item) {
    && z.pkg == y.pkg && z.description == y.description && z.templates == y.templates
    && (forall i: nat :: Bit(z.bitmap, i) <==> Bit(y.bitmap, i) && Bit(mask, i))
  }

  /** Some repository of y is not masked out. */
  ghost predicate Remains(y: Item, mask: nat) {
    exists i: nat :: Bit(y.bitmap, i) && Bit(mask, i)
  }

  /** What a merged list holds for a key. */
  ghost predicate Merges(o: Options, x: Option<Item>, y: Option<Item>, only: bool, mask: nat, z: Option<Item>) {
    if x.Some? && y.Some? then z.Some? && Unites(o, x.value, y.value, mask, z.value)
    else if x.Some? then z == x
    else if y.Some? && !only && Remains(y.value, mask) then z.Some? && Contributes(y.value, mask, z.value)
    else z == None
  }

  lemma MatchedUnites(o: Options, x: Item, y: Item, mask: nat)
    requires KeyOf(o, x.pkg) == KeyOf(o, y.pkg)
    ensures Unites(o, x, y, mask, Matched(o, x, y, mask))
  {
    forall i: nat
      ensures Bit(Or(x.bitmap, And(y.bitmap, mask)), i) <==> Bit(x.bitmap, i) || (Bit(y.bitmap, i) && Bit(mask, i))
    {
      BitOr(x.bitmap, And(y.bitmap, mask), i);
      BitAnd(y.bitmap, mask, i);
    }
  }

  lemma SomeBit(a: nat) returns (i: nat)
    requires a != 0
    ensures Bit(a, i)
  {
    if forall i: nat :: !Bit(a, i) {
      forall i: nat
        ensures Bit(a, i) == Bit(0, i)
      {
        BitZero(i);
      }
      SameBits(a, 0);
    }
    i :| Bit(a, i);
  }

  lemma MaskedContributes(y: Item, mask: nat)
    ensures And(y.bitmap, mask) != 0 <==> Remains(y, mask)
    ensures Contributes(y, mask, y.(bitmap := And(y.bitmap, mask)))
  {
    forall i: nat
      ensures Bit(And(y.bitmap, mask), i) <==> Bit(y.bitmap, i) && Bit(mask, i)
    {
      BitAnd(y.bitmap, mask, i);
    }
    if And(y.bitmap, mask) != 0 {
      var i := SomeBit(And(y.bitmap, mask));
      assert Bit(y.bitmap, i) && Bit(mask, i);
    }
    if i: nat :| Bit(y.bitmap, i) && Bit(mask, i) {
      BitZero(i);
    }
  }

  lemma {:induction false} LookupKey(o: Options, s: seq<Item>, k: Key)
    ensures Lookup(o, s, k).Some? ==> KeyOf(o, Lookup(o, s, k).value.pkg) == k
  {
    if s != [] {
      LookupKey(o, s[1..], k);
    }
  }

  /**
   * For every key: of two packages the amd64 one is kept if they are to be merged, repositories are united under
   * the mask, the better templates win, and a line of the second list alone needs a repository and permission.
   */
  lemma MergeMeans(o: Options, a: seq<Item>, b: seq<Item>, only: bool, mask: nat, k: Key)
    requires Regular(a) && Regular(b) && Ascending(o, a) && Ascending(o, b)
    ensures Merges(o, Lookup(o, a, k), Lookup(o, b, k), only, mask, Lookup(o, Merge(o, a, b, only, mask), k))
  {
    MergeCombines(o, a, b, only, mask, k);
    LookupKey(o, a, k);
    LookupKey(o, b, k);
    var x, y := Lookup(o, a, k), Lookup(o, b, k);
    if y.Some? {
      MaskedContributes(y.value, mask);
      if x.Some? {
        MatchedUnites(o, x.value, y.value, mask);
      }
    }
  }

  // ----- the order of the lines

  /** The architecture a file name ends with; i386 is read as amd64 if they are merged and it is no kernel. */
  function ArchName(o: Options, p: Package): string {
    match p.arch
    case All => "all"
    case Amd64 => "amd64"
    case I386 => if o.merge && !o.kernel("/" + p.stem + "_amd64") then "amd64" else "i386"
  }

  function FileName(o: Options, p: Package): string {
    "/" + p.stem + "_" + ArchName(o, p) + ".deb|"
  }

  /** The first difference is to the advantage of u, or v goes on behind u. */
  ghost predicate Before(u: string, v: string) {
    (exists k :: LessAt(u, v, k)) || (u <= v && u != v)
  }

  /** Package p comes before q: by file name, then by directory, then by section. */
  ghost predicate ComesBefore(o: Options, p: Package, q: Package) {
    || Before(FileName(o, p), FileName(o, q))
    || (FileName(o, p) == FileName(o, q) && Before(p.dir + FileName(o, p), q.dir + FileName(o, q)))
    || (FileName(o, p) == FileName(o, q) && p.dir == q.dir && Before(p.section + "|", q.section + "|"))
  }

  /** The start of a line behind the bitmap. */
  function Text(p: Package): string {
    "|" + p.dir + "/" + p.stem + (match p.arch case All => "_all" case Amd64 => "_amd64" case I386 => "_i386") + ".deb|"
    + p.section + "|"
  }

  lemma {:induction false} LexMeans(u: string, v: string)
    ensures Lex(u, v) == Less <==> Before(u, v)
    decreases |u|
  {
    if u != "" && v != "" {
      if u[0] == v[0] {
        LexMeans(u[1..], v[1..]);
        BeforeCons(u, v);
        LexFlips(u, v);
        LexFlips(u[1..], v[1..]);
        assert u == [u[0]] + u[1..] && v == [v[0]] + v[1..];
      } else if u[0] < v[0] {
        assert LessAt(u, v, 0);
      } else {
        assert forall k :: 0 < k < |u| && k < |v| ==> u[..k][0] != v[..k][0];
      }
    }
  }

  lemma BeforeCons(u: string, v: string)
    requires u != "" && v != "" && u[0] == v[0]
    ensures Before(u, v) <==> Before(u[1..], v[1..])
  {
    assert u == [u[0]] + u[1..] && v == [v[0]] + v[1..];
    if k: nat :| LessAt(u, v, k) {
      assert u[..k] == [u[0]] + u[1..][..k - 1] && v[..k] == [v[0]] + v[1..][..k - 1];
      assert LessAt(u[1..], v[1..], k - 1);
    }
    if k: nat :| LessAt(u[1..], v[1..], k) {
      assert u[..k + 1] == [u[0]] + u[1..][..k] && v[..k + 1] == [v[0]] + v[1..][..k];
      assert LessAt(u, v, k + 1);
    }
  }

  lemma NamesAreKeys(o: Options, p: Package)
    ensures FileName(o, p) == FileKey(o, p)
    ensures Text(p) == Head(p)
  {
    var stem := "/" + p.stem;
    match Counted(o, p.arch, Kernel(o, p)) {
      case All => assert stem + "_" + "all" + ".deb|" == stem + "_all.deb|";
      case I386 => assert stem + "_" + "i386" + ".deb|" == stem + "_i386.deb|";
      case Amd64 => assert stem + "_" + "amd64" + ".deb|" == stem + "_amd64.deb|";
    }
    var front := "|" + p.dir + "/" + p.stem;
    match p.arch {
      case All => assert front + "_all" + ".deb|" == front + "_all.deb|";
      case I386 => assert front + "_i386" + ".deb|" == front + "_i386.deb|";
      case Amd64 => assert front + "_amd64" + ".deb|" == front + "_amd64.deb|";
    }
  }

  lemma LexTies(u: string, v: string)
    ensures Lex(u, v) == Equal <==> u == v
    ensures u == v ==> !Before(u, v)
  {
    LexFlips(u, v);
    LexMeans(u, v);
  }

  lemma LessMeans(o: Options, p: Package, q: Package)
    ensures Order(o, p, q) == Less <==> ComesBefore(o, p, q)
  {
    NamesAreKeys(o, p);
    NamesAreKeys(o, q);
    var u, v := FileKey(o, p), FileKey(o, q);
    LexMeans(u, v);
    LexTies(u, v);
    LexMeans(p.dir + u, q.dir + v);
    LexTies(p.dir + u, q.dir + v);
    LexMeans(p.section + "|", q.section + "|");
    LexTies(p.section + "|", q.section + "|");
    if u == v {
      SamePrefix(p.dir, q.dir, u);
    }
  }

  /** The raw comparison of two lines puts them in order by file name, directory and section. */
  lemma LinesCompare(o: Options, p: Package, rest: string, q: Package, more: string)
    requires WellFormed(p) && WellFormed(q)
    ensures var v := Compared(o, Text(p) + rest, Text(q) + more, 0, 0, 0);
      && v != Verdict.Panic
      && (v == Less <==> ComesBefore(o, p, q))
      && (v == Greater <==> ComesBefore(o, q, p))
      && (v == Equal <==>
            p.dir == q.dir && p.stem == q.stem && p.section == q.section && ArchName(o, p) == ArchName(o, q))
  {
    NamesAreKeys(o, p);
    NamesAreKeys(o, q);
    ComparedIsOrder(o, p, rest, q, more);
    LessMeans(o, p, q);
    LessMeans(o, q, p);
    OrderIsTotalPreorder(o, p, q, p);
    assert ArchName(o, p) == ArchName(o, q) <==> Counted(o, p.arch, Kernel(o, p)) == Counted(o, q.arch, Kernel(o, q));
  }

  // ----- the bytes of a bitmap

  /** The bytes are little-endian: byte i holds bits 8i to 8i+7. */
  lemma {:induction false} BytesMean(bitmap: nat, n: nat, i: nat, k: nat)
    requires i < n && k < 8
    ensures BitmapBytes(bitmap, n)[i] as nat < 256
    ensures Bit(BitmapBytes(bitmap, n)[i] as nat, k) <==> Bit(bitmap, 8 * i + k)
    decreases n
  {
    if i == 0 {
      LowBits(bitmap, 8, k);
    } else {
      BytesMean(bitmap / 256, n - 1, i - 1, k);
      HighBits(bitmap, 8 * (i - 1) + k);
    }
  }

  lemma {:induction false} LowBits(a: nat, n: nat, k: nat)
    requires k < n
    ensures Bit(a % Pow2(n), k) <==> Bit(a, k)
    ensures Pow2(8) == 256
    decreases n
  {
    HalfOfRest(a, n);
    if k > 0 {
      LowBits(a / 2, n - 1, k - 1);
    }
  }

  lemma HalfOfRest(a: nat, n: nat)
    requires n > 0
    ensures (a % Pow2(n)) / 2 == (a / 2) % Pow2(n - 1) && (a % Pow2(n)) % 2 == a % 2
  {
    var p := Pow2(n - 1);
    var q, r := a / 2 / p, a / 2 % p;
    assert a == 2 * (q * p + r) + a % 2 == q * (2 * p) + (2 * r + a % 2);
    Division(a, 2 * p, q, 2 * r + a % 2);
  }

  lemma Division(a: nat, d: nat, q: nat, r: nat)
    requires d > 0 && a == q * d + r && r < d
    ensures a % d == r
  {
    AtMostQuotient(q, r, a / d, a % d, d);
    AtMostQuotient(a / d, a % d, q, r, d);
  }

  lemma AtMostQuotient(x: nat, rx: nat, y: nat, ry: nat, d: nat)
    requires x * d + rx == y * d + ry && ry < d
    ensures x <= y
  {
    assert (y + 1) * d == y * d + d;
    if x > y {
      AtMost(y + 1, x, d);
    }
  }

  lemma TwoBits(a: nat, k: nat)
    ensures Bit(a, k + 2) <==> Bit(a / 4, k)
  {
    assert Bit(a, k + 2) == Bit(a / 2, k + 1);
    assert a / 2 / 2 == a / 4;
  }

  lemma HighBits(a: nat, k: nat)
    ensures Bit(a / 256, k) <==> Bit(a, k + 8)
  {
    TwoBits(a, k + 6);
    TwoBits(a / 4, k + 4);
    TwoBits(a / 16, k + 2);
    TwoBits(a / 64, k);
  }
}
