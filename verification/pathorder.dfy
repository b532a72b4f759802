/**
 * The order of package lines: file name first, then pool path, then section.
 *
 * The comparison runs over the raw bytes of two lists. It starts behind the bitmap at the first '|',
 * seeks forward to the file name, back to the pool path and stops at the third '|'.
 */
module PathOrder {
  import Sequences

  datatype Verdict = Less | Equal | Greater | Panic {
    function Flip(): Verdict {
      match this
      case Less => Greater
      case Greater => Less
      case _ => this
    }

    /** This verdict unless it is a tie. */
    function Then(next: Verdict): Verdict {
      if Equal? then next else this
    }
  }

  /** Whether i386 and amd64 are to be merged, and which files hold a kernel. */
  datatype Options = Options(merge: bool, kernel: string -> bool)

  function Back(s: string, x: nat): (r: nat)
    requires x < |s|
    ensures r <= x
  {
    if x > 0 && s[x] != '/' then Back(s, x - 1) else x
  }

  function FieldEnd(s: string, x: nat): (r: nat)
    requires x < |s|
    ensures x <= r < |s|
    decreases |s| - x
  {
    if x + 1 < |s| && s[x + 1] != '|' then FieldEnd(s, x + 1) else x
  }

  function FieldStart(s: string, x: nat): (r: nat)
    requires x < |s|
    ensures r <= x
  {
    if x > 1 && s[x - 1] != '|' then FieldStart(s, x - 1) else x
  }

  predicate Has(s: string, x: nat, w: string) {
    x + |w| <= |s| && s[x..x + |w|] == w
  }

  /** The two lines differ in that s has amd64 where t has i386. */
  predicate ArchDiffers(s: string, x: nat, t: string, y: nat) {
    x > 0 && Has(s, x - 1, "_amd64") && Has(t, y, "i386")
  }

  function Compared(o: Options, s: string, t: string, pipes: nat, x: nat, y: nat): Verdict
    requires pipes <= 3
    decreases 3 - pipes, |s| - x
  {
    if x >= |s| || y >= |t| then Panic
    else if s[x] < t[y] then
      if o.merge && ArchDiffers(s, x, t, y) && !o.kernel(s[Back(s, x)..x + 5]) then
        Compared(o, s, t, pipes, x + 5, y + 4)
      else Less
    else if t[y] < s[x] then
      if o.merge && ArchDiffers(t, y, s, x) && !o.kernel(t[Back(t, y)..y + 5]) then
        Compared(o, s, t, pipes, x + 4, y + 5)
      else Greater
    else if s[x] != '|' then Compared(o, s, t, pipes, x + 1, y + 1)
    else if pipes == 0 then Compared(o, s, t, 1, Back(s, FieldEnd(s, x)), Back(t, FieldEnd(t, y)))
    else if pipes == 1 then Compared(o, s, t, 2, FieldStart(s, x), FieldStart(t, y))
    else if pipes == 2 then Compared(o, s, t, 3, x + 1, y + 1)
    else Equal
  }

  lemma {:induction false} ComparedFlips(o: Options, s: string, t: string, pipes: nat, x: nat, y: nat)
    requires pipes <= 3
    ensures Compared(o, t, s, pipes, y, x) == Compared(o, s, t, pipes, x, y).Flip()
    decreases 3 - pipes, |s| - x
  {
    if x >= |s| || y >= |t| {
    } else if s[x] < t[y] {
      ComparedFlips(o, s, t, pipes, x + 5, y + 4);
    } else if t[y] < s[x] {
      ComparedFlips(o, s, t, pipes, x + 4, y + 5);
    } else if s[x] != '|' {
      ComparedFlips(o, s, t, pipes, x + 1, y + 1);
    } else if pipes == 0 {
      ComparedFlips(o, s, t, 1, Back(s, FieldEnd(s, x)), Back(t, FieldEnd(t, y)));
    } else if pipes == 1 {
      ComparedFlips(o, s, t, 2, FieldStart(s, x), FieldStart(t, y));
    } else if pipes == 2 {
      ComparedFlips(o, s, t, 3, x + 1, y + 1);
    }
  }

  /** Lexicographic order; a proper prefix comes first. */
  function Lex(u: string, v: string): Verdict {
    if u == v then Equal
    else if u == "" then Less
    else if v == "" then Greater
    else if u[0] < v[0] then Less
    else if v[0] < u[0] then Greater
    else Lex(u[1..], v[1..])
  }

  lemma {:induction false} LexFlips(u: string, v: string)
    ensures Lex(v, u) == Lex(u, v).Flip()
    ensures Lex(u, v) == Equal <==> u == v
    ensures Lex(u, v) != Panic
  {
    if u != "" && v != "" {
      LexFlips(u[1..], v[1..]);
      assert u == [u[0]] + u[1..];
      assert v == [v[0]] + v[1..];
    }
  }

  lemma {:induction false} LexTransitive(u: string, v: string, w: string)
    requires Lex(u, v) != Greater && Lex(v, w) != Greater
    ensures Lex(u, w) != Greater
    ensures Lex(u, v) == Less || Lex(v, w) == Less ==> Lex(u, w) == Less
  {
    if u != v && v != w && u != "" && v != "" && w != "" && u[0] == v[0] == w[0] {
      LexTransitive(u[1..], v[1..], w[1..]);
      LexFlips(u, w);
      LexFlips(u[1..], w[1..]);
    }
  }

  datatype Arch = All | I386 | Amd64

  /** The compared fields of a line; the pool path is dir/stem_arch.deb. */
  datatype Package = Package(dir: string, stem: string, arch: Arch, section: string)

  function Suffix(a: Arch): string {
    match a
    case All => "_all.deb|"
    case I386 => "_i386.deb|"
    case Amd64 => "_amd64.deb|"
  }

  function Head(p: Package): string {
    "|" + p.dir + "/" + p.stem + Suffix(p.arch) + p.section + "|"
  }

  /** No underscore behind prev or in s is followed by a letter from a to i. */
  predicate Safe(prev: char, s: string)
    decreases |s|
  {
    s != "" ==> (prev == '_' ==> s[0] < 'a' || 'i' < s[0]) && Safe(s[0], s[1..])
  }

  predicate WellFormed(p: Package) {
    && '|' !in p.dir && '|' !in p.stem && '|' !in p.section && '/' !in p.stem
    && Safe('|', p.dir) && Safe('/', p.stem) && Safe('|', p.section)
  }

  /** The architecture that counts in comparisons. */
  function Counted(o: Options, a: Arch, kernel: bool): Arch {
    if a == I386 && o.merge && !kernel then Amd64 else a
  }

  function Kernel(o: Options, p: Package): bool {
    o.kernel("/" + p.stem + "_amd64")
  }

  function FileKey(o: Options, p: Package): string {
    "/" + p.stem + Suffix(Counted(o, p.arch, Kernel(o, p)))
  }

  /** File name, then pool path, then section, with i386 counting as amd64 except for kernels. */
  function Order(o: Options, p: Package, q: Package): Verdict {
    Lex(FileKey(o, p), FileKey(o, q))
      .Then(Lex(p.dir + FileKey(o, p), q.dir + FileKey(o, q)).Then(Lex(p.section + "|", q.section + "|")))
  }

  lemma {:induction false} ComparedRun(o: Options, s: string, t: string, pipes: nat, x: nat, y: nat, w: string)
    requires pipes <= 3 && Has(s, x, w) && Has(t, y, w) && '|' !in w
    ensures Compared(o, s, t, pipes, x, y) == Compared(o, s, t, pipes, x + |w|, y + |w|)
    decreases |w|
  {
    if w != "" {
      assert s[x] == w[0] == t[y];
      assert s[x + 1..x + |w|] == w[1..] == t[y + 1..y + |w|];
      ComparedRun(o, s, t, pipes, x + 1, y + 1, w[1..]);
    }
  }

  lemma {:induction false} LexRun(w: string, u: string, v: string)
    ensures Lex(w + u, w + v) == Lex(u, v)
  {
    if w == "" {
      assert w + u == u && w + v == v;
    } else {
      LexRun(w[1..], u, v);
      assert (w + u)[1..] == w[1..] + u;
      assert (w + v)[1..] == w[1..] + v;
      LexFlips(u, v);
      LexFlips(w + u, w + v);
    }
  }

  /** Position x of s holds architecture a of a file whose amd64 name is a kernel's if k. */
  predicate AtArch(o: Options, s: string, x: nat, a: Arch, k: bool) {
    && Has(s, x, Suffix(a))
    && (a == Amd64 ==> o.kernel(s[Back(s, x + 1)..x + 6]) == k)
  }

  function ArchEnd(x: nat, a: Arch): nat {
    x + |Suffix(a)| - 1
  }

  /** From x and y on, u and v decide unless they tie; then the comparison goes on at ex and ey. */
  predicate Decides(o: Options, s: string, t: string, pipes: nat, x: nat, u: string, ex: nat,
                    y: nat, v: string, ey: nat)
    requires pipes <= 3
  {
    Compared(o, s, t, pipes, x, y) == Lex(u, v).Then(Compared(o, s, t, pipes, ex, ey))
  }

  lemma DecidesFlip(o: Options, s: string, t: string, pipes: nat, x: nat, u: string, ex: nat,
                    y: nat, v: string, ey: nat)
    requires pipes <= 3 && Decides(o, t, s, pipes, y, v, ey, x, u, ex)
    ensures Decides(o, s, t, pipes, x, u, ex, y, v, ey)
  {
    ComparedFlips(o, t, s, pipes, y, x);
    ComparedFlips(o, t, s, pipes, ey, ex);
    LexFlips(v, u);
  }

  lemma DecidesStep(o: Options, s: string, t: string, pipes: nat, c: char, x: nat, u: string, ex: nat,
                    y: nat, v: string, ey: nat)
    requires pipes <= 3 && x < |s| && y < |t| && s[x] == t[y] != '|'
    requires Decides(o, s, t, pipes, x + 1, u, ex, y + 1, v, ey)
    ensures Decides(o, s, t, pipes, x, [c] + u, ex, y, [c] + v, ey)
  {
    LexRun([c], u, v);
  }

  /** What comparing two architectures must give. */
  predicate ArchsCompare(o: Options, s: string, t: string, pipes: nat, x: nat, a: Arch, y: nat, b: Arch, k: bool)
    requires pipes <= 3
  {
    Decides(o, s, t, pipes, x, Suffix(Counted(o, a, k)), ArchEnd(x, a), y, Suffix(Counted(o, b, k)), ArchEnd(y, b))
  }

  lemma SameArch(o: Options, s: string, t: string, pipes: nat, x: nat, a: Arch, y: nat, k: bool)
    requires pipes <= 3 && Has(s, x, Suffix(a)) && Has(t, y, Suffix(a))
    ensures ArchsCompare(o, s, t, pipes, x, a, y, a, k)
  {
    var w := Suffix(a)[..|Suffix(a)| - 1];
    HasPart(s, x, Suffix(a), 0, |w|);
    HasPart(t, y, Suffix(a), 0, |w|);
    PlainSuffix(a);
    ComparedRun(o, s, t, pipes, x, y, w);
    DecidesTie(o, s, t, pipes, x, Suffix(Counted(o, a, k)), ArchEnd(x, a), y, ArchEnd(y, a));
  }

  lemma PlainSuffix(a: Arch)
    ensures '|' !in Suffix(a)[..|Suffix(a)| - 1]
  {
  }

  lemma HasPart(s: string, x: nat, w: string, i: nat, j: nat)
    requires Has(s, x, w) && i <= j <= |w|
    ensures Has(s, x + i, w[i..j])
    ensures forall n :: 0 <= n < |w| ==> s[x + n] == w[n]
  {
    forall n | 0 <= n < |w|
      ensures s[x + n] == w[n]
    {
      assert s[x..x + |w|][n] == w[n];
    }
  }

  lemma HasNot(s: string, x: nat, w: string, i: nat)
    requires i < |w| && x + i < |s| && s[x + i] != w[i]
    ensures !Has(s, x, w)
  {
    assert x + |w| <= |s| ==> s[x..x + |w|][i] == s[x + i];
  }

  lemma AllBeforeI386(o: Options, s: string, t: string, pipes: nat, x: nat, y: nat, k: bool)
    requires pipes <= 3 && Has(s, x, Suffix(All)) && Has(t, y, Suffix(I386))
    ensures ArchsCompare(o, s, t, pipes, x, All, y, I386, k)
  {
    HasPart(s, x, Suffix(All), 0, 1);
    HasPart(t, y, Suffix(I386), 0, 1);
    ComparedRun(o, s, t, pipes, x, y, "_");
    assert s[x + 1] == 'a' && t[y + 1] == 'i';
    HasNot(s, x, "_amd64", 2);
    LexAll(I386);
    LexAll(Amd64);
    DecidesLess(o, s, t, pipes, x, Suffix(All), ArchEnd(x, All), y, Suffix(Counted(o, I386, k)), ArchEnd(y, I386));
  }

  lemma LexAll(a: Arch)
    requires a != All
    ensures Lex(Suffix(All), Suffix(a)) == Less
  {
    if a == Amd64 {
      assert Suffix(All) == "_a" + "ll.deb|" && Suffix(Amd64) == "_a" + "md64.deb|";
      LexRun("_a", "ll.deb|", "md64.deb|");
    } else {
      assert Suffix(All) == "_" + "all.deb|" && Suffix(I386) == "_" + "i386.deb|";
      LexRun("_", "all.deb|", "i386.deb|");
    }
  }

  lemma AllBeforeAmd64(o: Options, s: string, t: string, pipes: nat, x: nat, y: nat, k: bool)
    requires pipes <= 3 && Has(s, x, Suffix(All)) && Has(t, y, Suffix(Amd64))
    ensures ArchsCompare(o, s, t, pipes, x, All, y, Amd64, k)
  {
    HasPart(s, x, Suffix(All), 0, 2);
    HasPart(t, y, Suffix(Amd64), 0, 2);
    ComparedRun(o, s, t, pipes, x, y, "_a");
    assert s[x + 1] == 'a' && s[x + 2] == 'l' && t[y + 2] == 'm';
    NoArchAt(s, x + 1);
    LexAll(Amd64);
    DecidesLess(o, s, t, pipes, x, Suffix(All), ArchEnd(x, All), y, Suffix(Amd64), ArchEnd(y, Amd64));
  }

  lemma ArchsDiffer(s: string, t: string, x: nat, y: nat)
    requires Has(s, x, Suffix(Amd64)) && Has(t, y, Suffix(I386))
    ensures Has(s, x, "_") && Has(t, y, "_")
    ensures s[x + 1] == 'a' && t[y + 1] == 'i' && ArchDiffers(s, x + 1, t, y + 1)
    ensures Has(s, x + 6, ".deb") && Has(t, y + 5, ".deb")
  {
    var amd64, i386 := Suffix(Amd64), Suffix(I386);
    HasPart(s, x, amd64, 0, 1);
    HasPart(t, y, i386, 0, 1);
    HasPart(s, x, amd64, 0, 6);
    HasPart(t, y, i386, 1, 5);
    HasPart(s, x, amd64, 6, 10);
    HasPart(t, y, i386, 5, 9);
    assert amd64[0..6] == "_amd64" && i386[1..5] == "i386";
    assert amd64[6..10] == ".deb" == i386[5..9];
    assert amd64[0..1] == "_" == i386[0..1];
  }

  lemma Amd64BeforeI386()
    ensures Lex(Suffix(Amd64), Suffix(I386)) == Less
  {
    assert Suffix(Amd64) == "_" + "amd64.deb|" && Suffix(I386) == "_" + "i386.deb|";
    LexRun("_", "amd64.deb|", "i386.deb|");
  }

  /** Where only the architectures differ, the comparison goes on behind them, or amd64 comes first. */
  lemma MetSkipped(o: Options, s: string, t: string, pipes: nat, x: nat, y: nat, end: string)
    requires pipes <= 3 && Has(s, x, "_") && Has(t, y, "_") && x + 1 < |s| && y + 1 < |t|
    requires s[x + 1] < t[y + 1] && ArchDiffers(s, x + 1, t, y + 1)
    requires o.merge && !o.kernel(s[Back(s, x + 1)..x + 6])
    requires Has(s, x + 6, end) && Has(t, y + 5, end) && '|' !in end
    ensures Compared(o, s, t, pipes, x, y) == Compared(o, s, t, pipes, x + 6 + |end|, y + 5 + |end|)
  {
    UnderscoreRun(o, s, t, pipes, x, y);
    ArchSkipped(o, s, t, pipes, x, y);
    ComparedRun(o, s, t, pipes, x + 6, y + 5, end);
  }

  lemma MetStays(o: Options, s: string, t: string, pipes: nat, x: nat, y: nat)
    requires pipes <= 3 && Has(s, x, "_") && Has(t, y, "_") && x + 1 < |s| && y + 1 < |t|
    requires s[x + 1] < t[y + 1] && ArchDiffers(s, x + 1, t, y + 1)
    requires !(o.merge && !o.kernel(s[Back(s, x + 1)..x + 6]))
    ensures Compared(o, s, t, pipes, x, y) == Less
  {
    UnderscoreRun(o, s, t, pipes, x, y);
    ArchStays(o, s, t, pipes, x, y);
  }

  lemma UnderscoreRun(o: Options, s: string, t: string, pipes: nat, x: nat, y: nat)
    requires pipes <= 3 && Has(s, x, "_") && Has(t, y, "_")
    ensures Compared(o, s, t, pipes, x, y) == Compared(o, s, t, pipes, x + 1, y + 1)
  {
    ComparedRun(o, s, t, pipes, x, y, "_");
  }

  lemma Amd64MeetsI386(o: Options, s: string, t: string, pipes: nat, x: nat, y: nat, k: bool)
    requires pipes <= 3 && AtArch(o, s, x, Amd64, k) && Has(t, y, Suffix(I386))
    ensures ArchsCompare(o, s, t, pipes, x, Amd64, y, I386, k)
  {
    ArchsDiffer(s, t, x, y);
    ArchEnds(x, y);
    var u, v := Suffix(Amd64), Suffix(I386);
    if o.merge && !k {
      MetSkipped(o, s, t, pipes, x, y, ".deb");
      DecidesTie(o, s, t, pipes, x, u, ArchEnd(x, Amd64), y, ArchEnd(y, I386));
    } else {
      MetStays(o, s, t, pipes, x, y);
      Amd64BeforeI386();
      DecidesLess(o, s, t, pipes, x, u, ArchEnd(x, Amd64), y, v, ArchEnd(y, I386));
    }
  }

  lemma ArchEnds(x: nat, y: nat)
    ensures ArchEnd(x, Amd64) == x + 10 && ArchEnd(y, I386) == y + 9
  {
  }

  lemma ArchSkipped(o: Options, s: string, t: string, pipes: nat, x: nat, y: nat)
    requires pipes <= 3 && x + 1 < |s| && y + 1 < |t| && s[x + 1] < t[y + 1] && ArchDiffers(s, x + 1, t, y + 1)
    requires o.merge && !o.kernel(s[Back(s, x + 1)..x + 6])
    ensures Compared(o, s, t, pipes, x + 1, y + 1) == Compared(o, s, t, pipes, x + 6, y + 5)
  {
  }

  lemma ArchStays(o: Options, s: string, t: string, pipes: nat, x: nat, y: nat)
    requires pipes <= 3 && x + 1 < |s| && y + 1 < |t| && s[x + 1] < t[y + 1] && ArchDiffers(s, x + 1, t, y + 1)
    requires !(o.merge && !o.kernel(s[Back(s, x + 1)..x + 6]))
    ensures Compared(o, s, t, pipes, x + 1, y + 1) == Less
  {
  }

  lemma DecidesTie(o: Options, s: string, t: string, pipes: nat, x: nat, u: string, ex: nat, y: nat, ey: nat)
    requires pipes <= 3 && Compared(o, s, t, pipes, x, y) == Compared(o, s, t, pipes, ex, ey)
    ensures Decides(o, s, t, pipes, x, u, ex, y, u, ey)
  {
    LexFlips(u, u);
  }

  lemma DecidesLess(o: Options, s: string, t: string, pipes: nat, x: nat, u: string, ex: nat, y: nat, v: string, ey: nat)
    requires pipes <= 3 && Compared(o, s, t, pipes, x, y) == Less == Lex(u, v)
    ensures Decides(o, s, t, pipes, x, u, ex, y, v, ey)
  {
  }

  lemma ArchsFlip(o: Options, s: string, t: string, pipes: nat, x: nat, a: Arch, y: nat, b: Arch, k: bool)
    requires pipes <= 3 && ArchsCompare(o, t, s, pipes, y, b, x, a, k)
    ensures ArchsCompare(o, s, t, pipes, x, a, y, b, k)
  {
    DecidesFlip(o, s, t, pipes, x, Suffix(Counted(o, a, k)), ArchEnd(x, a),
                y, Suffix(Counted(o, b, k)), ArchEnd(y, b));
  }

  lemma CompareArchs(o: Options, s: string, t: string, pipes: nat, x: nat, a: Arch, y: nat, b: Arch, k: bool)
    requires pipes <= 3 && AtArch(o, s, x, a, k) && AtArch(o, t, y, b, k)
    ensures ArchsCompare(o, s, t, pipes, x, a, y, b, k)
  {
    match (a, b)
    case (All, All) => SameArch(o, s, t, pipes, x, a, y, k);
    case (I386, I386) => SameArch(o, s, t, pipes, x, a, y, k);
    case (Amd64, Amd64) => SameArch(o, s, t, pipes, x, a, y, k);
    case (All, I386) => AllBeforeI386(o, s, t, pipes, x, y, k);
    case (All, Amd64) => AllBeforeAmd64(o, s, t, pipes, x, y, k);
    case (Amd64, I386) => Amd64MeetsI386(o, s, t, pipes, x, y, k);
    case (I386, All) =>
      AllBeforeI386(o, t, s, pipes, y, x, k);
      ArchsFlip(o, s, t, pipes, x, a, y, b, k);
    case (Amd64, All) =>
      AllBeforeAmd64(o, t, s, pipes, y, x, k);
      ArchsFlip(o, s, t, pipes, x, a, y, b, k);
    case (I386, Amd64) =>
      Amd64MeetsI386(o, t, s, pipes, y, x, k);
      ArchsFlip(o, s, t, pipes, x, a, y, b, k);
  }

  /** Position x of s, behind character prev, holds the rest p of a file name up to its architecture a. */
  predicate AtName(o: Options, s: string, x: nat, prev: char, p: string, a: Arch, k: bool) {
    && 0 < x && x + |p| + 2 < |s| && s[x - 1] == prev
    && Has(s, x, p) && AtArch(o, s, x + |p|, a, k) && '|' !in p && Safe(prev, p)
  }

  function NameKey(o: Options, p: string, a: Arch, k: bool): string {
    p + Suffix(Counted(o, a, k))
  }

  function NameEnd(x: nat, p: string, a: Arch): nat {
    ArchEnd(x + |p|, a)
  }

  predicate NamesCompare(o: Options, s: string, t: string, pipes: nat, x: nat, p: string, a: Arch, k: bool,
                         y: nat, q: string, b: Arch, l: bool)
    requires pipes <= 3
  {
    Decides(o, s, t, pipes, x, NameKey(o, p, a, k), NameEnd(x, p, a), y, NameKey(o, q, b, l), NameEnd(y, q, b))
  }

  function FirstDiffer(c: char, d: char): Verdict {
    if c < d then Less else Greater
  }

  /** Different characters decide unless they begin the two architectures. */
  lemma CharsDiffer(o: Options, s: string, t: string, pipes: nat, x: nat, y: nat)
    requires pipes <= 3 && x < |s| && y < |t| && s[x] != t[y]
    requires !(s[x] == 'a' && t[y] == 'i' && 0 < x && s[x - 1] == '_')
    requires !(t[y] == 'a' && s[x] == 'i' && 0 < y && t[y - 1] == '_')
    ensures Compared(o, s, t, pipes, x, y) == FirstDiffer(s[x], t[y])
  {
    ArchStarts(s, x, t, y);
    ArchStarts(t, y, s, x);
  }

  lemma ArchStarts(s: string, x: nat, t: string, y: nat)
    requires x < |s| && y < |t|
    ensures ArchDiffers(s, x, t, y) ==> 0 < x && s[x - 1] == '_' && s[x] == 'a' && t[y] == 'i'
  {
    if ArchDiffers(s, x, t, y) {
      HasPart(s, x - 1, "_amd64", 0, 2);
      HasPart(t, y, "i386", 0, 1);
    }
  }

  lemma OneChar(o: Options, s: string, t: string, pipes: nat, x: nat, y: nat)
    requires pipes <= 3 && x < |s| && y < |t| && s[x] == t[y] != '|'
    ensures Compared(o, s, t, pipes, x, y) == Compared(o, s, t, pipes, x + 1, y + 1)
  {
  }

  lemma NameStarts(o: Options, s: string, x: nat, prev: char, p: string, a: Arch, k: bool)
    requires AtName(o, s, x, prev, p, a, k) && p != ""
    ensures s[x] == p[0] != '|' && (s[x - 1] == '_' ==> s[x] < 'a' || 'i' < s[x])
  {
    HasPart(s, x, p, 0, 1);
  }

  lemma LexChars(u: string, v: string)
    requires u != "" && v != "" && u[0] != v[0]
    ensures Lex(u, v) == FirstDiffer(u[0], v[0])
  {
  }

  lemma SuffixStarts(s: string, x: nat, a: Arch)
    requires Has(s, x, Suffix(a))
    ensures s[x] == '_' && s[x + 1] == Suffix(a)[1] && s[x + 1] in "ai"
  {
    HasPart(s, x, Suffix(a), 0, 2);
  }

  /** An architecture against a name that goes on with something else. */
  lemma ArchMeetsName(o: Options, s: string, t: string, pipes: nat, x: nat, c: char, a: Arch, k: bool,
                      y: nat, d: char, q: string, b: Arch, l: bool)
    requires pipes <= 3 && AtName(o, s, x, c, "", a, k)
    requires AtName(o, t, y, d, q, b, l) && q != ""
    ensures NamesCompare(o, s, t, pipes, x, "", a, k, y, q, b, l)
  {
    var u, v := NameKey(o, "", a, k), NameKey(o, q, b, l);
    ArchChars(o, s, x, c, a, k);
    NameStarts(o, t, y, d, q, b, l);
    assert v[0] == q[0];
    var ex, ey := NameEnd(x, "", a), NameEnd(y, q, b);
    if q[0] != '_' {
      FirstDecides(o, s, t, pipes, x, u, ex, y, v, ey);
    } else {
      SecondChars(o, t, y, d, q, b, l);
      SecondDecides(o, s, t, pipes, x, u, ex, y, v, ey);
    }
  }

  lemma FirstDecides(o: Options, s: string, t: string, pipes: nat, x: nat, u: string, ex: nat,
                     y: nat, v: string, ey: nat)
    requires pipes <= 3 && x < |s| && y < |t| && u != "" && v != "" && u[0] != v[0]
    requires s[x] == u[0] == '_' && t[y] == v[0]
    ensures Decides(o, s, t, pipes, x, u, ex, y, v, ey)
  {
    CharsDiffer(o, s, t, pipes, x, y);
    LexChars(u, v);
  }

  lemma SecondDecides(o: Options, s: string, t: string, pipes: nat, x: nat, u: string, ex: nat,
                      y: nat, v: string, ey: nat)
    requires pipes <= 3 && x + 1 < |s| && y + 1 < |t| && |u| > 1 && |v| > 1
    requires s[x] == u[0] == t[y] == v[0] == '_' && t[y + 1] == v[1]
    requires s[x + 1] in "ai" && u[1] in "ai" && (t[y + 1] < 'a' || 'i' < t[y + 1])
    ensures Decides(o, s, t, pipes, x, u, ex, y, v, ey)
  {
    OneChar(o, s, t, pipes, x, y);
    CharsDiffer(o, s, t, pipes, x + 1, y + 1);
    assert u == ['_'] + u[1..] && v == ['_'] + v[1..];
    LexRun(['_'], u[1..], v[1..]);
    LexChars(u[1..], v[1..]);
  }

  lemma ArchChars(o: Options, s: string, x: nat, c: char, a: Arch, k: bool)
    requires AtName(o, s, x, c, "", a, k)
    ensures var u := NameKey(o, "", a, k);
      && |u| > 1 && s[x] == '_' == u[0] && s[x + 1] in "ai" && u[1] in "ai"
  {
    SuffixStarts(s, x, a);
  }

  lemma SecondChars(o: Options, t: string, y: nat, prev: char, q: string, b: Arch, l: bool)
    requires AtName(o, t, y, prev, q, b, l) && q != "" && q[0] == '_'
    ensures |NameKey(o, q, b, l)| > 1 && t[y + 1] == NameKey(o, q, b, l)[1]
    ensures t[y + 1] < 'a' || 'i' < t[y + 1]
  {
    if |q| > 1 {
      AtNameNext(o, t, y, prev, q, b, l);
      NameStarts(o, t, y + 1, q[0], q[1..], b, l);
    } else {
      SuffixStarts(t, y + |q|, b);
    }
  }

  lemma NamesFlip(o: Options, s: string, t: string, pipes: nat, x: nat, p: string, a: Arch, k: bool,
                  y: nat, q: string, b: Arch, l: bool)
    requires pipes <= 3 && NamesCompare(o, t, s, pipes, y, q, b, l, x, p, a, k)
    ensures NamesCompare(o, s, t, pipes, x, p, a, k, y, q, b, l)
  {
    DecidesFlip(o, s, t, pipes, x, NameKey(o, p, a, k), NameEnd(x, p, a), y, NameKey(o, q, b, l), NameEnd(y, q, b));
  }

  lemma NamesDiffer(o: Options, s: string, t: string, pipes: nat, x: nat, c: char, p: string, a: Arch, k: bool,
                    y: nat, d: char, q: string, b: Arch, l: bool)
    requires pipes <= 3 && AtName(o, s, x, c, p, a, k) && AtName(o, t, y, d, q, b, l)
    requires p != "" && q != "" && p[0] != q[0]
    ensures NamesCompare(o, s, t, pipes, x, p, a, k, y, q, b, l)
  {
    NameStarts(o, s, x, c, p, a, k);
    NameStarts(o, t, y, d, q, b, l);
    CharsDiffer(o, s, t, pipes, x, y);
    LexChars(NameKey(o, p, a, k), NameKey(o, q, b, l));
  }

  lemma AtNameNext(o: Options, s: string, x: nat, c: char, p: string, a: Arch, k: bool)
    requires AtName(o, s, x, c, p, a, k) && p != ""
    ensures AtName(o, s, x + 1, p[0], p[1..], a, k)
  {
    HasPart(s, x, p, 0, 1);
    HasRest(s, x, p);
    RestIsPlain(c, p);
  }

  lemma RestIsPlain(c: char, p: string)
    requires p != "" && '|' !in p && Safe(c, p)
    ensures |p[1..]| == |p| - 1 && '|' !in p[1..] && Safe(p[0], p[1..])
  {
  }

  lemma HasRest(s: string, x: nat, w: string)
    requires Has(s, x, w) && w != ""
    ensures Has(s, x + 1, w[1..])
  {
    HasPart(s, x, w, 1, |w|);
    assert w[1..|w|] == w[1..];
  }

  /** Two file names or pool paths compare like their keys; files of the same name must agree on being a kernel. */
  lemma {:induction false} CompareNames(o: Options, s: string, t: string, pipes: nat,
                                        x: nat, c: char, p: string, a: Arch, k: bool,
                                        y: nat, d: char, q: string, b: Arch, l: bool)
    requires pipes <= 3 && AtName(o, s, x, c, p, a, k) && AtName(o, t, y, d, q, b, l)
    requires p == q ==> k == l
    ensures NamesCompare(o, s, t, pipes, x, p, a, k, y, q, b, l)
    decreases |p|
  {
    if p == "" && q == "" {
      BothAtArch(o, s, t, pipes, x, c, a, y, d, b, k);
    } else if p == "" {
      ArchMeetsName(o, s, t, pipes, x, c, a, k, y, d, q, b, l);
    } else if q == "" {
      ArchMeetsName(o, t, s, pipes, y, d, b, l, x, c, p, a, k);
      NamesFlip(o, s, t, pipes, x, p, a, k, y, q, b, l);
    } else if p[0] != q[0] {
      NamesDiffer(o, s, t, pipes, x, c, p, a, k, y, d, q, b, l);
    } else {
      AtNameNext(o, s, x, c, p, a, k);
      AtNameNext(o, t, y, d, q, b, l);
      SameRest(p, q);
      CompareNames(o, s, t, pipes, x + 1, p[0], p[1..], a, k, y + 1, q[0], q[1..], b, l);
      SameFirst(o, s, t, pipes, x, c, p, a, k, y, d, q, b, l);
    }
  }

  lemma SameRest(p: string, q: string)
    requires p != "" && q != "" && p[0] == q[0]
    ensures p[1..] == q[1..] ==> p == q
  {
    assert p == [p[0]] + p[1..] && q == [q[0]] + q[1..];
  }

  lemma SameFirst(o: Options, s: string, t: string, pipes: nat,
                  x: nat, c: char, p: string, a: Arch, k: bool,
                  y: nat, d: char, q: string, b: Arch, l: bool)
    requires pipes <= 3 && AtName(o, s, x, c, p, a, k) && AtName(o, t, y, d, q, b, l)
    requires p != "" && q != "" && p[0] == q[0]
    requires NamesCompare(o, s, t, pipes, x + 1, p[1..], a, k, y + 1, q[1..], b, l)
    ensures NamesCompare(o, s, t, pipes, x, p, a, k, y, q, b, l)
  {
    NameStarts(o, s, x, c, p, a, k);
    NameStarts(o, t, y, d, q, b, l);
    NamesStep(o, s, t, pipes, x, p, a, k, y, q, b, l);
  }

  lemma BothAtArch(o: Options, s: string, t: string, pipes: nat, x: nat, c: char, a: Arch,
                   y: nat, d: char, b: Arch, k: bool)
    requires pipes <= 3 && AtName(o, s, x, c, "", a, k) && AtName(o, t, y, d, "", b, k)
    ensures NamesCompare(o, s, t, pipes, x, "", a, k, y, "", b, k)
  {
    CompareArchs(o, s, t, pipes, x, a, y, b, k);
    NoName(o, a, k);
    NoName(o, b, k);
  }

  lemma NoName(o: Options, a: Arch, k: bool)
    ensures NameKey(o, "", a, k) == Suffix(Counted(o, a, k))
  {
  }

  lemma NameKeyFirst(o: Options, p: string, a: Arch, k: bool)
    requires p != ""
    ensures NameKey(o, p, a, k) == [p[0]] + NameKey(o, p[1..], a, k)
  {
  }

  lemma NamesStep(o: Options, s: string, t: string, pipes: nat, x: nat, p: string, a: Arch, k: bool,
                  y: nat, q: string, b: Arch, l: bool)
    requires pipes <= 3 && p != "" && q != "" && p[0] == q[0]
    requires x < |s| && y < |t| && s[x] == t[y] != '|'
    requires NamesCompare(o, s, t, pipes, x + 1, p[1..], a, k, y + 1, q[1..], b, l)
    ensures NamesCompare(o, s, t, pipes, x, p, a, k, y, q, b, l)
  {
    NameKeyFirst(o, p, a, k);
    NameKeyFirst(o, q, b, l);
    NameEndNext(x, p, a);
    NameEndNext(y, q, b);
    DecidesStep(o, s, t, pipes, p[0], x, NameKey(o, p[1..], a, k), NameEnd(x, p, a),
                y, NameKey(o, q[1..], b, l), NameEnd(y, q, b));
  }

  lemma NameEndNext(x: nat, p: string, a: Arch)
    requires p != ""
    ensures NameEnd(x + 1, p[1..], a) == NameEnd(x, p, a)
  {
  }

  /** Position x of s, behind character prev, holds the rest u of a section. */
  predicate AtSection(s: string, x: nat, prev: char, u: string) {
    0 < x && x + |u| < |s| && s[x - 1] == prev && Has(s, x, u) && s[x + |u|] == '|'
    && '|' !in u && Safe(prev, u)
  }

  lemma SectionStarts(s: string, x: nat, prev: char, u: string)
    requires AtSection(s, x, prev, u)
    ensures s[x] == (u + "|")[0] && (s[x] == '|' <==> u == "")
    ensures s[x - 1] == '_' ==> s[x] < 'a' || 'i' < s[x]
    ensures u != "" ==> AtSection(s, x + 1, u[0], u[1..]) && u + "|" == [u[0]] + (u[1..] + "|")
  {
    HasPart(s, x, u, 0, |u|);
    if u != "" {
      HasPart(s, x, u, 1, |u|);
      assert u[1..|u|] == u[1..];
    }
  }

  lemma {:induction false} CompareSections(o: Options, s: string, t: string, x: nat, c: char, u: string,
                                           y: nat, d: char, v: string)
    requires AtSection(s, x, c, u) && AtSection(t, y, d, v)
    ensures Compared(o, s, t, 3, x, y) == Lex(u + "|", v + "|")
    decreases |u|
  {
    SectionStarts(s, x, c, u);
    SectionStarts(t, y, d, v);
    if s[x] != t[y] {
      CharsDiffer(o, s, t, 3, x, y);
      LexChars(u + "|", v + "|");
    } else if u != "" {
      OneChar(o, s, t, 3, x, y);
      CompareSections(o, s, t, x + 1, u[0], u[1..], y + 1, v[0], v[1..]);
      LexRun([u[0]], u[1..] + "|", v[1..] + "|");
    } else {
      assert v == "";
    }
  }

  lemma {:induction false} SafeJoined(prev: char, u: string, v: string)
    requires Safe(prev, u) && Safe('/', v)
    ensures Safe(prev, u + "/" + v)
    decreases |u|
  {
    if u == "" {
      assert u + "/" + v == ['/'] + v;
    } else {
      SafeJoined(u[0], u[1..], v);
      assert (u + "/" + v)[1..] == u[1..] + "/" + v;
    }
  }

  function FileAt(p: Package): nat { 1 + |p.dir| }
  function ArchAt(p: Package): nat { FileAt(p) + 1 + |p.stem| }
  function SectionAt(p: Package): nat { ArchEnd(ArchAt(p), p.arch) + 1 }

  /** Where the parts of a line lie. */
  predicate Placed(p: Package, s: string) {
    && SectionAt(p) + |p.section| < |s|
    && s[0] == '|' && Has(s, 1, p.dir) && Has(s, FileAt(p), "/" + p.stem)
    && Has(s, ArchAt(p), Suffix(p.arch))
    && Has(s, SectionAt(p), p.section) && s[SectionAt(p) + |p.section|] == '|'
  }

  lemma HeadPlaced(p: Package, rest: string)
    ensures Placed(p, Head(p) + rest)
  {
    var stem := "|" + p.dir + "/" + p.stem;
    StemPlaced(p, stem);
    HasInHead(stem, 1, p.dir, Suffix(p.arch), p.section, rest);
    HasInHead(stem, FileAt(p), "/" + p.stem, Suffix(p.arch), p.section, rest);
    ArchPlaced(stem, Suffix(p.arch), p.section, rest);
    SectionIn(stem + Suffix(p.arch), p.section, rest);
    assert Head(p) + rest == stem + Suffix(p.arch) + p.section + "|" + rest;
  }

  lemma StemPlaced(p: Package, stem: string)
    requires stem == "|" + p.dir + "/" + p.stem
    ensures |stem| == ArchAt(p) && Has(stem, 1, p.dir) && Has(stem, FileAt(p), "/" + p.stem)
  {
    HasEnd("|", p.dir);
    Sequences.Regroup("|" + p.dir, "/", p.stem);
    HasEnd("|" + p.dir, "/" + p.stem);
    HasLonger("|" + p.dir, 1, p.dir, "/" + p.stem);
  }

  lemma ArchPlaced(stem: string, arch: string, section: string, rest: string)
    ensures Has(stem + arch + section + "|" + rest, |stem|, arch)
  {
    HasEnd(stem, arch);
    HasLonger(stem + arch, |stem|, arch, section);
    HasLonger(stem + arch + section, |stem|, arch, "|");
    HasLonger(stem + arch + section + "|", |stem|, arch, rest);
  }

  lemma SectionIn(front: string, section: string, rest: string)
    ensures Has(front + section + "|" + rest, |front|, section)
    ensures |front| + |section| < |front + section + "|" + rest|
    ensures (front + section + "|" + rest)[|front| + |section|] == '|'
  {
    HasEnd(front, section);
    HasLonger(front + section, |front|, section, "|");
    HasLonger(front + section + "|", |front|, section, rest);
    BarAt(front + section, rest);
  }

  lemma HasEnd(s: string, w: string)
    ensures Has(s + w, |s|, w)
  {
  }

  lemma HasLonger(s: string, x: nat, w: string, more: string)
    requires Has(s, x, w)
    ensures Has(s + more, x, w)
  {
  }

  lemma HasInHead(s: string, x: nat, w: string, arch: string, section: string, rest: string)
    requires Has(s, x, w)
    ensures Has(s + arch + section + "|" + rest, x, w)
  {
    HasLonger(s, x, w, arch);
    HasLonger(s + arch, x, w, section);
    HasLonger(s + arch + section, x, w, "|");
    HasLonger(s + arch + section + "|", x, w, rest);
  }

  lemma BarAt(s: string, rest: string)
    ensures (s + "|" + rest)[|s|] == '|'
  {
  }

  lemma NoCharIn(s: string, x: nat, w: string, c: char)
    requires Has(s, x, w) && c !in w
    ensures forall i :: x <= i < x + |w| ==> s[i] != c
  {
    HasPart(s, x, w, 0, |w|);
    forall i | x <= i < x + |w|
      ensures s[i] != c
    {
      assert s[x + (i - x)] == w[i - x];
    }
  }

  lemma SuffixScan(s: string, x: nat, a: Arch)
    requires Has(s, x, Suffix(a))
    ensures forall i :: x <= i < ArchEnd(x, a) ==> s[i] != '|' && s[i] != '/'
    ensures s[ArchEnd(x, a)] == '|'
  {
    HasPart(s, x, Suffix(a), 0, |Suffix(a)|);
    forall i | x <= i < ArchEnd(x, a)
      ensures s[i] != '|' && s[i] != '/'
    {
      assert s[x + (i - x)] == Suffix(a)[i - x];
    }
  }

  lemma SlashFirst(u: string)
    ensures ("/" + u)[0] == '/' && ("/" + u)[1..1 + |u|] == u == ("/" + u)[1..]
  {
    Sequences.Parts("/", u);
  }

  lemma StemScan(p: Package, s: string)
    requires WellFormed(p) && Placed(p, s)
    ensures s[FileAt(p)] == '/'
    ensures forall i :: FileAt(p) < i < ArchAt(p) ==> s[i] != '|' && s[i] != '/'
  {
    HasPart(s, FileAt(p), "/" + p.stem, 1, 1 + |p.stem|);
    SlashFirst(p.stem);
    NoCharIn(s, FileAt(p) + 1, p.stem, '/');
    NoCharIn(s, FileAt(p) + 1, p.stem, '|');
  }

  /** No field end lies within the pool path, and its last slash begins the file name. */
  lemma PathScans(p: Package, s: string)
    requires WellFormed(p) && Placed(p, s)
    ensures forall i :: 1 <= i < SectionAt(p) - 1 ==> s[i] != '|'
    ensures s[SectionAt(p) - 1] == '|' && s[FileAt(p)] == '/'
    ensures forall i :: FileAt(p) < i < SectionAt(p) ==> s[i] != '/'
  {
    NoCharIn(s, 1, p.dir, '|');
    StemScan(p, s);
    SuffixScan(s, ArchAt(p), p.arch);
    ScansJoin(s, FileAt(p), ArchAt(p), SectionAt(p));
  }

  lemma ScansJoin(s: string, file: nat, arch: nat, section: nat)
    requires 1 <= file < arch < section <= |s| && s[file] == '/'
    requires forall i :: 1 <= i < file ==> s[i] != '|'
    requires forall i :: file < i < arch ==> s[i] != '|' && s[i] != '/'
    requires forall i :: arch <= i < section - 1 ==> s[i] != '|' && s[i] != '/'
    requires s[section - 1] == '|'
    ensures forall i :: 1 <= i < section - 1 ==> s[i] != '|'
    ensures forall i :: file < i < section ==> s[i] != '/'
  {
  }

  lemma Seeks(p: Package, s: string)
    requires WellFormed(p) && Placed(p, s)
    ensures Back(s, FieldEnd(s, 0)) == FileAt(p)
    ensures Back(s, ArchAt(p) + 1) == FileAt(p)
    ensures FieldStart(s, SectionAt(p) - 1) == 1
  {
    PathScans(p, s);
    var end := SectionAt(p) - 1;
    assert FileAt(p) <= ArchAt(p) + 1 < end < |s|;
    SeeksIn(s, FileAt(p), ArchAt(p) + 1, end);
  }

  lemma SeeksIn(s: string, file: nat, arch: nat, end: nat)
    requires 1 <= file <= arch < end < |s| && s[file] == '/' && s[end] == '|'
    requires forall i :: 1 <= i < end ==> s[i] != '|'
    requires forall i :: file < i <= end ==> s[i] != '/'
    ensures Back(s, FieldEnd(s, 0)) == file && Back(s, arch) == file && FieldStart(s, end) == 1
  {
    EndIs(s, 0, end - 1);
    BackIs(s, end - 1, file);
    BackIs(s, arch, file);
    StartIs(s, end);
  }

  lemma {:induction false} EndIs(s: string, x: nat, at: nat)
    requires x <= at && at + 1 < |s| && s[at + 1] == '|' && forall i :: x < i <= at ==> s[i] != '|'
    ensures FieldEnd(s, x) == at
    decreases at - x
  {
    if x < at {
      EndIs(s, x + 1, at);
    }
  }

  lemma {:induction false} BackIs(s: string, x: nat, at: nat)
    requires at <= x < |s| && s[at] == '/' && forall i :: at < i <= x ==> s[i] != '/'
    ensures Back(s, x) == at
    decreases x
  {
    if at < x {
      BackIs(s, x - 1, at);
    }
  }

  lemma {:induction false} StartIs(s: string, x: nat)
    requires 1 <= x < |s| && forall i :: 1 <= i < x ==> s[i] != '|'
    ensures FieldStart(s, x) == 1
    decreases x
  {
    if x > 1 {
      StartIs(s, x - 1);
    }
  }

  lemma FileIsName(o: Options, p: Package, s: string)
    requires WellFormed(p) && Placed(p, s)
    ensures AtName(o, s, FileAt(p), s[FileAt(p) - 1], "/" + p.stem, p.arch, Kernel(o, p))
  {
    ArchIsNamed(o, p, s);
    assert ("/" + p.stem)[1..] == p.stem;
  }

  lemma PathIsName(o: Options, p: Package, s: string)
    requires WellFormed(p) && Placed(p, s)
    ensures AtName(o, s, 1, '|', p.dir + "/" + p.stem, p.arch, Kernel(o, p))
  {
    ArchIsNamed(o, p, s);
    SafeJoined('|', p.dir, p.stem);
    HasBoth(s, 1, p.dir, "/" + p.stem);
    Sequences.Regroup(p.dir, "/", p.stem);
  }

  lemma HasBoth(s: string, x: nat, u: string, v: string)
    requires Has(s, x, u) && Has(s, x + |u|, v)
    ensures Has(s, x, u + v)
  {
    Sequences.CutAt(s, x, x + |u|, x + |u| + |v|);
  }

  lemma ArchIsNamed(o: Options, p: Package, s: string)
    requires WellFormed(p) && Placed(p, s)
    ensures AtArch(o, s, ArchAt(p), p.arch, Kernel(o, p))
  {
    if p.arch == Amd64 {
      Seeks(p, s);
      Amd64Name();
      HasFront(s, ArchAt(p), "_amd64", ".deb|");
      HasBoth(s, FileAt(p), "/" + p.stem, "_amd64");
      KernelName(s, FileAt(p), p.stem);
    }
  }

  lemma Amd64Name()
    ensures Suffix(Amd64) == "_amd64" + ".deb|"
  {
  }

  lemma KernelName(s: string, x: nat, stem: string)
    requires Has(s, x, "/" + stem + "_amd64")
    ensures x + |stem| + 7 <= |s| && s[x..x + |stem| + 7] == "/" + stem + "_amd64"
  {
    assert |"/" + stem + "_amd64"| == |stem| + 7;
  }

  lemma SectionPlaced(p: Package, s: string)
    requires WellFormed(p) && Placed(p, s)
    ensures AtSection(s, SectionAt(p), '|', p.section)
  {
    PathScans(p, s);
  }

  lemma LastSlash(u: string, v: string)
    requires '/' !in v
    ensures (u + "/" + v)[|u|] == '/'
    ensures forall i :: |u| < i < |u + "/" + v| ==> (u + "/" + v)[i] != '/'
  {
  }

  lemma SameStem(u: string, v: string, w: string, z: string)
    requires '/' !in v && '/' !in z && u + "/" + v == w + "/" + z
    ensures u == w && v == z
  {
    var a, b := u + "/" + v, w + "/" + z;
    LastSlash(u, v);
    LastSlash(w, z);
    assert |u| == |w|;
    assert a[..|u|] == u && b[..|u|] == w;
    assert a[|u| + 1..] == v && b[|u| + 1..] == z;
  }

  lemma AtFirstPipe(o: Options, s: string, p: Package, t: string, q: Package)
    requires WellFormed(p) && WellFormed(q) && Placed(p, s) && Placed(q, t)
    ensures Compared(o, s, t, 0, 0, 0) == Compared(o, s, t, 1, FileAt(p), FileAt(q))
  {
    Seeks(p, s);
    Seeks(q, t);
  }

  lemma AtSecondPipe(o: Options, s: string, p: Package, t: string, q: Package)
    requires WellFormed(p) && WellFormed(q) && Placed(p, s) && Placed(q, t)
    ensures Compared(o, s, t, 1, SectionAt(p) - 1, SectionAt(q) - 1) == Compared(o, s, t, 2, 1, 1)
  {
    Seeks(p, s);
    Seeks(q, t);
    PathScans(p, s);
    PathScans(q, t);
  }

  lemma AtThirdPipe(o: Options, s: string, p: Package, t: string, q: Package)
    requires WellFormed(p) && WellFormed(q) && Placed(p, s) && Placed(q, t)
    ensures Compared(o, s, t, 2, SectionAt(p) - 1, SectionAt(q) - 1) ==
            Compared(o, s, t, 3, SectionAt(p), SectionAt(q))
  {
    PathScans(p, s);
    PathScans(q, t);
  }

  /** The rest u of a pool path from position x on. */
  ghost predicate PathFrom(o: Options, p: Package, s: string, x: nat, u: string) {
    && 0 < x && x + |u| == ArchAt(p) && x - 1 < |s|
    && AtName(o, s, x, s[x - 1], u, p.arch, Kernel(o, p))
  }

  lemma ComparePaths(o: Options, s: string, t: string, pipes: nat, p: Package, x: nat, u: string,
                     q: Package, y: nat, v: string)
    requires pipes <= 3 && PathFrom(o, p, s, x, u) && PathFrom(o, q, t, y, v)
    requires u == v ==> p.stem == q.stem
    ensures Decides(o, s, t, pipes, x, NameKey(o, u, p.arch, Kernel(o, p)), SectionAt(p) - 1,
                    y, NameKey(o, v, q.arch, Kernel(o, q)), SectionAt(q) - 1)
  {
    PathEnd(o, p, s, x, u);
    PathEnd(o, q, t, y, v);
    CompareNames(o, s, t, pipes, x, s[x - 1], u, p.arch, Kernel(o, p), y, t[y - 1], v, q.arch, Kernel(o, q));
  }

  lemma PathEnd(o: Options, p: Package, s: string, x: nat, u: string)
    requires PathFrom(o, p, s, x, u)
    ensures NameEnd(x, u, p.arch) == SectionAt(p) - 1
  {
  }

  lemma CompareFiles(o: Options, s: string, p: Package, t: string, q: Package)
    requires WellFormed(p) && WellFormed(q) && Placed(p, s) && Placed(q, t)
    ensures Decides(o, s, t, 1, FileAt(p), FileKey(o, p), SectionAt(p) - 1, FileAt(q), FileKey(o, q), SectionAt(q) - 1)
  {
    FileIsName(o, p, s);
    FileIsName(o, q, t);
    SameTail(p.stem, q.stem);
    ComparePaths(o, s, t, 1, p, FileAt(p), "/" + p.stem, q, FileAt(q), "/" + q.stem);
  }

  lemma SameTail(u: string, v: string)
    ensures "/" + u == "/" + v ==> u == v
  {
    assert ("/" + u)[1..] == u && ("/" + v)[1..] == v;
  }

  lemma ComparePools(o: Options, s: string, p: Package, t: string, q: Package)
    requires WellFormed(p) && WellFormed(q) && Placed(p, s) && Placed(q, t)
    ensures Decides(o, s, t, 2, 1, p.dir + FileKey(o, p), SectionAt(p) - 1, 1, q.dir + FileKey(o, q), SectionAt(q) - 1)
  {
    var u, v := p.dir + "/" + p.stem, q.dir + "/" + q.stem;
    PathIsName(o, p, s);
    PathIsName(o, q, t);
    if u == v {
      SameStem(p.dir, p.stem, q.dir, q.stem);
    }
    ComparePaths(o, s, t, 2, p, 1, u, q, 1, v);
    PoolKey(o, p);
    PoolKey(o, q);
  }

  lemma PoolKey(o: Options, p: Package)
    ensures NameKey(o, p.dir + "/" + p.stem, p.arch, Kernel(o, p)) == p.dir + FileKey(o, p)
  {
  }

  /** The backward-seeking comparison of raw lines is the order of their keys, whatever data follows the lines. */
  lemma ComparedIsOrder(o: Options, p: Package, rest: string, q: Package, more: string)
    requires WellFormed(p) && WellFormed(q)
    ensures Compared(o, Head(p) + rest, Head(q) + more, 0, 0, 0) == Order(o, p, q)
  {
    var s, t := Head(p) + rest, Head(q) + more;
    HeadPlaced(p, rest);
    HeadPlaced(q, more);
    AtFirstPipe(o, s, p, t, q);
    CompareFiles(o, s, p, t, q);
    AtSecondPipe(o, s, p, t, q);
    ComparePools(o, s, p, t, q);
    AtThirdPipe(o, s, p, t, q);
    SectionPlaced(p, s);
    SectionPlaced(q, t);
    CompareSections(o, s, t, SectionAt(p), '|', p.section, SectionAt(q), '|', q.section);
  }

  /** The order is a total preorder; lines tie exactly if they agree on section, pool path and counted architecture. */
  lemma OrderIsTotalPreorder(o: Options, p: Package, q: Package, r: Package)
    requires '/' !in p.stem && '/' !in q.stem
    ensures Order(o, p, q) != Panic && Order(o, q, p) == Order(o, p, q).Flip()
    ensures Order(o, p, q) == Equal <==> SameKeys(o, p, q)
    ensures Chain(Order(o, p, q), Order(o, q, r), Order(o, p, r))
  {
    OrderFlips(o, p, q);
    OrderChains(o, p, q, r);
    SuffixesDiffer("/" + p.stem, Counted(o, p.arch, Kernel(o, p)), "/" + q.stem, Counted(o, q.arch, Kernel(o, q)));
    SameTail(p.stem, q.stem);
    SamePrefix(p.dir, q.dir, FileKey(o, p));
  }

  lemma SamePrefix(u: string, v: string, w: string)
    ensures u + w == v + w ==> u == v
  {
    assert (u + w)[..|u|] == u && (v + w)[..|v|] == v;
  }

  lemma SuffixesDiffer(u: string, a: Arch, v: string, b: Arch)
    ensures u + Suffix(a) == v + Suffix(b) ==> u == v && a == b
  {
    var s, t := u + Suffix(a), v + Suffix(b);
    if s == t {
      assert s[|s| - 6] == Suffix(a)[|Suffix(a)| - 6];
      assert t[|t| - 6] == Suffix(b)[|Suffix(b)| - 6];
      assert a == b;
      SamePrefix(u, v, Suffix(a));
    }
  }

  predicate SameKeys(o: Options, p: Package, q: Package) {
    && p.dir == q.dir && p.stem == q.stem && p.section == q.section
    && Counted(o, p.arch, Kernel(o, p)) == Counted(o, q.arch, Kernel(o, q))
  }

  lemma OrderFlips(o: Options, p: Package, q: Package)
    ensures Order(o, q, p) == Order(o, p, q).Flip()
    ensures Order(o, p, q) == Equal <==>
      FileKey(o, p) == FileKey(o, q) && p.dir + FileKey(o, p) == q.dir + FileKey(o, q) && p.section == q.section
    ensures Order(o, p, q) != Panic
  {
    LexFlips(FileKey(o, p), FileKey(o, q));
    LexFlips(p.dir + FileKey(o, p), q.dir + FileKey(o, q));
    LexFlips(p.section + "|", q.section + "|");
    if p.section + "|" == q.section + "|" {
      assert (p.section + "|")[..|p.section|] == p.section;
      assert (q.section + "|")[..|q.section|] == q.section;
    }
  }

  /** The verdicts on p and q, on q and r, and on p and r fit together. */
  predicate Chain(pq: Verdict, qr: Verdict, pr: Verdict) {
    pq != Greater && qr != Greater ==> pr != Greater && (pq == Less || qr == Less ==> pr == Less)
  }

  lemma LexChains(u: string, v: string, w: string)
    ensures Chain(Lex(u, v), Lex(v, w), Lex(u, w))
  {
    if Lex(u, v) != Greater && Lex(v, w) != Greater {
      LexTransitive(u, v, w);
    }
  }

  lemma ThenChains(u: string, v: string, w: string, pq: Verdict, qr: Verdict, pr: Verdict)
    requires Chain(pq, qr, pr)
    ensures Chain(Lex(u, v).Then(pq), Lex(v, w).Then(qr), Lex(u, w).Then(pr))
  {
    LexChains(u, v, w);
    LexFlips(u, v);
    LexFlips(v, w);
    LexFlips(u, w);
  }

  lemma OrderChains(o: Options, p: Package, q: Package, r: Package)
    ensures Chain(Order(o, p, q), Order(o, q, r), Order(o, p, r))
  {
    var a, b, c := FileKey(o, p), FileKey(o, q), FileKey(o, r);
    var x, y, z := p.section + "|", q.section + "|", r.section + "|";
    LexChains(x, y, z);
    ThenChains(p.dir + a, q.dir + b, r.dir + c, Lex(x, y), Lex(y, z), Lex(x, z));
    var pq := Lex(p.dir + a, q.dir + b).Then(Lex(x, y));
    var qr := Lex(q.dir + b, r.dir + c).Then(Lex(y, z));
    var pr := Lex(p.dir + a, r.dir + c).Then(Lex(x, z));
    ThenChains(a, b, c, pq, qr, pr);
  }

  /** What follows the underscore of a line whose architecture has the given name. */
  function ArchText(w: string): string {
    w + ".deb|s|"
  }

  function OtherLine(w: string): string {
    "|/x_" + ArchText(w)
  }

  /** The text is greater than the word, or less, at some byte of the word. */
  ghost predicate GreaterAt(text: string, word: string, k: nat) {
    k < |word| && k < |text| && text[..k] == word[..k] && text[k] > word[k]
  }

  ghost predicate LessAt(text: string, word: string, k: nat) {
    k < |word| && k < |text| && text[..k] == word[..k] && text[k] < word[k]
  }

  /** The name of an architecture that comes after amd64 and before i386, like armhf or hppa. */
  ghost predicate Between(w: string) {
    && '|' !in w && '/' !in w
    && (exists k: nat :: GreaterAt(ArchText(w), "amd64", k)) && (exists k: nat :: LessAt(ArchText(w), "i386", k))
  }

  function ShortLine(a: Arch): string { Head(Package("", "x", a, "s")) + "" }

  /** The comparison of two such lines begins at position 1, where both file names start alike. */
  predicate StartsAtOne(s: string) {
    |s| > 5 && s[0] == '|' && Back(s, FieldEnd(s, 0)) == 1 && Has(s, 1, "/x_")
  }

  lemma FromOne(o: Options, s: string, t: string)
    requires StartsAtOne(s) && StartsAtOne(t)
    ensures Compared(o, s, t, 0, 0, 0) == Compared(o, s, t, 1, 4, 4)
  {
    assert Compared(o, s, t, 0, 0, 0) == Compared(o, s, t, 1, 1, 1);
    ComparedRun(o, s, t, 1, 1, 1, "/x_");
  }

  lemma OtherStarts(w: string)
    requires '|' !in w && '/' !in w
    ensures StartsAtOne(OtherLine(w)) && Has(OtherLine(w), 4, ArchText(w))
  {
    var s, at := OtherLine(w), |w| + 7;
    OtherChars(w);
    HasEnd("|/x_", ArchText(w));
    EndIs(s, 0, at);
    BackIs(s, at, 1);
  }

  lemma OtherChars(w: string)
    requires '|' !in w && '/' !in w
    ensures var s := OtherLine(w);
      && |s| == |w| + 11 && s[0] == '|' && Has(s, 1, "/x_") && s[|w| + 8] == '|'
      && forall i :: 2 <= i <= |w| + 7 ==> s[i] != '|' && s[i] != '/'
  {
    var s := OtherLine(w);
    assert s == "|/x_" + w + ".deb|s|" by {
      Sequences.Regroup("|/x_", w, ".deb|s|");
    }
    assert forall i :: 4 <= i < 4 + |w| ==> s[i] == w[i - 4];
    assert forall i :: 4 + |w| <= i < |s| ==> s[i] == ".deb|s|"[i - 4 - |w|];
  }

  lemma ShortLineStarts(a: Arch)
    ensures StartsAtOne(ShortLine(a)) && Has(ShortLine(a), 4, Suffix(a)[1..])
  {
    ShortLinePlaced(a, ShortLine(a));
    HasPart(ShortLine(a), 3, Suffix(a), 0, 1);
    HasPart(ShortLine(a), 3, Suffix(a), 1, |Suffix(a)|);
    HasSnoc(ShortLine(a), 1, "/x", '_');
    assert "/x" + ['_'] == "/x_";
    assert Suffix(a)[1..] == Suffix(a)[1..|Suffix(a)|];
  }

  lemma ShortLinePlaced(a: Arch, s: string)
    requires s == ShortLine(a)
    ensures |s| > 5 && s[0] == '|' && Back(s, FieldEnd(s, 0)) == 1 && Has(s, 1, "/x") && Has(s, 3, Suffix(a))
  {
    var p := Package("", "x", a, "s");
    HeadPlaced(p, "");
    Seeks(p, s);
    assert "/" + "x" == "/x";
  }

  lemma HasSnoc(s: string, x: nat, w: string, c: char)
    requires Has(s, x, w) && x + |w| < |s| && s[x + |w|] == c
    ensures Has(s, x, w + [c])
  {
  }

  /** The first byte that differs decides if it does not begin the two architectures. */
  lemma SmallerAt(o: Options, s: string, t: string, x: nat, y: nat, u: string)
    requires Has(s, x, u) && Has(t, y, u) && '|' !in u && x + |u| < |s| && y + |u| < |t|
    requires s[x + |u|] < t[y + |u|] && !ArchDiffers(s, x + |u|, t, y + |u|)
    ensures Compared(o, s, t, 1, x, y) == Less
  {
    ComparedRun(o, s, t, 1, x, y, u);
  }

  lemma HasChars(s: string, x: nat, w: string, k: nat)
    requires Has(s, x, w) && k < |w|
    ensures Has(s, x, w[..k]) && x + k < |s| && s[x + k] == w[k]
  {
    HasPart(s, x, w, 0, k);
    assert w[0..k] == w[..k];
  }

  /** A text that differs from a word does not begin with it. */
  lemma NotTheWord(t: string, y: nat, text: string, word: string, k: nat)
    requires Has(t, y, text) && k < |word| && k < |text| && text[k] != word[k]
    ensures !Has(t, y, word)
  {
    HasChars(t, y, text, k);
    HasNot(t, y, word, k);
  }

  lemma ShortNames()
    ensures Has(ShortLine(Amd64), 4, "amd64") && Has(ShortLine(I386), 4, "i386")
  {
    ShortLineStarts(Amd64);
    ShortLineStarts(I386);
    SuffixNames();
    HasFront(ShortLine(Amd64), 4, "amd64", ".deb|");
    HasFront(ShortLine(I386), 4, "i386", ".deb|");
  }

  lemma SuffixNames()
    ensures Suffix(Amd64)[1..] == "amd64" + ".deb|" && Suffix(I386)[1..] == "i386" + ".deb|"
  {
  }

  lemma PlainNames()
    ensures '|' !in "amd64" && '_' !in "amd64" && '|' !in "i386" && '_' !in "i386"
  {
  }

  lemma HasFront(s: string, x: nat, u: string, v: string)
    requires Has(s, x, u + v)
    ensures Has(s, x, u)
  {
    HasPart(s, x, u + v, 0, |u|);
    assert (u + v)[0..|u|] == u;
  }

  lemma GreaterCompares(o: Options, s: string, t: string, word: string, text: string, k: nat)
    requires Has(s, 4, word) && Has(t, 4, text) && GreaterAt(text, word, k) && '|' !in word
    requires !ArchDiffers(s, 4 + k, t, 4 + k)
    ensures Compared(o, s, t, 1, 4, 4) == Less
  {
    HasChars(s, 4, word, k);
    HasChars(t, 4, text, k);
    SmallerAt(o, s, t, 4, 4, text[..k]);
  }

  lemma LessCompares(o: Options, s: string, t: string, word: string, text: string, k: nat)
    requires Has(s, 4, text) && Has(t, 4, word) && LessAt(text, word, k) && '|' !in word
    requires !ArchDiffers(s, 4 + k, t, 4 + k)
    ensures Compared(o, s, t, 1, 4, 4) == Less
  {
    HasChars(s, 4, text, k);
    HasChars(t, 4, word, k);
    SmallerAt(o, s, t, 4, 4, text[..k]);
  }

  /** Behind a byte that is no underscore no architecture begins. */
  lemma NoArchAt(s: string, x: nat)
    requires x < |s| && s[x] != '_'
    ensures !Has(s, x, "_amd64")
  {
    assert "_amd64"[0] == '_';
    HasNot(s, x, "_amd64", 0);
  }

  /** At the byte that decides, the second line does not have i386 behind an underscore. */
  lemma NotInside(s: string, t: string, word: string, text: string, k: nat, j: nat)
    requires Has(s, 4, word) && '_' !in word && k < |word|
    requires Has(t, 4, text) && LessAt(text, "i386", j)
    ensures !ArchDiffers(s, 4 + k, t, 4 + k)
  {
    if k == 0 {
      NotTheWord(t, 4, text, "i386", j);
    } else {
      HasChars(s, 4, word, k - 1);
      NoArchAt(s, 3 + k);
    }
  }

  lemma Amd64BeforeOther(o: Options, w: string)
    requires Between(w)
    ensures Compared(o, ShortLine(Amd64), OtherLine(w), 0, 0, 0) == Less
  {
    ShortNames();
    PlainNames();
    ShortLineStarts(Amd64);
    OtherStarts(w);
    var k: nat :| GreaterAt(ArchText(w), "amd64", k);
    var j: nat :| LessAt(ArchText(w), "i386", j);
    var s, t := ShortLine(Amd64), OtherLine(w);
    assert StartsAtOne(s) && StartsAtOne(t);
    LinesLess(o, s, t, "amd64", ArchText(w), k, j);
  }

  lemma LinesLess(o: Options, s: string, t: string, word: string, text: string, k: nat, j: nat)
    requires StartsAtOne(s) && StartsAtOne(t) && Has(s, 4, word) && Has(t, 4, text) && '|' !in word && '_' !in word
    requires GreaterAt(text, word, k) && LessAt(text, "i386", j)
    ensures Compared(o, s, t, 0, 0, 0) == Less
  {
    FromOne(o, s, t);
    NotInside(s, t, word, text, k, j);
    GreaterCompares(o, s, t, word, text, k);
  }

  /** At the byte that decides, the first line does not have amd64 behind an underscore. */
  lemma OtherInside(s: string, t: string, text: string, word: string, k: nat, j: nat)
    requires Has(s, 4, text) && LessAt(text, word, k) && '_' !in word && GreaterAt(text, "amd64", j)
    ensures !ArchDiffers(s, 4 + k, t, 4 + k)
  {
    if k == 0 {
      HasChars(s, 4, text, j);
      assert "_amd64"[j + 1] == "amd64"[j];
      HasNot(s, 3, "_amd64", j + 1);
    } else {
      HasChars(s, 4, text, k - 1);
      assert text[k - 1] == text[..k][k - 1] == word[k - 1];
      NoArchAt(s, 3 + k);
    }
  }

  lemma OtherBeforeI386(o: Options, w: string)
    requires Between(w)
    ensures Compared(o, OtherLine(w), ShortLine(I386), 0, 0, 0) == Less
  {
    ShortNames();
    PlainNames();
    ShortLineStarts(I386);
    OtherStarts(w);
    var k: nat :| LessAt(ArchText(w), "i386", k);
    var j: nat :| GreaterAt(ArchText(w), "amd64", j);
    var s, t := OtherLine(w), ShortLine(I386);
    assert StartsAtOne(s) && StartsAtOne(t);
    LinesGreater(o, s, t, ArchText(w), "i386", k, j);
  }

  lemma LinesGreater(o: Options, s: string, t: string, text: string, word: string, k: nat, j: nat)
    requires StartsAtOne(s) && StartsAtOne(t) && Has(s, 4, text) && Has(t, 4, word) && '|' !in word && '_' !in word
    requires LessAt(text, word, k) && GreaterAt(text, "amd64", j)
    ensures Compared(o, s, t, 0, 0, 0) == Less
  {
    FromOne(o, s, t);
    OtherInside(s, t, text, word, k, j);
    LessCompares(o, s, t, word, text, k);
  }

  /**
   * With any further architecture between the two the comparison is no order: amd64 comes before it, and it comes
   * before i386, yet they tie.
   */
  lemma OtherArchBreaksOrder(o: Options, w: string)
    requires o.merge && !o.kernel("/x_amd64") && Between(w)
    ensures Compared(o, ShortLine(Amd64), OtherLine(w), 0, 0, 0) == Less
    ensures Compared(o, OtherLine(w), ShortLine(I386), 0, 0, 0) == Less
    ensures Compared(o, ShortLine(Amd64), ShortLine(I386), 0, 0, 0) == Equal
  {
    Amd64BeforeOther(o, w);
    OtherBeforeI386(o, w);
    Amd64TiesI386(o);
  }

  lemma ArmhfIsBetween()
    ensures Between("armhf")
  {
    var text := ArchText("armhf");
    assert text[..1] == "a" == "amd64"[..1] && text[..0] == "i386"[..0];
    assert GreaterAt(text, "amd64", 1);
    assert LessAt(text, "i386", 0);
  }

  lemma Amd64TiesI386(o: Options)
    requires o.merge && !o.kernel("/x_amd64")
    ensures Compared(o, ShortLine(Amd64), ShortLine(I386), 0, 0, 0) == Equal
  {
    var p, q := Package("", "x", Amd64, "s"), Package("", "x", I386, "s");
    ShortPackages();
    ComparedIsOrder(o, p, "", q, "");
    OrderIsTotalPreorder(o, p, q, p);
    TiedKernel(o);
  }

  lemma ShortPackages()
    ensures WellFormed(Package("", "x", Amd64, "s")) && WellFormed(Package("", "x", I386, "s"))
  {
  }

  lemma TiedKernel(o: Options)
    requires o.merge && !o.kernel("/x_amd64")
    ensures SameKeys(o, Package("", "x", Amd64, "s"), Package("", "x", I386, "s"))
  {
    assert "/" + "x" + "_amd64" == "/x_amd64";
  }

  /** The loop over both lines; list data always ends with a newline, which keeps the look-ahead in bounds. */
  method Compare(o: Options, s: string, t: string) returns (v: Verdict)
    requires s != "" && t != "" && s[|s| - 1] == t[|t| - 1] == '\n'
    ensures v == Compared(o, s, t, 0, 0, 0)
  {
    var countpipe: nat, x: nat, y: nat := 0, 0, 0;
    while x < |s| && y < |t|
      invariant countpipe <= 3
      invariant Compared(o, s, t, countpipe, x, y) == Compared(o, s, t, 0, 0, 0)
      decreases 3 - countpipe, |s| - x
    {
      if s[x] < t[y] {
        var skip := SkipArch(o, s, x, t, y);
        if !skip { return Less; }
        x, y := x + 5, y + 4;
      } else if t[y] < s[x] {
        var skip := SkipArch(o, t, y, s, x);
        if !skip { return Greater; }
        y, x := y + 5, x + 4;
      } else if s[x] != '|' {
        x, y := x + 1, y + 1;
      } else {
        countpipe := countpipe + 1;
        if countpipe == 1 {
          x := SeekFileName(s, x);
          y := SeekFileName(t, y);
        } else if countpipe == 2 {
          x := SeekFieldStart(s, x);
          y := SeekFieldStart(t, y);
        } else if countpipe == 4 {
          return Equal;
        } else {
          x, y := x + 1, y + 1;
        }
      }
    }
    return Panic;
  }

  /** Whether amd64 in s and i386 in t are to be treated as equal. */
  method SkipArch(o: Options, s: string, x: nat, t: string, y: nat) returns (skip: bool)
    requires x < |s| && y < |t| && s[|s| - 1] == t[|t| - 1] == '\n'
    ensures skip == (o.merge && ArchDiffers(s, x, t, y) && !o.kernel(s[Back(s, x)..x + 5]))
  {
    if o.merge && x > 0 && s[x - 1] == '_' {
      skip := MeetsI386(s, x, t, y);
      if skip {
        var slash := SeekBack(s, x);
        skip := !o.kernel(s[slash..x + 5]);
      }
    } else {
      ArchStarts(s, x, t, y);
      skip := false;
    }
  }

  method MeetsI386(s: string, x: nat, t: string, y: nat) returns (b: bool)
    requires 0 < x < |s| && y < |t| && s[x - 1] == '_' && s[|s| - 1] == t[|t| - 1] == '\n'
    ensures b == ArchDiffers(s, x, t, y)
  {
    b := s[x] == 'a' && t[y] == 'i' && s[x + 1] == 'm' && t[y + 1] == '3' && s[x + 2] == 'd' && t[y + 2] == '8'
      && s[x + 3] == '6' && t[y + 3] == '6' && s[x + 4] == '4';
    if b {
      assert s[x - 1..x + 5] == "_amd64" && t[y..y + 4] == "i386";
    } else if ArchDiffers(s, x, t, y) {
      ArchLetters(s, x, t, y);
    }
  }

  lemma ArchLetters(s: string, x: nat, t: string, y: nat)
    requires ArchDiffers(s, x, t, y)
    ensures s[x] == 'a' && s[x + 1] == 'm' && s[x + 2] == 'd' && s[x + 3] == '6' && s[x + 4] == '4'
    ensures t[y] == 'i' && t[y + 1] == '3' && t[y + 2] == '8' && t[y + 3] == '6'
  {
    var a, i := s[x - 1..x + 5], t[y..y + 4];
    assert a[1] == s[x] && a[2] == s[x + 1] && a[3] == s[x + 2] && a[4] == s[x + 3] && a[5] == s[x + 4];
    assert i[0] == t[y] && i[1] == t[y + 1] && i[2] == t[y + 2] && i[3] == t[y + 3];
  }

  method SeekBack(s: string, x: nat) returns (r: nat)
    requires x < |s|
    ensures r == Back(s, x)
  {
    r := x;
    while r > 0 && s[r] != '/'
      invariant r <= x && Back(s, r) == Back(s, x)
    {
      r := r - 1;
    }
  }

  /** From the first '|' forward to the end of the pool path and back to its last slash. */
  method SeekFileName(s: string, x: nat) returns (r: nat)
    requires x < |s|
    ensures r == Back(s, FieldEnd(s, x))
  {
    r := x;
    while r + 1 < |s| && s[r + 1] != '|'
      invariant x <= r < |s| && FieldEnd(s, r) == FieldEnd(s, x)
    {
      r := r + 1;
    }
    r := SeekBack(s, r);
  }

  method SeekFieldStart(s: string, x: nat) returns (r: nat)
    requires x < |s|
    ensures r == FieldStart(s, x)
  {
    r := x;
    while r > 1 && s[r - 1] != '|'
      invariant r <= x && FieldStart(s, r) == FieldStart(s, x)
    {
      r := r - 1;
    }
  }
}
