/**
 * The line format of package lists. A byte is modelled as a char below 256.
 *
 * Every line holds the eight little-endian bytes of a repository path bitmap, four fields introduced
 * by '|' and a newline. The bitmap bytes are arbitrary: they may well be a newline or a pipe.
 */
module PackageLines {
  import opened Common
  import opened Bits
  import opened ByteSearch

  const RPBYTES := 8

  datatype Record = Record(bitmap: nat, path: string, section: string, description: string, templates: string)

  /** What reading an entry gives; Panic is an index out of range. */
  datatype Entry = Fields(record: Record) | Malformed | Panic

  /** The n little-endian bytes of a bitmap. */
  function BitmapBytes(bitmap: nat, n: nat): (s: string)
    ensures |s| == n
  {
    if n == 0 then "" else [(bitmap % 256) as char] + BitmapBytes(bitmap / 256, n - 1)
  }

  /** The little-endian bytes, each shifted to its place and combined with bitwise or. */
  function Value(s: string): nat {
    if s == "" then 0 else Or(Value(s[..|s| - 1]), (s[|s| - 1] as nat) * Pow2(8 * (|s| - 1)))
  }

  function Line(r: Record): string {
    BitmapBytes(r.bitmap, RPBYTES) + "|" + r.path + "|" + r.section + "|" + r.description + "|" + r.templates + "\n"
  }

  /** Splits the bytes at the start of a list's data into the fields of its first entry. */
  function Parse(d: string): Entry {
    if |d| < RPBYTES + 1 || d[RPBYTES] != '|' then Malformed
    else
      match Find(d, RPBYTES + 1, '|')
      case None => Panic
      case Some(p) =>
        match Find(d, p + 1, '|')
        case None => Panic
        case Some(s) =>
          match Find(d, s + 1, '|')
          case None => Panic
          case Some(e) =>
            match Find(d, e + 1, '\n')
            case None => Panic
            case Some(t) =>
              Fields(Record(Value(d[..RPBYTES]), d[RPBYTES + 1..p], d[p + 1..s], d[s + 1..e], d[e + 1..t]))
  }

  predicate Storable(r: Record) {
    '|' !in r.path && '|' !in r.section && '|' !in r.description && '\n' !in r.templates
  }

  predicate IsBytes(s: string) {
    forall i :: 0 <= i < |s| ==> s[i] as nat < 256
  }

  lemma {:induction false} BitmapBytesAreBytes(bitmap: nat, n: nat)
    ensures IsBytes(BitmapBytes(bitmap, n))
    decreases n
  {
    if n > 0 {
      BitmapBytesAreBytes(bitmap / 256, n - 1);
    }
  }

  lemma Pow2Byte(k: nat)
    ensures Pow2(8 * (k + 1)) == 256 * Pow2(8 * k)
  {
    Pow2Adds(8, 8 * k);
    assert Pow2(8) == 256;
  }

  /** A byte put above n others fills bits 8n to 8n+7. */
  lemma PutByte(low: nat, byte: nat, n: nat)
    requires low < Pow2(8 * n) && byte < 256
    ensures Or(low, byte * Pow2(8 * n)) == low + byte * Pow2(8 * n) < Pow2(8 * (n + 1))
  {
    OrShifted(low, byte, 8 * n);
    Pow2Byte(n);
    AtMost(byte, 255, Pow2(8 * n));
  }

  lemma AtMost(a: nat, b: nat, p: nat)
    requires a <= b
    ensures a * p <= b * p
  {
  }

  lemma DropByte(a: nat, p: nat)
    requires a < 256 * p
    ensures a / 256 < p
  {
  }

  lemma {:induction false} ValueBounded(s: string)
    requires IsBytes(s)
    ensures Value(s) < Pow2(8 * |s|)
  {
    if s != "" {
      ValueBounded(s[..|s| - 1]);
      PutByte(Value(s[..|s| - 1]), s[|s| - 1] as nat, |s| - 1);
    }
  }

  lemma ValueSnoc(s: string, c: char)
    requires IsBytes(s) && c as nat < 256
    ensures Value(s + [c]) == Value(s) + (c as nat) * Pow2(8 * |s|)
  {
    assert (s + [c])[..|s|] == s;
    ValueBounded(s);
    PutByte(Value(s), c as nat, |s|);
  }

  lemma {:induction false} ValueFirst(c: char, s: string)
    requires c as nat < 256 && IsBytes(s)
    ensures Value([c] + s) == c as nat + 256 * Value(s)
  {
    if s == "" {
      assert [c] + s == "" + [c];
      ValueSnoc("", c);
    } else {
      var n := |s| - 1;
      var t, last := s[..n], s[n];
      assert s == t + [last];
      assert [c] + s == ([c] + t) + [last];
      ValueFirst(c, t);
      ValueSnoc(t, last);
      ValueSnoc([c] + t, last);
      ShiftByte(last as nat, n);
    }
  }

  lemma ShiftByte(byte: nat, n: nat)
    ensures byte * Pow2(8 * (n + 1)) == 256 * (byte * Pow2(8 * n))
  {
    Pow2Byte(n);
  }

  lemma {:induction false} ValueOfBytes(bitmap: nat, n: nat)
    requires bitmap < Pow2(8 * n)
    ensures Value(BitmapBytes(bitmap, n)) == bitmap
    decreases n
  {
    if n > 0 {
      Pow2Byte(n - 1);
      DropByte(bitmap, Pow2(8 * (n - 1)));
      ValueOfBytes(bitmap / 256, n - 1);
      BitmapBytesAreBytes(bitmap / 256, n - 1);
      ValueFirst((bitmap % 256) as char, BitmapBytes(bitmap / 256, n - 1));
    }
  }

  lemma FindField(d: string, from: nat, field: string, c: char, at: nat)
    requires from <= at < |d| && d[from..at] == field && d[at] == c && c !in field
    ensures Find(d, from, c) == Some(at)
  {
    forall i | from <= i < at
      ensures d[i] != c
    {
      assert d[i] == field[i - from];
    }
  }

  /** Where the fields of an entry begin and end. */
  predicate Layout(d: string, p: nat, s: nat, e: nat, t: nat) {
    && RPBYTES < |d| && d[RPBYTES] == '|'
    && Find(d, RPBYTES + 1, '|') == Some(p)
    && Find(d, p + 1, '|') == Some(s)
    && Find(d, s + 1, '|') == Some(e)
    && Find(d, e + 1, '\n') == Some(t)
  }

  lemma ParseLayout(d: string, p: nat, s: nat, e: nat, t: nat)
    requires Layout(d, p, s, e, t)
    ensures Parse(d) ==
      Fields(Record(Value(d[..RPBYTES]), d[RPBYTES + 1..p], d[p + 1..s], d[s + 1..e], d[e + 1..t]))
  {
  }

  lemma LayoutOf(d: string) returns (p: nat, s: nat, e: nat, t: nat)
    requires Parse(d).Fields?
    ensures Layout(d, p, s, e, t)
  {
    p := Find(d, RPBYTES + 1, '|').value;
    s := Find(d, p + 1, '|').value;
    e := Find(d, s + 1, '|').value;
    t := Find(d, e + 1, '\n').value;
  }

  lemma LayoutExtends(d: string, more: string, p: nat, s: nat, e: nat, t: nat)
    requires Layout(d, p, s, e, t)
    ensures Layout(d + more, p, s, e, t)
  {
    FindIs(d + more, RPBYTES + 1, '|', p);
    FindIs(d + more, p + 1, '|', s);
    FindIs(d + more, s + 1, '|', e);
    FindIs(d + more, e + 1, '\n', t);
  }

  /** What follows a complete entry does not change how it is read. */
  lemma ParseExtends(d: string, more: string)
    requires Parse(d).Fields?
    ensures Parse(d + more) == Parse(d)
  {
    var p, s, e, t := LayoutOf(d);
    LayoutExtends(d, more, p, s, e, t);
    ParseLayout(d, p, s, e, t);
    ParseLayout(d + more, p, s, e, t);
    SameSlice(d, more, 0, RPBYTES);
    SameSlice(d, more, RPBYTES + 1, p);
    SameSlice(d, more, p + 1, s);
    SameSlice(d, more, s + 1, e);
    SameSlice(d, more, e + 1, t);
  }

  lemma SameSlice(d: string, more: string, i: nat, j: nat)
    requires i <= j <= |d|
    ensures (d + more)[i..j] == d[i..j]
  {
  }

  /** An entry reads back as it was stored, whatever follows it, if and only if no field holds its own end mark. */
  lemma StorableIffRoundTrip(r: Record, rest: string)
    requires r.bitmap < WORD
    ensures Parse(Line(r) + rest) == Fields(r) <==> Storable(r)
  {
    if Storable(r) {
      RoundTrip(r, rest);
    } else if Parse(Line(r) + rest) == Fields(r) {
      var d := Line(r) + rest;
      var p, s, e, t := LayoutOf(d);
      ParseLayout(d, p, s, e, t);
      ParsedFieldsAreStorable(d);
    }
  }

  lemma ParsedFieldsAreStorable(d: string)
    requires Parse(d).Fields?
    ensures Storable(Parse(d).record)
  {
    var p, s, e, t := LayoutOf(d);
    ParseLayout(d, p, s, e, t);
  }

  lemma RoundTrip(r: Record, rest: string)
    requires r.bitmap < WORD && Storable(r)
    ensures Parse(Line(r) + rest) == Fields(r)
  {
    var d := Line(r) + rest;
    var p := RPBYTES + 1 + |r.path|;
    var s := p + 1 + |r.section|;
    var e := s + 1 + |r.description|;
    var t := e + 1 + |r.templates|;
    LineSlices(r, rest, p, s, e, t);
    SlicesLayout(d, r, p, s, e, t);
    ParseLayout(d, p, s, e, t);
    Pow2Word();
    ValueOfBytes(r.bitmap, RPBYTES);
  }

  lemma SlicesLayout(d: string, r: Record, p: nat, s: nat, e: nat, t: nat)
    requires Storable(r) && RPBYTES < p < s < e < t < |d|
    requires d[RPBYTES] == '|' && d[p] == '|' && d[s] == '|' && d[e] == '|' && d[t] == '\n'
    requires d[RPBYTES + 1..p] == r.path && d[p + 1..s] == r.section
    requires d[s + 1..e] == r.description && d[e + 1..t] == r.templates
    ensures Layout(d, p, s, e, t)
  {
    FindField(d, RPBYTES + 1, r.path, '|', p);
    FindField(d, p + 1, r.section, '|', s);
    FindField(d, s + 1, r.description, '|', e);
    FindField(d, e + 1, r.templates, '\n', t);
  }

  lemma LineSlices(r: Record, rest: string, p: nat, s: nat, e: nat, t: nat)
    requires p == RPBYTES + 1 + |r.path|
    requires s == p + 1 + |r.section|
    requires e == s + 1 + |r.description|
    requires t == e + 1 + |r.templates|
    ensures var d := Line(r) + rest;
      && t < |d| && d[RPBYTES] == '|' && d[p] == '|' && d[s] == '|' && d[e] == '|' && d[t] == '\n'
      && d[..RPBYTES] == BitmapBytes(r.bitmap, RPBYTES) && d[RPBYTES + 1..p] == r.path
      && d[p + 1..s] == r.section && d[s + 1..e] == r.description && d[e + 1..t] == r.templates
  {
  }
}
