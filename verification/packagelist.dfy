/**
 * A package list: the bytes of its lines and the offset of each line. Only the offsets are reordered
 * by sorting; raw data read from the cache is chopped into lines without looking into the bitmaps.
 */
module PackageLists {
  import opened Common
  import opened Bits
  import opened ByteSearch
  import opened PackageLines
  import Sequences

  datatype Outcome = Done | ReadFailed | Panicked

  /** A stored line: only its last byte behind the bitmap is a newline. */
  predicate RawLine(l: string) {
    && RPBYTES < |l| && l[|l| - 1] == '\n'
    && forall i :: RPBYTES <= i < |l| - 1 ==> l[i] != '\n'
  }

  predicate LineStarts(data: string, ofs: nat) {
    ofs < |data| && Find(data, ofs + RPBYTES, '\n').Some?
  }

  function LineAt(data: string, ofs: nat): (l: string)
    requires LineStarts(data, ofs)
    ensures RawLine(l)
  {
    data[ofs..Find(data, ofs + RPBYTES, '\n').value + 1]
  }

  predicate AllStart(data: string, ofs: seq<nat>) {
    forall i :: 0 <= i < |ofs| ==> LineStarts(data, ofs[i])
  }

  function LinesAt(data: string, ofs: seq<nat>): (ls: seq<string>)
    requires AllStart(data, ofs)
    ensures |ls| == |ofs|
    ensures forall i :: 0 <= i < |ofs| ==> ls[i] == LineAt(data, ofs[i])
  {
    if ofs == [] then [] else LinesAt(data, ofs[..|ofs| - 1]) + [LineAt(data, ofs[|ofs| - 1])]
  }

  function Joined(lines: seq<string>): string {
    if lines == [] then "" else Joined(lines[..|lines| - 1]) + lines[|lines| - 1]
  }

  /** The lines that raw data consists of, unless its last line is too short to hold a bitmap. */
  function Chop(t: string): Option<seq<string>> {
    if t == "" then Some([])
    else
      match Find(t, RPBYTES, '\n')
      case None => None
      case Some(e) =>
        match Chop(t[e + 1..])
        case None => None
        case Some(ls) => Some([t[..e + 1]] + ls)
  }

  lemma {:induction false} JoinedFirst(l: string, lines: seq<string>)
    ensures Joined([l] + lines) == l + Joined(lines)
  {
    var all := [l] + lines;
    if lines == [] {
      assert all[..0] == [];
    } else {
      assert all[..|all| - 1] == [l] + lines[..|lines| - 1];
      JoinedFirst(l, lines[..|lines| - 1]);
    }
  }

  /** Writing lines and chopping them again rebuilds the same lines. */
  lemma {:induction false} ChopJoined(lines: seq<string>)
    requires AllRaw(lines)
    ensures Chop(Joined(lines)) == Some(lines)
  {
    if lines != [] {
      var l, rest := lines[0], lines[1..];
      assert lines == [l] + rest;
      JoinedFirst(l, rest);
      ChopJoined(rest);
      var t := l + Joined(rest);
      FindIs(t, RPBYTES, '\n', |l| - 1);
      assert t[|l|..] == Joined(rest);
      assert t[..|l|] == l;
    }
  }

  predicate AllRaw(lines: seq<string>) {
    forall i :: 0 <= i < |lines| ==> RawLine(lines[i])
  }

  lemma AllRawCons(l: string, lines: seq<string>)
    requires RawLine(l) && AllRaw(lines)
    ensures AllRaw([l] + lines)
  {
    forall i | 0 <= i < |[l] + lines|
      ensures RawLine(([l] + lines)[i])
    {
      assert i > 0 ==> ([l] + lines)[i] == lines[i - 1];
    }
  }

  /** Chopping loses nothing: the lines are well formed and joined they are the data. */
  lemma {:induction false} JoinedChop(t: string)
    requires Chop(t).Some?
    ensures Joined(Chop(t).value) == t && AllRaw(Chop(t).value)
    decreases |t|
  {
    if t != "" {
      var e := Find(t, RPBYTES, '\n').value;
      var rest := Chop(t[e + 1..]).value;
      JoinedChop(t[e + 1..]);
      assert Chop(t).value == [t[..e + 1]] + rest;
      JoinedFirst(t[..e + 1], rest);
      assert t == t[..e + 1] + t[e + 1..];
      FirstIsRaw(t, e);
      AllRawCons(t[..e + 1], rest);
    }
  }

  lemma FirstIsRaw(t: string, e: nat)
    requires Find(t, RPBYTES, '\n') == Some(e)
    ensures RawLine(t[..e + 1])
  {
  }

  lemma LineAtExtends(data: string, more: string, ofs: nat)
    requires LineStarts(data, ofs)
    ensures LineStarts(data + more, ofs) && LineAt(data + more, ofs) == LineAt(data, ofs)
  {
    FindIs(data + more, ofs + RPBYTES, '\n', Find(data, ofs + RPBYTES, '\n').value);
  }

  lemma {:induction false} LinesAtExtends(data: string, more: string, ofs: seq<nat>)
    requires AllStart(data, ofs)
    ensures AllStart(data + more, ofs) && LinesAt(data + more, ofs) == LinesAt(data, ofs)
  {
    forall i | 0 <= i < |ofs|
      ensures LineStarts(data + more, ofs[i]) && LineAt(data + more, ofs[i]) == LineAt(data, ofs[i])
    {
      LineAtExtends(data, more, ofs[i]);
    }
  }

  /** A line that holds a whole entry is read the same way inside a list as on its own. */
  lemma ParseInPlace(data: string, ofs: nat)
    requires LineStarts(data, ofs) && Parse(LineAt(data, ofs)).Fields?
    ensures Parse(data[ofs..]) == Parse(LineAt(data, ofs))
  {
    ParseInFront(data, ofs, Find(data, ofs + RPBYTES, '\n').value + 1);
  }

  lemma ParseInFront(data: string, from: nat, to: nat)
    requires from <= to <= |data| && Parse(data[from..to]).Fields?
    ensures Parse(data[from..]) == Parse(data[from..to])
  {
    ParseExtends(data[from..to], data[to..]);
    CutOff(data, from, to);
  }

  lemma CutOff(data: string, from: nat, to: nat)
    requires from <= to <= |data|
    ensures data[from..] == data[from..to] + data[to..]
  {
  }

  class PackageList {
    var data: string
    var lineOfs: seq<nat>

    ghost predicate Valid()
      reads this
    {
      AllStart(data, lineOfs) && Terminated(data) == data
    }

    ghost function Lines(): seq<string>
      requires Valid()
      reads this
    {
      LinesAt(data, lineOfs)
    }

    constructor ()
      ensures Valid() && Lines() == []
    {
      data, lineOfs := "", [];
    }

    method Append(r: Record)
      requires Valid()
      modifies this
      ensures Valid()
      ensures data == old(data) + Line(r) && lineOfs == old(lineOfs) + [|old(data)|]
      ensures RawLine(Line(r)) ==> Lines() == old(Lines()) + [Line(r)]
    {
      var rpbytes := BytesOf(r.bitmap);
      ghost var before, offsets := data, lineOfs;
      lineOfs := lineOfs + [|data|];
      data := data + rpbytes;
      data := data + "|" + r.path;
      data := data + "|" + r.section;
      data := data + "|" + r.description;
      data := data + "|" + r.templates;
      data := data + "\n";
      LineBehind(before, rpbytes, r.path, r.section, r.description, r.templates);
      AppendedLine(before, offsets, r);
    }

    /** The fields of entry i; the source returns zero values when there is none. */
    method Get(i: nat) returns (e: Entry)
      requires Valid()
      ensures e == if i < |lineOfs| then Parse(data[lineOfs[i]..]) else Fields(Record(0, "", "", "", ""))
    {
      if i >= |lineOfs| {
        return Fields(Record(0, "", "", "", ""));
      }
      e := ReadEntry(data[lineOfs[i]..]);
    }

    /** The lines in their current order. */
    method WriteTo() returns (out: string)
      requires Valid()
      ensures out == Joined(Lines())
    {
      out := "";
      for i := 0 to |lineOfs|
        invariant out == Joined(Lines()[..i])
      {
        var l := LineOf(i);
        assert Lines()[..i + 1][..i] == Lines()[..i];
        out := out + l;
      }
      assert Lines()[..|lineOfs|] == Lines();
    }

    method LineOf(i: nat) returns (l: string)
      requires Valid() && i < |lineOfs|
      ensures l == Lines()[i]
    {
      var end := Seek(data, lineOfs[i] + RPBYTES, '\n');
      l := data[lineOfs[i]..end.value + 1];
    }

    /** Appends raw lines; a read that fails leaves the list as it was. */
    method AppendRaw(text: string, failed: bool) returns (outcome: Outcome)
      requires Valid()
      modifies this
      ensures outcome == if failed then ReadFailed else if Chop(Terminated(text)).None? then Panicked else Done
      ensures outcome == ReadFailed ==> data == old(data) && lineOfs == old(lineOfs)
      ensures outcome == Done ==> Valid() && Lines() == old(Lines()) + Chop(Terminated(text)).value
    {
      var nextOfs := |data|;
      data := data + text;
      if failed {
        data := data[..nextOfs];
        return ReadFailed;
      }
      if |data| == nextOfs {
        assert data == old(data);
        return Done;
      }
      assert data[..nextOfs] == old(data) && data[nextOfs..] == text;
      outcome := AddRead(nextOfs);
    }

    /** Registers newly read data as lines, the last of which may lack its newline. */
    method AddRead(nextOfs: nat) returns (outcome: Outcome)
      requires nextOfs < |data| && AllStart(data[..nextOfs], lineOfs)
      modifies this
      ensures outcome == if Chop(Terminated(old(data[nextOfs..]))).None? then Panicked else Done
      ensures outcome == Done ==> Valid()
      ensures outcome == Done ==>
        Lines() == LinesAt(old(data[..nextOfs]), old(lineOfs)) + Chop(Terminated(old(data[nextOfs..]))).value
    {
      ghost var before, text := data[..nextOfs], Terminated(data[nextOfs..]);
      TerminatedAll(data, nextOfs);
      Terminate();
      LinesAtExtends(before, text, lineOfs);
      outcome := AddLines(nextOfs);
    }

    /** Adds the newline that the last line may lack. */
    method Terminate()
      requires data != ""
      modifies this`data
      ensures data == Terminated(old(data))
    {
      if data[|data| - 1] != '\n' {
        data := data + "\n";
      }
    }

    /** Registers the line that starts at the given offset and returns the offset behind it. */
    method AddLine(start: nat) returns (next: Option<nat>)
      requires Valid() && start < |data|
      modifies this`lineOfs
      ensures next.None? ==> Chop(data[start..]) == None
      ensures next.Some? ==> start < next.value <= |data| && Valid()
      ensures next.Some? ==> Lines() == old(Lines()) + [data[start..next.value]]
      ensures next.Some? ==>
        Chop(data[start..]) == Preceded([data[start..next.value]], Chop(data[next.value..]))
    {
      var end := Seek(data, start + RPBYTES, '\n');
      if end.None? {
        ChopFails(data, start);
        return None;
      }
      var to := end.value + 1;
      assert end == Some(to - 1);
      LineFound(data, lineOfs, start, to);
      lineOfs := lineOfs + [start];
      return Some(to);
    }

    /** Registers the lines of data from the given offset on. */
    method AddLines(from: nat) returns (outcome: Outcome)
      requires Valid() && from <= |data|
      modifies this`lineOfs
      ensures outcome == if Chop(data[from..]).None? then Panicked else Done
      ensures outcome == Done ==> Valid() && Lines() == old(Lines()) + Chop(data[from..]).value
    {
      var nextOfs := from;
      ghost var found: seq<string>, goal, lines := [], Chop(data[from..]), Lines();
      PrecededNone(goal);
      while nextOfs < |data|
        invariant from <= nextOfs <= |data|
        invariant Valid() && Lines() == lines + found && goal == Preceded(found, Chop(data[nextOfs..]))
        decreases |data| - nextOfs
      {
        var next;
        next, found := AddNext(nextOfs, goal, lines, found);
        if next.None? {
          return Panicked;
        }
        nextOfs := next.value;
      }
      return Done;
    }

    /** Registers one more line of those that are to be found. */
    method AddNext(start: nat, ghost goal: Option<seq<string>>, ghost lines: seq<string>, ghost found: seq<string>)
        returns (next: Option<nat>, ghost more: seq<string>)
      requires Valid() && start < |data| && Lines() == lines + found && goal == Preceded(found, Chop(data[start..]))
      modifies this`lineOfs
      ensures next.None? ==> goal == None
      ensures next.Some? ==> start < next.value <= |data| && Valid() && Lines() == lines + more
      ensures next.Some? ==> goal == Preceded(more, Chop(data[next.value..]))
    {
      next := AddLine(start);
      more := found;
      if next.Some? {
        more := found + [data[start..next.value]];
        PrecededSnoc(found, data[start..next.value], Chop(data[next.value..]));
        LinesAppended(lines, found, data[start..next.value]);
      }
    }
  }

  /** The little-endian bytes of a bitmap. */
  method BytesOf(bitmap: nat) returns (rpbytes: string)
    ensures rpbytes == BitmapBytes(bitmap, RPBYTES)
  {
    rpbytes := "";
    var rpb := bitmap;
    for i := 0 to RPBYTES
      invariant BitmapBytes(bitmap, RPBYTES) == rpbytes + BitmapBytes(rpb, RPBYTES - i)
    {
      rpbytes := rpbytes + [(rpb % 256) as char];
      rpb := rpb / 256;
    }
  }

  lemma LineBehind(before: string, b: string, p: string, s: string, d: string, t: string)
    ensures before + b + "|" + p + "|" + s + "|" + d + "|" + t + "\n"
      == before + (b + "|" + p + "|" + s + "|" + d + "|" + t + "\n")
  {
    FieldBehind(before, b, p);
    FieldBehind(before, b + "|" + p, s);
    FieldBehind(before, b + "|" + p + "|" + s, d);
    FieldBehind(before, b + "|" + p + "|" + s + "|" + d, t);
    Sequences.Regroup(before, b + "|" + p + "|" + s + "|" + d + "|" + t, "\n");
  }

  lemma FieldBehind(before: string, line: string, field: string)
    ensures before + line + "|" + field == before + (line + "|" + field)
  {
    Sequences.Regroup(before, line, "|");
    Sequences.Regroup(before, line + "|", field);
  }

  /** A missing newline at the end is added; no data stays no data. */
  function Terminated(text: string): string {
    if text == "" || text[|text| - 1] == '\n' then text else text + "\n"
  }

  lemma TerminatedAll(data: string, from: nat)
    requires from < |data|
    ensures var all, text := Terminated(data), Terminated(data[from..]);
      all == data[..from] + text && all[from..] == text && Terminated(all) == all && |all| >= |data|
  {
    assert data == data[..from] + data[from..];
    assert data[from..][|data| - from - 1] == data[|data| - 1];
  }

  function Preceded(found: seq<string>, rest: Option<seq<string>>): Option<seq<string>> {
    match rest
    case None => None
    case Some(ls) => Some(found + ls)
  }

  lemma PrecededNone(rest: Option<seq<string>>)
    ensures Preceded([], rest) == rest
  {
    if rest.Some? {
      assert [] + rest.value == rest.value;
    }
  }

  lemma LinesAppended(lines: seq<string>, found: seq<string>, l: string)
    ensures (lines + found) + [l] == lines + (found + [l])
  {
  }

  lemma PrecededSnoc(found: seq<string>, l: string, rest: Option<seq<string>>)
    ensures Preceded(found, Preceded([l], rest)) == Preceded(found + [l], rest)
  {
    if rest.Some? {
      assert found + ([l] + rest.value) == (found + [l]) + rest.value;
    }
  }

  lemma ChopFails(data: string, start: nat)
    requires start < |data|
    requires forall i :: start + RPBYTES <= i < |data| ==> data[i] != '\n'
    ensures Chop(data[start..]) == None
  {
    var t := data[start..];
    assert forall i :: RPBYTES <= i < |t| ==> t[i] == data[start + i];
  }

  lemma ChopStep(data: string, start: nat, end: nat)
    requires start + RPBYTES < end <= |data| && data[end - 1] == '\n'
    requires forall i :: start + RPBYTES <= i < end - 1 ==> data[i] != '\n'
    ensures LineStarts(data, start) && LineAt(data, start) == data[start..end]
    ensures Chop(data[start..]) == Preceded([data[start..end]], Chop(data[end..]))
  {
    FindIs(data, start + RPBYTES, '\n', end - 1);
    FindInRest(data, start, end);
    ChopFirst(data[start..], end - start);
    RestParts(data, start, end);
  }

  lemma FindInRest(data: string, start: nat, end: nat)
    requires start + RPBYTES < end <= |data| && data[end - 1] == '\n'
    requires forall i :: start + RPBYTES <= i < end - 1 ==> data[i] != '\n'
    ensures Find(data[start..], RPBYTES, '\n') == Some(end - start - 1)
  {
    var t := data[start..];
    assert forall i :: 0 <= i < |t| ==> t[i] == data[start + i];
    FindIs(t, RPBYTES, '\n', end - start - 1);
  }

  lemma ChopFirst(t: string, n: nat)
    requires 0 < n <= |t| && Find(t, RPBYTES, '\n') == Some(n - 1)
    ensures Chop(t) == Preceded([t[..n]], Chop(t[n..]))
  {
  }

  lemma RestParts(data: string, start: nat, end: nat)
    requires start <= end <= |data|
    ensures data[start..][..end - start] == data[start..end] && data[start..][end - start..] == data[end..]
  {
  }

  lemma LineFound(data: string, ofs: seq<nat>, start: nat, end: nat)
    requires AllStart(data, ofs) && start + RPBYTES < end <= |data| && Find(data, start + RPBYTES, '\n') == Some(end - 1)
    ensures AllStart(data, ofs + [start])
    ensures LinesAt(data, ofs + [start]) == LinesAt(data, ofs) + [data[start..end]]
    ensures Chop(data[start..]) == Preceded([data[start..end]], Chop(data[end..]))
  {
    ChopStep(data, start, end);
    LinesAtSnoc(data, ofs, start);
  }

  lemma LinesAtSnoc(data: string, ofs: seq<nat>, start: nat)
    requires AllStart(data, ofs) && LineStarts(data, start)
    ensures AllStart(data, ofs + [start])
    ensures LinesAt(data, ofs + [start]) == LinesAt(data, ofs) + [LineAt(data, start)]
  {
  }

  lemma AppendedLine(data: string, ofs: seq<nat>, r: Record)
    requires AllStart(data, ofs)
    ensures AllStart(data + Line(r), ofs + [|data|])
    ensures RawLine(Line(r)) ==> LinesAt(data + Line(r), ofs + [|data|]) == LinesAt(data, ofs) + [Line(r)]
  {
    LinesAtExtends(data, Line(r), ofs);
    LineIsTerminated(data, Line(r));
    LinesAtSnoc(data + Line(r), ofs, |data|);
  }

  lemma LineIsTerminated(data: string, l: string)
    requires RPBYTES < |l| && l[|l| - 1] == '\n'
    ensures LineStarts(data + l, |data|)
    ensures RawLine(l) ==> LineAt(data + l, |data|) == l
  {
    var all := data + l;
    assert all[|all| - 1] == '\n';
    if RawLine(l) {
      FindIs(all, |data| + RPBYTES, '\n', |all| - 1);
      assert all[|data|..|all|] == l;
    }
  }

  /** Reads one entry, scanning for the end mark of each field in turn. */
  method ReadEntry(d: string) returns (e: Entry)
    ensures e == Parse(d)
  {
    if |d| < RPBYTES + 1 || d[RPBYTES] != '|' {
      return Malformed;
    }
    var bitmap := ReadBitmap(d[..RPBYTES]);
    var ok, p, s, x, t := SeekFields(d);
    if !ok {
      return Panic;
    }
    ParseLayout(d, p, s, x, t);
    e := Fields(Record(bitmap, d[RPBYTES + 1..p], d[p + 1..s], d[s + 1..x], d[x + 1..t]));
  }

  /** The ends of the four fields, unless the data ends before them. */
  method SeekFields(d: string) returns (ok: bool, p: nat, s: nat, x: nat, t: nat)
    requires RPBYTES < |d| && d[RPBYTES] == '|'
    ensures if ok then Layout(d, p, s, x, t) else Parse(d) == Panic
  {
    ok, p, s, x, t := false, 0, 0, 0, 0;
    var at := Seek(d, RPBYTES + 1, '|');
    if at.None? { return; }
    p := at.value;
    at := Seek(d, p + 1, '|');
    if at.None? { return; }
    s := at.value;
    at := Seek(d, s + 1, '|');
    if at.None? { return; }
    x := at.value;
    at := Seek(d, x + 1, '\n');
    if at.None? { return; }
    ok, t := true, at.value;
  }

  method ReadBitmap(rpbytes: string) returns (bitmap: nat)
    ensures bitmap == Value(rpbytes)
  {
    bitmap := 0;
    for i := 0 to |rpbytes|
      invariant bitmap == Value(rpbytes[..i])
    {
      assert rpbytes[..i + 1][..i] == rpbytes[..i];
      bitmap := Or(bitmap, (rpbytes[i] as nat) * Pow2(8 * i));
    }
    assert rpbytes[..|rpbytes|] == rpbytes;
  }

  /** Opens the cache file's data; an unterminated file counts as empty and an empty one is out of range. */
  method OpenMapped(data: string) returns (outcome: Outcome, list: PackageList)
    ensures outcome == if data == "" || (data[|data| - 1] == '\n' && Chop(data).None?) then Panicked else Done
    ensures outcome == Done ==> list.Valid()
    ensures outcome == Done ==> list.Lines() == if data[|data| - 1] != '\n' then [] else Chop(data).value
  {
    list := new PackageList();
    if |data| == 0 {
      return Panicked, list;
    }
    if data[|data| - 1] != '\n' {
      return Done, list;
    }
    list.data := data;
    assert data[0..] == data;
    outcome := list.AddLines(0);
  }
}
