/**
 * Reading a Packages file in chunks. The fields of the current package stay in the buffer as slices;
 * other lines are removed in place by moving the rest of the buffer down over them.
 */
module PackagesFiles {
  import opened Common
  import opened PackageLines
  import PackageLists
  import opened ByteSearch
  import Sequences

  const BUFFER := 65536
  const DESCRIPTION_BUFFER := 4096

  /** The base64 encoding, the buffer's size and the bitmap of the repository. */
  datatype Config = Config(encode: string -> string, size: nat, bitmap: nat)

  /** What is known of the package whose lines are being read. */
  datatype Pending = Pending(path: string, section: string, description: string, templates: string)

  const NOTHING := Pending("", "", "", "?")

  datatype Problem = LineTooLong | MalformedFilename | DescriptionTooLong | ReadFailed

  /** After a line: the buffer space that is in use, the package so far, and what was appended to the list. */
  datatype Step = Next(kept: nat, pending: Pending, records: seq<Record>) | Fail(problem: Problem)

  datatype Outcome = Outcome(records: seq<Record>, problem: Option<Problem>)

  predicate Blank(line: string) {
    forall i :: 0 <= i < |line| ==> line[i] <= ' '
  }

  predicate Starts(line: string, id: string) {
    |id| <= |line| && line[..|id|] == id
  }

  /** Some slash is followed by something. */
  predicate GoodPath(path: string) {
    exists i :: 0 <= i < |path| - 1 && path[i] == '/'
  }

  function Encoded(n: nat): nat {
    (n + 2) / 3 * 4
  }

  ghost predicate MentionsDebconf(line: string) {
    ByteSearch.Contains(line, "Depends:") && ByteSearch.Contains(line, "debconf")
  }

  function Finished(c: Config, p: Pending): Record {
    Record(c.bitmap, p.path, if p.section == "" then "utils" else p.section,
           if p.description == "" then c.encode("description missing") else p.description, p.templates)
  }

  ghost function StepLine(c: Config, kept: nat, p: Pending, line: string): Step {
    if Blank(line) then
      if GoodPath(p.path) then Next(0, NOTHING, [Finished(c, p)]) else Fail(MalformedFilename)
    else if Starts(line, "Section: ") then Next(kept + |line| + 1, p.(section := line[9..]), [])
    else if Starts(line, "Filename: ") then Next(kept + |line| + 1, p.(path := line[10..]), [])
    else if Starts(line, "Description: ") then
      if Encoded(|line| - 13) > DESCRIPTION_BUFFER then Fail(DescriptionTooLong)
      else Next(kept + |line| + 1, p.(description := c.encode(line[13..])), [])
    else Next(kept, if MentionsDebconf(line) then p.(templates := "D") else p, [])
  }

  function Prepended(records: seq<Record>, o: Outcome): Outcome {
    Outcome(records + o.records, o.problem)
  }

  /** Reads the text line by line; a line must fit the buffer behind the lines that are kept. */
  ghost function Run(c: Config, kept: nat, p: Pending, text: string): Outcome
    decreases |text|
  {
    match Find(text, 0, '\n')
    case None => Outcome([], if kept + |text| < c.size then None else Some(LineTooLong))
    case Some(n) =>
      if kept + n >= c.size then Outcome([], Some(LineTooLong))
      else
        var step := StepLine(c, kept, p, text[..n]);
        if step.Fail? then Outcome([], Some(step.problem))
        else Prepended(step.records, Run(c, step.kept, step.pending, text[n + 1..]))
  }

  function Texts(records: seq<Record>): string {
    if records == [] then "" else Texts(records[..|records| - 1]) + Line(records[|records| - 1])
  }

  /** How much a read returns, whether it reports the end together with the last bytes, and whether it fails. */
  datatype Hint = Hint(count: nat, early: bool, fails: bool)

  /** A source of bytes that may deliver them in pieces of any size, empty ones included. */
  class Reader {
    var rest: string
    var hints: seq<Hint>
    var failed: bool

    method Read(buf: array<char>, from: nat) returns (n: nat, eof: bool, problem: bool)
      requires from < buf.Length
      modifies this, buf
      ensures from + n <= buf.Length && n <= |old(rest)|
      ensures buf[..from] == old(buf[..from]) && buf[from..from + n] == old(rest)[..n] && rest == old(rest)[n..]
      ensures eof ==> rest == ""
      ensures |hints| <= |old(hints)| && (n == 0 ==> eof || |hints| < |old(hints)|)
      ensures problem == failed == (old(hints) != [] && old(hints)[0].fails)
    {
      var space := buf.Length - from;
      n := if |rest| < space then |rest| else space;
      var early := false;
      failed := false;
      if |hints| > 0 {
        if hints[0].count < n { n := hints[0].count; }
        early, failed := hints[0].early, hints[0].fails;
        hints := hints[1..];
      }
      ghost var was := buf[..];
      forall i | 0 <= i < n { buf[from + i] := rest[i]; }
      WrittenBehind(was, buf[..], from, rest, n);
      eof := n == |rest| && (early || n == 0);
      rest := rest[n..];
      problem := failed;
    }
  }

  lemma WrittenBehind(was: string, now: string, from: nat, rest: string, n: nat)
    requires from + n <= |was| == |now| && n <= |rest|
    requires forall k :: 0 <= k < from ==> now[k] == was[k]
    requires forall k :: 0 <= k < n ==> now[from + k] == rest[k]
    ensures now[..from] == was[..from] && now[from..from + n] == rest[..n]
  {
  }

  datatype Slice = Slice(from: nat, to: nat)

  const NIL := Slice(0, 0)

  /** The buffer: kept lines up to start, where the unread bytes begin that go on to end. */
  class Scanner {
    const buffy: array<char>
    var start: nat
    var end: nat
    var path: Slice
    var section: Slice
    var description: string
    var templates: string

    ghost predicate Valid()
      reads this
    {
      && start <= end <= buffy.Length
      && path.from <= path.to <= start
      && section.from <= section.to <= start
    }

    function Text(s: Slice): string
      requires s.from <= s.to <= buffy.Length
      reads this, buffy
    {
      buffy[s.from..s.to]
    }

    ghost function State(): Pending
      requires Valid()
      reads this, buffy
    {
      Pending(Text(path), Text(section), description, templates)
    }

    ghost function Unread(): string
      requires Valid()
      reads this, buffy
    {
      buffy[start..end]
    }

    constructor (size: nat)
      ensures Valid() && fresh(buffy) && buffy.Length == size && State() == NOTHING && start == 0 && Unread() == ""
    {
      buffy := new char[size];
      start, end, path, section, description, templates := 0, 0, NIL, NIL, "", "?";
    }

    /** Moves the bytes between from and end down to position to. */
    method MoveDown(to: nat, from: nat)
      requires to <= from <= end <= buffy.Length
      modifies buffy, this`end
      ensures end == to + old(end) - from
      ensures buffy[..to] == old(buffy[..to]) && buffy[to..end] == old(buffy[from..end])
    {
      var n := CopyDown(buffy, to, from, end);
      end := to + n;
    }

    /** Adds what the source delivers behind the unread bytes. */
    method Fill(r: Reader) returns (n: nat, eof: bool, failed: bool)
      requires Valid() && end < buffy.Length
      modifies this`end, buffy, r
      ensures Valid() && State() == old(State())
      ensures end == old(end) + n && n <= |old(r.rest)|
      ensures Unread() == old(Unread()) + old(r.rest)[..n] && r.rest == old(r.rest)[n..]
      ensures eof ==> r.rest == ""
      ensures |r.hints| <= |old(r.hints)| && (n == 0 ==> eof || |r.hints| < |old(r.hints)|)
      ensures failed == r.failed
    {
      ghost var before := buffy[..];
      n, eof, failed := r.Read(buffy, end);
      Untouched(before, buffy[..], end, path);
      Untouched(before, buffy[..], end, section);
      Untouched(before, buffy[..], end, Slice(start, end));
      JoinedSlices(buffy[..], start, end, end + n);
      end := end + n;
    }

    /** The line up to eol stays in the buffer. */
    method KeepLine(eol: nat)
      requires Valid() && start <= eol < end
      modifies this`start
      ensures Valid() && start == eol + 1 && State() == old(State()) && Unread() == old(buffy[eol + 1..end])
    {
      start := eol + 1;
    }

    method KeepSection(eol: nat)
      requires Valid() && start + 9 <= eol < end
      modifies this`start, this`section
      ensures Valid() && start == eol + 1 && Unread() == old(buffy[eol + 1..end])
      ensures State() == old(State()).(section := old(buffy[start..eol])[9..])
    {
      section := Slice(start + 9, eol);
      assert buffy[start + 9..eol] == buffy[start..eol][9..];
      start := eol + 1;
    }

    method KeepPath(eol: nat)
      requires Valid() && start + 10 <= eol < end
      modifies this`start, this`path
      ensures Valid() && start == eol + 1 && Unread() == old(buffy[eol + 1..end])
      ensures State() == old(State()).(path := old(buffy[start..eol])[10..])
    {
      path := Slice(start + 10, eol);
      assert buffy[start + 10..eol] == buffy[start..eol][10..];
      start := eol + 1;
    }

    /** The line up to eol is removed. */
    method DropLine(eol: nat)
      requires Valid() && start <= eol < end
      modifies this`end, buffy
      ensures Valid() && State() == old(State()) && Unread() == old(buffy[eol + 1..end])
    {
      ghost var before := buffy[..];
      MoveDown(start, eol + 1);
      Untouched(before, buffy[..], start, path);
      Untouched(before, buffy[..], start, section);
    }

    /** The blank line at eol ends a package; its slices are appended before the buffer is reused. */
    method FinishPackage(c: Config, eol: nat, list: PackageLists.PackageList) returns (problem: Option<Problem>)
      requires Valid() && start <= eol < end && list.Valid()
      modifies this, buffy, list
      ensures list.Valid()
      ensures problem == if GoodPath(old(State()).path) then None else Some(MalformedFilename)
      ensures problem.Some? ==> list.data == old(list.data)
      ensures problem.None? ==> Valid() && start == 0 && State() == NOTHING
      ensures problem.None? ==> Unread() == old(buffy[eol + 1..end])
      ensures problem.None? ==> list.data == old(list.data) + Line(Finished(c, old(State())))
    {
      var r := Gather(c);
      var ok := HasFile(r.path);
      if !ok {
        return Some(MalformedFilename);
      }
      list.Append(r);
      StartOver(eol);
      return None;
    }

    /** The record of the package, whose slices still hold its fields. */
    method Gather(c: Config) returns (r: Record)
      requires Valid()
      ensures r == Finished(c, State()) && r.path == State().path
    {
      var name := Text(path);
      var group := if section.to - section.from == 0 then "utils" else Text(section);
      var text := if |description| == 0 then c.encode("description missing") else description;
      r := Record(c.bitmap, name, group, text, templates);
    }

    /** Behind the blank line at eol nothing is known of the next package. */
    method StartOver(eol: nat)
      requires Valid() && start <= eol < end
      modifies this, buffy
      ensures Valid() && start == 0 && State() == NOTHING && Unread() == old(buffy[eol + 1..end])
    {
      path, section, description, templates := NIL, NIL, "", "?";
      MoveDown(0, eol + 1);
      start := 0;
    }

    /** A field line is recognized by its prefix. */
    method TakeField(c: Config, eol: nat) returns (problem: Option<Problem>)
      requires Valid() && start <= eol < end && !Blank(buffy[start..eol])
      modifies this, buffy
      ensures Stepped(StepLine(c, old(start), old(State()), old(buffy[start..eol])), old(buffy[eol + 1..end]), problem)
      ensures StepLine(c, old(start), old(State()), old(buffy[start..eol])).Next? ==>
        StepLine(c, old(start), old(State()), old(buffy[start..eol])).records == []
    {
      var line := buffy[start..eol];
      if Starts(line, "Section: ") {
        KeepSection(eol);
      } else if Starts(line, "Filename: ") {
        KeepPath(eol);
      } else if Starts(line, "Description: ") {
        if Encoded(|line| - 13) > DESCRIPTION_BUFFER {
          return Some(DescriptionTooLong);
        }
        description := c.encode(line[13..]);
        KeepLine(eol);
      } else {
        TakeOther(eol);
      }
      return None;
    }

    /** Any other line only matters if it mentions debconf. */
    method TakeOther(eol: nat)
      requires Valid() && start <= eol < end
      modifies this`templates, this`end, buffy
      ensures Valid() && start == old(start) && Unread() == old(buffy[eol + 1..end])
      ensures State() == if MentionsDebconf(old(buffy[start..eol])) then old(State()).(templates := "D") else old(State())
    {
      var depends := ByteSearch.Has(buffy[start..eol], "Depends:");
      var debconf := ByteSearch.Has(buffy[start..eol], "debconf");
      if depends && debconf {
        templates := "D";
      }
      DropLine(eol);
    }

    /** The scanner is where the step says, with the given bytes unread. */
    ghost predicate Stepped(step: Step, unread: string, problem: Option<Problem>)
      reads this, buffy
    {
      match step
      case Fail(e) => problem == Some(e)
      case Next(k, p, _) => problem == None && Valid() && start == k && State() == p && Unread() == unread
    }

    method TakeLine(c: Config, eol: nat, list: PackageLists.PackageList) returns (problem: Option<Problem>)
      requires Valid() && start <= eol < end && list.Valid()
      modifies this, buffy, list
      ensures list.Valid()
      ensures Stepped(StepLine(c, old(start), old(State()), old(buffy[start..eol])), old(buffy[eol + 1..end]), problem)
      ensures list.data == old(list.data) + Appended(StepLine(c, old(start), old(State()), old(buffy[start..eol])))
    {
      ghost var data := list.data;
      assert data + "" == data;
      var blank := IsEmpty(buffy[start..eol]);
      if blank {
        ghost var r := Finished(c, State());
        OneText(r);
        problem := FinishPackage(c, eol, list);
      } else {
        problem := TakeField(c, eol);
      }
    }

    /** What reading on gives when the given bytes follow the unread ones. */
    ghost function Ahead(c: Config, rest: string): Outcome
      requires Valid()
      reads this, buffy
    {
      Run(c, start, State(), Unread() + rest)
    }

    method LineEnd(from: nat) returns (eol: nat)
      requires start <= from <= end <= buffy.Length && '\n' !in buffy[start..from]
      ensures from <= eol && AtLine(eol)
    {
      eol := from;
      while eol < end && buffy[eol] != '\n'
        invariant from <= eol <= end && '\n' !in buffy[start..eol]
      {
        assert buffy[start..eol + 1] == buffy[start..eol] + [buffy[eol]];
        eol := eol + 1;
      }
    }

    /** Handles the line that ends at eol. */
    method TakeNext(c: Config, eol: nat, list: PackageLists.PackageList, ghost rest: string)
        returns (problem: Option<Problem>, ghost rs: seq<Record>)
      requires Valid() && list.Valid() && buffy.Length == c.size
      requires start <= eol < end && '\n' !in buffy[start..eol] && buffy[eol] == '\n'
      modifies this, buffy, list
      ensures list.Valid() && list.data == old(list.data) + Texts(rs)
      ensures problem.Some? ==> old(Ahead(c, rest)) == Outcome(rs, problem) && problem.value != ReadFailed
      ensures problem.None? ==> Valid() && |Unread()| < |old(Unread())|
      ensures problem.None? ==> old(Ahead(c, rest)) == Prepended(rs, Ahead(c, rest))
    {
      ghost var kept, p, line, after := start, State(), buffy[start..eol], buffy[eol + 1..end];
      LineSplit(buffy[..], start, eol, end, rest);
      LineRuns(c, kept, p, line, after + rest);
      NeverFails(c, kept, p, Unread() + rest);
      problem := TakeLine(c, eol, list);
      ghost var step := StepLine(c, kept, p, line);
      rs := if step.Next? then step.records else [];
      assert Texts([]) == "";
    }

    /** Reading has led from the goal to here: the given records are in the list and the rest is ahead. */
    ghost predicate Progress(c: Config, list: PackageLists.PackageList, data: string, rest: string, goal: Outcome,
                             done: seq<Record>)
      reads this, buffy, list
    {
      && Valid() && buffy.Length == c.size && list.Valid()
      && list.data == data + Texts(done) && goal == Prepended(done, Ahead(c, rest))
    }

    /** Reading has ended as it should, with the given records in the list. */
    static ghost predicate Ended(list: PackageLists.PackageList, data: string, goal: Outcome,
                                 done: seq<Record>, problem: Option<Problem>)
      reads list
    {
      list.Valid() && list.data == data + Texts(done) && Leads(goal, done, problem)
    }

    method Advance(c: Config, eol: nat, list: PackageLists.PackageList, ghost rest: string,
                   ghost data: string, ghost goal: Outcome, ghost before: seq<Record>)
        returns (problem: Option<Problem>, ghost done: seq<Record>)
      requires Progress(c, list, data, rest, goal, before)
      requires start <= eol < end && '\n' !in buffy[start..eol] && buffy[eol] == '\n'
      modifies this, buffy, list
      ensures problem.Some? ==> Ended(list, data, goal, done, problem) && problem.value != ReadFailed
      ensures problem.None? ==> Progress(c, list, data, rest, goal, done) && |Unread()| < |old(Unread())|
    {
      ghost var rs;
      problem, rs := TakeNext(c, eol, list, rest);
      done := before + rs;
      TextsConcat(before, rs);
      Associate(data, Texts(before), Texts(rs));
      if problem.None? {
        PrependedTwice(before, rs, Ahead(c, rest));
      }
    }

    /** Handles every complete line among the unread bytes; none ends before the given position. */
    method TakeLines(c: Config, from: nat, list: PackageLists.PackageList, ghost rest: string,
                     ghost data: string, ghost goal: Outcome, ghost before: seq<Record>)
        returns (problem: Option<Problem>, ghost done: seq<Record>)
      requires Progress(c, list, data, rest, goal, before)
      requires start <= from <= end && '\n' !in buffy[start..from]
      modifies this, buffy, list
      ensures problem.Some? ==> Ended(list, data, goal, done, problem) && problem.value != ReadFailed
      ensures problem.None? ==> Progress(c, list, data, rest, goal, done) && '\n' !in Unread()
    {
      done := before;
      var eol: nat := LineEnd(from);
      while eol < end
        invariant Progress(c, list, data, rest, goal, done) && AtLine(eol)
        decreases |Unread()|
      {
        problem, done, eol := NextLine(c, eol, list, rest, data, goal, done);
        if problem.Some? { return; }
      }
      problem := None;
    }

    /** The unread bytes have their first line end at eol, if they have one. */
    ghost predicate AtLine(eol: nat)
      reads this, buffy
    {
      start <= eol <= end <= buffy.Length && '\n' !in buffy[start..eol] && (eol < end ==> buffy[eol] == '\n')
    }

    method NextLine(c: Config, eol: nat, list: PackageLists.PackageList, ghost rest: string,
                    ghost data: string, ghost goal: Outcome, ghost before: seq<Record>)
        returns (problem: Option<Problem>, ghost done: seq<Record>, next: nat)
      requires Progress(c, list, data, rest, goal, before) && AtLine(eol) && eol < end
      modifies this, buffy, list
      ensures problem.Some? ==> Ended(list, data, goal, done, problem) && problem.value != ReadFailed
      ensures problem.None? ==> Progress(c, list, data, rest, goal, done) && |Unread()| < |old(Unread())| && AtLine(next)
    {
      next := eol;
      problem, done := Advance(c, eol, list, rest, data, goal, before);
      if problem.None? {
        next := LineEnd(start);
      }
    }

    method FillMore(c: Config, list: PackageLists.PackageList, r: Reader,
                    ghost data: string, ghost goal: Outcome, ghost done: seq<Record>)
        returns (n: nat, eof: bool, failed: bool)
      requires Progress(c, list, data, r.rest, goal, done) && '\n' !in Unread() && end < buffy.Length
      modifies this`end, buffy, r
      ensures Progress(c, list, data, r.rest, goal, done)
      ensures end == old(end) + n && start <= old(end) && '\n' !in buffy[start..end - n]
      ensures eof ==> r.rest == ""
      ensures |r.rest| == |old(r.rest)| - n && |r.hints| <= |old(r.hints)|
      ensures n == 0 ==> eof || |r.hints| < |old(r.hints)|
      ensures failed == r.failed
    {
      ghost var unread, rest := Unread(), r.rest;
      n, eof, failed := Fill(r);
      Refilled(buffy[..], start, end, unread, rest, n);
    }

    /** One read and the lines it completes. */
    method Round(c: Config, list: PackageLists.PackageList, r: Reader,
                 ghost data: string, ghost goal: Outcome, ghost before: seq<Record>)
        returns (over: bool, problem: Option<Problem>, ghost done: seq<Record>)
      requires Progress(c, list, data, r.rest, goal, before) && '\n' !in Unread()
      modifies this, buffy, list, r
      ensures over ==> Ended(list, data, goal, done, problem)
      ensures !over ==> Progress(c, list, data, r.rest, goal, done) && '\n' !in Unread()
      ensures !over ==> |r.rest| + |r.hints| < |old(r.rest)| + |old(r.hints)|
      ensures over && problem == Some(ReadFailed) ==> r.failed
    {
      done := before;
      if end == buffy.Length {
        FullEnds(c, start, State(), Unread(), r.rest, goal, done);
        return true, Some(LineTooLong), done;
      }
      var n, eof, failed := FillMore(c, list, r, data, goal, done);
      if failed {
        return true, Some(ReadFailed), done;
      }
      over, problem, done := AfterRead(c, list, n, eof, r.rest, data, goal, done);
    }

    /** Ends the reading, or handles the lines that the n new bytes complete. */
    method AfterRead(c: Config, list: PackageLists.PackageList, n: nat, eof: bool, ghost rest: string,
                     ghost data: string, ghost goal: Outcome, ghost before: seq<Record>)
        returns (over: bool, problem: Option<Problem>, ghost done: seq<Record>)
      requires Progress(c, list, data, rest, goal, before) && (eof ==> rest == "")
      requires start + n <= end && '\n' !in buffy[start..end - n] && (n == 0 ==> end < buffy.Length)
      modifies this, buffy, list
      ensures over ==> Ended(list, data, goal, done, problem) && problem != Some(ReadFailed)
      ensures over || !(eof && n == 0)
      ensures !over ==> Progress(c, list, data, rest, goal, done) && '\n' !in Unread()
    {
      if eof && n == 0 {
        assert Unread() == buffy[start..end - n] && |Unread()| == end - start;
        LastEnds(c, start, State(), Unread(), rest, goal, before);
        return true, None, before;
      }
      problem, done := TakeLines(c, end - n, list, rest, data, goal, before);
      over := problem.Some?;
    }
  }

  lemma Refilled(bytes: string, start: nat, end: nat, unread: string, rest: string, n: nat)
    requires start <= end <= |bytes| && n <= |rest| && bytes[start..end] == unread + rest[..n]
    ensures bytes[start..end] + rest[n..] == unread + rest && start + n <= end && bytes[start..end - n] == unread
  {
    Sequences.Regroup(unread, rest[..n], rest[n..]);
    assert rest == rest[..n] + rest[n..];
    Sequences.Within(bytes, start, end, 0, |unread|);
    Sequences.Parts(unread, rest[..n]);
  }

  lemma LineSplit(bytes: string, start: nat, eol: nat, end: nat, rest: string)
    requires start <= eol < end <= |bytes| && bytes[eol] == '\n'
    ensures bytes[start..end] + rest == bytes[start..eol] + "\n" + (bytes[eol + 1..end] + rest)
  {
    JoinedSlices(bytes, start, eol, end);
    JoinedSlices(bytes, eol, eol + 1, end);
    assert bytes[eol..eol + 1] == "\n";
    Sequences.Regroup(bytes[start..eol], "\n", bytes[eol + 1..end]);
    Sequences.Regroup(bytes[start..eol] + "\n", bytes[eol + 1..end], rest);
  }

  /** The records that the goal says; if a read failed, some of them, from the first one on. */
  predicate Leads(goal: Outcome, done: seq<Record>, problem: Option<Problem>) {
    if problem == Some(ReadFailed) then done <= goal.records else goal == Outcome(done, problem)
  }

  /** The text alone is never the reason for a failing read. */
  lemma {:induction false} NeverFails(c: Config, kept: nat, p: Pending, text: string)
    ensures Run(c, kept, p, text).problem != Some(ReadFailed)
    decreases |text|
  {
    var at := Find(text, 0, '\n');
    if at.Some? && kept + at.value < c.size {
      var step := StepLine(c, kept, p, text[..at.value]);
      if step.Next? {
        NeverFails(c, step.kept, step.pending, text[at.value + 1..]);
      }
    }
  }

  lemma TextsSnoc(a: seq<Record>, r: Record)
    ensures Texts(a + [r]) == Texts(a) + Line(r)
  {
    assert (a + [r])[..|a|] == a;
  }

  lemma Associate(x: string, y: string, z: string)
    ensures x + y + z == x + (y + z)
  {
  }

  lemma {:induction false} TextsConcat(a: seq<Record>, b: seq<Record>)
    ensures Texts(a + b) == Texts(a) + Texts(b)
  {
    if b == [] {
      assert a + b == a && Texts(a) + "" == Texts(a);
    } else {
      var front, r := b[..|b| - 1], b[|b| - 1];
      assert a + b == (a + front) + [r] && b == front + [r];
      TextsConcat(a, front);
      TextsSnoc(a + front, r);
      TextsSnoc(front, r);
      Associate(Texts(a), Texts(front), Line(r));
    }
  }

  lemma PrependedTwice(a: seq<Record>, b: seq<Record>, o: Outcome)
    ensures Prepended(a, Prepended(b, o)) == Prepended(a + b, o)
  {
    assert a + (b + o.records) == (a + b) + o.records;
  }

  /** A complete line that fits the buffer is one step. */
  lemma LineRuns(c: Config, kept: nat, p: Pending, line: string, rest: string)
    requires '\n' !in line && kept + |line| < c.size
    ensures var step := StepLine(c, kept, p, line);
      Run(c, kept, p, line + "\n" + rest) ==
      if step.Fail? then Outcome([], Some(step.problem))
      else Prepended(step.records, Run(c, step.kept, step.pending, rest))
  {
    var text := line + "\n" + rest;
    FindIs(text, 0, '\n', |line|);
    assert text[..|line|] == line && text[|line| + 1..] == rest;
  }

  /** Without a line end in sight the buffer must have room for more. */
  lemma FullEnds(c: Config, kept: nat, p: Pending, unread: string, rest: string, goal: Outcome, done: seq<Record>)
    requires '\n' !in unread && kept + |unread| >= c.size && goal == Prepended(done, Run(c, kept, p, unread + rest))
    ensures Leads(goal, done, Some(LineTooLong))
  {
    var text := unread + rest;
    assert forall i :: 0 <= i < |unread| ==> text[i] == unread[i];
    assert Run(c, kept, p, text) == Outcome([], Some(LineTooLong));
    assert done + [] == done;
  }

  lemma LastEnds(c: Config, kept: nat, p: Pending, unread: string, rest: string, goal: Outcome, done: seq<Record>)
    requires '\n' !in unread && kept + |unread| < c.size && rest == ""
    requires goal == Prepended(done, Run(c, kept, p, unread + rest))
    ensures Leads(goal, done, None)
  {
    assert unread + rest == unread;
    assert Run(c, kept, p, unread) == Outcome([], None);
    assert done + [] == done;
  }

  /**
   * Appends the packages of a file. Neither the records nor the problem depend on how the reads
   * split the file, unless one of them fails; a package that no blank line ends is not appended.
   */
  method AppendPackages(encode: string -> string, rpbitmap: nat, list: PackageLists.PackageList, r: Reader)
      returns (problem: Option<Problem>, ghost records: seq<Record>)
    requires list.Valid()
    modifies list, r
    ensures Leads(Run(Config(encode, BUFFER, rpbitmap), 0, NOTHING, old(r.rest)), records, problem)
    ensures problem == Some(ReadFailed) ==> r.failed
    ensures list.Valid() && list.data == old(list.data) + Texts(records)
  {
    var c := Config(encode, BUFFER, rpbitmap);
    var s := new Scanner(BUFFER);
    ghost var data, goal := list.data, Run(c, 0, NOTHING, r.rest);
    records := [];
    assert data + Texts([]) == data && [] + goal.records == goal.records && "" + r.rest == r.rest;
    var over := false;
    problem := None;
    while !over
      invariant !over ==> s.Progress(c, list, data, r.rest, goal, records) && '\n' !in s.Unread()
      invariant over ==> Scanner.Ended(list, data, goal, records, problem)
      invariant over && problem == Some(ReadFailed) ==> r.failed
      invariant fresh(s) && fresh(s.buffy)
      decreases !over, |r.rest| + |r.hints|
    {
      over, problem, records := s.Round(c, list, r, data, goal, records);
    }
  }

  /** The list data that a step adds. */
  ghost function Appended(step: Step): string {
    match step
    case Fail(_) => ""
    case Next(_, _, rs) => Texts(rs)
  }

  lemma OneText(r: Record)
    ensures Texts([r]) == Line(r) && Texts([]) == ""
  {
    assert [r][..0] == [];
    assert "" + Line(r) == Line(r);
  }

  method CopyDown(buf: array<char>, to: nat, from: nat, end: nat) returns (n: nat)
    requires to <= from <= end <= buf.Length
    modifies buf
    ensures n == end - from
    ensures buf[..to] == old(buf[..to]) && buf[to..to + n] == old(buf[from..end])
  {
    n := end - from;
    ghost var was, shift := buf[..], from - to;
    for i := 0 to n
      invariant forall k :: 0 <= k < to ==> buf[k] == was[k]
      invariant forall k :: to <= k < to + i ==> buf[k] == was[k + shift]
      invariant forall k :: from + i <= k < end ==> buf[k] == was[k]
    {
      buf[to + i] := buf[from + i];
    }
    CopiedDown(was, buf[..], to, from, end);
  }

  lemma CopiedDown(was: string, now: string, to: nat, from: nat, end: nat)
    requires to <= from <= end <= |was| == |now|
    requires forall k :: 0 <= k < to ==> now[k] == was[k]
    requires forall k :: to <= k < to + (end - from) ==> now[k] == was[k + (from - to)]
    ensures now[..to] == was[..to] && now[to..to + (end - from)] == was[from..end]
  {
    assert |now[to..to + (end - from)]| == |was[from..end]|;
  }

  method IsEmpty(b: string) returns (r: bool)
    ensures r == Blank(b)
  {
    for i := 0 to |b|
      invariant Blank(b[..i])
    {
      if b[i] > ' ' { return false; }
    }
    assert b[..|b|] == b;
    return true;
  }

  method HasFile(path: string) returns (r: bool)
    ensures r == GoodPath(path)
  {
    var slash := 0;
    while slash < |path| && path[slash] != '/'
      invariant slash <= |path| && forall i :: 0 <= i < slash ==> path[i] != '/'
    {
      slash := slash + 1;
    }
    r := slash < |path| - 1;
  }

  /** A slice within the part of the buffer that stays the same keeps its bytes. */
  lemma Untouched(before: string, after: string, end: nat, s: Slice)
    requires end <= |before| && end <= |after| && before[..end] == after[..end] && s.from <= s.to <= end
    ensures before[s.from..s.to] == after[s.from..s.to]
  {
    InnerSlice(before, end, s);
    InnerSlice(after, end, s);
  }

  lemma InnerSlice(bytes: string, end: nat, s: Slice)
    requires s.from <= s.to <= end <= |bytes|
    ensures bytes[..end][s.from..s.to] == bytes[s.from..s.to]
  {
  }

  lemma JoinedSlices(bytes: string, from: nat, middle: nat, to: nat)
    requires from <= middle <= to <= |bytes|
    ensures bytes[from..to] == bytes[from..middle] + bytes[middle..to]
  {
  }
}
