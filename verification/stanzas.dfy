/** What a Packages file means, stanza by stanza, without buffers: one record for every stanza that fits. */
module Stanzas {
  import opened Common
  import opened ByteSearch
  import opened PackageLines
  import opened PackagesFiles

  /** The lines of a package, none of them blank. */
  type Stanza = seq<string>

  predicate Lines(s: Stanza) {
    forall i :: 0 <= i < |s| ==> '\n' !in s[i] && !Blank(s[i])
  }

  function Unlines(s: Stanza): string {
    if s == [] then "" else s[0] + "\n" + Unlines(s[1..])
  }

  /** The lines and the blank line behind them. */
  function TextOf(s: Stanza): string {
    Unlines(s) + "\n"
  }

  predicate Field(line: string) {
    Starts(line, "Section: ") || Starts(line, "Filename: ") || Starts(line, "Description: ")
  }

  /** The value of the last line with the given prefix. */
  function LastValue(s: Stanza, id: string): Option<string> {
    if s == [] then None
    else if Starts(s[|s| - 1], id) then Some(s[|s| - 1][|id|..])
    else LastValue(s[..|s| - 1], id)
  }

  function OrElse(v: Option<string>, default: string): string {
    if v.Some? then v.value else default
  }

  ghost predicate Configurable(s: Stanza) {
    exists i :: 0 <= i < |s| && !Field(s[i]) && MentionsDebconf(s[i])
  }

  ghost function PendingOf(c: Config, s: Stanza): Pending {
    var d := LastValue(s, "Description: ");
    Pending(OrElse(LastValue(s, "Filename: "), ""), OrElse(LastValue(s, "Section: "), ""),
            if d.Some? then c.encode(d.value) else "", if Configurable(s) then "D" else "?")
  }

  /** The buffer space that the field lines of a stanza take, newlines included. */
  function KeptBytes(s: Stanza): nat {
    if s == [] then 0
    else KeptBytes(s[..|s| - 1]) + if Field(s[|s| - 1]) then |s[|s| - 1]| + 1 else 0
  }

  /** Line i fits the buffer behind the fields before it, and the encoding buffer if it is a description. */
  predicate LineFits(c: Config, s: Stanza, i: nat)
    requires i < |s|
  {
    && KeptBytes(s[..i]) + |s[i]| < c.size
    && (Starts(s[i], "Description: ") ==> Encoded(|s[i]| - 13) <= DESCRIPTION_BUFFER)
  }

  ghost predicate Acceptable(c: Config, s: Stanza) {
    && (forall i :: 0 <= i < |s| ==> LineFits(c, s, i))
    && KeptBytes(s) < c.size
    && GoodPath(PendingOf(c, s).path)
  }

  lemma Prefixes(line: string)
    ensures Starts(line, "Section: ") ==> !Starts(line, "Filename: ") && !Starts(line, "Description: ")
    ensures Starts(line, "Filename: ") ==> !Starts(line, "Description: ")
  {
    if Starts(line, "Section: ") { assert line[0] == line[..9][0] == 'S'; }
    if Starts(line, "Filename: ") { assert line[0] == line[..10][0] == 'F'; }
    if Starts(line, "Description: ") { assert line[0] == line[..13][0] == 'D'; }
  }

  lemma LastValueSnoc(s: Stanza, line: string, id: string)
    ensures LastValue(s + [line], id) == if Starts(line, id) then Some(line[|id|..]) else LastValue(s, id)
  {
    assert (s + [line])[..|s|] == s;
  }

  lemma ConfigurableSnoc(s: Stanza, line: string)
    ensures Configurable(s + [line]) <==> Configurable(s) || (!Field(line) && MentionsDebconf(line))
  {
    var t := s + [line];
    if Configurable(s) {
      var i :| 0 <= i < |s| && !Field(s[i]) && MentionsDebconf(s[i]);
      assert t[i] == s[i];
    }
    if !Field(line) && MentionsDebconf(line) {
      assert t[|s|] == line;
    }
  }

  /** Reading one more line extends the package as its stanza is extended. */
  lemma StepExtends(c: Config, s: Stanza, line: string)
    requires !Blank(line)
    ensures var step := StepLine(c, KeptBytes(s), PendingOf(c, s), line);
      if Starts(line, "Description: ") && Encoded(|line| - 13) > DESCRIPTION_BUFFER then
        step == Fail(DescriptionTooLong)
      else
        step == Next(KeptBytes(s + [line]), PendingOf(c, s + [line]), [])
  {
    Prefixes(line);
    LastValueSnoc(s, line, "Section: ");
    LastValueSnoc(s, line, "Filename: ");
    LastValueSnoc(s, line, "Description: ");
    ConfigurableSnoc(s, line);
    assert (s + [line])[..|s|] == s;
  }

  lemma LineAhead(s: Stanza, i: nat, rest: string)
    requires i < |s|
    ensures Unlines(s[i..]) + "\n" + rest == s[i] + "\n" + (Unlines(s[i + 1..]) + "\n" + rest)
    ensures s[..i + 1] == s[..i] + [s[i]]
  {
    assert s[i..][1..] == s[i + 1..];
  }

  /** The state of the reader before line i of a stanza whose earlier lines fit. */
  lemma {:induction false} PrefixRuns(c: Config, s: Stanza, i: nat, rest: string)
    requires Lines(s) && i <= |s| && forall j :: 0 <= j < i ==> LineFits(c, s, j)
    ensures Run(c, 0, NOTHING, TextOf(s) + rest) ==
      Run(c, KeptBytes(s[..i]), PendingOf(c, s[..i]), Unlines(s[i..]) + "\n" + rest)
    decreases i
  {
    if i == 0 {
      assert s[..0] == [] && s[0..] == s;
      assert !Configurable(s[..0]);
    } else {
      assert LineFits(c, s, i - 1);
      PrefixRuns(c, s, i - 1, rest);
      LineAhead(s, i - 1, rest);
      StepExtends(c, s[..i - 1], s[i - 1]);
      LineRuns(c, KeptBytes(s[..i - 1]), PendingOf(c, s[..i - 1]), s[i - 1], Unlines(s[i..]) + "\n" + rest);
      NothingPrepended(Run(c, KeptBytes(s[..i]), PendingOf(c, s[..i]), Unlines(s[i..]) + "\n" + rest));
    }
  }

  lemma NothingPrepended(o: Outcome)
    ensures Prepended([], o) == o
  {
    assert [] + o.records == o.records;
  }

  /** A stanza that fits becomes the record of its last values. */
  lemma AcceptableRuns(c: Config, s: Stanza, rest: string)
    requires Lines(s) && Acceptable(c, s)
    ensures Run(c, 0, NOTHING, TextOf(s) + rest) ==
      Prepended([Finished(c, PendingOf(c, s))], Run(c, 0, NOTHING, rest))
  {
    PrefixRuns(c, s, |s|, rest);
    assert s[..|s|] == s && s[|s|..] == [];
    assert "" + "\n" + rest == "" + "\n" + rest;
    LineRuns(c, KeptBytes(s), PendingOf(c, s), "", rest);
  }

  /** A stanza that does not fit ends the reading with nothing more appended. */
  lemma UnacceptableRuns(c: Config, s: Stanza, rest: string)
    requires Lines(s) && !Acceptable(c, s)
    ensures Run(c, 0, NOTHING, TextOf(s) + rest).problem.Some?
    ensures Run(c, 0, NOTHING, TextOf(s) + rest).records == []
  {
    if i: nat :| i < |s| && !LineFits(c, s, i) {
      var first := FirstMisfit(c, s, i);
      PrefixRuns(c, s, first, rest);
      LineAhead(s, first, rest);
      MisfitRuns(c, s, first, Unlines(s[first + 1..]) + "\n" + rest);
    } else {
      PrefixRuns(c, s, |s|, rest);
      assert s[..|s|] == s && s[|s|..] == [];
      if KeptBytes(s) < c.size {
        LineRuns(c, KeptBytes(s), PendingOf(c, s), "", rest);
      } else {
        LineTooLongRuns(c, KeptBytes(s), PendingOf(c, s), "", rest);
      }
    }
  }

  lemma {:induction false} FirstMisfit(c: Config, s: Stanza, i: nat) returns (first: nat)
    requires i < |s| && !LineFits(c, s, i)
    ensures first <= i && !LineFits(c, s, first) && forall j :: 0 <= j < first ==> LineFits(c, s, j)
  {
    if j: nat :| j < i && !LineFits(c, s, j) {
      first := FirstMisfit(c, s, j);
    } else {
      first := i;
    }
  }

  lemma LineTooLongRuns(c: Config, kept: nat, p: Pending, line: string, rest: string)
    requires '\n' !in line && kept + |line| >= c.size
    ensures Run(c, kept, p, line + "\n" + rest) == Outcome([], Some(LineTooLong))
  {
    var text := line + "\n" + rest;
    FindIs(text, 0, '\n', |line|);
  }

  lemma MisfitRuns(c: Config, s: Stanza, i: nat, rest: string)
    requires Lines(s) && i < |s| && !LineFits(c, s, i)
    ensures Run(c, KeptBytes(s[..i]), PendingOf(c, s[..i]), s[i] + "\n" + rest).problem.Some?
    ensures Run(c, KeptBytes(s[..i]), PendingOf(c, s[..i]), s[i] + "\n" + rest).records == []
  {
    if KeptBytes(s[..i]) + |s[i]| >= c.size {
      LineTooLongRuns(c, KeptBytes(s[..i]), PendingOf(c, s[..i]), s[i], rest);
    } else {
      StepExtends(c, s[..i], s[i]);
      LineRuns(c, KeptBytes(s[..i]), PendingOf(c, s[..i]), s[i], rest);
    }
  }

  function FileOf(stanzas: seq<Stanza>): string {
    if stanzas == [] then "" else TextOf(stanzas[0]) + FileOf(stanzas[1..])
  }

  ghost function RecordsOf(c: Config, stanzas: seq<Stanza>): seq<Record> {
    if stanzas == [] then [] else [Finished(c, PendingOf(c, stanzas[0]))] + RecordsOf(c, stanzas[1..])
  }

  /** A file is read to its end if and only if every stanza fits, and then it gives each stanza's record. */
  lemma {:induction false} FileReads(c: Config, stanzas: seq<Stanza>)
    requires c.size > 0 && forall i :: 0 <= i < |stanzas| ==> Lines(stanzas[i])
    ensures var o := Run(c, 0, NOTHING, FileOf(stanzas));
      && (o.problem == None <==> forall i :: 0 <= i < |stanzas| ==> Acceptable(c, stanzas[i]))
      && (o.problem == None ==> o.records == RecordsOf(c, stanzas))
  {
    if stanzas != [] {
      var s, rest := stanzas[0], stanzas[1..];
      FileReads(c, rest);
      if Acceptable(c, s) {
        AcceptableRuns(c, s, FileOf(rest));
        assert forall i :: 0 < i < |stanzas| ==> stanzas[i] == rest[i - 1];
        assert forall i :: 0 <= i < |rest| ==> rest[i] == stanzas[i + 1];
      } else {
        UnacceptableRuns(c, s, FileOf(rest));
      }
    }
  }

  // ----- the records, field by field

  /** Value v stands behind the prefix in the last line that has it. */
  ghost predicate LastOf(s: Stanza, prefix: string, v: string) {
    exists i :: 0 <= i < |s| && prefix <= s[i] && v == s[i][|prefix|..] && forall j :: i < j < |s| ==> !(prefix <= s[j])
  }

  ghost predicate Lacks(s: Stanza, prefix: string) {
    forall i :: 0 <= i < |s| ==> !(prefix <= s[i])
  }

  predicate Within(part: string, line: string) {
    exists k :: 0 <= k <= |line| && part <= line[k..]
  }

  /** Some line that is no field mentions both words. */
  ghost predicate AsksDebconf(s: Stanza) {
    exists i :: 0 <= i < |s| && Within("Depends:", s[i]) && Within("debconf", s[i])
                && !("Section: " <= s[i]) && !("Filename: " <= s[i]) && !("Description: " <= s[i])
  }

  ghost predicate PathFrom(s: Stanza, path: string) {
    LastOf(s, "Filename: ", path) && exists i :: 0 <= i < |path| - 1 && path[i] == '/'
  }

  ghost predicate SectionFrom(s: Stanza, section: string) {
    if Lacks(s, "Section: ") || LastOf(s, "Section: ", "") then section == "utils" else LastOf(s, "Section: ", section)
  }

  ghost predicate DescriptionFrom(encode: string -> string, s: Stanza, description: string) {
    || (exists d :: LastOf(s, "Description: ", d) && encode(d) != "" && description == encode(d))
    || (description == encode("description missing")
        && (Lacks(s, "Description: ") || exists d :: LastOf(s, "Description: ", d) && encode(d) == ""))
  }

  /** What the record of a stanza holds. */
  ghost predicate RecordFrom(c: Config, s: Stanza, r: Record) {
    && r.bitmap == c.bitmap
    && PathFrom(s, r.path) && SectionFrom(s, r.section) && DescriptionFrom(c.encode, s, r.description)
    && r.templates == if AsksDebconf(s) then "D" else "?"
  }

  lemma {:induction false} LastValueMeans(s: Stanza, prefix: string, v: string)
    ensures LastValue(s, prefix) == Some(v) <==> LastOf(s, prefix, v)
    ensures LastValue(s, prefix) == None <==> Lacks(s, prefix)
  {
    if s != [] {
      var init, last := s[..|s| - 1], s[|s| - 1];
      LastValueMeans(init, prefix, v);
      assert Starts(last, prefix) <==> prefix <= last;
      assert forall i :: 0 <= i < |init| ==> s[i] == init[i];
    }
  }

  lemma WithinMeans(part: string, line: string)
    ensures Within(part, line) <==> ByteSearch.Contains(line, part)
  {
    if Within(part, line) {
      var k :| 0 <= k <= |line| && part <= line[k..];
      assert line[k..][..|part|] == line[k..k + |part|];
      assert OccursAt(line, part, k);
    }
    if i: nat :| OccursAt(line, part, i) {
      assert line[i..][..|part|] == line[i..i + |part|];
      assert part <= line[i..];
    }
  }

  lemma ConfigurableMeans(s: Stanza)
    ensures Configurable(s) <==> AsksDebconf(s)
  {
    forall i | 0 <= i < |s|
      ensures Within("Depends:", s[i]) && Within("debconf", s[i]) <==> MentionsDebconf(s[i])
      ensures Field(s[i]) <==> "Section: " <= s[i] || "Filename: " <= s[i] || "Description: " <= s[i]
    {
      WithinMeans("Depends:", s[i]);
      WithinMeans("debconf", s[i]);
    }
  }

  lemma PathMeans(s: Stanza, c: Config)
    requires GoodPath(PendingOf(c, s).path)
    ensures PathFrom(s, PendingOf(c, s).path)
  {
    LastValueMeans(s, "Filename: ", PendingOf(c, s).path);
  }

  lemma SectionMeans(s: Stanza, section: string)
    requires section == OrElse(LastValue(s, "Section: "), "")
    ensures SectionFrom(s, if section == "" then "utils" else section)
  {
    LastValueMeans(s, "Section: ", "");
    LastValueMeans(s, "Section: ", section);
  }

  lemma DescriptionMeans(encode: string -> string, s: Stanza, description: string)
    requires description == var d := LastValue(s, "Description: "); if d.Some? then encode(d.value) else ""
    ensures DescriptionFrom(encode, s, if description == "" then encode("description missing") else description)
  {
    var d := LastValue(s, "Description: ");
    LastValueMeans(s, "Description: ", OrElse(d, ""));
  }

  lemma FinishedMeans(c: Config, s: Stanza)
    requires GoodPath(PendingOf(c, s).path)
    ensures RecordFrom(c, s, Finished(c, PendingOf(c, s)))
  {
    PathMeans(s, c);
    SectionMeans(s, PendingOf(c, s).section);
    DescriptionMeans(c.encode, s, PendingOf(c, s).description);
    ConfigurableMeans(s);
  }

  /** A stanza is taken exactly if its lines fit and its last Filename has a directory and something behind it. */
  lemma AcceptableMeans(c: Config, s: Stanza)
    ensures Acceptable(c, s) <==>
      && (forall i :: 0 <= i < |s| ==> LineFits(c, s, i)) && KeptBytes(s) < c.size
      && exists path :: PathFrom(s, path)
  {
    var path := PendingOf(c, s).path;
    if GoodPath(path) {
      PathMeans(s, c);
    }
    if p :| PathFrom(s, p) {
      LastValueMeans(s, "Filename: ", p);
    }
  }

  lemma {:induction false} RecordsAt(c: Config, stanzas: seq<Stanza>, i: nat)
    requires i < |stanzas|
    ensures i < |RecordsOf(c, stanzas)| && RecordsOf(c, stanzas)[i] == Finished(c, PendingOf(c, stanzas[i]))
  {
    if i > 0 {
      RecordsAt(c, stanzas[1..], i - 1);
    }
  }

  lemma {:induction false} RecordsLength(c: Config, stanzas: seq<Stanza>)
    ensures |RecordsOf(c, stanzas)| == |stanzas|
  {
    if stanzas != [] {
      RecordsLength(c, stanzas[1..]);
    }
  }

  /** A file that is read to its end gives one record for each stanza, with the stanza's values. */
  lemma FileRecordsMean(c: Config, stanzas: seq<Stanza>)
    requires c.size > 0 && forall i :: 0 <= i < |stanzas| ==> Lines(stanzas[i])
    requires Run(c, 0, NOTHING, FileOf(stanzas)).problem == None
    ensures var records := Run(c, 0, NOTHING, FileOf(stanzas)).records;
      |records| == |stanzas| && forall i :: 0 <= i < |records| ==> RecordFrom(c, stanzas[i], records[i])
  {
    FileReads(c, stanzas);
    RecordsLength(c, stanzas);
    forall i | 0 <= i < |stanzas|
      ensures RecordFrom(c, stanzas[i], RecordsOf(c, stanzas)[i])
    {
      assert Acceptable(c, stanzas[i]);
      RecordsAt(c, stanzas, i);
      FinishedMeans(c, stanzas[i]);
    }
  }
}
