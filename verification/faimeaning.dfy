/** What the cache of FAI classes and the lookup give, in terms of the directory's objects. */
module FaiMeaning {
  import opened Common
  import opened FaiClasses
  import opened FaiCache
  import ByteSearch

  /** The object is that of the class, release and type. */
  predicate Names(e: Entry, c: string, r: string, i: nat) {
    e.cn == c != "" && e.release == r != "" && e.kind == Some(i)
  }

  predicate Holds(state: string, word: string) {
    exists k :: 0 <= k <= |state| && word <= state[k..]
  }

  ghost predicate Mentioned(entries: seq<Entry>, c: string, r: string, i: nat) {
    exists e :: e in entries && Names(e, c, r, i)
  }

  ghost predicate HasInstance(entries: seq<Entry>, c: string, r: string, i: nat) {
    exists e :: e in entries && Names(e, c, r, i) && !Holds(e.state, "remove")
  }

  ghost predicate HasFrozen(entries: seq<Entry>, c: string, r: string, i: nat) {
    exists e :: e in entries && Names(e, c, r, i) && !Holds(e.state, "remove") && Holds(e.state, "freeze")
  }

  /** Of the levels, level k is the nearest one that mentions the class and type. */
  ghost predicate NearestAt(entries: seq<Entry>, c: string, levels: seq<string>, i: nat, k: nat) {
    && k < |levels| && Mentioned(entries, c, levels[k], i)
    && forall j :: k < j < |levels| ==> !Mentioned(entries, c, levels[j], i)
  }

  /** The nearest level that mentions the class and type has it, frozen or not. */
  ghost predicate Has(entries: seq<Entry>, c: string, levels: seq<string>, i: nat, frozen: bool) {
    exists k: nat :: NearestAt(entries, c, levels, i, k)
      && HasInstance(entries, c, levels[k], i) && frozen == HasFrozen(entries, c, levels[k], i)
  }

  /** The tag of a class in a release is that of the last of its objects there. */
  ghost predicate TagAt(entries: seq<Entry>, c: string, r: string, tag: string) {
    if forall e :: e in entries && e.cn == c && e.release == r ==> c == "" || r == "" then tag == ""
    else exists k: nat :: LastObject(entries, c, r, k) && tag == entries[k].tag
  }

  ghost predicate LastObject(entries: seq<Entry>, c: string, r: string, k: nat) {
    && k < |entries| && entries[k].cn == c && entries[k].release == r
    && forall j :: k < j < |entries| ==> entries[j].cn != c || entries[j].release != r
  }

  /** The tag is that of the nearest level where the class has one. */
  ghost predicate TagOf(entries: seq<Entry>, c: string, levels: seq<string>, tag: string) {
    if tag == "" then forall k :: 0 <= k < |levels| ==> TagAt(entries, c, levels[k], "")
    else exists k: nat :: TaggedAt(entries, c, levels, tag, k)
  }

  ghost predicate TaggedAt(entries: seq<Entry>, c: string, levels: seq<string>, tag: string, k: nat) {
    && k < |levels| && TagAt(entries, c, levels[k], tag)
    && forall j :: k < j < |levels| ==> TagAt(entries, c, levels[j], "")
  }

  lemma HoldsMeans(state: string, word: string)
    ensures Holds(state, word) <==> ByteSearch.Contains(state, word)
  {
    if Holds(state, word) {
      var k :| 0 <= k <= |state| && word <= state[k..];
      assert state[k..][..|word|] == state[k..k + |word|];
      assert ByteSearch.OccursAt(state, word, k);
    }
    if k: nat :| ByteSearch.OccursAt(state, word, k) {
      assert state[k..][..|word|] == state[k..k + |word|];
      assert word <= state[k..];
    }
  }

  lemma StatesMean(e: Entry)
    ensures Removes(e) <==> Holds(e.state, "remove")
    ensures Freezes(e) <==> Holds(e.state, "freeze")
    ensures Dropped(e) <==> Holds(e.state, "removed")
  {
    HoldsMeans(e.state, "remove");
    HoldsMeans(e.state, "freeze");
    HoldsMeans(e.state, "removed");
  }

  lemma SaidMeans(entries: seq<Entry>, c: string, r: string, i: nat)
    ensures Said(entries, c, r, i) == Silent <==> !Mentioned(entries, c, r, i)
    ensures Said(entries, c, r, i).Instance? <==> HasInstance(entries, c, r, i)
    ensures Said(entries, c, r, i).Instance? ==> Said(entries, c, r, i).frozen == HasFrozen(entries, c, r, i)
  {
    forall e: Entry
      ensures Names(e, c, r, i) <==> About(e, c, r, i)
      ensures Removes(e) <==> Holds(e.state, "remove")
      ensures Freezes(e) <==> Holds(e.state, "freeze")
    {
      StatesMean(e);
    }
    assert HasInstance(entries, c, r, i) <==> SaysInstance(entries, c, r, i);
    assert HasFrozen(entries, c, r, i) <==> SaysFrozen(entries, c, r, i);
    if e :| e in entries && Names(e, c, r, i) {
      assert SaysInstance(entries, c, r, i) || SaysRemoved(entries, c, r, i);
    }
  }

  /** A level that mentions the class decides, and one that does not leaves it to the levels before. */
  lemma HasSnoc(entries: seq<Entry>, c: string, before: seq<string>, r: string, i: nat, frozen: bool)
    ensures Has(entries, c, before + [r], i, frozen) <==>
      if Mentioned(entries, c, r, i) then HasInstance(entries, c, r, i) && frozen == HasFrozen(entries, c, r, i)
      else Has(entries, c, before, i, frozen)
  {
    var levels, n := before + [r], |before|;
    assert levels[n] == r && forall k :: 0 <= k < n ==> levels[k] == before[k];
    if Mentioned(entries, c, r, i) {
      assert NearestAt(entries, c, levels, i, n);
      assert forall k: nat :: NearestAt(entries, c, levels, i, k) ==> k == n;
    } else {
      forall k: nat
        ensures NearestAt(entries, c, levels, i, k) <==> NearestAt(entries, c, before, i, k)
      {
      }
      if Has(entries, c, before, i, frozen) {
        var k: nat :| NearestAt(entries, c, before, i, k)
          && HasInstance(entries, c, before[k], i) && frozen == HasFrozen(entries, c, before[k], i);
        assert NearestAt(entries, c, levels, i, k) && levels[k] == before[k];
      }
    }
  }

  lemma {:induction false} NearestMeans(entries: seq<Entry>, c: string, levels: seq<string>, i: nat, frozen: bool)
    ensures Nearest(entries, c, levels, i) == Instance(frozen) <==> Has(entries, c, levels, i, frozen)
  {
    if levels != [] {
      var before, r := levels[..|levels| - 1], levels[|levels| - 1];
      NearestMeans(entries, c, before, i, frozen);
      SaidMeans(entries, c, r, i);
      HasSnoc(entries, c, before, r, i, frozen);
      assert levels == before + [r];
    }
  }

  lemma CollectedTag(before: seq<Entry>, e: Entry, c: string, r: string)
    requires c != "" && r != ""
    ensures InfoAt(Collected(before + [e]), c, r).tag ==
      if e.cn == c && e.release == r then e.tag else InfoAt(Collected(before), c, r).tag
  {
    assert (before + [e])[..|before|] == before;
  }

  lemma {:induction false} InfoTagMeans(entries: seq<Entry>, c: string, r: string, tag: string)
    requires c != "" && r != ""
    ensures TagAt(entries, c, r, tag) <==> tag == InfoAt(Collected(entries), c, r).tag
  {
    if entries != [] {
      var before, e := entries[..|entries| - 1], entries[|entries| - 1];
      InfoTagMeans(before, c, r, tag);
      TagSnoc(before, e, c, r, tag);
      CollectedTag(before, e, c, r);
      assert entries == before + [e];
    }
  }

  lemma TagSnoc(before: seq<Entry>, e: Entry, c: string, r: string, tag: string)
    requires c != "" && r != ""
    ensures TagAt(before + [e], c, r, tag) <==>
      if e.cn == c && e.release == r then tag == e.tag else TagAt(before, c, r, tag)
  {
    var all, n := before + [e], |before|;
    assert all[n] == e && forall k :: 0 <= k < n ==> all[k] == before[k];
    assert forall x :: x in all <==> x in before || x == e;
    if e.cn == c && e.release == r {
      assert LastObject(all, c, r, n);
      assert forall k: nat :: LastObject(all, c, r, k) ==> k == n;
    } else {
      forall k: nat
        ensures LastObject(all, c, r, k) <==> LastObject(before, c, r, k)
      {
      }
      if k: nat :| LastObject(before, c, r, k) && tag == before[k].tag {
        assert LastObject(all, c, r, k) && tag == all[k].tag;
      }
    }
  }

  lemma EmptyNames(entries: seq<Entry>, c: string, r: string)
    requires c == "" || r == ""
    ensures InfoAt(Collected(entries), c, r) == Info(0, "")
  {
    if entries != [] {
      EmptyNames(entries[..|entries| - 1], c, r);
    }
  }

  lemma LevelTag(entries: seq<Entry>, c: string, r: string, tag: string)
    ensures TagAt(entries, c, r, tag) <==> tag == InfoAt(Collected(entries), c, r).tag
  {
    if c == "" || r == "" {
      EmptyNames(entries, c, r);
    } else {
      InfoTagMeans(entries, c, r, tag);
    }
  }

  lemma TagOfSnoc(entries: seq<Entry>, c: string, before: seq<string>, r: string, tag: string)
    ensures TagOf(entries, c, before + [r], tag) <==>
      if TagAt(entries, c, r, "") then TagOf(entries, c, before, tag) else tag != "" && TagAt(entries, c, r, tag)
  {
    var levels, n := before + [r], |before|;
    assert levels[n] == r && forall k :: 0 <= k < n ==> levels[k] == before[k];
    LevelTag(entries, c, r, "");
    LevelTag(entries, c, r, tag);
    if tag == "" {
    } else if TagAt(entries, c, r, "") {
      forall k: nat
        ensures TaggedAt(entries, c, levels, tag, k) <==> TaggedAt(entries, c, before, tag, k)
      {
      }
    } else {
      assert TaggedAt(entries, c, levels, tag, n) <==> TagAt(entries, c, r, tag);
      assert forall k: nat :: TaggedAt(entries, c, levels, tag, k) ==> k == n;
    }
  }

  lemma {:induction false} TagMeans(entries: seq<Entry>, c: string, levels: seq<string>, tag: string)
    ensures TagOf(entries, c, levels, tag) <==> tag == Tag(Collected(entries), c, levels)
  {
    if levels != [] {
      var before, r := levels[..|levels| - 1], levels[|levels| - 1];
      TagMeans(entries, c, before, tag);
      TagOfSnoc(entries, c, before, r, tag);
      LevelTag(entries, c, r, "");
      LevelTag(entries, c, r, tag);
      assert levels == before + [r];
    }
  }

  /** What is cached: the classes that the nearest level mentioning them has, as it has them, with the nearest tag. */
  lemma CacheHolds(entries: seq<Entry>, pairs: seq<(string, string)>, f: Fai)
    ensures f in Cached(entries, pairs) <==>
      && f.kind < 7 && (f.class_, f.release) in pairs
      && TagOf(entries, f.class_, Levels(f.release), f.tag)
      && Has(entries, f.class_, Levels(f.release), f.kind, f.frozen)
  {
    CachedMeans(entries, pairs, f);
    TagMeans(entries, f.class_, Levels(f.release), f.tag);
    NearestMeans(entries, f.class_, Levels(f.release), f.kind, f.frozen);
  }

  /** Object e is the first one with the name. */
  ghost predicate FirstNamed(entries: seq<Entry>, c: string, r: string, i: nat, e: Entry) {
    exists k :: 0 <= k < |entries| && e == entries[k] && Names(e, c, r, i)
                && forall j :: 0 <= j < k ==> !Names(entries[j], c, r, i)
  }

  /** The lookup gives e: it is the object of the nearest level that has one, and it is not marked "removed". */
  ghost predicate Gives(entries: seq<Entry>, c: string, levels: seq<string>, i: nat, e: Entry) {
    && !Holds(e.state, "removed")
    && exists k: nat :: NearestAt(entries, c, levels, i, k) && FirstNamed(entries, c, levels[k], i, e)
  }

  lemma {:induction false} ObjectMeans(entries: seq<Entry>, c: string, r: string, i: nat, e: Entry)
    ensures ObjectAt(entries, c, r, i) == Some(e) <==> FirstNamed(entries, c, r, i, e)
    ensures ObjectAt(entries, c, r, i) == None <==> !Mentioned(entries, c, r, i)
  {
    if entries != [] {
      ObjectMeans(entries[1..], c, r, i, e);
      assert About(entries[0], c, r, i) <==> Names(entries[0], c, r, i);
      assert forall k :: 0 <= k < |entries| - 1 ==> entries[1..][k] == entries[k + 1];
      assert forall x :: x in entries <==> x == entries[0] || x in entries[1..];
      if FirstNamed(entries[1..], c, r, i, e) && !Names(entries[0], c, r, i) {
        var k :| 0 <= k < |entries| - 1 && e == entries[1..][k] && Names(e, c, r, i)
                 && forall j :: 0 <= j < k ==> !Names(entries[1..][j], c, r, i);
        assert forall j :: 0 < j < k + 1 ==> entries[j] == entries[1..][j - 1];
        assert e == entries[k + 1];
      }
    }
  }

  lemma GivesSnoc(entries: seq<Entry>, c: string, before: seq<string>, r: string, i: nat, e: Entry)
    ensures Gives(entries, c, before + [r], i, e) <==>
      if Mentioned(entries, c, r, i) then FirstNamed(entries, c, r, i, e) && !Holds(e.state, "removed")
      else Gives(entries, c, before, i, e)
  {
    var levels, n := before + [r], |before|;
    assert levels[n] == r && forall k :: 0 <= k < n ==> levels[k] == before[k];
    if Mentioned(entries, c, r, i) {
      assert NearestAt(entries, c, levels, i, n);
      assert forall k: nat :: NearestAt(entries, c, levels, i, k) ==> k == n;
    } else {
      forall k: nat
        ensures NearestAt(entries, c, levels, i, k) <==> NearestAt(entries, c, before, i, k)
      {
      }
      if k: nat :| NearestAt(entries, c, before, i, k) && FirstNamed(entries, c, before[k], i, e) {
        assert NearestAt(entries, c, levels, i, k) && levels[k] == before[k];
      }
    }
  }

  /** What the lookup finds. */
  lemma {:induction false} LookupGives(entries: seq<Entry>, c: string, levels: seq<string>, i: nat, e: Entry)
    ensures Found(entries, c, levels, i) == Some(e) <==> Gives(entries, c, levels, i, e)
  {
    if levels != [] {
      var before, r := levels[..|levels| - 1], levels[|levels| - 1];
      LookupGives(entries, c, before, i, e);
      GivesSnoc(entries, c, before, r, i, e);
      ObjectMeans(entries, c, r, i, e);
      StatesMean(e);
      assert levels == before + [r];
    }
  }
}
