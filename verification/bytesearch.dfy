/** Searching byte slices. */
module ByteSearch {
  import opened Common

  /** The first position of c in d from the given position on. */
  function Find(d: string, from: nat, c: char): (r: Option<nat>)
    ensures r.Some? ==> from <= r.value < |d| && d[r.value] == c
    ensures forall i :: from <= i < (if r.Some? then r.value else |d|) ==> d[i] != c
    decreases |d| - from
  {
    if from >= |d| then None
    else if d[from] == c then Some(from)
    else Find(d, from + 1, c)
  }

  lemma FindIs(d: string, from: nat, c: char, at: nat)
    requires from <= at < |d| && d[at] == c
    requires forall i :: from <= i < at ==> d[i] != c
    ensures Find(d, from, c) == Some(at)
  {
  }

  method Seek(d: string, from: nat, c: char) returns (r: Option<nat>)
    ensures r == Find(d, from, c)
  {
    var nxt := from;
    while nxt < |d| && d[nxt] != c
      invariant from <= nxt
      invariant Find(d, from, c) == Find(d, nxt, c)
      decreases |d| - nxt
    {
      nxt := nxt + 1;
    }
    r := if nxt < |d| then Some(nxt) else None;
  }

  predicate OccursAt(b: string, s: string, i: nat) {
    i + |s| <= |b| && b[i..i + |s|] == s
  }

  ghost predicate Contains(b: string, s: string) {
    exists i: nat :: OccursAt(b, s, i)
  }

  /** Whether b contains s somewhere. */
  method Has(b: string, s: string) returns (r: bool)
    ensures r == Contains(b, s)
  {
    if |s| == 0 {
      assert OccursAt(b, s, 0);
      return true;
    }
    var i: nat := 0;
    while i + |s| <= |b|
      invariant forall j: nat :: j < i ==> !OccursAt(b, s, j)
    {
      var k := 0;
      while k < |s| && b[i + k] == s[k]
        invariant k <= |s|
        invariant forall j :: 0 <= j < k ==> b[i + j] == s[j]
      {
        k := k + 1;
      }
      if k == |s| {
        assert OccursAt(b, s, i);
        return true;
      }
      assert !OccursAt(b, s, i) by {
        assert b[i..i + |s|][k] == b[i + k];
      }
      i := i + 1;
    }
    return false;
  }
}
