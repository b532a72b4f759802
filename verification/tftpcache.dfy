/** The cache entry of a served file: a count of its users and of releases that are still to come. */
module TftpCache {
  /** The bytes that a user is handed, and whether loading them failed. */
  datatype Handed = Handed(data: string, failed: bool)

  /** What the entry holds, who uses it with which bytes, and how many delayed releases are pending. */
  datatype State = State(loadCount: nat, data: string, failed: bool, users: map<nat, Handed>, pending: nat)

  datatype Event =
    | Acquire(user: nat, content: string, fails: bool)
    | Release(user: nat)
    | Expire

  predicate Possible(s: State, e: Event) {
    match e
    case Acquire(u, _, _) => u !in s.users
    case Release(u) => u in s.users
    case Expire => s.pending > 0 && s.loadCount > 0
  }

  /** If the count is zero the file is read into the entry; a new user is handed whatever the entry holds then. */
  function Acquired(s: State, u: nat, content: string, fails: bool): State {
    var data := if s.loadCount == 0 then s.data + content else s.data;
    var failed := if s.loadCount == 0 then s.failed || fails else s.failed;
    State(s.loadCount + 1, data, failed, s.users[u := Handed(data, failed)], s.pending)
  }

  /** The last release leaves the count as it is until some time later. */
  function Released(s: State, u: nat): State {
    if s.loadCount > 1 then State(s.loadCount - 1, s.data, s.failed, s.users - {u}, s.pending)
    else State(s.loadCount, s.data, s.failed, s.users - {u}, s.pending + 1)
  }

  function Expired(s: State): State
    requires s.loadCount > 0 && s.pending > 0
  {
    State(s.loadCount - 1, if s.loadCount == 1 then "" else s.data, s.loadCount > 1 && s.failed, s.users, s.pending - 1)
  }

  function Next(s: State, e: Event): State
    requires Possible(s, e)
  {
    match e
    case Acquire(u, content, fails) => Acquired(s, u, content, fails)
    case Release(u) => Released(s, u)
    case Expire => Expired(s)
  }

  ghost predicate Run(s: State, events: seq<Event>)
    decreases |events|
  {
    events == [] || (Possible(s, events[0]) && Run(Next(s, events[0]), events[1..]))
  }

  ghost function After(s: State, events: seq<Event>): State
    requires Run(s, events)
    decreases |events|
  {
    if events == [] then s else After(Next(s, events[0]), events[1..])
  }

  const EMPTY := State(0, "", false, map[], 0)

  ghost predicate Valid(s: State) {
    && s.loadCount == |s.users| + s.pending && s.pending <= 1
    && (forall u :: u in s.users ==> s.users[u] == Handed(s.data, s.failed))
    && (s.loadCount == 0 ==> s.data == "" && !s.failed)
  }

  lemma AcquiredKeeps(s: State, u: nat, content: string, fails: bool)
    requires Valid(s) && u !in s.users
    ensures Valid(Acquired(s, u, content, fails))
  {
    var n := Acquired(s, u, content, fails);
    assert n.users.Keys == s.users.Keys + {u};
    assert |s.users| == |s.users.Keys| && |n.users| == |n.users.Keys|;
    assert s.loadCount == 0 ==> |s.users| == 0;
  }

  lemma ReleasedKeeps(s: State, u: nat)
    requires Valid(s) && u in s.users
    ensures Valid(Released(s, u))
  {
    assert (s.users - {u}).Keys == s.users.Keys - {u};
    assert |s.users.Keys| == |s.users.Keys - {u}| + 1;
    assert |s.users| == |s.users.Keys| && |s.users - {u}| == |(s.users - {u}).Keys|;
  }

  lemma ExpiredKeeps(s: State)
    requires Valid(s) && s.pending > 0 && s.loadCount > 0
    ensures Valid(Expired(s))
  {
    assert s.loadCount == 1 ==> |s.users| == 0;
  }

  lemma NextKeeps(s: State, e: Event)
    requires Valid(s) && Possible(s, e)
    ensures Valid(Next(s, e))
  {
    match e
    case Acquire(u, content, fails) => AcquiredKeeps(s, u, content, fails);
    case Release(u) => ReleasedKeeps(s, u);
    case Expire => ExpiredKeeps(s);
  }

  /**
   * In every run the count is that of the users and of at most one delayed release, and every user
   * finds the bytes it was handed: they are neither reset nor loaded anew under it.
   */
  lemma {:induction false} DataOutlivesUsers(s: State, events: seq<Event>)
    requires Valid(s) && Run(s, events)
    ensures Valid(After(s, events))
    decreases |events|
  {
    if events != [] {
      NextKeeps(s, events[0]);
      DataOutlivesUsers(Next(s, events[0]), events[1..]);
    }
  }

  /** In every run, loading finds an empty entry, so that exactly what was loaded is handed out. */
  lemma LoadsAfresh(events: seq<Event>, user: nat, content: string, fails: bool)
    requires Run(EMPTY, events) && After(EMPTY, events).loadCount == 0
    ensures Acquired(After(EMPTY, events), user, content, fails).users[user] == Handed(content, fails)
  {
    DataOutlivesUsers(EMPTY, events);
    assert "" + content == content;
  }

  lemma {:induction false} RunSnoc(s: State, events: seq<Event>, e: Event)
    requires Run(s, events + [e])
    ensures Run(s, events) && Possible(After(s, events), e)
    ensures After(s, events + [e]) == Next(After(s, events), e)
    decreases |events|
  {
    var all := events + [e];
    if events == [] {
      assert all[1..] == [] && Run(Next(s, e), []);
    } else {
      assert all[1..] == events[1..] + [e];
      RunSnoc(Next(s, events[0]), events[1..], e);
    }
  }

  /** Who comes after a user that has released the file gets the same bytes, even after the last one. */
  lemma AfterLifeServes(events: seq<Event>, u: nat, v: nat, content: string, fails: bool)
    requires Run(EMPTY, events + [Release(u)])
    ensures Run(EMPTY, events) && u in After(EMPTY, events).users
    ensures Acquired(After(EMPTY, events + [Release(u)]), v, content, fails).users[v] == After(EMPTY, events).users[u]
  {
    RunSnoc(EMPTY, events, Release(u));
    DataOutlivesUsers(EMPTY, events);
    assert |After(EMPTY, events).users| > 0;
  }

  class CacheEntry {
    var data: string
    var failed: bool
    var loadCount: nat
    ghost var users: map<nat, Handed>
    ghost var pending: nat

    ghost function Model(): State
      reads this
    {
      State(loadCount, data, failed, users, pending)
    }

    constructor ()
      ensures Model() == EMPTY
    {
      data, failed, loadCount, users, pending := "", false, 0, map[], 0;
    }

    /** Loads the file, or runs the command that makes it, if nobody uses it yet. */
    method GetFile(content: string, fails: bool, ghost user: nat) returns (bytes: string, err: bool)
      modifies this
      ensures Model() == Acquired(old(Model()), user, content, fails) && bytes == data && err == failed
    {
      if loadCount == 0 {
        data := data + content;
        if fails {
          failed := true;
        }
      }
      loadCount := loadCount + 1;
      users := users[user := Handed(data, failed)];
      bytes, err := data, failed;
    }

    /** Returns whether a delayed release is to follow. */
    method Release(ghost user: nat) returns (delayed: bool)
      requires user in users
      modifies this
      ensures Model() == Released(old(Model()), user)
      ensures delayed == (old(loadCount) <= 1)
    {
      if loadCount > 1 {
        loadCount := loadCount - 1;
        delayed := false;
      } else {
        pending := pending + 1;
        delayed := true;
      }
      users := users - {user};
    }

    method AfterLife()
      requires loadCount > 0 && pending > 0
      modifies this
      ensures Model() == Expired(old(Model()))
    {
      loadCount := loadCount - 1;
      pending := pending - 1;
      if loadCount == 0 {
        data := "";
        failed := false;
      }
    }
  }
}
