/** The session list store of src/stores/session.ts: the numbers of the
    user's conversations, most recent first, and the current one. */
module Sessions {
  import opened Wrappers

  /** The store cell. A session number is a JavaScript number; it is
      modelled as an integer. */
  datatype SessionState = SessionState(sessions: seq<int>, currentSession: Option<int>)

  const Initial := SessionState([], None)

  /** `sessions.filter(s => s !== n)`. */
  function Without(xs: seq<int>, n: int): (r: seq<int>)
    ensures n !in r
    ensures forall x :: x in r <==> x in xs && x != n
    ensures |r| <= |xs|
  {
    if xs == [] then []
    else (if xs[0] == n then [] else [xs[0]]) + Without(xs[1..], n)
  }

  /** Filtering keeps the relative order: it distributes over
      concatenation. */
  lemma {:induction false} WithoutAppend(a: seq<int>, b: seq<int>, n: int)
    ensures Without(a + b, n) == Without(a, n) + Without(b, n)
  {
    if a != [] {
      assert (a + b)[1..] == a[1..] + b;
      WithoutAppend(a[1..], b, n);
      var h := if a[0] == n then [] else [a[0]];
      assert Without(a + b, n) == h + (Without(a[1..], n) + Without(b, n));
      assert h + (Without(a[1..], n) + Without(b, n)) == (h + Without(a[1..], n)) + Without(b, n);
    } else {
      assert a + b == b;
    }
  }

  /** Filtering removes every occurrence of `n` and keeps every other
      entry as often as it was there. */
  lemma {:induction false} WithoutCounts(xs: seq<int>, n: int)
    ensures multiset(Without(xs, n)) == multiset(xs)[n := 0]
  {
    if xs != [] {
      WithoutCounts(xs[1..], n);
      assert xs == [xs[0]] + xs[1..];
    }
  }

  /** A list without `n` is left as it is. */
  lemma {:induction false} WithoutAbsent(xs: seq<int>, n: int)
    requires n !in xs
    ensures Without(xs, n) == xs
  {
    if xs != [] {
      WithoutAbsent(xs[1..], n);
    }
  }

  /** The list after `addSession(n)`: `n` in front, nothing removed. */
  function Prepend(xs: seq<int>, n: int): (r: seq<int>)
    ensures |r| == |xs| + 1 && r[0] == n && r[1..] == xs
    ensures multiset(r) == multiset(xs) + multiset{n}
  {
    [n] + xs
  }

  /** The list after `setCurrentSession(n)`: `n` exactly once, in front of
      the others in their old order. */
  function MoveToFront(xs: seq<int>, n: int): (r: seq<int>)
    ensures r != [] && r[0] == n && n !in r[1..]
    ensures forall x :: x in r <==> x in xs || x == n
  {
    [n] + Without(xs, n)
  }

  /** Moving to the front keeps one copy of `n` and all other entries. */
  lemma MoveToFrontCounts(xs: seq<int>, n: int)
    ensures multiset(MoveToFront(xs, n)) == multiset(xs)[n := 1]
  {
    WithoutCounts(xs, n);
  }

  /** Moving the same number to the front twice is moving it once. */
  lemma MoveToFrontIdempotent(xs: seq<int>, n: int)
    ensures MoveToFront(MoveToFront(xs, n), n) == MoveToFront(xs, n)
  {
    var r := MoveToFront(xs, n);
    assert r == [n] + r[1..];
    WithoutAppend([n], r[1..], n);
    WithoutAbsent(r[1..], n);
  }

  /** `state.sessions[0] || null`: the first number, unless the list is
      empty or the first number is 0, which is falsy. */
  function FirstSession(xs: seq<int>): (r: Option<int>)
    ensures r.Some? <==> xs != [] && xs[0] != 0
    ensures r.Some? ==> r.value == xs[0]
  {
    if xs != [] && xs[0] != 0 then Some(xs[0]) else None
  }

  /** After `setCurrentSession(n)`, `getCurrentSession` answers `n`, except
      for the falsy session number 0. */
  lemma CurrentAfterMove(xs: seq<int>, n: int)
    ensures FirstSession(MoveToFront(xs, n)) == if n == 0 then None else Some(n)
  {
  }

  class SessionStore {
    var state: SessionState

    constructor ()
      ensures state == Initial
    {
      state := Initial;
    }

    /** `addSession(n)`: prepend without removing duplicates. */
    method AddSession(n: int)
      modifies this
      ensures state == SessionState(Prepend(old(state.sessions), n), Some(n))
    {
      state := SessionState([n] + state.sessions, Some(n));
    }

    /** `setCurrentSession(n)`: move `n` to the front, adding it if it was
        not there. */
    method SetCurrentSession(n: int)
      modifies this
      ensures state == SessionState(MoveToFront(old(state.sessions), n), Some(n))
      ensures state.currentSession == Some(state.sessions[0])
    {
      var filtered := Without(state.sessions, n);
      state := SessionState([n] + filtered, Some(n));
    }

    /** `getCurrentSession()`: recompute the current session from the list
        and return it. */
    method GetCurrentSession() returns (current: Option<int>)
      modifies this
      ensures current == FirstSession(old(state.sessions))
      ensures state == old(state).(currentSession := current)
    {
      current := if state.sessions != [] && state.sessions[0] != 0 then Some(state.sessions[0]) else None;
      state := state.(currentSession := current);
    }
  }
}
