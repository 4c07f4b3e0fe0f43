/** The reading history a dashboard receives when it connects (server.js, the two
    `findAll` queries): readings stamped within the last 24 hours, ascending by
    `createdAt`, at most 360 of them. The limit applies after the ascending sort, so a
    fuller window yields its oldest 360 readings. */
module Hydration {
  import opened Protocol

  const DAY_MS: int := 24 * 60 * 60 * 1000
  const HYDRATION_LIMIT: nat := 360

  /** The readings stamped strictly after `cutoff` (the `$gt` condition), in log order. */
  function After(log: seq<Reading>, cutoff: int): (r: seq<Reading>)
    ensures forall x :: x in r ==> x.createdAt > cutoff
    ensures forall x :: multiset(r)[x] == if x.createdAt > cutoff then multiset(log)[x] else 0
    ensures multiset(r) <= multiset(log)
    decreases |log|
  {
    if log == [] then []
    else
      assert log == [log[0]] + log[1..];
      var rest := After(log[1..], cutoff);
      if log[0].createdAt > cutoff then [log[0]] + rest else rest
  }

  /** Ascending by `createdAt`. */
  predicate Ascending(s: seq<Reading>)
  {
    forall i, j :: 0 <= i < j < |s| ==> s[i].createdAt <= s[j].createdAt
  }

  /** Places `x` into an ascending sequence, ahead of the readings stamped no earlier. */
  function Insert(x: Reading, s: seq<Reading>): (r: seq<Reading>)
    requires Ascending(s)
    ensures Ascending(r)
    ensures multiset(r) == multiset(s) + multiset{x}
    decreases |s|
  {
    if s == [] then [x]
    else if x.createdAt <= s[0].createdAt then [x] + s
    else
      assert s == [s[0]] + s[1..];
      var tail := Insert(x, s[1..]);
      assert forall y :: y in tail ==> s[0].createdAt <= y.createdAt by {
        forall y | y in tail ensures s[0].createdAt <= y.createdAt {
          assert y in multiset(tail);
          if y != x {
            assert y in multiset(s[1..]);
          }
        }
      }
      [s[0]] + tail
  }

  /** `ORDER BY createdAt ASC`: an ascending permutation of `s`. */
  function SortByCreated(s: seq<Reading>): (r: seq<Reading>)
    ensures Ascending(r)
    ensures multiset(r) == multiset(s)
    decreases |s|
  {
    if s == [] then []
    else
      assert s == [s[0]] + s[1..];
      Insert(s[0], SortByCreated(s[1..]))
  }

  /** Nothing a prefix of an ascending sequence keeps is newer than anything it leaves. */
  lemma PrefixOlderThanRest(s: seq<Reading>, k: nat)
    requires Ascending(s) && k <= |s|
    ensures forall x, y :: x in s[..k] && y in s[k..] ==> x.createdAt <= y.createdAt
  {
    forall x, y | x in s[..k] && y in s[k..] ensures x.createdAt <= y.createdAt {
      var i :| 0 <= i < k && s[i] == x;
      var j :| 0 <= j < |s| - k && s[k..][j] == y;
      assert s[k + j] == y;
    }
  }

  /** A prefix of an ascending permutation of `w` is an ascending sub-multiset of `w`,
      and nothing it keeps is newer than anything of `w` it leaves out. */
  lemma PrefixHoldsOldest(s: seq<Reading>, w: seq<Reading>, k: nat)
    requires Ascending(s) && multiset(s) == multiset(w) && k <= |s|
    ensures Ascending(s[..k])
    ensures multiset(s[..k]) <= multiset(w)
    ensures forall x :: x in s[..k] ==> x in w
    ensures forall x, y :: x in s[..k] && y in multiset(w) - multiset(s[..k]) ==> x.createdAt <= y.createdAt
  {
    assert s == s[..k] + s[k..];
    var rest := multiset(w) - multiset(s[..k]);
    assert rest == multiset(s[k..]);
    forall x | x in s[..k] ensures x in w {
      assert x in multiset(s);
    }
    PrefixOlderThanRest(s, k);
    forall x, y | x in s[..k] && y in rest ensures x.createdAt <= y.createdAt {
      assert y in s[k..];
    }
  }

  /** The readings hydration sends for one channel: the window `createdAt > now - 24h`,
      sorted ascending, cut to its first 360. */
  function Recent(log: seq<Reading>, now: int): (r: seq<Reading>)
    ensures Ascending(r)
    ensures forall x :: x in r ==> x.createdAt > now - DAY_MS
    ensures multiset(r) <= multiset(After(log, now - DAY_MS)) <= multiset(log)
    ensures |r| == if |After(log, now - DAY_MS)| <= HYDRATION_LIMIT then |After(log, now - DAY_MS)| else HYDRATION_LIMIT
    ensures |After(log, now - DAY_MS)| <= HYDRATION_LIMIT ==> multiset(r) == multiset(After(log, now - DAY_MS))
    ensures forall x, y :: x in r && y in multiset(After(log, now - DAY_MS)) - multiset(r) ==> x.createdAt <= y.createdAt
  {
    var window := After(log, now - DAY_MS);
    var sorted := SortByCreated(window);
    assert |sorted| == |multiset(sorted)| == |window|;
    var k := if |sorted| <= HYDRATION_LIMIT then |sorted| else HYDRATION_LIMIT;
    PrefixHoldsOldest(sorted, window, k);
    assert k == |sorted| ==> sorted[..k] == sorted;
    sorted[..k]
  }
}
