/**
 * `orderBy: { createdAt: "desc" }`: rows sorted newest first. The database
 * leaves the order of equal timestamps open; this stable insertion sort is
 * one admissible choice.
 */
module Ordering {

  /** No row comes before a newer one. */
  predicate NewestFirst<T>(s: seq<T>, createdAt: T -> int)
  {
    forall i, j :: 0 <= i < j < |s| ==> createdAt(s[i]) >= createdAt(s[j])
  }

  function Insert<T(==)>(x: T, s: seq<T>, createdAt: T -> int): (r: seq<T>)
    requires NewestFirst(s, createdAt)
    ensures multiset(r) == multiset(s) + multiset{x}
    ensures forall j :: 0 <= j < |r| ==> r[j] == x || r[j] in s
    ensures NewestFirst(r, createdAt)
  {
    if s == [] || createdAt(x) >= createdAt(s[0]) then
      [x] + s
    else
      assert [s[0]] + s[1..] == s;
      var rest := Insert(x, s[1..], createdAt);
      HeadIsNewest(x, s, rest, createdAt);
      [s[0]] + rest
  }

  lemma HeadIsNewest<T>(x: T, s: seq<T>, rest: seq<T>, createdAt: T -> int)
    requires s != [] && NewestFirst(s, createdAt) && createdAt(x) < createdAt(s[0])
    requires NewestFirst(rest, createdAt)
    requires forall j :: 0 <= j < |rest| ==> rest[j] == x || rest[j] in s[1..]
    ensures NewestFirst([s[0]] + rest, createdAt)
  {
    var r := [s[0]] + rest;
    forall j | 0 < j < |r| ensures createdAt(r[j]) <= createdAt(s[0]) {
      if r[j] != x {
        assert rest[j - 1] in s[1..];
        var k :| 0 <= k < |s[1..]| && s[1..][k] == rest[j - 1];
        assert s[k + 1] == r[j];
      }
    }
  }

  /** The rows of `s`, each exactly once, newest first. */
  function SortNewestFirst<T(==)>(s: seq<T>, createdAt: T -> int): (r: seq<T>)
    ensures multiset(r) == multiset(s)
    ensures NewestFirst(r, createdAt)
  {
    if s == [] then []
    else
      assert [s[0]] + s[1..] == s;
      Insert(s[0], SortNewestFirst(s[1..], createdAt), createdAt)
  }
}
