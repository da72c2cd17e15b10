/** `URLSearchParams`: an ordered list of name/value pairs, read by `get` and changed by `set` and `delete`. */
module QueryParams {
  import opened Wrappers

  datatype Param = Param(name: string, value: string)

  /** `params.get(name)`: the value of the first pair with that name. */
  function Get(ps: seq<Param>, name: string): (r: Option<string>)
    ensures r.None? <==> forall i :: 0 <= i < |ps| ==> ps[i].name != name
    ensures r.Some? ==> exists i :: (0 <= i < |ps| && ps[i] == Param(name, r.value)
      && forall j :: 0 <= j < i ==> ps[j].name != name)
  {
    if ps == [] then None
    else if ps[0].name == name then Some(ps[0].value)
    else
      var r := Get(ps[1..], name);
      assert r.Some? ==> exists i :: (0 < i < |ps| && ps[i] == Param(name, r.value)
        && forall j :: 0 <= j < i ==> ps[j].name != name) by {
        if r.Some? {
          var k :| 0 <= k < |ps[1..]| && ps[1..][k] == Param(name, r.value)
            && forall j :: 0 <= j < k ==> ps[1..][j].name != name;
          assert forall j :: 0 <= j < k + 1 ==> ps[j].name != name by {
            forall j | 0 <= j < k + 1 ensures ps[j].name != name {
              if j > 0 { assert ps[j] == ps[1..][j - 1]; }
            }
          }
        }
      }
      r
  }

  /** `params.delete(name)`: every pair with that name goes, the others stay in order. */
  function Delete(ps: seq<Param>, name: string): (r: seq<Param>)
    ensures forall p :: p in r <==> p in ps && p.name != name
    ensures |r| <= |ps|
  {
    if ps == [] then []
    else if ps[0].name == name then Delete(ps[1..], name)
    else [ps[0]] + Delete(ps[1..], name)
  }

  /**
   * `params.set(name, value)`: the first pair with that name takes the value
   * and later ones go; with no such pair, one is appended.
   */
  function Set(ps: seq<Param>, name: string, value: string): (r: seq<Param>)
  {
    if ps == [] then [Param(name, value)]
    else if ps[0].name == name then [Param(name, value)] + Delete(ps[1..], name)
    else [ps[0]] + Set(ps[1..], name, value)
  }

  /** After `set`, `get` of that name gives the new value. */
  lemma {:induction false} GetAfterSet(ps: seq<Param>, name: string, value: string)
    ensures Get(Set(ps, name, value), name) == Some(value)
  {
    if ps != [] && ps[0].name != name {
      GetAfterSet(ps[1..], name, value);
    }
  }

  /** After `delete`, `get` of that name gives nothing. */
  lemma GetAfterDelete(ps: seq<Param>, name: string)
    ensures Get(Delete(ps, name), name).None?
  {
  }

  /** `set` leaves every pair with another name where it was: deleting the name afterwards undoes it. */
  lemma {:induction false} SetKeepsOthers(ps: seq<Param>, name: string, value: string)
    ensures Delete(Set(ps, name, value), name) == Delete(ps, name)
  {
    if ps != [] {
      if ps[0].name == name {
        DeleteTwice(ps[1..], name);
      } else {
        SetKeepsOthers(ps[1..], name, value);
      }
    }
  }

  /** Deleting twice is deleting once. */
  lemma {:induction false} DeleteTwice(ps: seq<Param>, name: string)
    ensures Delete(Delete(ps, name), name) == Delete(ps, name)
  {
    if ps != [] {
      DeleteTwice(ps[1..], name);
    }
  }

  /** Deleting a name that is not there changes nothing. */
  lemma {:induction false} DeleteAbsent(ps: seq<Param>, name: string)
    requires Get(ps, name).None?
    ensures Delete(ps, name) == ps
  {
    if ps != [] {
      DeleteAbsent(ps[1..], name);
    }
  }

  /** Setting a name that is not there appends one pair. */
  lemma {:induction false} SetAbsent(ps: seq<Param>, name: string, value: string)
    requires Get(ps, name).None?
    ensures Set(ps, name, value) == ps + [Param(name, value)]
  {
    if ps != [] {
      SetAbsent(ps[1..], name, value);
    }
  }

  /** Reads of other names are not affected by `set` or `delete`. */
  lemma {:induction false} OtherNamesUnaffected(ps: seq<Param>, name: string, value: string, other: string)
    requires other != name
    ensures Get(Set(ps, name, value), other) == Get(ps, other)
    ensures Get(Delete(ps, name), other) == Get(ps, other)
  {
    if ps != [] {
      OtherNamesUnaffected(ps[1..], name, value, other);
    }
  }

  /** A mutable `URLSearchParams` object. */
  class SearchParams {
    var entries: seq<Param>

    /** `new URLSearchParams(searchParams)`: a copy of the current pairs. */
    constructor (from: seq<Param>)
      ensures entries == from
    {
      entries := from;
    }

    function GetParam(name: string): Option<string>
      reads this
    {
      Get(entries, name)
    }

    method SetParam(name: string, value: string)
      modifies this
      ensures entries == Set(old(entries), name, value)
    {
      entries := Set(entries, name, value);
    }

    method DeleteParam(name: string)
      modifies this
      ensures entries == Delete(old(entries), name)
    {
      entries := Delete(entries, name);
    }
  }
}
