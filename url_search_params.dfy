/** The part of the `URLSearchParams` interface the page uses: an ordered list of
    name-value pairs with `get`, `getAll`, `set` and `append` as the URL Standard
    defines them. Serialising the list into a query string is not modelled. */
module UrlSearchParams {
  import opened Wrappers

  datatype Param = Param(name: string, value: string)

  predicate HasName(ps: seq<Param>, name: string) {
    exists k | 0 <= k < |ps| :: ps[k].name == name
  }

  /** `get(name)`: the value of the first pair with that name, or null. */
  function Get(ps: seq<Param>, name: string): (r: Option<string>)
    ensures r.None? <==> !HasName(ps, name)
    ensures r.Some? ==> exists k :: 0 <= k < |ps| && ps[k] == Param(name, r.value)
                                   && forall j :: 0 <= j < k ==> ps[j].name != name
  {
    if ps == [] then None
    else if ps[0].name == name then Some(ps[0].value)
    else
      var r := Get(ps[1..], name);
      assert r.Some? ==> exists k :: 1 <= k < |ps| && ps[k] == Param(name, r.value)
                                   && forall j :: 0 <= j < k ==> ps[j].name != name by {
        if r.Some? {
          var k :| 0 <= k < |ps[1..]| && ps[1..][k] == Param(name, r.value)
                   && forall j :: 0 <= j < k ==> ps[1..][j].name != name;
          assert ps[k + 1] == Param(name, r.value);
          assert forall j :: 0 <= j < k + 1 ==> ps[j].name != name by {
            forall j | 0 <= j < k + 1 ensures ps[j].name != name {
              if j > 0 { assert ps[j] == ps[1..][j - 1]; }
            }
          }
        }
      }
      assert HasName(ps, name) ==> HasName(ps[1..], name) by {
        if HasName(ps, name) {
          var k :| 0 <= k < |ps| && ps[k].name == name;
          assert ps[1..][k - 1].name == name;
        }
      }
      r
  }

  /** `getAll(name)`: the values of all pairs with that name, in order. */
  function GetAll(ps: seq<Param>, name: string): (r: seq<string>)
    ensures |r| <= |ps|
    ensures forall v :: v in r <==> Param(name, v) in ps
  {
    if ps == [] then []
    else
      assert ps == [ps[0]] + ps[1..];
      (if ps[0].name == name then [ps[0].value] else []) + GetAll(ps[1..], name)
  }

  /** `append(name, value)`. */
  function AppendParam(ps: seq<Param>, name: string, value: string): seq<Param> {
    ps + [Param(name, value)]
  }

  /** The pairs whose name is not `name`. */
  function RemoveName(ps: seq<Param>, name: string): (r: seq<Param>)
    ensures !HasName(r, name)
    ensures forall other :: other != name ==> GetAll(r, other) == GetAll(ps, other)
  {
    if ps == [] then []
    else if ps[0].name == name then RemoveName(ps[1..], name)
    else [ps[0]] + RemoveName(ps[1..], name)
  }

  /** `set(name, value)`: when a pair with that name exists, the first one takes
      the value and the others are removed; otherwise the pair is appended. */
  function SetParam(ps: seq<Param>, name: string, value: string): (r: seq<Param>)
    ensures Get(r, name) == Some(value)
  {
    if HasName(ps, name) then ReplaceFirst(ps, name, value)
    else
      GetAppendAbsent(ps, name, value);
      AppendParam(ps, name, value)
  }

  /** Appending to a list without the name makes the new pair the first with it. */
  lemma {:induction false} GetAppendAbsent(ps: seq<Param>, name: string, value: string)
    requires !HasName(ps, name)
    ensures Get(ps + [Param(name, value)], name) == Some(value)
  {
    if ps != [] {
      assert (ps + [Param(name, value)])[1..] == ps[1..] + [Param(name, value)];
      GetAppendAbsent(ps[1..], name, value);
    }
  }

  function ReplaceFirst(ps: seq<Param>, name: string, value: string): (r: seq<Param>)
    requires HasName(ps, name)
    ensures Get(r, name) == Some(value)
  {
    if ps[0].name == name then [Param(name, value)] + RemoveName(ps[1..], name)
    else
      assert HasName(ps[1..], name) by {
        var k :| 0 <= k < |ps| && ps[k].name == name;
        assert ps[1..][k - 1].name == name;
      }
      var tail := ReplaceFirst(ps[1..], name, value);
      assert ([ps[0]] + tail)[1..] == tail;
      [ps[0]] + tail
  }

  /** The values of a list that starts with `p`. */
  lemma GetAllCons(p: Param, ps: seq<Param>, name: string)
    ensures GetAll([p] + ps, name) == (if p.name == name then [p.value] else []) + GetAll(ps, name)
  {
    assert ([p] + ps)[0] == p;
    assert ([p] + ps)[1..] == ps;
  }

  lemma {:induction false} GetAllAppend(ps: seq<Param>, qs: seq<Param>, name: string)
    ensures GetAll(ps + qs, name) == GetAll(ps, name) + GetAll(qs, name)
  {
    if ps == [] {
      assert ps + qs == qs;
    } else {
      var p, rest := ps[0], ps[1..];
      var head: seq<string> := if p.name == name then [p.value] else [];
      assert ps == [p] + rest;
      assert ps + qs == [p] + (rest + qs);
      calc {
        GetAll(ps + qs, name);
        { GetAllCons(p, rest + qs, name); }
        head + GetAll(rest + qs, name);
        { GetAllAppend(rest, qs, name); }
        head + (GetAll(rest, name) + GetAll(qs, name));
        (head + GetAll(rest, name)) + GetAll(qs, name);
        { GetAllCons(p, rest, name); }
        GetAll(ps, name) + GetAll(qs, name);
      }
    }
  }

  /** After `set(name, value)` the name has exactly one value, `value`, and every
      other name keeps all its values. */
  lemma {:induction false} SetGetAll(ps: seq<Param>, name: string, value: string)
    ensures GetAll(SetParam(ps, name, value), name) == [value]
    ensures forall other :: other != name ==> GetAll(SetParam(ps, name, value), other) == GetAll(ps, other)
  {
    if HasName(ps, name) {
      ReplaceFirstGetAll(ps, name, value);
    } else {
      GetAllAppend(ps, [Param(name, value)], name);
      NoNameNoValues(ps, name);
      forall other | other != name
        ensures GetAll(SetParam(ps, name, value), other) == GetAll(ps, other)
      {
        GetAllAppend(ps, [Param(name, value)], other);
      }
    }
  }

  lemma {:induction false} NoNameNoValues(ps: seq<Param>, name: string)
    requires !HasName(ps, name)
    ensures GetAll(ps, name) == []
  {
    if ps != [] {
      NoNameNoValues(ps[1..], name);
    }
  }

  lemma {:induction false} ReplaceFirstGetAll(ps: seq<Param>, name: string, value: string)
    requires HasName(ps, name)
    ensures GetAll(ReplaceFirst(ps, name, value), name) == [value]
    ensures forall other :: other != name ==> GetAll(ReplaceFirst(ps, name, value), other) == GetAll(ps, other)
  {
    assert ps == [ps[0]] + ps[1..];
    if ps[0].name == name {
      var r := RemoveName(ps[1..], name);
      NoNameNoValues(r, name);
      GetAllCons(Param(name, value), r, name);
      forall other | other != name
        ensures GetAll(ReplaceFirst(ps, name, value), other) == GetAll(ps, other)
      {
        GetAllCons(Param(name, value), r, other);
        GetAllCons(ps[0], ps[1..], other);
      }
    } else {
      assert HasName(ps[1..], name) by {
        var k :| 0 <= k < |ps| && ps[k].name == name;
        assert ps[1..][k - 1].name == name;
      }
      ReplaceFirstGetAll(ps[1..], name, value);
      var t := ReplaceFirst(ps[1..], name, value);
      GetAllCons(ps[0], t, name);
      forall other | other != name
        ensures GetAll(ReplaceFirst(ps, name, value), other) == GetAll(ps, other)
      {
        GetAllCons(ps[0], t, other);
        GetAllCons(ps[0], ps[1..], other);
      }
    }
  }

  /** On a list without the name, `set` is `append`. */
  lemma SetAbsent(ps: seq<Param>, name: string, value: string)
    requires !HasName(ps, name)
    ensures SetParam(ps, name, value) == ps + [Param(name, value)]
  {
  }

  /** `get` returns the first value `getAll` lists. */
  lemma {:induction false} GetIsFirstOfGetAll(ps: seq<Param>, name: string)
    ensures Get(ps, name) == (if GetAll(ps, name) == [] then None else Some(GetAll(ps, name)[0]))
  {
    if ps != [] && ps[0].name != name {
      GetIsFirstOfGetAll(ps[1..], name);
    }
  }

  /** A mutable `URLSearchParams` object. */
  class SearchParams {
    var entries: seq<Param>

    /** `new URLSearchParams()`. */
    constructor ()
      ensures entries == []
    {
      entries := [];
    }

    method Set(name: string, value: string)
      modifies this
      ensures entries == SetParam(old(entries), name, value)
    {
      entries := SetParam(entries, name, value);
    }

    method Append(name: string, value: string)
      modifies this
      ensures entries == old(entries) + [Param(name, value)]
    {
      entries := entries + [Param(name, value)];
    }
  }
}
