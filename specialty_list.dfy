/** The specialty list offered by the filter panel: every non-empty speciality
    name found among the doctors, without duplicates, in sorted order. */
module SpecialtyList {
  import opened Strings
  import opened DoctorTypes
  import DoctorCard

  /** The non-empty names among one doctor's specialities. */
  function NamesOf(specs: seq<Speciality>): (r: set<string>)
    ensures forall n :: n in r <==> n != "" && exists sp :: sp in specs && sp.name == n
  {
    if specs == [] then {}
    else
      var last := specs[|specs| - 1];
      var init := specs[..|specs| - 1];
      assert specs == init + [last];
      NamesOf(init) + (if last.name != "" then {last.name} else {})
  }

  /** The non-empty speciality names across all the doctors. */
  function SpecialtyNames(doctors: seq<Doctor>): (r: set<string>)
    ensures forall n :: n in r <==>
      n != "" && exists d, sp :: d in doctors && sp in d.specialities && sp.name == n
  {
    if doctors == [] then {}
    else
      var last := doctors[|doctors| - 1];
      var init := doctors[..|doctors| - 1];
      assert doctors == init + [last];
      SpecialtyNames(init) + NamesOf(last.specialities)
  }

  /** No element occurs twice. */
  predicate Distinct(xs: seq<string>) {
    forall i, j :: 0 <= i < j < |xs| ==> xs[i] != xs[j]
  }

  /** Strictly increasing in string order: sorted and without duplicates. */
  predicate Increasing(xs: seq<string>) {
    forall i, j :: 0 <= i < j < |xs| ==> StrLess(xs[i], xs[j])
  }

  /** Inserts a name before the first element that is not smaller than it. */
  function InsertName(x: string, xs: seq<string>): (r: seq<string>)
    ensures multiset(r) == multiset(xs) + multiset{x}
  {
    if xs == [] then [x]
    else if !StrLess(xs[0], x) then [x] + xs
    else
      assert xs == [xs[0]] + xs[1..];
      [xs[0]] + InsertName(x, xs[1..])
  }

  /** The default string sort of `Array.prototype.sort`, as an insertion sort. */
  function SortNames(xs: seq<string>): (r: seq<string>)
    ensures multiset(r) == multiset(xs)
  {
    if xs == [] then []
    else
      assert xs == [xs[0]] + xs[1..];
      InsertName(xs[0], SortNames(xs[1..]))
  }

  /** Inserting a new name keeps a sequence strictly increasing. */
  lemma {:induction false} InsertNameIncreasing(x: string, xs: seq<string>)
    requires Increasing(xs) && x !in xs
    ensures Increasing(InsertName(x, xs))
  {
    if xs == [] {
    } else if !StrLess(xs[0], x) {
      StrLessTotal(x, xs[0]);
      forall j | 0 <= j < |xs|
        ensures StrLess(x, xs[j])
      {
        if j > 0 {
          StrLessTransitive(x, xs[0], xs[j]);
        }
      }
      var r := [x] + xs;
      assert forall i, j :: 0 < i < j < |r| ==> r[i] == xs[i - 1] && r[j] == xs[j - 1];
    } else {
      InsertNameIncreasing(x, xs[1..]);
      var tail := InsertName(x, xs[1..]);
      forall y | y in tail
        ensures StrLess(xs[0], y)
      {
        assert y in multiset(tail);
        assert y in xs[1..] || y == x;
      }
      var r := [xs[0]] + tail;
      forall i, j | 0 <= i < j < |r|
        ensures StrLess(r[i], r[j])
      {
        if i == 0 {
          assert r[j] in tail;
        } else {
          assert r[i] == tail[i - 1] && r[j] == tail[j - 1];
        }
      }
    }
  }

  /** The first element of a sequence without duplicates is not in its tail. */
  lemma DistinctHead(xs: seq<string>)
    requires xs != [] && Distinct(xs)
    ensures xs[0] !in xs[1..]
  {
  }

  /** Sorting names without duplicates yields a strictly increasing sequence. */
  lemma {:induction false} SortNamesIncreasing(xs: seq<string>)
    requires Distinct(xs)
    ensures Increasing(SortNames(xs))
  {
    if xs != [] {
      assert Distinct(xs[1..]) by {
        forall i, j | 0 <= i < j < |xs| - 1
          ensures xs[1..][i] != xs[1..][j]
        {
          assert xs[1..][i] == xs[i + 1] && xs[1..][j] == xs[j + 1];
        }
      }
      SortNamesIncreasing(xs[1..]);
      var sorted := SortNames(xs[1..]);
      DistinctHead(xs);
      assert xs[0] !in multiset(sorted);
      InsertNameIncreasing(xs[0], sorted);
    }
  }

  /** Sequences with the same elements are empty together. */
  lemma SameMembersEmpty(a: seq<string>, b: seq<string>)
    requires forall n :: n in a <==> n in b
    ensures a == [] <==> b == []
  {
    if a != [] {
      assert a[0] in b;
    }
    if b != [] {
      assert b[0] in a;
    }
  }

  /** Two strictly increasing sequences with the same elements are equal, so
      the list does not depend on the algorithm that sorts it. */
  lemma {:induction false} IncreasingUnique(a: seq<string>, b: seq<string>)
    requires Increasing(a) && Increasing(b)
    requires forall n :: n in a <==> n in b
    ensures a == b
    decreases |a|
  {
    SameMembersEmpty(a, b);
    if a != [] {
      assert a[0] in b && b[0] in a;
      var m :| 0 <= m < |b| && b[m] == a[0];
      var k :| 0 <= k < |a| && a[k] == b[0];
      if m > 0 && k > 0 {
        StrLessTransitive(a[0], b[0], b[m]);
        StrLessIrreflexive(a[0]);
        assert false;
      } else if m > 0 {
        StrLessIrreflexive(b[0]);
        assert false;
      } else if k > 0 {
        StrLessIrreflexive(a[0]);
        assert false;
      }
      forall n
        ensures n in a[1..] <==> n in b[1..]
      {
        if n in a[1..] {
          var i :| 0 <= i < |a[1..]| && a[1..][i] == n;
          assert StrLess(a[0], a[i + 1]);
          StrLessIrreflexive(n);
          assert n in b;
        }
        if n in b[1..] {
          var i :| 0 <= i < |b[1..]| && b[1..][i] == n;
          assert StrLess(b[0], b[i + 1]);
          StrLessIrreflexive(n);
          assert n in a;
        }
      }
      IncreasingUnique(a[1..], b[1..]);
      assert a == [a[0]] + a[1..] && b == [b[0]] + b[1..];
    }
  }

  /** `order` lists the elements of `found`, each once. */
  ghost predicate Lists(order: seq<string>, found: set<string>) {
    Distinct(order) && forall n :: n in order <==> n in found
  }

  /** One step of the outer loop adds one doctor's names. */
  lemma SpecialtyNamesStep(doctors: seq<Doctor>, i: nat)
    requires i < |doctors|
    ensures SpecialtyNames(doctors[..i + 1]) == SpecialtyNames(doctors[..i]) + NamesOf(doctors[i].specialities)
  {
    assert doctors[..i + 1][..i] == doctors[..i];
  }

  /** One step of the inner loop adds one speciality's name, if it has one. */
  lemma NamesOfStep(specs: seq<Speciality>, j: nat)
    requires j < |specs|
    ensures NamesOf(specs[..j + 1]) == NamesOf(specs[..j]) + (if specs[j].name != "" then {specs[j].name} else {})
  {
    assert specs[..j + 1][..j] == specs[..j];
  }

  /** The inner `forEach`: adds the non-empty names of one doctor's specialities
      to the set, recording first insertions in `order`. */
  method AddSpecialities(specs: seq<Speciality>, found: set<string>, order: seq<string>)
    returns (found': set<string>, order': seq<string>)
    requires Lists(order, found)
    ensures found' == found + NamesOf(specs)
    ensures Lists(order', found')
  {
    found', order' := found, order;
    var j := 0;
    while j < |specs|
      invariant 0 <= j <= |specs|
      invariant found' == found + NamesOf(specs[..j])
      invariant Lists(order', found')
    {
      var name := specs[j].name;
      NamesOfStep(specs, j);
      if name != "" {
        if name !in found' {
          order' := order' + [name];
        }
        found' := found' + {name};
      }
      j := j + 1;
    }
    assert specs[..j] == specs;
  }

  /** The effect that fills `specialtiesSet` in nested `forEach` loops, then
      sorts `Array.from(specialtiesSet)`. `order` is the set's insertion order. */
  method CollectSpecialties(doctors: seq<Doctor>) returns (names: seq<string>)
    ensures Increasing(names)
    ensures forall n :: n in names <==> n in SpecialtyNames(doctors)
  {
    var found: set<string> := {};
    var order: seq<string> := [];
    var i := 0;
    while i < |doctors|
      invariant 0 <= i <= |doctors|
      invariant found == SpecialtyNames(doctors[..i])
      invariant Lists(order, found)
    {
      SpecialtyNamesStep(doctors, i);
      found, order := AddSpecialities(doctors[i].specialities, found, order);
      i := i + 1;
    }
    assert doctors[..i] == doctors;
    names := SortNames(order);
    SortNamesIncreasing(order);
    assert forall n :: n in names <==> n in multiset(order);
  }

  /** The specialty a listed doctor's card shows first, when it has a name, is
      one of the specialties the filter panel offers. */
  lemma PrimarySpecialtyOffered(doctors: seq<Doctor>, d: Doctor)
    requires d in doctors
    ensures DoctorCard.PrimarySpecialty(d).Some? && DoctorCard.PrimarySpecialty(d).value != "" ==>
              DoctorCard.PrimarySpecialty(d).value in SpecialtyNames(doctors)
  {
    if |d.specialities| > 0 {
      assert d.specialities[0] in d.specialities;
    }
  }
}
