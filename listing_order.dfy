/** `sortedDoctors`: the filtered doctors sorted with the page's comparator. */
module ListingOrder {
  import opened Wrappers
  import opened DoctorTypes
  import opened ListingResults
  import opened StableSort
  import DoctorService
  import Strings
  import DoctorCard

  /** The key the comparator orders by, as a function value. */
  function RankKey(sortBy: Option<string>): Doctor -> real {
    d => Rank(sortBy, d)
  }

  /** `[...filteredDoctors].sort(compare)`: a reordering of the filtered doctors. */
  function ListedDoctors(doctors: seq<Doctor>, f: FilterState): (r: seq<Doctor>)
    ensures multiset(r) == multiset(FilterDoctors(doctors, f))
  {
    SortByIsStableSort(FilterDoctors(doctors, f), RankKey(f.sortBy));
    SortBy(FilterDoctors(doctors, f), RankKey(f.sortBy))
  }

  /** The listing is a stable sort of the filtered doctors: it lists exactly the
      doctors that pass the filter, as often as they occur, each pair in an order
      the comparator accepts, and equal-ranked doctors in their original order. */
  lemma ListedDoctorsContents(doctors: seq<Doctor>, f: FilterState)
    ensures IsStableSortOf(ListedDoctors(doctors, f), FilterDoctors(doctors, f), RankKey(f.sortBy))
    ensures forall d :: d in ListedDoctors(doctors, f) <==> d in doctors && Matches(d, f)
    ensures forall i, j | 0 <= i < j < |ListedDoctors(doctors, f)| ::
              Compare(f.sortBy, ListedDoctors(doctors, f)[i], ListedDoctors(doctors, f)[j]) <= 0.0
  {
    var r := ListedDoctors(doctors, f);
    var filtered := FilterDoctors(doctors, f);
    SortByIsStableSort(filtered, RankKey(f.sortBy));
    forall d ensures d in r <==> d in filtered {
      assert d in r <==> d in multiset(r);
    }
    forall i, j | 0 <= i < j < |r| ensures Compare(f.sortBy, r[i], r[j]) <= 0.0 {
      CompareIsRankDifference(f.sortBy, r[i], r[j]);
      assert RankKey(f.sortBy)(r[i]) <= RankKey(f.sortBy)(r[j]);
    }
  }

  /** Whatever stable algorithm the engine sorts with, the page shows `ListedDoctors`. */
  lemma EngineSortIsListed(r: seq<Doctor>, doctors: seq<Doctor>, f: FilterState)
    requires IsStableSortOf(r, FilterDoctors(doctors, f), RankKey(f.sortBy))
    ensures r == ListedDoctors(doctors, f)
  {
    StableSortUnique(r, FilterDoctors(doctors, f), RankKey(f.sortBy));
  }

  /** Sorting by fees lists the doctors in non-decreasing fee key. */
  lemma FeesAscending(doctors: seq<Doctor>, f: FilterState)
    requires f.sortBy == Some(Fees.Wire())
    ensures forall i, j | 0 <= i < j < |ListedDoctors(doctors, f)| ::
              FeeKey(ListedDoctors(doctors, f)[i]) <= FeeKey(ListedDoctors(doctors, f)[j])
  {
    var r := ListedDoctors(doctors, f);
    SortByIsStableSort(FilterDoctors(doctors, f), RankKey(f.sortBy));
    forall i, j | 0 <= i < j < |r| ensures FeeKey(r[i]) <= FeeKey(r[j]) {
      assert RankKey(f.sortBy)(r[i]) <= RankKey(f.sortBy)(r[j]);
    }
  }

  /** Sorting by experience lists the doctors in non-increasing experience key. */
  lemma ExperienceDescending(doctors: seq<Doctor>, f: FilterState)
    requires f.sortBy == Some(Experience.Wire())
    ensures forall i, j | 0 <= i < j < |ListedDoctors(doctors, f)| ::
              ExperienceKey(ListedDoctors(doctors, f)[i].experience)
              >= ExperienceKey(ListedDoctors(doctors, f)[j].experience)
  {
    var r := ListedDoctors(doctors, f);
    SortByIsStableSort(FilterDoctors(doctors, f), RankKey(f.sortBy));
    forall i, j | 0 <= i < j < |r|
      ensures ExperienceKey(r[i].experience) >= ExperienceKey(r[j].experience)
    {
      assert RankKey(f.sortBy)(r[i]) <= RankKey(f.sortBy)(r[j]);
    }
  }

  /** With no sort option, or one the comparator does not recognise, the filtered
      order is kept. */
  lemma NoSortKeepsOrder(doctors: seq<Doctor>, f: FilterState)
    requires f.sortBy != Some(Fees.Wire()) && f.sortBy != Some(Experience.Wire())
    ensures ListedDoctors(doctors, f) == FilterDoctors(doctors, f)
  {
    ConstantKeyKeepsOrder(FilterDoctors(doctors, f), RankKey(f.sortBy), 0.0);
  }

  /** With nothing selected the page lists every doctor in fetch order. */
  lemma NothingSelectedListsAll(doctors: seq<Doctor>, f: FilterState)
    requires f.searchQuery == "" && f.consultationMode == None && f.specialties == [] && f.sortBy == None
    ensures ListedDoctors(doctors, f) == doctors
  {
    NeutralFilterKeepsAll(doctors, f);
    NoSortKeepsOrder(doctors, f);
  }

  /** A record whose `specialities` is null in the JSON is normalised to no
      specialities, and then excluded, not an error, while a specialty is selected. */
  lemma NullSpecialitiesExcluded(item: DoctorService.RawDoctor, f: FilterState)
    requires item.specialities.None? && |f.specialties| > 0
    ensures DoctorService.Normalize(item) !in ListedDoctors(DoctorService.NormalizeAll([item]), f)
  {
    ListedDoctorsContents(DoctorService.NormalizeAll([item]), f);
  }

  /** Two matching doctors are listed in the order of their ranks, the first one
      first on a tie. */
  lemma ListedTwo(a: Doctor, b: Doctor, f: FilterState)
    requires Matches(a, f) && Matches(b, f)
    ensures ListedDoctors([a, b], f) ==
              if Rank(f.sortBy, a) <= Rank(f.sortBy, b) then [a, b] else [b, a]
  {
    assert [a, b][1..] == [b];
    assert FilterDoctors([a, b], f) == [a, b];
    SortTwo(a, b, RankKey(f.sortBy));
  }

  /** Two matching doctors whose fees read "₹ x" and "₹ y" with y < x are listed cheaper first. */
  lemma RupeeFeesScenario(a: Doctor, b: Doctor, f: FilterState, x: string, y: string)
    requires x != [] && Strings.AllDigits(x) && a.fees == "₹ " + x
    requires y != [] && Strings.AllDigits(y) && b.fees == "₹ " + y
    requires Strings.DecimalValue(y) < Strings.DecimalValue(x)
    requires f.sortBy == Some(Fees.Wire()) && Matches(a, f) && Matches(b, f)
    ensures ListedDoctors([a, b], f) == [b, a]
  {
    RupeeFeeKey(a, x);
    RupeeFeeKey(b, y);
    ListedTwo(a, b, f);
  }

  /** A matching doctor whose experience is the number n is listed before one whose
      experience text has a smaller first number, as "10" before "5 Years of experience". */
  lemma ExperienceScenario(a: Doctor, b: Doctor, f: FilterState, prefix: string, digits: string, rest: string, n: int)
    requires forall k :: 0 <= k < |prefix| ==> !Strings.IsDigit(prefix[k])
    requires digits != [] && Strings.AllDigits(digits)
    requires rest == [] || !Strings.IsDigit(rest[0])
    requires a.experience == Text(prefix + digits + rest) && b.experience == Number(n)
    requires Strings.DecimalValue(digits) < n
    requires f.sortBy == Some(Experience.Wire()) && Matches(a, f) && Matches(b, f)
    ensures ListedDoctors([a, b], f) == [b, a]
  {
    DoctorCard.ExperienceYearsOfRun(prefix, digits, rest);
    ExperienceKeyIsCardYears(a.experience);
    ListedTwo(a, b, f);
  }
}
