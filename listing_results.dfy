/** The doctors the listing page shows for a filter state: the filter
    predicate, and the keys and comparator of the sort. */
module ListingResults {
  import opened Wrappers
  import opened Sequences
  import opened Strings
  import opened DoctorTypes
  import DoctorCard

  /** The search rule: an empty query keeps everyone; otherwise the lowercased
      name must contain the lowercased query. The query is not trimmed. A
      doctor's own name finds it, and no query longer than the name does. */
  predicate MatchesQuery(d: Doctor, query: string)
    ensures query == d.name ==> MatchesQuery(d, query)
    ensures MatchesQuery(d, query) ==> |query| <= |d.name|
  {
    IncludesSelf(ToLower(d.name));
    query == "" || Includes(ToLower(d.name), ToLower(query))
  }

  /** The consultation-mode rule: video needs `video_consult`, clinic needs
      `in_clinic`, anything else constrains nothing; a doctor offering both
      passes every mode. */
  predicate MatchesMode(d: Doctor, mode: Option<string>)
    ensures mode.None? ==> MatchesMode(d, mode)
    ensures d.videoConsult && d.inClinic ==> MatchesMode(d, mode)
  {
    && (mode == Some(Video.Wire()) ==> d.videoConsult)
    && (mode == Some(InClinic.Wire()) ==> d.inClinic)
  }

  /** The specialty rule: no selection keeps everyone; otherwise some entry of the
      doctor's specialities must carry a selected name. Any one selected entry
      suffices; a doctor without specialities fails every selection. */
  predicate MatchesSpecialties(d: Doctor, selected: seq<string>)
    ensures forall sp :: sp in d.specialities && sp.name in selected ==> MatchesSpecialties(d, selected)
    ensures |selected| > 0 && d.specialities == [] ==> !MatchesSpecialties(d, selected)
  {
    || |selected| == 0
    || exists s | s in selected :: exists sp | sp in d.specialities :: sp.name == s
  }

  /** The predicate passed to `doctors.filter`: the conjunction of the three
      rules, so a filter state with no query, mode or selection keeps everyone. */
  predicate Matches(d: Doctor, f: FilterState)
    ensures f.searchQuery == "" && f.consultationMode.None? && f.specialties == [] ==> Matches(d, f)
  {
    MatchesQuery(d, f.searchQuery) && MatchesMode(d, f.consultationMode)
    && MatchesSpecialties(d, f.specialties)
  }

  /** `filteredDoctors`: the doctors that pass, in their original order. */
  function FilterDoctors(doctors: seq<Doctor>, f: FilterState): (r: seq<Doctor>)
    ensures IsSubsequence(r, doctors)
    ensures forall d :: d in r <==> d in doctors && Matches(d, f)
    ensures forall d :: multiset(r)[d] == (if Matches(d, f) then multiset(doctors)[d] else 0)
    ensures |r| <= |doctors|
  {
    if doctors == [] then []
    else
      var rest := FilterDoctors(doctors[1..], f);
      assert doctors == [doctors[0]] + doctors[1..];
      if Matches(doctors[0], f) then [doctors[0]] + rest
      else
        assert rest == [] || rest[0] != doctors[0];
        rest
  }

  /** With no query, no mode and no specialty selected, every doctor is listed. */
  lemma {:induction false} NeutralFilterKeepsAll(doctors: seq<Doctor>, f: FilterState)
    requires f.searchQuery == "" && f.consultationMode == None && f.specialties == []
    ensures FilterDoctors(doctors, f) == doctors
  {
    if doctors != [] {
      NeutralFilterKeepsAll(doctors[1..], f);
    }
  }

  /** The video mode excludes every doctor without video consultation, and the
      clinic mode every doctor without clinic visits. */
  lemma ModeExcludes(d: Doctor, f: FilterState)
    ensures f.consultationMode == Some(Video.Wire()) && !d.videoConsult ==> !Matches(d, f)
    ensures f.consultationMode == Some(InClinic.Wire()) && !d.inClinic ==> !Matches(d, f)
  {
  }

  /** While a specialty is selected, a doctor with no specialities is never listed. */
  lemma NoSpecialitiesExcluded(d: Doctor, f: FilterState)
    requires |f.specialties| > 0 && d.specialities == []
    ensures !Matches(d, f)
  {
  }

  /** `fees.replace(/[^\d.]/g, '')`: the digits and dots of the string, in order. */
  function FeeDigits(fees: string): (r: string)
    ensures forall k :: 0 <= k < |r| ==> IsDigit(r[k]) || r[k] == '.'
    ensures IsSubsequence(r, fees)
    ensures forall c :: multiset(r)[c] == (if IsDigit(c) || c == '.' then multiset(fees)[c] else 0)
  {
    if fees == [] then []
    else
      var rest := FeeDigits(fees[1..]);
      assert fees == [fees[0]] + fees[1..];
      if IsDigit(fees[0]) || fees[0] == '.' then [fees[0]] + rest
      else
        assert rest == [] || rest[0] != fees[0];
        rest
  }

  /** `parseFloat` of a string of digits and dots: the longest prefix of the form
      digits, a dot, digits (either run may be empty), read exactly; None (NaN)
      when that prefix holds no digit. */
  function ParseDecimal(t: string): (r: Option<real>)
    ensures r.Some? ==> r.value >= 0.0
    ensures t == [] ==> r.None?
    ensures t != [] && IsDigit(t[0]) ==> r.Some?
  {
    var i := SkipDigits(t, 0);
    var whole := t[..i];
    if i < |t| && t[i] == '.' then
      var j := SkipDigits(t, i + 1);
      var fraction := t[i + 1..j];
      if whole == [] && fraction == [] then None
      else Some(DecimalValue(whole) as real + DecimalValue(fraction) as real / Pow10(|fraction|) as real)
    else if whole == [] then None
    else Some(DecimalValue(whole) as real)
  }

  /** A dot-free numeral is read as its integer value. */
  lemma ParseDecimalOfDigits(t: string)
    requires t != [] && AllDigits(t)
    ensures ParseDecimal(t) == Some(DecimalValue(t) as real)
  {
    SkipDigitsAt(t, 0, |t|);
    assert t[..|t|] == t;
  }

  lemma FractionBelowOne(n: nat, p: nat)
    requires n < p
    ensures 0.0 <= n as real / p as real < 1.0
  {
  }

  /** Whatever follows the first dot only adds a fraction below one. */
  lemma ParseDecimalBounds(t: string)
    ensures ParseDecimal(t).Some? ==>
              var whole := DecimalValue(t[..SkipDigits(t, 0)]) as real;
              whole <= ParseDecimal(t).value < whole + 1.0
  {
    var i := SkipDigits(t, 0);
    if i < |t| && t[i] == '.' {
      var j := SkipDigits(t, i + 1);
      var fraction := t[i + 1..j];
      FractionBelowOne(DecimalValue(fraction), Pow10(|fraction|));
    }
  }

  /** The fee sort key: `parseFloat((fees || "0").replace(/[^\d.]/g, '')) || 0`. */
  function FeeKey(d: Doctor): (key: real)
    ensures key >= 0.0
  {
    match ParseDecimal(FeeDigits(if d.fees == "" then "0" else d.fees))
    case Some(v) => v
    case None => 0.0
  }

  /** The experience sort key: a number as it is, otherwise the first digit run of
      `String(experience || "0")` read by `parseInt`, or 0. */
  function ExperienceKey(experience: ExperienceValue): (key: int)
    ensures experience.Number? ==> key == experience.years
    ensures experience.Text? ==> key >= 0
  {
    match experience
    case Number(n) => n
    case Text(s) =>
      match FirstDigitRun(if s == "" then "0" else s)
      case Some(run) => DecimalValue(run)
      case None => 0
  }

  /** The card shows the same years the experience sort orders by. */
  lemma ExperienceKeyIsCardYears(experience: ExperienceValue)
    ensures ExperienceKey(experience) == DoctorCard.ExperienceYears(experience)
  {
    if experience == Text("") {
      assert "0" == "" + "0" + "";
      FirstDigitRunOf("", "0", "");
    }
  }

  /** The comparator passed to `sort`, with the sign convention of JavaScript:
      negative puts `a` first, which is the cheaper doctor under the fee sort and
      the more experienced one under the experience sort. */
  function Compare(sortBy: Option<string>, a: Doctor, b: Doctor): (c: real)
    ensures sortBy == Some(Fees.Wire()) ==> (c < 0.0 <==> FeeKey(a) < FeeKey(b))
    ensures sortBy == Some(Experience.Wire()) ==>
              (c < 0.0 <==> ExperienceKey(a.experience) > ExperienceKey(b.experience))
    ensures sortBy != Some(Fees.Wire()) && sortBy != Some(Experience.Wire()) ==> c == 0.0
  {
    if sortBy == Some(Fees.Wire()) then FeeKey(a) - FeeKey(b)
    else if sortBy == Some(Experience.Wire()) then (ExperienceKey(b.experience) - ExperienceKey(a.experience)) as real
    else 0.0
  }

  /** The position key the comparator orders by: the fee ascending, the
      experience descending, or nothing. */
  function Rank(sortBy: Option<string>, d: Doctor): real {
    if sortBy == Some(Fees.Wire()) then FeeKey(d)
    else if sortBy == Some(Experience.Wire()) then -(ExperienceKey(d.experience) as real)
    else 0.0
  }

  /** The comparator is the difference of ranks, so it is a consistent
      comparator (a total preorder), which is what `sort` requires. */
  lemma CompareIsRankDifference(sortBy: Option<string>, a: Doctor, b: Doctor)
    ensures Compare(sortBy, a, b) == Rank(sortBy, a) - Rank(sortBy, b)
    ensures Compare(sortBy, a, b) == -Compare(sortBy, b, a)
    ensures Compare(sortBy, a, a) == 0.0
  {
  }

  /** A numeral after a prefix without digits or dots, as in "₹ 500", keeps just the numeral. */
  lemma {:induction false} FeeDigitsAfterPrefix(prefix: string, digits: string)
    requires forall k :: 0 <= k < |prefix| ==> !IsDigit(prefix[k]) && prefix[k] != '.'
    requires AllDigits(digits)
    ensures FeeDigits(prefix + digits) == digits
    decreases |prefix| + |digits|
  {
    if prefix != [] {
      assert (prefix + digits)[1..] == prefix[1..] + digits;
      FeeDigitsAfterPrefix(prefix[1..], digits);
    } else if digits != [] {
      assert prefix + digits == digits;
      assert (prefix + digits)[1..] == [] + digits[1..];
      FeeDigitsAfterPrefix([], digits[1..]);
    } else {
      assert prefix + digits == [];
    }
  }

  /** The fee key of "₹ " followed by a numeral is the numeral's value. */
  lemma RupeeFeeKey(d: Doctor, digits: string)
    requires digits != [] && AllDigits(digits) && d.fees == "₹ " + digits
    ensures FeeKey(d) == DecimalValue(digits) as real
  {
    FeeDigitsAfterPrefix("₹ ", digits);
    ParseDecimalOfDigits(digits);
  }

  /** A fee with no digit at all, the empty fee included, sorts as 0. */
  lemma FeeKeyWithoutDigits(d: Doctor)
    requires forall k :: 0 <= k < |d.fees| ==> !IsDigit(d.fees[k])
    ensures FeeKey(d) == 0.0
  {
    if d.fees == "" {
      FeeDigitsAfterPrefix("", "0");
      ParseDecimalOfDigits("0");
    } else {
      var t := FeeDigits(d.fees);
      SkipDigitsAt(t, 0, 0);
      if |t| > 0 {
        SkipDigitsAt(t, 1, 1);
      }
    }
  }
}
