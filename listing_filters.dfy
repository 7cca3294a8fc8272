/** The filter state of the listing page: reading it from the URL's query
    parameters, writing it back, and the handlers that change it. */
module ListingFilters {
  import opened Wrappers
  import opened Sequences
  import opened DoctorTypes
  import opened UrlSearchParams

  /** `searchParams.get(name) || ""`. */
  function OrEmpty(v: Option<string>): string {
    match v
    case Some(s) => s
    case None => ""
  }

  /** `searchParams.get(name) as T || null`: the cast checks nothing, and an empty
      value is falsy. */
  function OrNull(v: Option<string>): (r: Option<string>)
    ensures r != Some("")
    ensures r.Some? ==> v == r
    ensures r.None? <==> v in {None, Some("")}
  {
    if v == Some("") then None else v
  }

  /** The initial filter state read from the URL. */
  function DecodeFilters(params: seq<Param>): (f: FilterState)
    ensures !HasName(params, "search") ==> f.searchQuery == ""
    ensures !HasName(params, "mode") ==> f.consultationMode == None
    ensures !HasName(params, "sort") ==> f.sortBy == None
    ensures f.consultationMode != Some("") && f.sortBy != Some("")
    ensures f.specialties == GetAll(params, "specialty")
  {
    FilterState(
      OrEmpty(Get(params, "search")),
      OrNull(Get(params, "mode")),
      GetAll(params, "specialty"),
      OrNull(Get(params, "sort")))
  }

  /** The pair `set` writes when the value is truthy, or nothing. */
  function OptionalParam(name: string, v: Option<string>): seq<Param> {
    if v.Some? && v.value != "" then [Param(name, v.value)] else []
  }

  /** One `specialty` pair per selected specialty, in list order. */
  function SpecialtyParams(specialties: seq<string>): (ps: seq<Param>)
    ensures |ps| == |specialties|
    ensures forall k :: 0 <= k < |ps| ==> ps[k] == Param("specialty", specialties[k])
  {
    if specialties == [] then []
    else SpecialtyParams(specialties[..|specialties| - 1]) + [Param("specialty", specialties[|specialties| - 1])]
  }

  /** A pair the page may write: one of its four names, and a non-empty value
      for every name but `specialty`. */
  predicate WrittenParam(p: Param) {
    && p.name in ["search", "mode", "specialty", "sort"]
    && (p.name != "specialty" ==> p.value != "")
  }

  /** The query parameters the page writes for a filter state: `search` only when
      non-empty, `mode` and `sort` only when set, one `specialty` per selection. */
  function EncodedParams(f: FilterState): (r: seq<Param>)
    ensures forall k :: 0 <= k < |r| ==> WrittenParam(r[k])
  {
    OptionalParam("search", Some(f.searchQuery)) + OptionalParam("mode", f.consultationMode)
    + SpecialtyParams(f.specialties) + OptionalParam("sort", f.sortBy)
  }

  /** The URL-sync effect: a fresh `URLSearchParams` filled with `set` and, for
      each specialty, `append`. */
  method EncodeFilters(f: FilterState) returns (params: SearchParams)
    ensures fresh(params)
    ensures params.entries == EncodedParams(f)
  {
    params := new SearchParams();
    SetWhenPresent(params, "search", Some(f.searchQuery));
    SetWhenPresent(params, "mode", f.consultationMode);
    AppendSpecialties(params, f.specialties);
    NoSortBeforeSort(f);
    SetWhenPresent(params, "sort", f.sortBy);
  }

  /** `if (value) params.set(name, value)` on a list that does not hold the name
      yet, where it appends. */
  method SetWhenPresent(params: SearchParams, name: string, v: Option<string>)
    requires !HasName(params.entries, name)
    modifies params
    ensures params.entries == old(params.entries) + OptionalParam(name, v)
  {
    if v.Some? && v.value != "" {
      SetAbsent(params.entries, name, v.value);
      params.Set(name, v.value);
    }
  }

  /** The `forEach` over the selected specialties, one `append` each. */
  method AppendSpecialties(params: SearchParams, specialties: seq<string>)
    modifies params
    ensures params.entries == old(params.entries) + SpecialtyParams(specialties)
  {
    ghost var start := params.entries;
    var i := 0;
    while i < |specialties|
      invariant 0 <= i <= |specialties|
      invariant params.entries == start + SpecialtyParams(specialties[..i])
    {
      params.Append("specialty", specialties[i]);
      SpecialtyParamsSnoc(specialties, i);
      i := i + 1;
    }
    assert specialties[..i] == specialties;
  }

  lemma SpecialtyParamsSnoc(specialties: seq<string>, i: nat)
    requires i < |specialties|
    ensures SpecialtyParams(specialties[..i + 1]) == SpecialtyParams(specialties[..i]) + [Param("specialty", specialties[i])]
  {
    assert specialties[..i + 1][..i] == specialties[..i];
  }

  /** No pair before the `sort` pair is named `sort`. */
  lemma NoSortBeforeSort(f: FilterState)
    ensures !HasName(OptionalParam("search", Some(f.searchQuery)) + OptionalParam("mode", f.consultationMode)
                     + SpecialtyParams(f.specialties), "sort")
  {
  }

  lemma {:induction false} SpecialtyValues(specialties: seq<string>, name: string)
    ensures GetAll(SpecialtyParams(specialties), name) == (if name == "specialty" then specialties else [])
    decreases |specialties|
  {
    if specialties != [] {
      var init := specialties[..|specialties| - 1];
      var value := specialties[|specialties| - 1];
      var last := Param("specialty", value);
      var own: seq<string> := if name == "specialty" then [value] else [];
      calc {
        GetAll(SpecialtyParams(specialties), name);
        GetAll(SpecialtyParams(init) + [last], name);
        { GetAllAppend(SpecialtyParams(init), [last], name); }
        GetAll(SpecialtyParams(init), name) + GetAll([last], name);
        { SpecialtyValues(init, name); GetAllCons(last, [], name); assert [last] == [last] + []; }
        (if name == "specialty" then init else []) + own;
      }
      assert specialties == init + [value];
    }
  }

  lemma OptionalValues(name: string, v: Option<string>, other: string)
    ensures GetAll(OptionalParam(name, v), other) ==
              (if other == name && v.Some? && v.value != "" then [v.value] else [])
  {
  }

  /** The values of one name in the encoded parameters. */
  lemma EncodedValues(f: FilterState, name: string)
    ensures GetAll(EncodedParams(f), name) ==
      (if name == "search" && f.searchQuery != "" then [f.searchQuery] else [])
      + (if name == "mode" && f.consultationMode.Some? && f.consultationMode.value != "" then [f.consultationMode.value] else [])
      + (if name == "specialty" then f.specialties else [])
      + (if name == "sort" && f.sortBy.Some? && f.sortBy.value != "" then [f.sortBy.value] else [])
  {
    var a := OptionalParam("search", Some(f.searchQuery));
    var b := OptionalParam("mode", f.consultationMode);
    var c := SpecialtyParams(f.specialties);
    var d := OptionalParam("sort", f.sortBy);
    GetAllAppend(a + b + c, d, name);
    GetAllAppend(a + b, c, name);
    GetAllAppend(a, b, name);
    OptionalValues("search", Some(f.searchQuery), name);
    OptionalValues("mode", f.consultationMode, name);
    OptionalValues("sort", f.sortBy, name);
    SpecialtyValues(f.specialties, name);
  }

  /** What `get` reads back for a name the page writes with `set`. */
  lemma EncodedGet(f: FilterState, name: string, v: Option<string>)
    requires name in {"search", "mode", "sort"}
    requires v == (if name == "search" then Some(f.searchQuery) else if name == "mode" then f.consultationMode else f.sortBy)
    ensures Get(EncodedParams(f), name) == (if v.Some? && v.value != "" then v else None)
  {
    EncodedValues(f, name);
    GetIsFirstOfGetAll(EncodedParams(f), name);
  }

  /** Reading back what the page wrote gives the same filter state, exactly when
      neither optional field holds the empty string (which `set` would skip as
      falsy). */
  lemma DecodeEncodeRoundTrip(f: FilterState)
    ensures DecodeFilters(EncodedParams(f)) == f <==> f.consultationMode != Some("") && f.sortBy != Some("")
  {
    EncodedGet(f, "search", Some(f.searchQuery));
    EncodedGet(f, "mode", f.consultationMode);
    EncodedGet(f, "sort", f.sortBy);
    EncodedValues(f, "specialty");
  }

  /** Every state the declared types allow survives the URL round trip. */
  lemma WellTypedRoundTrip(f: FilterState)
    requires WellTyped(f)
    ensures DecodeFilters(EncodedParams(f)) == f
  {
    DecodeEncodeRoundTrip(f);
  }

  /** Re-encoding what was read from any URL and reading it again reads the same
      state: the written parameters are a canonical form of the read ones. */
  lemma DecodeEncodeDecode(params: seq<Param>)
    ensures DecodeFilters(EncodedParams(DecodeFilters(params))) == DecodeFilters(params)
  {
    DecodeEncodeRoundTrip(DecodeFilters(params));
  }

  /** `prev.specialties.filter(s => s !== specialty)`. */
  function RemoveAll(xs: seq<string>, x: string): (r: seq<string>)
    ensures x !in r
    ensures IsSubsequence(r, xs)
    ensures forall y :: y != x ==> multiset(r)[y] == multiset(xs)[y]
  {
    if xs == [] then []
    else if xs[0] == x then
      assert xs == [xs[0]] + xs[1..];
      RemoveAll(xs[1..], x)
    else
      assert xs == [xs[0]] + xs[1..];
      [xs[0]] + RemoveAll(xs[1..], x)
  }

  /** `handleSpecialtyChange`: an unselected specialty is appended at the end; a
      selected one is removed wherever it occurs, the others keeping their order
      and multiplicity. The other fields are unchanged. */
  function ToggleSpecialty(f: FilterState, specialty: string): (r: FilterState)
    ensures r.searchQuery == f.searchQuery && r.consultationMode == f.consultationMode && r.sortBy == f.sortBy
    ensures specialty !in f.specialties ==> r.specialties == f.specialties + [specialty]
    ensures specialty in f.specialties ==>
              && specialty !in r.specialties
              && IsSubsequence(r.specialties, f.specialties)
              && forall y :: y != specialty ==> multiset(r.specialties)[y] == multiset(f.specialties)[y]
  {
    var updated := if specialty in f.specialties then RemoveAll(f.specialties, specialty)
                   else f.specialties + [specialty];
    f.(specialties := updated)
  }

  lemma {:induction false} RemoveAllAppended(xs: seq<string>, x: string)
    requires x !in xs
    ensures RemoveAll(xs + [x], x) == xs
  {
    if xs != [] {
      assert (xs + [x])[1..] == xs[1..] + [x];
      RemoveAllAppended(xs[1..], x);
    } else {
      assert [x][1..] == [];
    }
  }

  /** Selecting an unselected specialty and deselecting it again restores the state. */
  lemma ToggleSpecialtyTwice(f: FilterState, specialty: string)
    requires specialty !in f.specialties
    ensures ToggleSpecialty(ToggleSpecialty(f, specialty), specialty) == f
  {
    RemoveAllAppended(f.specialties, specialty);
  }

  /** When the panel only offers names from `offered`, the selection never holds
      anything else. */
  lemma ToggleSpecialtyKeepsOffered(f: FilterState, specialty: string, offered: set<string>)
    requires forall s :: s in f.specialties ==> s in offered
    requires specialty in offered
    ensures forall s :: s in ToggleSpecialty(f, specialty).specialties ==> s in offered
  {
    var r := ToggleSpecialty(f, specialty);
    if specialty in f.specialties {
      SubsequenceElements(r.specialties, f.specialties);
    }
  }

  /** `handleConsultationModeChange`: choosing the current mode clears it,
      choosing another sets it. The other fields are unchanged. */
  function ToggleMode(f: FilterState, mode: ConsultationMode): (r: FilterState)
    ensures r.searchQuery == f.searchQuery && r.specialties == f.specialties && r.sortBy == f.sortBy
    ensures r.consultationMode == None <==> f.consultationMode == Some(mode.Wire())
    ensures r.consultationMode != None ==> r.consultationMode == Some(mode.Wire())
    ensures WellTyped(f) ==> WellTyped(r)
  {
    f.(consultationMode := if f.consultationMode == Some(mode.Wire()) then None else Some(mode.Wire()))
  }

  /** `handleSortChange`, the same rule for the sort option. */
  function ToggleSort(f: FilterState, option: SortOption): (r: FilterState)
    ensures r.searchQuery == f.searchQuery && r.specialties == f.specialties
            && r.consultationMode == f.consultationMode
    ensures r.sortBy == None <==> f.sortBy == Some(option.Wire())
    ensures r.sortBy != None ==> r.sortBy == Some(option.Wire())
    ensures WellTyped(f) ==> WellTyped(r)
  {
    f.(sortBy := if f.sortBy == Some(option.Wire()) then None else Some(option.Wire()))
  }

  /** Choosing the same mode twice restores the state exactly when no other mode
      was set before. */
  lemma ToggleModeTwice(f: FilterState, mode: ConsultationMode)
    ensures ToggleMode(ToggleMode(f, mode), mode) == f <==> f.consultationMode in {None, Some(mode.Wire())}
  {
  }

  lemma ToggleSortTwice(f: FilterState, option: SortOption)
    ensures ToggleSort(ToggleSort(f, option), option) == f <==> f.sortBy in {None, Some(option.Wire())}
  {
  }

  /** `handleSearch`: the search bar's `onSearch` replaces the query only. */
  function HandleSearch(f: FilterState, query: string): (r: FilterState)
    ensures r.searchQuery == query
    ensures r.consultationMode == f.consultationMode && r.specialties == f.specialties && r.sortBy == f.sortBy
  {
    f.(searchQuery := query)
  }
}
