/** The search box: the autocomplete suggestions it computes from the doctor
    list, and the small state machine of its query, suggestion list and
    dropdown flag. */
module SearchBar {
  import opened Sequences
  import opened Strings
  import opened DoctorTypes
  import ListingResults

  /** The suggestion list is cut to this many entries (`slice(0, 3)`). */
  const MaxSuggestions: nat := 3

  /** The autocomplete rule: the lowercased name contains the lowercased input.
      Unlike the trim test that guards it, the input is not trimmed here. A
      doctor's own name suggests it, and no input longer than the name does. */
  predicate NameMatches(d: Doctor, value: string)
    ensures value == d.name ==> NameMatches(d, value)
    ensures NameMatches(d, value) ==> |value| <= |d.name|
  {
    IncludesSelf(ToLower(d.name));
    Includes(ToLower(d.name), ToLower(value))
  }

  /** The doctors whose names match, in list order (`doctors.filter`). */
  function NameFilter(doctors: seq<Doctor>, value: string): (r: seq<Doctor>)
    ensures IsSubsequence(r, doctors)
    ensures forall d :: d in r <==> d in doctors && NameMatches(d, value)
  {
    if doctors == [] then []
    else
      var rest := NameFilter(doctors[1..], value);
      assert doctors == [doctors[0]] + doctors[1..];
      if NameMatches(doctors[0], value) then [doctors[0]] + rest
      else
        assert rest == [] || rest[0] != doctors[0];
        rest
  }

  /** Each matching doctor is kept as often as it occurs, and no other doctor. */
  lemma {:induction false} NameFilterCounts(doctors: seq<Doctor>, value: string)
    ensures forall d :: multiset(NameFilter(doctors, value))[d] ==
                        (if NameMatches(d, value) then multiset(doctors)[d] else 0)
  {
    if doctors != [] {
      NameFilterCounts(doctors[1..], value);
      assert doctors == [doctors[0]] + doctors[1..];
    }
  }

  /** The `{ id, name }` record a doctor contributes to the dropdown. */
  function ToSuggestion(d: Doctor): (s: SearchSuggestion)
    ensures s.id == d.id && s.name == d.name
  {
    SearchSuggestion(d.id, d.name)
  }

  /** The filter / map / slice chain of the input handler. */
  function Suggest(value: string, doctors: seq<Doctor>): (r: seq<SearchSuggestion>)
    ensures |r| == if |NameFilter(doctors, value)| < MaxSuggestions then |NameFilter(doctors, value)| else MaxSuggestions
    ensures forall k :: 0 <= k < |r| ==> r[k] == ToSuggestion(NameFilter(doctors, value)[k])
    ensures forall s :: s in r ==> exists d :: d in doctors && NameMatches(d, value) && s == ToSuggestion(d)
  {
    var matching := NameFilter(doctors, value);
    var shown := matching[..if |matching| < MaxSuggestions then |matching| else MaxSuggestions];
    assert forall k :: 0 <= k < |shown| ==> shown[k] in matching;
    seq(|shown|, k requires 0 <= k < |shown| => ToSuggestion(shown[k]))
  }

  /** Filtering a concatenation filters each part. */
  lemma {:induction false} NameFilterAppend(a: seq<Doctor>, b: seq<Doctor>, value: string)
    ensures NameFilter(a + b, value) == NameFilter(a, value) + NameFilter(b, value)
  {
    if a != [] {
      var head := if NameMatches(a[0], value) then [a[0]] else [];
      assert (a + b)[0] == a[0] && (a + b)[1..] == a[1..] + b;
      calc {
        NameFilter(a + b, value);
        head + NameFilter(a[1..] + b, value);
        { NameFilterAppend(a[1..], b, value); }
        head + (NameFilter(a[1..], value) + NameFilter(b, value));
        (head + NameFilter(a[1..], value)) + NameFilter(b, value);
        NameFilter(a, value) + NameFilter(b, value);
      }
    } else {
      assert a + b == b;
    }
  }

  /** A matching doctor preceded by fewer than three matches is suggested, at the
      position equal to the number of matches before it: the suggestions are the
      first matches in list order. */
  lemma SuggestsEarlyMatch(value: string, doctors: seq<Doctor>, i: nat)
    requires i < |doctors| && NameMatches(doctors[i], value)
    requires |NameFilter(doctors[..i], value)| < MaxSuggestions
    ensures |NameFilter(doctors[..i], value)| < |Suggest(value, doctors)|
    ensures Suggest(value, doctors)[|NameFilter(doctors[..i], value)|] == ToSuggestion(doctors[i])
  {
    var before := NameFilter(doctors[..i], value);
    assert doctors == doctors[..i] + ([doctors[i]] + doctors[i + 1..]);
    NameFilterAppend(doctors[..i], [doctors[i]] + doctors[i + 1..], value);
    NameFilterAppend([doctors[i]], doctors[i + 1..], value);
    assert [doctors[i]][1..] == [];
    var matching := NameFilter(doctors, value);
    assert matching == before + ([doctors[i]] + NameFilter(doctors[i + 1..], value));
    assert matching[|before|] == doctors[i];
  }

  /** When at most three doctors match, every one of them is suggested. */
  lemma SuggestsAllWhenFew(value: string, doctors: seq<Doctor>, d: Doctor)
    requires |NameFilter(doctors, value)| <= MaxSuggestions
    requires d in doctors && NameMatches(d, value)
    ensures ToSuggestion(d) in Suggest(value, doctors)
  {
    var matching := NameFilter(doctors, value);
    assert d in matching;
    var k :| 0 <= k < |matching| && matching[k] == d;
    assert Suggest(value, doctors)[k] == ToSuggestion(d);
  }

  /** No suggestion is shown exactly when no doctor's name matches. */
  lemma SuggestEmptyIff(value: string, doctors: seq<Doctor>)
    ensures Suggest(value, doctors) == [] <==> forall d :: d in doctors ==> !NameMatches(d, value)
  {
    var matching := NameFilter(doctors, value);
    if matching != [] {
      assert matching[0] in matching;
      assert Suggest(value, doctors)[0] == ToSuggestion(matching[0]);
    }
  }

  /** Searching for a clicked suggestion's name keeps the doctor it came from. */
  lemma ClickedSuggestionIsFound(value: string, doctors: seq<Doctor>, s: SearchSuggestion)
    requires s in Suggest(value, doctors)
    ensures exists d :: d in doctors && ToSuggestion(d) == s && ListingResults.MatchesQuery(d, s.name)
  {
    var d :| d in doctors && NameMatches(d, value) && s == ToSuggestion(d);
    IncludesSelf(ToLower(d.name));
    assert ListingResults.MatchesQuery(d, s.name);
  }

  /** The component's state. `doctors` is the prop the suggestions come from. */
  class SearchBarState {
    const doctors: seq<Doctor>
    var query: string
    var suggestions: seq<SearchSuggestion>
    var showSuggestions: bool

    /** The suggestion list is short and made of the doctors' own records. */
    ghost predicate Valid()
      reads this
    {
      && |suggestions| <= MaxSuggestions
      && forall s :: s in suggestions ==> exists d :: d in doctors && s == ToSuggestion(d)
    }

    /** The render guard: the dropdown appears only when it is switched on and
        has something to show; in a valid state it then shows some doctor. */
    predicate DropdownVisible()
      reads this
      ensures DropdownVisible() && Valid() ==> exists d :: d in doctors && ToSuggestion(d) in suggestions
    {
      assert suggestions != [] ==> suggestions[0] in suggestions;
      showSuggestions && |suggestions| > 0
    }

    /** The initial state: the given query, no suggestions, dropdown hidden. */
    constructor(doctors: seq<Doctor>, initialQuery: string)
      ensures this.doctors == doctors
      ensures query == initialQuery && suggestions == [] && !showSuggestions
      ensures Valid()
    {
      this.doctors := doctors;
      query := initialQuery;
      suggestions := [];
      showSuggestions := false;
    }

    /** The effect that copies a changed `initialQuery` into the query. */
    method SyncQuery(initialQuery: string)
      requires Valid()
      modifies this
      ensures query == initialQuery
      ensures suggestions == old(suggestions) && showSuggestions == old(showSuggestions)
      ensures Valid()
    {
      query := initialQuery;
    }

    /** The input handler: the query follows the input; a blank input clears and
        hides the suggestions, any other input recomputes and shows them. */
    method InputChange(value: string)
      requires Valid()
      modifies this
      ensures query == value
      ensures IsBlank(value) ==> suggestions == [] && !showSuggestions
      ensures !IsBlank(value) ==> suggestions == Suggest(value, doctors) && showSuggestions
      ensures DropdownVisible() <==> !IsBlank(value) && exists d :: d in doctors && NameMatches(d, value)
      ensures Valid()
    {
      query := value;
      TrimEmptyIff(value);
      if |Trim(value)| > 0 {
        suggestions := Suggest(value, doctors);
        showSuggestions := true;
        SuggestEmptyIff(value, doctors);
      } else {
        suggestions := [];
        showSuggestions := false;
      }
    }

    /** Clicking one of the listed suggestions puts its name in the box, hides the dropdown and
        searches for that name, which is returned: always some doctor's name. */
    method SuggestionClick(s: SearchSuggestion) returns (searched: string)
      requires Valid() && s in suggestions
      modifies this
      ensures searched == s.name && query == s.name
      ensures exists d :: d in doctors && d.name == searched
      ensures !showSuggestions && suggestions == old(suggestions)
      ensures !DropdownVisible()
      ensures Valid()
    {
      query := s.name;
      showSuggestions := false;
      searched := s.name;
    }

    /** Submitting searches for the current query, which is returned, and hides
        the dropdown; the query and the suggestion list stay as they were. */
    method Submit() returns (searched: string)
      requires Valid()
      modifies this
      ensures searched == old(query)
      ensures query == old(query) && suggestions == old(suggestions) && !showSuggestions
      ensures !DropdownVisible()
      ensures Valid()
    {
      searched := query;
      showSuggestions := false;
    }

    /** Focusing the box switches the dropdown on when the query is not blank,
        and otherwise leaves the flag alone. */
    method Focus()
      requires Valid()
      modifies this
      ensures showSuggestions == (old(showSuggestions) || !IsBlank(query))
      ensures query == old(query) && suggestions == old(suggestions)
      ensures Valid()
    {
      TrimEmptyIff(query);
      if |Trim(query)| > 0 {
        showSuggestions := true;
      }
    }

    /** A press outside the box and the dropdown hides the dropdown. */
    method Dismiss()
      requires Valid()
      modifies this
      ensures !showSuggestions
      ensures query == old(query) && suggestions == old(suggestions)
      ensures Valid()
    {
      showSuggestions := false;
    }
  }
}
