# Doctor listing: a verified model of the client-side pipeline

This project models the client-side core of a doctor-directory web page:

- the page fetches a list of loosely-typed doctor records;
- it normalises each record with JavaScript `||` defaults;
- it keeps the user's filter state (search query, consultation mode, selected specialties, sort option) in the URL query string;
- it filters and sorts the doctors in memory;
- it offers the specialty list found in the data;
- it runs an autocomplete search box.

The model is written in Dafny, and every contract below is proved.

The modules follow the program:

| module | models |
|---|---|
| `DoctorTypes` | the records and the two enums with their wire strings (`src/types/doctor.ts`) |
| `DoctorService` | the per-record normalisation and the failed-status branch of `fetchDoctors` (`src/services/doctorService.ts`) |
| `UrlSearchParams` | the `get` / `getAll` / `set` / `append` semantics of the WHATWG `URLSearchParams` object the page uses, with a small class for the object itself |
| `ListingFilters` | URL decoding and encoding of the filter state and the four state handlers (`src/pages/DoctorListingPage.tsx`) |
| `ListingResults` | the filter predicate, the fee and experience sort keys and the comparator |
| `StableSort` | a stable sort by a real key, and the proof that any stable key-ordered permutation is this one |
| `ListingOrder` | the listed doctors: filter, then sort, with the properties the page promises |
| `SpecialtyList` | the effect that gathers the distinct, sorted specialty names |
| `SearchBar` | the suggestion computation and the search box state (`src/components/SearchBar.tsx`) |
| `DoctorCard` | the years of experience and the primary specialty shown on a card (`src/components/DoctorCard.tsx`) |
| `Strings`, `Sequences`, `Wrappers` | string and sequence helpers: ASCII `toLowerCase`, JavaScript `trim`, `includes`, the first digit run of `match(/\d+/)`, default string order, subsequences, `Option` / `Result` |

Modelling decisions:

- **Mode and sort as wire strings.** The page decodes `mode` and `sort` with an unchecked cast (`as ConsultationMode || null`), so any non-empty string from the URL reaches the state.
  - `FilterState.consultationMode` and `FilterState.sortBy` therefore hold `Option<string>` wire values.
  - `DoctorTypes.WellTyped` states when they are enum values.
  - An unknown mode constrains nothing, and an unknown sort option leaves the order unchanged, as in the code.
- **The sort.** It is specified as a permutation of the filtered list that is ordered by the comparator's key and stable.
  - `StableSort.SortBy` is one such sort.
  - `StableSort.StableSortUnique` shows it is the only one, so the engine's algorithm does not matter.
- **Fee keys.** `parseFloat` of the stripped fee string is modelled exactly over the reals: an integer part, an optional dot and a fraction part, with NaN read as 0.
- **Search-box events.** React state becomes fields of the class `SearchBar.SearchBarState`. The `onSearch` callback becomes the string the handler returns.

## Model

| member | source | states |
|---|---|---|
| DoctorTypes.WiresDistinct | src/types/doctor.ts:26-29 | the two consultation modes have different wire strings ("Video Consult", "In Clinic"), and so do the two sort options ("fees", "experience"): equal wires iff equal values |
| DoctorTypes.ConsultationMode.Wire | src/types/doctor.ts:26-29 | a consultation mode's wire string is never empty, so it is truthy when written to the URL |
| DoctorTypes.SortOption.Wire | src/types/doctor.ts:38-41 | a sort option's wire string is never empty |
| DoctorService.Normalize | src/services/doctorService.ts:16-38 | every truthy field is copied unchanged; an absent or falsy string field becomes "" (nested clinic and address fields included); fees "₹ 0"; experience "0 Years of experience" (numeric 0 included); absent lists become []; the two flags are true only when the input is true; the result is a normalised record |
| DoctorService.NormalizeAll | src/services/doctorService.ts:16 | `data.map`: one output record per input element, in the same order, each the item's normalisation |
| DoctorService.FetchDoctors | src/services/doctorService.ts:10-16 | a failure exactly when the status is outside 200..299, carrying that status and no records; otherwise the normalised body, element by element |
| DoctorService.OrString | src/services/doctorService.ts:17-21 | a string default: the value when truthy (present and non-empty), else the default; so the result is empty only when the value is falsy and the default is empty too |
| DoctorService.OrFalse | src/services/doctorService.ts:36-37 | a flag defaults to false and is true exactly when the input is true |
| DoctorService.OrExperience | src/services/doctorService.ts:24 | a truthy experience is kept; absent, "" or 0 becomes "0 Years of experience"; either way the normalised experience is truthy |
| DoctorService.NormalizeLiftRoundTrip | src/services/doctorService.ts:16-38 | normalising a record given with every field present returns it exactly when it is already normalised |
| DoctorService.NormalizeIdempotent | src/services/doctorService.ts:16-38 | normalising an already normalised record changes nothing |
| UrlSearchParams.Get | src/pages/DoctorListingPage.tsx:18-21 | `get` is absent exactly when no entry has the name, and otherwise returns the value of an entry with that name |
| UrlSearchParams.GetAll | src/pages/DoctorListingPage.tsx:20 | `getAll` lists a value exactly when a pair with that name and value exists, and never more values than pairs |
| UrlSearchParams.SetParam | src/pages/DoctorListingPage.tsx:37-51 | `get` right after `set(name, value)` returns `value` |
| UrlSearchParams.ReplaceFirst | src/pages/DoctorListingPage.tsx:37-51 | replacing the first pair of a present name makes `get` return the new value |
| UrlSearchParams.GetAppendAbsent | src/pages/DoctorListingPage.tsx:37-51 | appending a pair for a name not yet present makes `get` return its value |
| UrlSearchParams.GetIsFirstOfGetAll | src/pages/DoctorListingPage.tsx:18-21 | `get` returns the first of the values `getAll` lists, or nothing when there are none |
| UrlSearchParams.RemoveName | src/pages/DoctorListingPage.tsx:38 | removing a name leaves no entry with it and every other name's values unchanged |
| UrlSearchParams.GetAllAppend | src/pages/DoctorListingPage.tsx:46 | the values for a name in a concatenation are those of the first part followed by those of the second |
| UrlSearchParams.SetGetAll | src/pages/DoctorListingPage.tsx:37-51 | after `set`, the name has exactly the one value set, and every other name keeps its values |
| UrlSearchParams.ReplaceFirstGetAll | src/pages/DoctorListingPage.tsx:37-51 | replacing the first entry of a present name and dropping the rest leaves just the new value, other names untouched |
| UrlSearchParams.NoNameNoValues | src/pages/DoctorListingPage.tsx:20 | a name with no entry has no values |
| UrlSearchParams.SetAbsent | src/pages/DoctorListingPage.tsx:37-51 | `set` of a name not yet present appends one entry at the end |
| UrlSearchParams.SearchParams.Set | src/pages/DoctorListingPage.tsx:37-51 | the object's entries become those of `set` on the old entries |
| UrlSearchParams.SearchParams.Append | src/pages/DoctorListingPage.tsx:46 | the object's entries gain one entry at the end |
| ListingFilters.OrNull | src/pages/DoctorListingPage.tsx:19-21 | a `get` defaulted to null: nothing when the parameter is absent or empty, otherwise the parameter's value; never the empty string |
| ListingFilters.DecodeFilters | src/pages/DoctorListingPage.tsx:17-22 | a missing `search` gives ""; a missing `mode` or `sort` gives none; mode and sort are never the empty string; the specialties are every `specialty` value in order of appearance |
| ListingFilters.SpecialtyParams | src/pages/DoctorListingPage.tsx:45-47 | one `specialty` entry per selected specialty, in list order |
| ListingFilters.EncodeFilters | src/pages/DoctorListingPage.tsx:34-53 | the parameters built step by step: `search` only when non-empty, `mode` only when set, one `specialty` per selection in order, `sort` only when set |
| ListingFilters.EncodedParams | src/pages/DoctorListingPage.tsx:34-53 | every written pair is named `search`, `mode`, `specialty` or `sort`, and only `specialty` pairs may carry an empty value |
| ListingFilters.SetWhenPresent | src/pages/DoctorListingPage.tsx:37-43 | `if (value) params.set(name, value)` on a name not written yet appends the pair when the value is truthy, and otherwise changes nothing |
| ListingFilters.AppendSpecialties | src/pages/DoctorListingPage.tsx:45-47 | the `forEach` appends one `specialty` entry per selected specialty, in list order, after the existing entries |
| ListingFilters.SpecialtyParamsSnoc | src/pages/DoctorListingPage.tsx:45-47 | one more `forEach` step appends exactly one `specialty` entry |
| ListingFilters.NoSortBeforeSort | src/pages/DoctorListingPage.tsx:37-47 | no entry named `sort` exists before the sort step, so `set("sort", ..)` appends |
| ListingFilters.SpecialtyValues | src/pages/DoctorListingPage.tsx:45-47 | the `specialty` entries carry exactly the selected list, and no other name |
| ListingFilters.OptionalValues | src/pages/DoctorListingPage.tsx:37-51 | an optional entry contributes its value under its own name only, and only when the value is non-empty |
| ListingFilters.EncodedValues | src/pages/DoctorListingPage.tsx:34-53 | the values of each name in the encoded parameters |
| ListingFilters.EncodedGet | src/pages/DoctorListingPage.tsx:17-53 | reading `search`, `mode` or `sort` back from the encoding gives the field when non-empty, else nothing |
| ListingFilters.DecodeEncodeRoundTrip | src/pages/DoctorListingPage.tsx:17-53 | decoding the encoding gives the state back exactly when mode and sort are not the empty string |
| ListingFilters.WellTypedRoundTrip | src/pages/DoctorListingPage.tsx:17-53 | decode(encode(f)) == f for every state whose mode and sort are enum values or none |
| ListingFilters.DecodeEncodeDecode | src/pages/DoctorListingPage.tsx:17-53 | every decoded state survives the round trip, so reloading the page keeps the filters |
| ListingFilters.RemoveAll | src/pages/DoctorListingPage.tsx:81 | `filter(s => s !== x)`: no occurrence left, the rest keep their order (subsequence) and their number of occurrences |
| ListingFilters.ToggleSpecialty | src/pages/DoctorListingPage.tsx:78-85 | an absent specialty is appended; a present one loses every occurrence, the others keep their order and counts; the other three fields are unchanged |
| ListingFilters.RemoveAllAppended | src/pages/DoctorListingPage.tsx:80-82 | removing a name just appended to a list without it gives the list back |
| ListingFilters.ToggleSpecialtyTwice | src/pages/DoctorListingPage.tsx:78-85 | toggling an unselected specialty twice restores the state |
| ListingFilters.ToggleSpecialtyKeepsOffered | src/pages/DoctorListingPage.tsx:78-85 | toggling an offered specialty keeps every selection among the offered names |
| ListingFilters.ToggleMode | src/pages/DoctorListingPage.tsx:87-92 | the mode becomes none exactly when the chosen mode is the current one, otherwise the chosen mode; other fields unchanged; well-typedness kept |
| ListingFilters.ToggleSort | src/pages/DoctorListingPage.tsx:94-99 | the sort becomes none exactly when the chosen option is the current one, otherwise the chosen option; other fields unchanged; well-typedness kept |
| ListingFilters.ToggleModeTwice | src/pages/DoctorListingPage.tsx:87-92 | toggling a mode twice restores the state exactly when the mode was none or that mode |
| ListingFilters.ToggleSortTwice | src/pages/DoctorListingPage.tsx:94-99 | toggling a sort option twice restores the state exactly when the sort was none or that option |
| ListingFilters.HandleSearch | src/pages/DoctorListingPage.tsx:74-76 | the search query is replaced and the other three fields are unchanged |
| ListingResults.FilterDoctors | src/pages/DoctorListingPage.tsx:102-132 | the filtered list is an order-preserving subsequence of the doctors; a doctor that passes the query, mode and specialty rules occurs in it exactly as often as in the input, any other doctor not at all |
| ListingResults.MatchesQuery | src/pages/DoctorListingPage.tsx:104-109 | a doctor's own name as the query keeps it, and a query longer than the name never matches |
| ListingResults.MatchesMode | src/pages/DoctorListingPage.tsx:112-118 | no mode keeps every doctor, and a doctor offering both video and clinic passes every mode |
| ListingResults.MatchesSpecialties | src/pages/DoctorListingPage.tsx:121-129 | a doctor with any one selected specialty passes; a doctor without specialities fails every non-empty selection |
| ListingResults.Matches | src/pages/DoctorListingPage.tsx:102-132 | the filter predicate keeps every doctor when there is no query, no mode and no selected specialty |
| ListingResults.NeutralFilterKeepsAll | src/pages/DoctorListingPage.tsx:102-132 | with empty query, no mode and no specialties every doctor is kept, in order |
| ListingResults.ModeExcludes | src/pages/DoctorListingPage.tsx:112-118 | the video mode excludes doctors without video consultation, the clinic mode those without clinic visits |
| ListingResults.NoSpecialitiesExcluded | src/pages/DoctorListingPage.tsx:121-129 | while a specialty is selected, a doctor with no specialities is excluded |
| ListingResults.FeeDigits | src/pages/DoctorListingPage.tsx:138-139 | `replace(/[^\d.]/g, '')` keeps exactly the digit and dot characters of the fee, as many of each and in their original order |
| ListingResults.ParseDecimal | src/pages/DoctorListingPage.tsx:138-139 | `parseFloat` of the stripped fee: never negative, NaN for the empty string, a number whenever the string starts with a digit |
| ListingResults.ParseDecimalOfDigits | src/pages/DoctorListingPage.tsx:138-139 | `parseFloat` of a dot-free numeral is its integer value |
| ListingResults.ParseDecimalBounds | src/pages/DoctorListingPage.tsx:138-139 | what follows the first dot adds less than one to the integer part |
| ListingResults.FeeKey | src/pages/DoctorListingPage.tsx:138-139 | the fee key is never negative |
| ListingResults.FeeKeyWithoutDigits | src/pages/DoctorListingPage.tsx:138-139 | a fee without digits, the empty fee included, has key 0 |
| ListingResults.FeeDigitsAfterPrefix | src/pages/DoctorListingPage.tsx:138-139 | a numeral after a prefix free of digits and dots is kept alone |
| ListingResults.RupeeFeeKey | src/pages/DoctorListingPage.tsx:138-139 | the key of "₹ " followed by a numeral is the numeral's value |
| ListingResults.ExperienceKey | src/pages/DoctorListingPage.tsx:143-146 | a numeric experience is its own key; a text experience gives a non-negative key |
| ListingResults.Compare | src/pages/DoctorListingPage.tsx:135-150 | under the fee sort the comparator is negative exactly when `a` has the lower fee key; under the experience sort exactly when `a` has the higher experience key; otherwise it is 0 |
| ListingResults.ExperienceKeyIsCardYears | src/pages/DoctorListingPage.tsx:143-146 | the experience sort key equals the years the card shows, for numbers and strings alike |
| ListingResults.CompareIsRankDifference | src/pages/DoctorListingPage.tsx:135-150 | the comparator is the difference of two keys (fee ascending, experience descending, else 0), hence antisymmetric and 0 on equal doctors |
| ListingOrder.ListedDoctorsContents | src/pages/DoctorListingPage.tsx:102-150 | the listed doctors are a stable, key-ordered permutation of the filtered list; a doctor is listed iff it is in the data and passes the filter; the comparator is never positive between a doctor and a later one |
| ListingOrder.ListedDoctors | src/pages/DoctorListingPage.tsx:135 | sorting only reorders: the listed doctors are the filtered ones, each as often |
| ListingOrder.ListedTwo | src/pages/DoctorListingPage.tsx:135-150 | two matching doctors are listed in the order of their keys, the first one first on a tie |
| ListingOrder.EngineSortIsListed | src/pages/DoctorListingPage.tsx:135-150 | any stable sort consistent with the comparator produces exactly the listed doctors |
| ListingOrder.FeesAscending | src/pages/DoctorListingPage.tsx:136-140 | sorted by fees, the fee keys never decrease along the list |
| ListingOrder.ExperienceDescending | src/pages/DoctorListingPage.tsx:141-147 | sorted by experience, the experience keys never increase along the list |
| ListingOrder.NoSortKeepsOrder | src/pages/DoctorListingPage.tsx:149 | with no (or an unknown) sort option, the filtered order is kept |
| ListingOrder.NothingSelectedListsAll | src/pages/DoctorListingPage.tsx:102-150 | with nothing selected, the page lists every doctor in data order |
| ListingOrder.NullSpecialitiesExcluded | src/pages/DoctorListingPage.tsx:121-129 | a record fetched without specialities is not listed while a specialty filter is active |
| ListingOrder.RupeeFeesScenario | src/pages/DoctorListingPage.tsx:136-140 | of two matching doctors with fees "₹ x" and "₹ y", y < x, the one charging y is listed first |
| ListingOrder.ExperienceScenario | src/pages/DoctorListingPage.tsx:141-147 | sorted by experience, a doctor with the number n as experience is listed before one whose experience text has a smaller first number (as 10 before "5 Years of experience") |
| StableSort.SortByIsStableSort | src/pages/DoctorListingPage.tsx:135 | the reference sort is a permutation, ordered by key, and keeps the order of equal keys |
| StableSort.StableSortUnique | src/pages/DoctorListingPage.tsx:135 | a stable key-ordered permutation is unique |
| StableSort.ConstantKeyKeepsOrder | src/pages/DoctorListingPage.tsx:149 | a comparator that always returns 0 leaves the order unchanged |
| StableSort.SortTwo | src/pages/DoctorListingPage.tsx:135 | two elements are swapped exactly when the first has the larger key |
| SpecialtyList.NamesOf | src/pages/DoctorListingPage.tsx:63-67 | the non-empty names among one doctor's specialities |
| SpecialtyList.SpecialtyNames | src/pages/DoctorListingPage.tsx:59-69 | a name is collected iff it is non-empty and some doctor has a speciality with that name |
| SpecialtyList.AddSpecialities | src/pages/DoctorListingPage.tsx:63-67 | the inner loop adds one doctor's non-empty names to the set, keeping the insertion order in step |
| SpecialtyList.CollectSpecialties | src/pages/DoctorListingPage.tsx:57-72 | the specialty list is strictly increasing (sorted, no duplicates) and holds exactly the non-empty names found across all doctors |
| SpecialtyList.SortNamesIncreasing | src/pages/DoctorListingPage.tsx:70 | sorting names without duplicates yields a strictly increasing list |
| SpecialtyList.IncreasingUnique | src/pages/DoctorListingPage.tsx:70 | two strictly increasing lists with the same names are equal, so the list does not depend on the sort algorithm |
| SpecialtyList.InsertNameIncreasing | src/pages/DoctorListingPage.tsx:70 | inserting a new name keeps a list strictly increasing |
| SearchBar.NameFilter | src/components/SearchBar.tsx:49-52 | the doctors whose lowercased name contains the lowercased input, as an order-preserving subsequence; a doctor is kept iff it is in the list and matches |
| SearchBar.NameFilterCounts | src/components/SearchBar.tsx:49-52 | a matching doctor is kept exactly as often as it occurs, any other doctor not at all |
| SearchBar.NameMatches | src/components/SearchBar.tsx:51 | a doctor's own name as input suggests it, and an input longer than the name never does |
| SearchBar.Suggest | src/components/SearchBar.tsx:49-54 | min(3, number of matches) suggestions; the k-th is the record of the k-th matching doctor in list order; each belongs to a doctor whose name matches the untrimmed input |
| SearchBar.NameFilterAppend | src/components/SearchBar.tsx:49-52 | filtering a concatenation filters each part |
| SearchBar.SuggestsEarlyMatch | src/components/SearchBar.tsx:49-54 | a matching doctor preceded by fewer than 3 matches is suggested, at the position equal to the number of earlier matches: the first matches, in list order |
| SearchBar.SuggestsAllWhenFew | src/components/SearchBar.tsx:49-54 | when at most 3 doctors match, all of them are suggested |
| SearchBar.SuggestEmptyIff | src/components/SearchBar.tsx:49-54 | there are no suggestions exactly when no doctor's name matches |
| SearchBar.ClickedSuggestionIsFound | src/components/SearchBar.tsx:64-68 | searching for a suggestion's name keeps the doctor it came from |
| SearchBar.SearchBarState.constructor | src/components/SearchBar.tsx:14-16 | the initial query, no suggestions, dropdown hidden |
| SearchBar.SearchBarState.DropdownVisible | src/components/SearchBar.tsx:92 | when the dropdown is rendered in a valid state, it lists the record of some doctor of the prop |
| SearchBar.SearchBarState.SyncQuery | src/components/SearchBar.tsx:20-22 | the query follows `initialQuery`; suggestions and flag unchanged |
| SearchBar.SearchBarState.InputChange | src/components/SearchBar.tsx:42-62 | the query becomes the input; a blank input empties and hides the suggestions; any other input sets them to the suggestion list and shows them; the dropdown is visible iff the input is not blank and some name matches |
| SearchBar.SearchBarState.SuggestionClick | src/components/SearchBar.tsx:64-68 | clicking a listed suggestion sets the query to its name, hides the dropdown, and searches for that name, which is the name of some doctor of the prop |
| SearchBar.SearchBarState.Submit | src/components/SearchBar.tsx:70-74 | the current query is searched, the dropdown hidden, the suggestion list unchanged |
| SearchBar.SearchBarState.Focus | src/components/SearchBar.tsx:86 | focus switches the dropdown on only when the trimmed query is non-empty, and otherwise leaves the flag alone |
| SearchBar.SearchBarState.Dismiss | src/components/SearchBar.tsx:32 | a click outside hides the dropdown and changes nothing else |
| DoctorCard.ExperienceYears | src/components/DoctorCard.tsx:13-17 | a number is returned unchanged; a string gives a non-negative value, 0 when it has no digit |
| DoctorCard.ExperienceYearsOfRun | src/components/DoctorCard.tsx:15-16 | a string gives the decimal value of its first maximal digit run |
| DoctorCard.TenYearsOfExperience | src/components/DoctorCard.tsx:15-16 | "10 Years of experience" gives 10 |
| DoctorCard.FalsyExperienceShowsZero | src/components/DoctorCard.tsx:13-17 | a record fetched without a truthy experience is shown as 0 years |
| SpecialtyList.PrimarySpecialtyOffered | src/components/DoctorCard.tsx:45-49 | the primary specialty a card shows, when it has a name, is one of the specialties the filter panel offers |
| Strings.TrimEmptyIff | src/components/SearchBar.tsx:47 | `trim().length > 0` exactly when the string is not all whitespace |
| Strings.Trim | src/components/SearchBar.tsx:47 | `trim()` returns a contiguous piece of the string that neither starts nor ends with whitespace |
| Strings.DecimalValue | src/components/DoctorCard.tsx:16 | `parseInt` of an n-digit numeral is below 10^n |
| Strings.FirstDigitRun | src/components/DoctorCard.tsx:15 | `match(/(\d+)/)`: none iff the string has no digit, otherwise a non-empty run of digits taken from the string |
| Strings.FirstDigitRunOf | src/components/DoctorCard.tsx:15 | the match of a digit-free prefix, a digit run and a non-digit is that run |
| Strings.ToLower | src/components/SearchBar.tsx:51 | lowercasing keeps the length and maps each character by the ASCII rule |
| Strings.StrLessTransitive | src/pages/DoctorListingPage.tsx:70 | the default string order is transitive |
| Strings.StrLessTotal | src/pages/DoctorListingPage.tsx:70 | any two different strings are ordered one way or the other |
| Strings.StrLessIrreflexive | src/pages/DoctorListingPage.tsx:70 | no string precedes itself |

## Left out

- HTTP `fetch`, JSON parsing, `console.error` logging and the re-thrown transport error (src/services/doctorService.ts:8, 14, 39-42). These are network I/O and a foreign library. The response is a parameter holding a status and a list of optional-field records.
- React scheduling (`useState`, `useEffect`, `useQuery`, `setSearchParams`) and the loading and error screens. State changes are explicit values and method calls; the doctors list is given, not loaded.
- The serialisation of `URLSearchParams` to a query string and back (percent-encoding). The parameters are modelled as the ordered list of name/value entries.
- JSX rendering, styling and `src/components/FilterPanel.tsx`. They are presentation only.
- The `mousedown` click-outside listener and its DOM node containment tests. They are modelled only as the `Dismiss` transition.
- JSON fields of an unexpected type, and `null` entries inside the `specialities` list. Every raw field is an option of the declared type.
- A change of the `doctors` prop of the search box. It is a constant of the state object.
- DoctorCard.ExperienceYears: a numeric experience is an integer. JavaScript numbers with a fraction, NaN and infinities are not modelled.
- ListingResults.FeeKey: the key is the exact real value of the digits. Binary floating-point rounding of `parseFloat` is not modelled, and neither is the float rounding of a very long `parseInt` run in the experience key.
- Strings.ToLower: only ASCII letters are lowercased. Unicode case mapping is not modelled.
- Strings.StrLess: the order compares whole characters. It differs from JavaScript's UTF-16 code-unit order only for characters outside the Basic Multilingual Plane.

Behaviour of the code that the model keeps, though a reader might expect otherwise:

- The `||` defaults replace every falsy value, not only absent or null ones. An empty fee becomes "₹ 0", and the number 0 as experience becomes "0 Years of experience".
- `mode` and `sort` read from the URL are not checked against the enums.
- The selected specialties are a list, not a set. A URL may repeat a specialty, and toggling it then removes all its copies.
- Encoding writes only the parameters that are set, rather than all four.
