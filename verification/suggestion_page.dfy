/** The menu suggestion page (menu-suggestion.js): the search box, the
    total and "popular" counters, and the check before a suggestion is
    posted. */
module SuggestionPage {
  import opened Wrappers
  import opened Text
  import opened Lists
  import opened Sorting
  import MenuCatalog

  /** A suggestion as the page holds it; `time` is the instant its
      timestamp text parses to (`new Date(timestamp)`), in milliseconds. */
  datatype Suggestion = Suggestion(menuName: string, customerName: string, time: int)

  predicate MatchesQuery(s: Suggestion, query: string) {
    Contains(Lower(s.menuName), Lower(query)) || Contains(Lower(s.customerName), Lower(query))
  }

  /** What filterSuggestions shows: a blank query shows every suggestion
      again; otherwise those whose menu or customer name contains the
      (untrimmed) query, ignoring case, in order. */
  function MatchingSuggestions(all: seq<Suggestion>, query: string): (r: seq<Suggestion>)
    ensures JsTrim(query) == "" ==> r == all
    ensures JsTrim(query) != "" ==> forall s :: s in r <==> s in all && MatchesQuery(s, query)
  {
    if JsTrim(query) == "" then all else Keep(all, (s: Suggestion) => MatchesQuery(s, query))
  }

  /** The sort keys of sortSuggestions: "oldest" compares `a - b` of the
      instants, "newest" and "popular" compare `b - a`, so they sort by the
      negated instant. */
  function Time(s: Suggestion): int { s.time }
  function NegTime(s: Suggestion): int { -s.time }

  /** The menu names, one per suggestion. */
  function MenuNames(all: seq<Suggestion>): (names: seq<string>)
    ensures |names| == |all| && forall k :: 0 <= k < |all| ==> names[k] == all[k].menuName
  {
    seq(|all|, k requires 0 <= k < |all| => all[k].menuName)
  }

  /** The menus suggested more than once. */
  ghost function Popular(all: seq<Suggestion>): set<string> {
    Repeated(MenuNames(all))
  }

  /** The names that occur more than once. */
  ghost function Repeated(names: seq<string>): set<string> {
    set n | n in names && Occurrences(names, n) > 1
  }

  /** `Object.values(menuCounts).filter(count => count > 1).length`. */
  function CountAbove1(counts: map<string, int>): nat {
    |set n | n in counts && counts[n] > 1|
  }

  /** Counting the tally entries above 1 counts the names that occur more
      than once. */
  lemma CountAbove1OfTally(names: seq<string>)
    ensures CountAbove1(Tally(names)) == |Repeated(names)|
  {
    TallyCounts(names);
    var t := Tally(names);
    forall n ensures (n in t && t[n] > 1) <==> n in Repeated(names) {
    }
    assert (set n | n in t && t[n] > 1) == Repeated(names);
  }

  /** updateStats: the total is the number of suggestions, and the popular
      counter the number of menu names suggested more than once. */
  method UpdateStats(all: seq<Suggestion>) returns (total: nat, popular: nat)
    ensures total == |all|
    ensures popular == |Popular(all)|
  {
    total := |all|;
    var names := MenuNames(all);
    var menuCounts := TallyNames(map[], names, []);
    assert [] + names == names;
    assert menuCounts == Tally(names);
    CountAbove1OfTally(names);
    popular := CountAbove1(menuCounts);
  }

  /** A menu suggested twice is popular. */
  lemma PopularMeansRepeated(all: seq<Suggestion>, i: nat, j: nat)
    requires i < j < |all| && all[i].menuName == all[j].menuName
    ensures all[i].menuName in Popular(all)
  {
    var names := MenuNames(all);
    OccurrencesAtTwo(names, i, j);
  }

  lemma {:induction false} OccurrencesAtTwo(names: seq<string>, i: nat, j: nat)
    requires i < j < |names| && names[i] == names[j]
    ensures Occurrences(names, names[i]) >= 2
    decreases |names|
  {
    var init := names[..|names| - 1];
    if j < |names| - 1 {
      OccurrencesAtTwo(init, i, j);
    } else {
      OccurrencesOfPresent(init, i);
    }
  }

  lemma {:induction false} OccurrencesOfPresent(names: seq<string>, i: nat)
    requires i < |names|
    ensures Occurrences(names, names[i]) >= 1
    decreases |names|
  {
    if i < |names| - 1 {
      OccurrencesOfPresent(names[..|names| - 1], i);
    }
  }

  // ---------------------------------------------------------------------
  // Posting a suggestion
  // ---------------------------------------------------------------------

  const BlankFieldsMessage: string := "Nama menu dan nama customer harus diisi"

  /** submitSuggestion: both fields are trimmed (a missing field counts as
      empty) and both must be left non-empty; the trimmed pair is sent. */
  function CheckSuggestion(menuField: Option<string>, customerField: Option<string>): (r: Result<(string, string), string>)
    ensures r.Success? <==>
      (menuField.Some? && customerField.Some? && JsTrim(menuField.value) != "" && JsTrim(customerField.value) != "")
    ensures r.Success? ==> r.value == (JsTrim(menuField.value), JsTrim(customerField.value))
    ensures r.Failure? ==> r.error == BlankFieldsMessage
  {
    var menuName := if menuField.Some? then JsTrim(menuField.value) else "";
    var customerName := if customerField.Some? then JsTrim(customerField.value) else "";
    if menuName == "" || customerName == "" then Failure(BlankFieldsMessage)
    else Success((menuName, customerName))
  }

  /** The page and the menu service trim with different character sets:
      U+001C is space to Python and not to JavaScript, so a name made of it
      passes the page and is refused by the service as blank. */
  lemma PageAndServiceDisagreeOnBlank()
    ensures CheckSuggestion(Some("\U{1C}"), Some("Budi")).Success?
    ensures MenuCatalog.Blank("\U{1C}")
  {
    assert JsTrim("\U{1C}") == "\U{1C}";
    assert JsTrim("Budi") == "Budi";
    assert DropLeading("\U{1C}"[1..], IsPySpace) == "";
  }

  // ---------------------------------------------------------------------
  // The page's list state
  // ---------------------------------------------------------------------

  class SuggestionScreen {
    var suggestions: seq<Suggestion>
    var filteredSuggestions: seq<Suggestion>

    constructor ()
      ensures suggestions == [] && filteredSuggestions == []
    {
      suggestions, filteredSuggestions := [], [];
    }

    /** filterSuggestions: the shown list is replaced by the suggestions
        the query matches; the loaded ones stay. */
    method FilterSuggestions(query: string)
      modifies this
      ensures filteredSuggestions == MatchingSuggestions(suggestions, query)
      ensures suggestions == old(suggestions)
    {
      if JsTrim(query) == "" {
        filteredSuggestions := suggestions;
      } else {
        filteredSuggestions := Keep(suggestions, (s: Suggestion) => MatchesQuery(s, query));
      }
    }

    /** sortSuggestions: "oldest" puts the earliest first, "newest" and
        "popular" the latest first, each a stable sort of the shown list;
        any other choice leaves it as it is. */
    method SortSuggestions(sortType: string)
      modifies this
      ensures multiset(filteredSuggestions) == multiset(old(filteredSuggestions))
      ensures sortType == "oldest" ==> SortedBy(filteredSuggestions, Time)
      ensures sortType == "newest" || sortType == "popular" ==> SortedBy(filteredSuggestions, NegTime)
      ensures sortType == "oldest" ==> forall t :: WithKey(filteredSuggestions, Time, t) == WithKey(old(filteredSuggestions), Time, t)
      ensures sortType == "newest" || sortType == "popular" ==>
        forall t :: WithKey(filteredSuggestions, NegTime, t) == WithKey(old(filteredSuggestions), NegTime, t)
      ensures sortType !in {"oldest", "newest", "popular"} ==> filteredSuggestions == old(filteredSuggestions)
      ensures suggestions == old(suggestions)
    {
      var before := filteredSuggestions;
      if sortType == "oldest" {
        filteredSuggestions := SortBy(before, Time);
        forall t ensures WithKey(filteredSuggestions, Time, t) == WithKey(before, Time, t) {
          SortByStable(before, Time, t);
        }
      } else if sortType == "newest" || sortType == "popular" {
        filteredSuggestions := SortBy(before, NegTime);
        forall t ensures WithKey(filteredSuggestions, NegTime, t) == WithKey(before, NegTime, t) {
          SortByStable(before, NegTime, t);
        }
      }
    }
  }
}
