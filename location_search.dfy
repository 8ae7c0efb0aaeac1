/**
 * The airport picker: a fixed table of airports, a case-insensitive
 * substring filter over four of their fields driven by the typed term,
 * and the selection that writes `name (code)` back into the input.
 */
module LocationSearch {
  import opened Wrappers
  import opened Text

  datatype Airport = Airport(code: string, name: string, city: string, country: string, flag: string)

  /** The regional-indicator flags of Tunisia and France. */
  const FlagTN: string := "\U{1F1F9}\U{1F1F3}"
  const FlagFR: string := "\U{1F1EB}\U{1F1F7}"

  // The component's `airports` table, entry by entry.
  const Tunisia: Airport := Airport("TN", "Tunisie", "Tunisie", "Tunisie", FlagTN)
  const TunisCarthage: Airport := Airport("TUN", "Tunis Carthage", "Tunis", "Tunisie", FlagTN)
  const DjerbaZarzis: Airport := Airport("DJE", "Djerba-Zarzis", "Djerba", "Tunisie", FlagTN)
  const Monastir: Airport := Airport("MIR", "Monastir", "Monastir", "Tunisie", FlagTN)
  const Enfidha: Airport := Airport("NBE", "Enfidha", "Enfidha", "Tunisie", FlagTN)
  const SfaxElMaou: Airport := Airport("SFA", "Sfax El Maou", "Sfax", "Tunisie", FlagTN)
  const Tozeur: Airport := Airport("TOE", "Tozeur", "Tozeur", "Tunisie", FlagTN)
  const Tabarka: Airport := Airport("TBJ", "Tabarka", "Tabarka", "Tunisie", FlagTN)
  const Orly: Airport := Airport("ORY", "Orly", "Paris", "France", FlagFR)
  const CharlesDeGaulle: Airport := Airport("CDG", "Charles de Gaulle", "Paris", "France", FlagFR)
  const Lyon: Airport := Airport("LYS", "Lyon-Saint-Exup\U{E9}ry", "Lyon", "France", FlagFR)
  const Marseille: Airport := Airport("MRS", "Marseille Provence", "Marseille", "France", FlagFR)
  const Nice: Airport := Airport("NCE", "Nice C\U{F4}te d'Azur", "Nice", "France", FlagFR)

  /** The component's `airports` table, in its declared order. */
  const Airports: seq<Airport> := [
    Tunisia,
    TunisCarthage,
    DjerbaZarzis,
    Monastir,
    Enfidha, SfaxElMaou, Tozeur, Tabarka,
    Orly, CharlesDeGaulle, Lyon, Marseille, Nice
  ]

  /** `xs` is `ys` with some entries left out, the rest in their order. */
  predicate IsSubsequence<T(==)>(xs: seq<T>, ys: seq<T>)
    decreases |ys|
  {
    xs == [] || (ys != [] && ((xs[0] == ys[0] && IsSubsequence(xs[1..], ys[1..])) || IsSubsequence(xs, ys[1..])))
  }

  lemma {:induction false} SubsequenceReflexive<T>(xs: seq<T>)
    ensures IsSubsequence(xs, xs)
    decreases |xs|
  {
    if xs != [] {
      SubsequenceReflexive(xs[1..]);
    }
  }

  /** The filter's test: the (already lower-cased) term occurs in the lower-cased name, city, code or country. */
  predicate Matches(a: Airport, term: string)
  {
    || Contains(ToLower(a.name), term)
    || Contains(ToLower(a.city), term)
    || Contains(ToLower(a.code), term)
    || Contains(ToLower(a.country), term)
  }

  /** `airports.filter(...)`: the matching airports, in table order. */
  function FilterByTerm(airports: seq<Airport>, term: string): (r: seq<Airport>)
    ensures forall a :: a in r <==> a in airports && Matches(a, term)
    ensures forall a :: multiset(r)[a] == if Matches(a, term) then multiset(airports)[a] else 0
    ensures IsSubsequence(r, airports)
    decreases |airports|
  {
    if airports == [] then []
    else
      var rest := FilterByTerm(airports[1..], term);
      assert airports == [airports[0]] + airports[1..];
      if Matches(airports[0], term) then [airports[0]] + rest else rest
  }

  /** The empty term occurs in every field, so every airport matches it. */
  lemma EveryAirportMatchesEmpty(airports: seq<Airport>)
    ensures forall a :: a in airports ==> Matches(a, "")
  {
    forall a | a in airports
      ensures Matches(a, "")
    {
      ContainsEmpty(ToLower(a.name));
    }
  }

  /**
   * `filteredAirports`: with an empty term the whole table, otherwise
   * the filter over the lower-cased term.
   */
  function Filtered(airports: seq<Airport>, searchTerm: string): (r: seq<Airport>)
    ensures forall a :: a in r <==> a in airports && Matches(a, ToLower(searchTerm))
    ensures forall a :: multiset(r)[a] == if Matches(a, ToLower(searchTerm)) then multiset(airports)[a] else 0
    ensures IsSubsequence(r, airports)
    ensures searchTerm == "" ==> r == airports
  {
    if searchTerm == "" then
      EveryAirportMatchesEmpty(airports);
      SubsequenceReflexive(airports);
      airports
    else FilterByTerm(airports, ToLower(searchTerm))
  }

  /** Terms that differ only in the case of their letters list the same airports, in the same order. */
  lemma CaseInsensitive(airports: seq<Airport>, t: string, u: string)
    requires ToLower(t) == ToLower(u)
    ensures Filtered(airports, t) == Filtered(airports, u)
  {
  }

  /** The `!searchTerm` shortcut changes nothing: filtering by the empty term keeps the whole table too. */
  lemma {:induction false} EmptyTermKeepsAll(airports: seq<Airport>)
    ensures FilterByTerm(airports, "") == airports
    decreases |airports|
  {
    if airports != [] {
      EveryAirportMatchesEmpty(airports);
      EmptyTermKeepsAll(airports[1..]);
      assert airports == [airports[0]] + airports[1..];
    }
  }

  /** The text written into the input for a chosen airport. */
  function Label(a: Airport): string
  {
    a.name + " (" + a.code + ")"
  }

  /** None of the fields the filter searches contains an opening parenthesis. */
  predicate ParenthesisFree(a: Airport)
  {
    '(' !in a.name && '(' !in a.city && '(' !in a.code && '(' !in a.country
  }

  /** A term holding a parenthesis matches no airport whose searched fields hold none. */
  lemma NoMatchWithParenthesis(a: Airport, term: string)
    requires ParenthesisFree(a) && '(' in term
    ensures !Matches(a, term)
  {
    LowerKeeps(a.name, '(');
    LowerKeeps(a.city, '(');
    LowerKeeps(a.code, '(');
    LowerKeeps(a.country, '(');
    if Contains(ToLower(a.name), term) {
      ContainsChar(ToLower(a.name), term, '(');
    }
    if Contains(ToLower(a.city), term) {
      ContainsChar(ToLower(a.city), term, '(');
    }
    if Contains(ToLower(a.code), term) {
      ContainsChar(ToLower(a.code), term, '(');
    }
    if Contains(ToLower(a.country), term) {
      ContainsChar(ToLower(a.country), term, '(');
    }
  }

  /**
   * Once an airport is chosen the input holds `name (code)`, and filtering
   * by that text lists none of the airports without a parenthesis in their
   * searched fields (every entry of the table is one).
   */
  lemma SelectedLabelListsNothing(airports: seq<Airport>, b: Airport)
    ensures forall a :: ParenthesisFree(a) ==> a !in Filtered(airports, Label(b))
  {
    var term := ToLower(Label(b));
    assert Label(b)[|b.name| + 1] == '(';
    LowerKeeps(Label(b), '(');
    forall a | ParenthesisFree(a)
      ensures !Matches(a, term)
    {
      NoMatchWithParenthesis(a, term);
    }
  }

  class LocationSearchComponent {
    /** `@Input() selectedAirport`. */
    const selectedAirport: Option<Airport>
    const airports: seq<Airport>
    var searchTerm: string
    var dropdownVisible: bool

    /** The field initialisers: an empty term, the dropdown hidden, the fixed table. */
    constructor (selectedAirport: Option<Airport>)
      ensures this.selectedAirport == selectedAirport && airports == Airports
      ensures searchTerm == "" && !dropdownVisible
    {
      this.selectedAirport := selectedAirport;
      airports := Airports;
      searchTerm := "";
      dropdownVisible := false;
    }

    /** The `filteredAirports` signal, read against the current term. */
    function FilteredAirports(): (r: seq<Airport>)
      reads this
      ensures forall a :: a in r <==> a in airports && Matches(a, ToLower(searchTerm))
      ensures IsSubsequence(r, airports)
      ensures searchTerm == "" ==> r == airports
    {
      Filtered(airports, searchTerm)
    }

    /** `ngOnInit`: a preselected airport's label becomes the term; otherwise the term stays as it is. */
    method NgOnInit()
      modifies this`searchTerm
      ensures selectedAirport.Some? ==> searchTerm == Label(selectedAirport.value)
      ensures selectedAirport.None? ==> searchTerm == old(searchTerm)
    {
      if selectedAirport.Some? {
        searchTerm := Label(selectedAirport.value);
      }
    }

    /** `onSearchChange`: typing opens the dropdown. */
    method OnSearchChange()
      modifies this`dropdownVisible
      ensures dropdownVisible
    {
      dropdownVisible := true;
    }

    /** `showDropdown`: focusing opens the dropdown. */
    method ShowDropdown()
      modifies this`dropdownVisible
      ensures dropdownVisible
    {
      dropdownVisible := true;
    }

    /** `selectAirport`: writes the label, closes the dropdown and emits the airport. */
    method SelectAirport(airport: Airport) returns (emitted: Airport)
      modifies this`searchTerm, this`dropdownVisible
      ensures searchTerm == Label(airport) && !dropdownVisible
      ensures emitted == airport
    {
      searchTerm := Label(airport);
      dropdownVisible := false;
      emitted := airport;
    }
  }

  /** Opening a fresh picker shows the whole table; picking Orly then writes "Orly (ORY)". */
  method OpenThenPick() returns (before: seq<Airport>, written: string, emitted: Airport)
    ensures before == Airports
    ensures written == "Orly (ORY)" && emitted == Orly
  {
    var picker := new LocationSearchComponent(None);
    picker.NgOnInit();
    picker.OnSearchChange();
    assert picker.searchTerm == "" && picker.airports == Airports;
    before := picker.FilteredAirports();
    emitted := picker.SelectAirport(Orly);
    written := picker.searchTerm;
    assert written == Label(Orly);
  }
}
