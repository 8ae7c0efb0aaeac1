/**
 * The host page: the search parameters the pickers write into, the
 * calendar popup's visibility, the committed date and the sort tabs.
 */
module Host {
  import opened Wrappers
  import opened Dates
  import opened Calendar
  import opened LocationSearch

  /** `SearchFilters`: departure date, departure and arrival airport codes, sort key. */
  datatype SearchFilters = SearchFilters(date_depart: string, ville_depart: string, ville_arrivee: string, tri: string)

  /** The parameters the page starts with. */
  const InitialParams: SearchFilters := SearchFilters("2024-03-07", "ORY", "DJE", "meilleur")

  /** The two airports exchanged, date and sort key kept. */
  function Swapped(p: SearchFilters): (r: SearchFilters)
    ensures r.ville_depart == p.ville_arrivee && r.ville_arrivee == p.ville_depart
    ensures r.date_depart == p.date_depart && r.tri == p.tri
  {
    p.(ville_depart := p.ville_arrivee, ville_arrivee := p.ville_depart)
  }

  /** Swapping twice gives back the original parameters. */
  lemma SwapTwice(p: SearchFilters)
    ensures Swapped(Swapped(p)) == p
  {
  }

  /**
   * The `initialDateForCalendar` getter: no date for a null or empty
   * selection, otherwise the date the string names, and none for a
   * string that is not a valid `full-date`.
   */
  function InitialDateFor(selectedDate: Option<string>): (r: Option<Date>)
    ensures selectedDate.None? || selectedDate == Some("") ==> r.None?
    ensures selectedDate.Some? && selectedDate.value != "" ==> r == ParseFullDate(selectedDate.value)
    ensures r.Some? ==> ValidDate(r.value)
  {
    match selectedDate
    case None => None
    case Some(s) => if s == "" then None else ParseFullDate(s)
  }

  /**
   * A date committed by the calendar and stored by the page reopens the
   * calendar on that same date (for four-digit years).
   */
  lemma CommittedDateReopens(date: Date)
    requires ValidDate(date) && 1000 <= date.year <= 9999
    ensures InitialDateFor(Some(FormatDate(date))) == Some(date)
  {
    FormatDateRoundTrip(date);
  }

  class App {
    var showCalendar: bool
    var selectedDate: Option<string>
    var sortBy: string
    var activeTab: string
    var searchParams: SearchFilters

    /** The field initialisers. */
    constructor ()
      ensures !showCalendar && selectedDate == None
      ensures sortBy == "meilleur" && activeTab == "meilleur"
      ensures searchParams == InitialParams
    {
      showCalendar := false;
      selectedDate := None;
      sortBy := "meilleur";
      activeTab := "meilleur";
      searchParams := InitialParams;
    }

    /** `ngOnInit`: the initial date becomes the selection (the search it starts is not part of the model). */
    method NgOnInit()
      modifies this`selectedDate
      ensures selectedDate == Some("2024-03-07")
    {
      selectedDate := Some("2024-03-07");
    }

    /** The `initialDateForCalendar` getter, on the current selection. */
    function InitialDateForCalendar(): Option<Date>
      reads this
    {
      InitialDateFor(selectedDate)
    }

    /** `onDepartureSelected`: the airport's code becomes the departure; nothing else changes. */
    method OnDepartureSelected(airport: Airport)
      modifies this`searchParams
      ensures searchParams == old(searchParams).(ville_depart := airport.code)
    {
      var params := searchParams;
      params := params.(ville_depart := airport.code);
      searchParams := params;
    }

    /** `onDestinationSelected`: the airport's code becomes the arrival; nothing else changes. */
    method OnDestinationSelected(airport: Airport)
      modifies this`searchParams
      ensures searchParams == old(searchParams).(ville_arrivee := airport.code)
    {
      var params := searchParams;
      params := params.(ville_arrivee := airport.code);
      searchParams := params;
    }

    /** `onDateSelected`, its state writes: the date becomes the selection and the departure date. */
    method OnDateSelected(date: string)
      modifies this`selectedDate, this`searchParams
      ensures selectedDate == Some(date)
      ensures searchParams == old(searchParams).(date_depart := date)
    {
      selectedDate := Some(date);
      var params := searchParams;
      params := params.(date_depart := date);
      searchParams := params;
    }

    /** `onCalendarDateSelected`: as `onDateSelected`, then the popup is hidden. */
    method OnCalendarDateSelected(date: string)
      modifies this`selectedDate, this`searchParams, this`showCalendar
      ensures selectedDate == Some(date) && !showCalendar
      ensures searchParams == old(searchParams).(date_depart := date)
    {
      selectedDate := Some(date);
      var params := searchParams;
      params := params.(date_depart := date);
      searchParams := params;
      HideCalendar();
    }

    /** `toggleCalendar`: shows a hidden popup, hides a shown one. */
    method ToggleCalendar()
      modifies this`showCalendar
      ensures showCalendar == !old(showCalendar)
    {
      showCalendar := !showCalendar;
    }

    /** `hideCalendar`: the popup is hidden, whatever it was. */
    method HideCalendar()
      modifies this`showCalendar
      ensures !showCalendar
    {
      showCalendar := false;
    }

    /** `swapLocations`: exchanges departure and arrival. */
    method SwapLocations()
      modifies this`searchParams
      ensures searchParams == Swapped(old(searchParams))
    {
      var params := searchParams;
      var temp := params.ville_depart;
      params := params.(ville_depart := params.ville_arrivee);
      params := params.(ville_arrivee := temp);
      searchParams := params;
    }

    /** `onSortChange`, its state write: the sort key follows `sortBy`. */
    method OnSortChange()
      modifies this`searchParams
      ensures searchParams == old(searchParams).(tri := sortBy)
    {
      var params := searchParams;
      params := params.(tri := sortBy);
      searchParams := params;
    }

    /** `setSortTab`: the tab becomes the active tab, the sort choice and the sort key. */
    method SetSortTab(tab: string)
      modifies this`activeTab, this`sortBy, this`searchParams
      ensures activeTab == tab && sortBy == tab
      ensures searchParams == old(searchParams).(tri := tab)
    {
      activeTab := tab;
      sortBy := tab;
      OnSortChange();
    }

    /** `getSortTabClasses`, as its list of space-separated class tokens. */
    function SortTabClasses(tab: string): (r: seq<string>)
      reads this
      ensures |r| == 4 && r[0] == "cursor-pointer"
      ensures "selected" in r <==> activeTab == tab
    {
      if activeTab == tab then ["cursor-pointer", "selected", "bg-blue-900", "text-white"]
      else ["cursor-pointer", "text-gray-700", "bg-white", "hover:bg-gray-50"]
    }
  }

  /**
   * The date handlers composed: toggling the popup, a calendar seeded with
   * the page's initial selection, a pick and an apply, and the page's
   * handler for the emitted string. The stored string hides the popup and
   * seeds a later calendar with the picked day.
   */
  method PickDepartureDate(now: Date, picked: CalendarDay) returns (app: App, reopened: Option<Date>)
    requires ValidDate(now) && ValidDate(picked.fullDate) && 1000 <= picked.fullDate.year <= 9999
    requires picked.isCurrentMonth
    ensures !app.showCalendar
    ensures app.selectedDate == Some(FormatDate(picked.fullDate))
    ensures app.searchParams.date_depart == FormatDate(picked.fullDate)
    ensures reopened == Some(picked.fullDate)
  {
    app := new App();
    app.NgOnInit();
    app.ToggleCalendar();
    var calendar := new CalendarComponent(now, app.InitialDateForCalendar());
    calendar.NgOnInit();
    calendar.SelectDate(picked);
    var emitted := calendar.OnApply();
    app.OnCalendarDateSelected(emitted.value);
    reopened := app.InitialDateForCalendar();
    CommittedDateReopens(picked.fullDate);
  }
}
