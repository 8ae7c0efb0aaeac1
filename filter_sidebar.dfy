/**
 * The filter sidebar: three collapsible sections, three stop-count
 * checkboxes and two minute-range sliders, each change re-emitting the
 * whole filter set; plus the `HH:MM` rendering of a minute of the day.
 */
module FilterSidebar {
  import opened Text

  /** The keys of `ShowSections`. */
  datatype Section = Escales | HeuresDepart | DureeVoyage

  /** Which of the three sections are expanded. */
  datatype ShowSections = ShowSections(escales: bool, heuresDepart: bool, dureeVoyage: bool)

  /** The three stop-count checkboxes. */
  datatype StopFilters = StopFilters(direct: bool, oneStop: bool, multipleStops: bool)

  /** A slider range in minutes. */
  datatype Range = Range(min: int, max: int)

  /** What `filtersChanged` emits. */
  datatype FilterOptions = FilterOptions(escales: seq<string>, heuresDepart: Range, dureeVoyage: Range)

  /** `current[section]`. */
  function Shown(ss: ShowSections, s: Section): bool
  {
    match s
    case Escales => ss.escales
    case HeuresDepart => ss.heuresDepart
    case DureeVoyage => ss.dureeVoyage
  }

  /** `current[section] = !current[section]` on a copy: the one flag negated, the other two kept. */
  function Flip(ss: ShowSections, s: Section): (r: ShowSections)
    ensures Shown(r, s) == !Shown(ss, s)
    ensures forall t :: t != s ==> Shown(r, t) == Shown(ss, t)
  {
    match s
    case Escales => ss.(escales := !ss.escales)
    case HeuresDepart => ss.(heuresDepart := !ss.heuresDepart)
    case DureeVoyage => ss.(dureeVoyage := !ss.dureeVoyage)
  }

  /** Two records that agree on every section are the same record. */
  lemma ShownExtensional(a: ShowSections, b: ShowSections)
    requires forall t :: Shown(a, t) == Shown(b, t)
    ensures a == b
  {
    assert Shown(a, Escales) == Shown(b, Escales);
    assert Shown(a, HeuresDepart) == Shown(b, HeuresDepart);
    assert Shown(a, DureeVoyage) == Shown(b, DureeVoyage);
  }

  /** Toggling a section twice restores the record. */
  lemma FlipTwice(ss: ShowSections, s: Section)
    ensures Flip(Flip(ss, s), s) == ss
  {
    ShownExtensional(Flip(Flip(ss, s), s), ss);
  }

  /** The position of a stop-count label in the emitted list: `direct`, then `1`, then `2+`. */
  function Rank(stop: string): int
  {
    if stop == "direct" then 0 else if stop == "1" then 1 else 2
  }

  /**
   * The `escales` list that describes `f`: it holds `direct`, `1` and `2+`
   * exactly when their checkbox is ticked, nothing else, and in that
   * order (so none twice).
   */
  ghost predicate DescribesStops(f: StopFilters, escales: seq<string>)
  {
    && (forall x :: x in escales <==>
          (x == "direct" && f.direct) || (x == "1" && f.oneStop) || (x == "2+" && f.multipleStops))
    && (forall i, j :: 0 <= i < j < |escales| ==> Rank(escales[i]) < Rank(escales[j]))
  }

  /** The list `emitFilters` pushes for `f`, ticked boxes in checkbox order. */
  function StopList(f: StopFilters): (r: seq<string>)
    ensures DescribesStops(f, r)
    ensures |r| <= 3
  {
    (if f.direct then ["direct"] else []) + (if f.oneStop then ["1"] else []) + (if f.multipleStops then ["2+"] else [])
  }

  /** `formatTime`: hours by `Math.floor(minutes / 60)`, minutes by JavaScript's truncating `%`, each padded to two. */
  function FormatTime(minutes: int): string
  {
    Pad2(minutes / 60) + ":" + Pad2(TruncRem(minutes, 60))
  }

  /** JavaScript's `a % b` for `b > 0`: the remainder takes the sign of `a`. */
  function TruncRem(a: int, b: int): (r: int)
    requires b > 0
    ensures -b < r < b
    ensures a >= 0 ==> r == a % b
    ensures a < 0 ==> r <= 0
  {
    if a >= 0 then a % b else -((-a) % b)
  }

  /** Where the parts of `hh:mm` sit, for two-character fields. */
  lemma ClockParts(h: string, m: string)
    requires |h| == 2 && |m| == 2
    ensures var s := h + ":" + m;
      |s| == 5 && s[..2] == h && s[2] == ':' && s[3..] == m
  {
  }

  /**
   * Over the slider range 0..1439 the result is five characters `HH:MM`
   * whose fields read back as the hour and the minute of the hour.
   */
  lemma FormatTimeFields(minutes: int)
    requires 0 <= minutes <= 1439
    ensures var s := FormatTime(minutes);
      && |s| == 5 && s[2] == ':'
      && AllDigits(s[..2]) && ParseNat(s[..2]) == minutes / 60
      && AllDigits(s[3..]) && ParseNat(s[3..]) == minutes % 60
  {
    var h, m := Pad2(minutes / 60), Pad2(minutes % 60);
    Pad2Spec(minutes / 60);
    Pad2Spec(minutes % 60);
    ClockParts(h, m);
  }

  /** Distinct minutes of the day are shown as distinct strings. */
  lemma FormatTimeInjective(m1: int, m2: int)
    requires 0 <= m1 <= 1439 && 0 <= m2 <= 1439
    requires FormatTime(m1) == FormatTime(m2)
    ensures m1 == m2
  {
    var s1, s2 := FormatTime(m1), FormatTime(m2);
    FormatTimeFields(m1);
    FormatTimeFields(m2);
    assert m1 / 60 == m2 / 60 by {
      assert s1[..2] == s2[..2];
    }
    assert m1 % 60 == m2 % 60 by {
      assert s1[3..] == s2[3..];
    }
    SameQuotientAndRemainder(m1, m2, 60);
  }

  /** Numbers with the same quotient and remainder by `k` are equal. */
  lemma SameQuotientAndRemainder(a: int, b: int, k: int)
    requires k > 0 && a / k == b / k && a % k == b % k
    ensures a == b
  {
    assert a == k * (a / k) + a % k;
    assert b == k * (b / k) + b % k;
  }

  /** The slider's ends: midnight is `00:00`, the last minute `23:59`. */
  lemma FormatTimeEnds()
    ensures FormatTime(0) == "00:00"
    ensures FormatTime(1439) == "23:59"
  {
    assert NatToString(23) == "23" by {
      assert NatToString(2) == "2";
    }
    assert NatToString(59) == "59" by {
      assert NatToString(5) == "5";
    }
  }

  class FilterSidebarComponent {
    var showSections: ShowSections
    var filters: StopFilters
    var departureTime: Range
    var journeyDuration: Range

    /** The initial signal values: everything shown and ticked, departure 00:00..23:59, duration 3..44 hours. */
    constructor ()
      ensures showSections == ShowSections(true, true, true)
      ensures filters == StopFilters(true, true, true)
      ensures departureTime == Range(0, 1439)
      ensures journeyDuration == Range(180, 2640)
    {
      showSections := ShowSections(true, true, true);
      filters := StopFilters(true, true, true);
      departureTime := Range(0, 1439);
      journeyDuration := Range(180, 2640);
    }

    /** What `emitFilters` sends for the current state: the ticked stops and the two ranges as they stand. */
    ghost predicate Emits(o: FilterOptions)
      reads this
    {
      o == FilterOptions(StopList(filters), departureTime, journeyDuration)
    }

    /** `toggleSection`: flips one section's flag. */
    method ToggleSection(section: Section)
      modifies this`showSections
      ensures showSections == Flip(old(showSections), section)
    {
      var current := showSections;
      current := Flip(current, section);
      showSections := current;
    }

    /**
     * `emitFilters`: pushes `direct`, `1` and `2+` for the ticked boxes,
     * then sends them with the two ranges as they stand.
     */
    method EmitFilters() returns (emitted: FilterOptions)
      ensures Emits(emitted)
    {
      var escales: seq<string> := [];
      var f := filters;
      if f.direct {
        escales := escales + ["direct"];
      }
      if f.oneStop {
        escales := escales + ["1"];
      }
      if f.multipleStops {
        escales := escales + ["2+"];
      }
      emitted := FilterOptions(escales, departureTime, journeyDuration);
    }

    /** `onDirectChange`: the checkbox's state becomes `direct`, then the filters are emitted. */
    method OnDirectChange(checked: bool) returns (emitted: FilterOptions)
      modifies this`filters
      ensures filters == old(filters).(direct := checked)
      ensures Emits(emitted)
    {
      filters := filters.(direct := checked);
      emitted := EmitFilters();
    }

    /** `onOneStopChange`. */
    method OnOneStopChange(checked: bool) returns (emitted: FilterOptions)
      modifies this`filters
      ensures filters == old(filters).(oneStop := checked)
      ensures Emits(emitted)
    {
      filters := filters.(oneStop := checked);
      emitted := EmitFilters();
    }

    /** `onMultipleStopsChange`. */
    method OnMultipleStopsChange(checked: bool) returns (emitted: FilterOptions)
      modifies this`filters
      ensures filters == old(filters).(multipleStops := checked)
      ensures Emits(emitted)
    {
      filters := filters.(multipleStops := checked);
      emitted := EmitFilters();
    }

    /** `onDepartureMinChange`: the slider's integer value becomes the lower end of the departure range. */
    method OnDepartureMinChange(value: int) returns (emitted: FilterOptions)
      modifies this`departureTime
      ensures departureTime == old(departureTime).(min := value)
      ensures Emits(emitted)
    {
      departureTime := departureTime.(min := value);
      emitted := EmitFilters();
    }

    /** `onDepartureMaxChange`. */
    method OnDepartureMaxChange(value: int) returns (emitted: FilterOptions)
      modifies this`departureTime
      ensures departureTime == old(departureTime).(max := value)
      ensures Emits(emitted)
    {
      departureTime := departureTime.(max := value);
      emitted := EmitFilters();
    }

    /** `onJourneyMinChange`. */
    method OnJourneyMinChange(value: int) returns (emitted: FilterOptions)
      modifies this`journeyDuration
      ensures journeyDuration == old(journeyDuration).(min := value)
      ensures Emits(emitted)
    {
      journeyDuration := journeyDuration.(min := value);
      emitted := EmitFilters();
    }

    /** `onJourneyMaxChange`. */
    method OnJourneyMaxChange(value: int) returns (emitted: FilterOptions)
      modifies this`journeyDuration
      ensures journeyDuration == old(journeyDuration).(max := value)
      ensures Emits(emitted)
    {
      journeyDuration := journeyDuration.(max := value);
      emitted := EmitFilters();
    }
  }

  /** Unticking "direct" on a fresh sidebar emits `1` and `2+` with the initial ranges. */
  method UntickDirect() returns (emitted: FilterOptions)
    ensures emitted == FilterOptions(["1", "2+"], Range(0, 1439), Range(180, 2640))
  {
    var sidebar := new FilterSidebarComponent();
    emitted := sidebar.OnDirectChange(false);
  }
}
