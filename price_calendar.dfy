/**
 * The price strip: one entry per date of the service's price list, the
 * entry of the chosen date marked as selected, and the class tokens that
 * highlight it.
 */
module PriceCalendar {
  import opened Wrappers
  import opened Text
  import opened Dates
  import opened Calendar

  /** One `{ date, price }` item of the service's reply. */
  datatype PriceItem = PriceItem(date: string, price: int)

  /** `PriceDate`: the item, its `day` caption and whether it is selected. */
  datatype PriceDate = PriceDate(date: string, price: int, day: string, isSelected: bool)

  /** `formatDay`'s month-name table. */
  const MonthNames: seq<string> :=
    ["jan", "f\U{E9}v", "mar", "avr", "mai", "jun", "jul", "ao\U{FB}", "sep", "oct", "nov", "d\U{E9}c"]

  /**
   * `formatDay`: the day of the month and the month's short name. A string
   * that is not a `full-date` gives an invalid date, whose day prints as
   * `NaN` and whose month name is `undefined`.
   */
  function FormatDay(dateStr: string): string
  {
    match ParseFullDate(dateStr)
    case Some(d) => IntToString(d.day) + " " + MonthNames[d.month]
    case None => "NaN undefined"
  }

  /** The caption of a committed date is its day and month, for every four-digit year. */
  lemma FormatDayOfCommitted(date: Date)
    requires ValidDate(date) && 1000 <= date.year <= 9999
    ensures FormatDay(FormatDate(date)) == NatToString(date.day) + " " + MonthNames[date.month]
  {
    FormatDateRoundTrip(date);
  }

  /** The entry `loadPriceDates` builds for one item. */
  function Entry(item: PriceItem, selectedDate: Option<string>): PriceDate
  {
    PriceDate(item.date, item.price, FormatDay(item.date), selectedDate == Some(item.date))
  }

  /**
   * The mapping in `loadPriceDates`: one entry per item, in order, keeping
   * date and price, selected exactly when its date is the `selectedDate` input.
   */
  function Load(data: seq<PriceItem>, selectedDate: Option<string>): (r: seq<PriceDate>)
    ensures |r| == |data|
    ensures forall i :: 0 <= i < |r| ==>
      && r[i].date == data[i].date && r[i].price == data[i].price && r[i].day == FormatDay(data[i].date)
      && (r[i].isSelected <==> selectedDate == Some(data[i].date))
  {
    seq(|data|, i requires 0 <= i < |data| => Entry(data[i], selectedDate))
  }

  /**
   * The mapping in `selectDate`: every entry kept, in order, with only its
   * mark recomputed against the picked date.
   */
  function Reselect(priceDates: seq<PriceDate>, date: string): (r: seq<PriceDate>)
    ensures |r| == |priceDates|
    ensures forall i :: 0 <= i < |r| ==>
      && r[i].date == priceDates[i].date && r[i].price == priceDates[i].price && r[i].day == priceDates[i].day
      && (r[i].isSelected <==> priceDates[i].date == date)
  {
    seq(|priceDates|, i requires 0 <= i < |priceDates| => priceDates[i].(isSelected := priceDates[i].date == date))
  }

  /** Picking a date on a loaded strip gives the strip that loading with that date as the input would give. */
  lemma ReselectLoad(data: seq<PriceItem>, selectedDate: Option<string>, date: string)
    ensures Reselect(Load(data, selectedDate), date) == Load(data, Some(date))
  {
    var a, b := Reselect(Load(data, selectedDate), date), Load(data, Some(date));
    assert |a| == |b|;
    forall i | 0 <= i < |a|
      ensures a[i] == b[i]
    {
    }
  }

  /** Only the last pick matters: picking twice is picking the second date. */
  lemma ReselectTwice(priceDates: seq<PriceDate>, d1: string, d2: string)
    ensures Reselect(Reselect(priceDates, d1), d2) == Reselect(priceDates, d2)
  {
    var a, b := Reselect(Reselect(priceDates, d1), d2), Reselect(priceDates, d2);
    forall i | 0 <= i < |a|
      ensures a[i] == b[i]
    {
    }
  }

  /** The dates of the strip are pairwise distinct. */
  predicate DistinctDates(priceDates: seq<PriceDate>)
  {
    forall i, j :: 0 <= i < j < |priceDates| ==> priceDates[i].date != priceDates[j].date
  }

  /** With distinct dates, at most one entry is selected after a pick, and the picked entry is. */
  lemma ReselectMarksOne(priceDates: seq<PriceDate>, k: int)
    requires DistinctDates(priceDates) && 0 <= k < |priceDates|
    ensures var r := Reselect(priceDates, priceDates[k].date);
      r[k].isSelected && forall i :: 0 <= i < |r| && i != k ==> !r[i].isSelected
  {
  }

  /** `getPriceDateClasses`, as its list of space-separated class tokens. */
  function PriceDateClasses(priceDate: PriceDate): (r: seq<string>)
    ensures |r| == 5 && r[..2] == ["cursor-pointer", "hover:bg-blue-50"]
    ensures "selected" in r <==> priceDate.isSelected
  {
    var base := ["cursor-pointer", "hover:bg-blue-50"];
    if priceDate.isSelected then base + ["selected", "bg-skyscanner-darkblue", "text-white"]
    else base + ["text-gray-700", "bg-gray-50", "hover:bg-blue-50"]
  }

  class PriceCalendarComponent {
    /** `@Input() selectedDate`. */
    const selectedDate: Option<string>
    var priceDates: seq<PriceDate>

    /** The field initialiser: an empty strip. */
    constructor (selectedDate: Option<string>)
      ensures this.selectedDate == selectedDate && priceDates == []
    {
      this.selectedDate := selectedDate;
      priceDates := [];
    }

    /** `loadPriceDates`, given the items the service's observable delivers. */
    method LoadPriceDates(data: seq<PriceItem>)
      modifies this`priceDates
      ensures priceDates == Load(data, selectedDate)
    {
      var loaded := Load(data, selectedDate);
      priceDates := loaded;
    }

    /** `ngOnInit`: loads the strip. */
    method NgOnInit(data: seq<PriceItem>)
      modifies this`priceDates
      ensures priceDates == Load(data, selectedDate)
    {
      LoadPriceDates(data);
    }

    /** `selectDate`: re-marks the strip against the picked entry's date and emits that date. */
    method SelectDate(priceDate: PriceDate) returns (emitted: string)
      modifies this`priceDates
      ensures priceDates == Reselect(old(priceDates), priceDate.date)
      ensures emitted == priceDate.date
    {
      var updated := Reselect(priceDates, priceDate.date);
      priceDates := updated;
      emitted := priceDate.date;
    }
  }
}
