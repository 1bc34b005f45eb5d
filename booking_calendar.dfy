// The availability calendar (src/components/booking/BookingCalendar.tsx):
// it loads the vehicle's booked ranges for the next three months, expands
// them day by day into the set of unavailable dates, and derives from that
// set which tiles are disabled and how they are marked. Dates are day
// numbers; the source keys its set by full-date strings, which name days
// one to one (Dates.ParseFullDateInverse).
module BookingCalendar {
  import opened Wrappers
  import opened Text
  import opened Dates
  import opened Seqs
  import BookingService
  import BookingModal

  /** The calendar's selection: nothing, one date, or a range whose ends
      may still be missing. */
  datatype CalendarValue = NoValue | Single(date: CivilDate) | Range(first: Option<CivilDate>, last: Option<CivilDate>)

  /** The days from a to b inclusive. */
  function DaysOf(a: Day, b: Day): set<Day>
    decreases b - a
  {
    if b < a then {} else DaysOf(a, b - 1) + {b}
  }

  lemma {:induction false} DaysOfMembership(a: Day, b: Day, x: Day)
    ensures x in DaysOf(a, b) <==> a <= x <= b
    decreases b - a
  {
    if a <= b {
      DaysOfMembership(a, b - 1, x);
    }
  }

  /** The days covered by some range of the list. */
  function Covered(ranges: seq<BookingService.DateRange>): set<Day> {
    if ranges == [] then {}
    else
      var last := ranges[|ranges| - 1];
      Covered(ranges[..|ranges| - 1]) + DaysOf(last.startDate, last.endDate)
  }

  lemma {:induction false} CoveredMembership(ranges: seq<BookingService.DateRange>, x: Day)
    ensures x in Covered(ranges)
      <==> exists i :: 0 <= i < |ranges| && ranges[i].startDate <= x <= ranges[i].endDate
  {
    if ranges != [] {
      var init := ranges[..|ranges| - 1];
      CoveredMembership(init, x);
      DaysOfMembership(ranges[|ranges| - 1].startDate, ranges[|ranges| - 1].endDate, x);
      if exists i :: 0 <= i < |init| && init[i].startDate <= x <= init[i].endDate {
        var i :| 0 <= i < |init| && init[i].startDate <= x <= init[i].endDate;
        assert ranges[i] == init[i];
      }
      if exists i :: 0 <= i < |ranges| && ranges[i].startDate <= x <= ranges[i].endDate {
        var i :| 0 <= i < |ranges| && ranges[i].startDate <= x <= ranges[i].endDate;
        if i < |init| {
          assert init[i] == ranges[i];
        }
      }
    }
  }

  /** A range whose end precedes its start contributes no day. */
  lemma EmptyRangeAddsNothing(ranges: seq<BookingService.DateRange>, r: BookingService.DateRange)
    requires r.endDate < r.startDate
    ensures Covered(ranges + [r]) == Covered(ranges)
  {
    assert (ranges + [r])[..|ranges|] == ranges;
  }

  /** `getTileClassName`'s and `isDateDisabled`'s `view` argument. */
  predicate IsMonthView(view: string) { view == "month" }

  /** isDateDisabled: only month tiles are ever disabled; past days are, and
      later days are iff they are unavailable. */
  function IsDateDisabled(date: Day, view: string, today: Day, unavailable: set<Day>): (r: bool)
    ensures !IsMonthView(view) ==> !r
    ensures IsMonthView(view) && date < today ==> r
    ensures IsMonthView(view) && date >= today ==> (r <==> date in unavailable)
  {
    if !IsMonthView(view) then false
    else if date < today then true
    else date in unavailable
  }

  /** getTileClassName: 'unavailable-date' and 'today', in that order,
      joined by a space; nothing outside month view. */
  function TileClassName(date: Day, view: string, today: Day, unavailable: set<Day>): (r: string)
    ensures !IsMonthView(view) ==> r == ""
    ensures IsMonthView(view) ==>
      r == (if date in unavailable && date == today then "unavailable-date today"
            else if date in unavailable then "unavailable-date"
            else if date == today then "today"
            else "")
  {
    if !IsMonthView(view) then ""
    else
      var classes := (if date in unavailable then ["unavailable-date"] else []) + (if date == today then ["today"] else []);
      assert |classes| == 2 ==> Join(classes, " ") == classes[0] + " " + Join(classes[1..], " ");
      Join(classes, " ")
  }

  /** handleDateChange's report: a complete range reports its two ends, a
      single date reports itself twice, anything else reports nothing. */
  function DateChangeReport(value: CalendarValue): (r: Option<(string, string)>)
    ensures value.Range? && value.first.Some? && value.last.Some? ==>
      r == Some((FullDate(value.first.value), FullDate(value.last.value)))
    ensures value.Single? ==> r == Some((FullDate(value.date), FullDate(value.date)))
    ensures value.NoValue? || (value.Range? && (value.first.None? || value.last.None?)) ==> r.None?
  {
    match value
    case Range(Some(a), Some(b)) => Some((FullDate(a), FullDate(b)))
    case Single(d) => Some((FullDate(d), FullDate(d)))
    case _ => None
  }

  /** A single-date report is a one-day range: both ends parse to the date. */
  lemma SingleDateReport(d: CivilDate)
    requires ValidDate(d)
    ensures var r := DateChangeReport(Single(d));
      r.Some? && ParseFullDate(r.value.0) == Some(d) && r.value.0 == r.value.1
  {
    ParseFullDateInverse(d);
  }

  // ---- the day count under the selection -----------------------------------

  const MsPerDay: int := 86400000

  /** In range mode the calendar reports the selection from the first
      millisecond of its first day to the last millisecond of its last
      day. */
  function RangeBegin(d: CivilDate): int
    requires 1 <= d.month <= 12
  {
    DayNumber(d) * MsPerDay
  }

  function RangeEnd(d: CivilDate): int
    requires 1 <= d.month <= 12
  {
    DayNumber(d) * MsPerDay + MsPerDay - 1
  }

  /** `Math.ceil(num / den)` on exact numbers. */
  function CeilDiv(num: int, den: int): (q: int)
    requires den > 0
    ensures den * (q - 1) < num <= den * q
  {
    -((-num) / den)
  }

  /** The whole days a difference of d * MsPerDay + r milliseconds rounds
      up to, for 0 <= r < MsPerDay. */
  lemma CeilDays(d: int, r: int)
    requires 0 <= r < MsPerDay
    ensures CeilDiv(d * MsPerDay + r, MsPerDay) == if r == 0 then d else d + 1
  {
    var q := CeilDiv(d * MsPerDay + r, MsPerDay);
    if r == 0 {
      assert MsPerDay * (q - 1) < MsPerDay * d <= MsPerDay * q;
    } else {
      assert MsPerDay * (q - 1) < MsPerDay * d + r <= MsPerDay * q;
    }
  }

  /** The day count shown under a complete selection, as written:
      `Math.ceil((end - start) / day) + 1` on the range the calendar
      reports, whose end is the last millisecond of the last day. */
  function SelectedDays(first: CivilDate, last: CivilDate): (n: int)
    requires 1 <= first.month <= 12 && 1 <= last.month <= 12
    ensures n == DayNumber(last) - DayNumber(first) + 2
  {
    CeilDays(DayNumber(last) - DayNumber(first), MsPerDay - 1);
    assert RangeEnd(last) - RangeBegin(first) == (DayNumber(last) - DayNumber(first)) * MsPerDay + (MsPerDay - 1);
    CeilDiv(RangeEnd(last) - RangeBegin(first), MsPerDay) + 1
  }

  /** The count the summary evidently means: the difference between the
      two days' midnights, rounded up, plus one. */
  function SelectedDaysCorrected(first: CivilDate, last: CivilDate): (n: int)
    requires 1 <= first.month <= 12 && 1 <= last.month <= 12
    ensures n >= 1 <==> DayNumber(first) <= DayNumber(last)
  {
    CeilDays(DayNumber(last) - DayNumber(first), 0);
    assert RangeBegin(last) - RangeBegin(first) == (DayNumber(last) - DayNumber(first)) * MsPerDay + 0;
    CeilDiv(RangeBegin(last) - RangeBegin(first), MsPerDay) + 1
  }

  /** For an ordered selection the corrected count is the number of
      selected days, and it is the count the booking form prices from the
      two reported dates. */
  lemma SelectedDaysCountsDays(first: CivilDate, last: CivilDate)
    requires ValidDate(first) && ValidDate(last)
    requires DayNumber(first) <= DayNumber(last)
    ensures SelectedDaysCorrected(first, last) == |DaysOf(DayNumber(first), DayNumber(last))|
    ensures SelectedDaysCorrected(first, last) == BookingModal.CalculateDays(FullDate(first), FullDate(last))
  {
    CeilDays(DayNumber(last) - DayNumber(first), 0);
    assert RangeBegin(last) - RangeBegin(first) == (DayNumber(last) - DayNumber(first)) * MsPerDay + 0;
    DaysOfSize(DayNumber(first), DayNumber(last));
    BookingModal.CalculateDaysInclusive(first, last);
  }

  /** As written, the summary shows one day more than the selection holds
      and than the booking form charges for: June 10 to 12 shows 4, a
      single day shows 2. */
  lemma SelectedDaysOvercounts(first: CivilDate, last: CivilDate)
    requires ValidDate(first) && ValidDate(last)
    requires DayNumber(first) <= DayNumber(last)
    ensures SelectedDays(first, last) == |DaysOf(DayNumber(first), DayNumber(last))| + 1
    ensures SelectedDays(first, last) == BookingModal.CalculateDays(FullDate(first), FullDate(last)) + 1
  {
    SelectedDaysCountsDays(first, last);
  }

  /** The concrete case: a June 10-12, 2024 selection shows 4 days while the
      form charges for 3. */
  lemma SelectedDaysExample()
    ensures SelectedDays(CivilDate(2024, 6, 10), CivilDate(2024, 6, 12)) == 4
    ensures SelectedDaysCorrected(CivilDate(2024, 6, 10), CivilDate(2024, 6, 12)) == 3
    ensures SelectedDays(CivilDate(2024, 6, 10), CivilDate(2024, 6, 10)) == 2
  {
    assert DayNumber(CivilDate(2024, 6, 12)) - DayNumber(CivilDate(2024, 6, 10)) == 2;
  }

  lemma {:induction false} DaysOfSize(a: Day, b: Day)
    requires a <= b + 1
    ensures |DaysOf(a, b)| == b - a + 1
    decreases b - a
  {
    if a <= b {
      DaysOfSize(a, b - 1);
      DaysOfMembership(a, b - 1, b);
      assert DaysOf(a, b) == DaysOf(a, b - 1) + {b};
    } else {
      assert DaysOf(a, b) == {};
    }
  }

  /** The first and last day of the booked-range query: today and the same
      day three months on. */
  function QueryWindow(today: CivilDate): (w: (Day, Day))
    requires 1 <= today.month <= 12
    ensures w.0 == DayNumber(today) && 89 <= w.1 - w.0 <= 92
  {
    ThreeMonthsAhead(today);
    (DayNumber(today), AddMonths(today, 3))
  }

  class CalendarState {
    var selectedRange: CalendarValue
    var unavailableDates: set<Day>
    var loading: bool

    constructor()
      ensures selectedRange == NoValue && unavailableDates == {} && loading
    {
      selectedRange := NoValue;
      unavailableDates := {};
      loading := true;
    }

    /** loadUnavailableDates: with no vehicle nothing happens. Otherwise the
        booked ranges of the query window are fetched and every day of every
        range is added; a failed fetch leaves the set empty. Loading ends
        either way. */
    method LoadUnavailableDates(vehicleId: string, today: CivilDate,
                                table: BookingService.ReservationTable, storeOk: bool)
      requires 1 <= today.month <= 12
      modifies this
      ensures vehicleId == "" ==>
        unavailableDates == old(unavailableDates) && loading == old(loading)
      ensures selectedRange == old(selectedRange)
      ensures vehicleId != "" ==> !loading
      ensures vehicleId != "" && storeOk ==>
        unavailableDates == Covered(BookingService.Ranges(Filter(table.rows,
          BookingService.BookedQuery(vehicleId, QueryWindow(today).0, QueryWindow(today).1))))
      ensures vehicleId != "" && !storeOk ==> unavailableDates == {}
    {
      if vehicleId == "" {
        return;
      }
      loading := true;
      var window := QueryWindow(today);
      var booked := table.GetVehicleBookedDates(vehicleId, window.0, window.1, storeOk);
      if booked.Err? {
        unavailableDates := {};
        loading := false;
        return;
      }
      var ranges := booked.value;
      var unavailable: set<Day> := {};
      var i := 0;
      while i < |ranges|
        invariant 0 <= i <= |ranges|
        invariant unavailable == Covered(ranges[..i])
      {
        var range := ranges[i];
        var d := range.startDate;
        while d <= range.endDate
          invariant range.startDate <= d
          invariant d <= range.endDate + 1 || d == range.startDate
          invariant unavailable == Covered(ranges[..i]) + DaysOf(range.startDate, d - 1)
          decreases range.endDate - d
        {
          unavailable := unavailable + {d};
          d := d + 1;
        }
        assert DaysOf(range.startDate, d - 1) == DaysOf(range.startDate, range.endDate);
        assert ranges[..i + 1][..i] == ranges[..i];
        i := i + 1;
      }
      assert ranges[..i] == ranges;
      unavailableDates := unavailable;
      loading := false;
    }

    /** handleDateChange: stores the selection and reports it as above. */
    method HandleDateChange(value: CalendarValue) returns (report: Option<(string, string)>)
      modifies this
      ensures selectedRange == value
      ensures unavailableDates == old(unavailableDates) && loading == old(loading)
      ensures report == DateChangeReport(value)
    {
      selectedRange := value;
      report := DateChangeReport(value);
    }
  }

  /** Every unavailable day lies in some pending or confirmed reservation of
      the vehicle that overlaps the query window. */
  lemma UnavailableDaysAreBooked(rows: seq<BookingService.Reservation>, vehicleId: string,
                                 from: Day, to: Day, x: Day)
    requires x in Covered(BookingService.Ranges(Filter(rows, BookingService.BookedQuery(vehicleId, from, to))))
    ensures exists row :: (row in rows && row.vehicleId == vehicleId
      && BookingService.HoldsVehicle(row.status) && BookingService.Overlaps(row, from, to)
      && row.startDate <= x <= row.endDate)
  {
    var q := BookingService.BookedQuery(vehicleId, from, to);
    var kept := Filter(rows, q);
    var ranges := BookingService.Ranges(kept);
    CoveredMembership(ranges, x);
    var i :| 0 <= i < |ranges| && ranges[i].startDate <= x <= ranges[i].endDate;
    FilterMembership(rows, q, kept[i]);
    assert kept[i] in rows && q(kept[i]);
  }

  /** Conversely every day of such a reservation is unavailable, including
      its days outside the window. */
  lemma BookedDaysAreUnavailable(rows: seq<BookingService.Reservation>, vehicleId: string,
                                 from: Day, to: Day, row: BookingService.Reservation, x: Day)
    requires row in rows && BookingService.BookedQuery(vehicleId, from, to)(row)
    requires row.startDate <= x <= row.endDate
    ensures x in Covered(BookingService.Ranges(Filter(rows, BookingService.BookedQuery(vehicleId, from, to))))
  {
    var q := BookingService.BookedQuery(vehicleId, from, to);
    var kept := Filter(rows, q);
    var ranges := BookingService.Ranges(kept);
    FilterMembership(rows, q, row);
    var i :| 0 <= i < |kept| && kept[i] == row;
    assert ranges[i].startDate <= x <= ranges[i].endDate;
    CoveredMembership(ranges, x);
  }

  /** After a failed load no day from today on is disabled. */
  lemma FailedLoadDisablesNothingAhead(date: Day, view: string, today: Day)
    requires date >= today
    ensures !IsDateDisabled(date, view, today, {})
  {
  }
}
