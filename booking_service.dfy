// The reservation store behind the booking pages (src/lib/bookingService.ts):
// the `reservations` table as a sequence of rows owned by a class, each
// service call as a method on it, and each query filter as a predicate.
// The clock, Math.random and the new row's id are parameters; `storeOk`
// stands for whether the store answered without an error.
module BookingService {
  import opened Wrappers
  import opened Text
  import opened Dates
  import opened Seqs

  /** A row of `reservations` as the service writes it. An absent start or
      end time is the empty string. */
  datatype Reservation = Reservation(
    id: string,
    reservationNumber: string,
    vehicleId: string,
    customerId: Option<string>,
    guestName: string,
    guestPhone: string,
    guestEmail: string,
    startDate: Day,
    endDate: Day,
    startTime: string,
    endTime: string,
    pickupLocation: string,
    returnLocation: string,
    totalAmount: int,
    status: string,
    paymentStatus: string,
    notes: string,
    createdAt: int,
    updatedAt: int)

  /** What the booking form submits. */
  datatype BookingFormData = BookingFormData(
    vehicleId: string,
    customerName: string,
    customerPhone: string,
    customerEmail: string,
    startDate: Day,
    endDate: Day,
    startTime: string,
    endTime: string,
    notes: string)

  /** The `Booking` shape the service hands back to the pages. */
  datatype Booking = Booking(
    id: string,
    vehicleId: string,
    customerName: string,
    customerPhone: string,
    customerEmail: string,
    startDate: Day,
    endDate: Day,
    startTime: string,
    endTime: string,
    status: string,
    totalAmount: int,
    notes: string,
    createdAt: int,
    updatedAt: int)

  /** One booked range, as the calendar receives it. */
  datatype DateRange = DateRange(startDate: Day, endDate: Day)

  // ---- reservation number ------------------------------------------------

  /** `Math.floor(Math.random() * 9999)` for a draw r in [0, 1). */
  function RandomSuffix(r: real): (n: nat)
    requires 0.0 <= r < 1.0
    ensures n <= 9998
    ensures n as real <= r * 9999.0 < n as real + 1.0
  {
    (r * 9999.0).Floor
  }

  function RemoveDashes(s: string): string {
    Filter(s, (c: char) => c != '-')
  }

  /** `toISOString().slice(0, 10).replace(/-/g, '')`: the creation date. */
  function DateDigits(today: CivilDate): string {
    RemoveDashes(FullDate(today))
  }

  /** `RENT-${dateStr}-${randomNum}` */
  function ReservationNumber(today: CivilDate, r: real): string
    requires 0.0 <= r < 1.0
  {
    "RENT-" + DateDigits(today) + "-" + Padded(RandomSuffix(r), 4)
  }

  lemma {:induction false} DigitsHaveNoDash(s: string)
    requires AllDigits(s)
    ensures RemoveDashes(s) == s
  {
    FilterKeepsAll(s, (c: char) => c != '-');
  }

  /** Removing the dashes of the full-date leaves year, month and day as
      eight digits. */
  lemma DateDigitsShape(today: CivilDate)
    requires ValidDate(today)
    ensures DateDigits(today) == Padded(today.year, 4) + Padded(today.month, 2) + Padded(today.day, 2)
    ensures |DateDigits(today)| == 8 && AllDigits(DateDigits(today))
  {
    assert Pow10(4) == 10000 && Pow10(2) == 100;
    PaddedShape(today.year, 4);
    PaddedShape(today.month, 2);
    PaddedShape(today.day, 2);
    DigitsHaveNoDash(Padded(today.year, 4));
    DigitsHaveNoDash(Padded(today.month, 2));
    DigitsHaveNoDash(Padded(today.day, 2));
    DashesRemoved(Padded(today.year, 4), Padded(today.month, 2), Padded(today.day, 2));
  }

  /** Joining three dash-free strings with dashes and removing the dashes
      again concatenates them. */
  lemma DashesRemoved(y: string, m: string, d: string)
    requires RemoveDashes(y) == y && RemoveDashes(m) == m && RemoveDashes(d) == d
    ensures RemoveDashes(y + ("-" + (m + ("-" + d)))) == y + m + d
  {
    SkipDash(m, d);
    SkipDash(y, m + ("-" + d));
  }

  lemma SkipDash(x: string, z: string)
    requires RemoveDashes(x) == x
    ensures RemoveDashes(x + ("-" + z)) == x + RemoveDashes(z)
  {
    RemoveDashesConcat(x, "-" + z);
    RemoveDashesConcat("-", z);
    assert RemoveDashes("-") == [];
  }

  lemma RemoveDashesConcat(a: string, b: string)
    ensures RemoveDashes(a + b) == RemoveDashes(a) + RemoveDashes(b)
  {
    FilterConcat(a, b, (c: char) => c != '-');
  }

  /** The reservation number is "RENT-", the eight digits of the creation
      date, "-" and a four-digit suffix in 0000..9998: 18 characters. */
  lemma ReservationNumberShape(today: CivilDate, r: real)
    requires ValidDate(today) && 0.0 <= r < 1.0
    ensures var n := ReservationNumber(today, r);
      |n| == 18 && n[..5] == "RENT-" && n[13] == '-'
      && n[5..13] == DateDigits(today) && AllDigits(n[5..13])
      && AllDigits(n[14..]) && DigitsValue(n[14..]) == RandomSuffix(r) <= 9998
  {
    DateDigitsShape(today);
    assert Pow10(4) == 10000;
    PaddedShape(RandomSuffix(r), 4);
    var n := ReservationNumber(today, r);
    assert n[14..] == Padded(RandomSuffix(r), 4);
    assert n[5..13] == DateDigits(today);
  }

  /** Two reservation numbers are equal only for the same day and suffix. */
  lemma ReservationNumberInjective(a: CivilDate, ra: real, b: CivilDate, rb: real)
    requires ValidDate(a) && ValidDate(b) && 0.0 <= ra < 1.0 && 0.0 <= rb < 1.0
    requires ReservationNumber(a, ra) == ReservationNumber(b, rb)
    ensures a == b && RandomSuffix(ra) == RandomSuffix(rb)
  {
    ReservationNumberShape(a, ra);
    ReservationNumberShape(b, rb);
    DateDigitsShape(a);
    DateDigitsShape(b);
    var na, nb := ReservationNumber(a, ra), ReservationNumber(b, rb);
    var da, db := DateDigits(a), DateDigits(b);
    assert da == na[5..13] == nb[5..13] == db;
    assert Pow10(4) == 10000 && Pow10(2) == 100;
    PaddedShape(a.year, 4);
    PaddedShape(b.year, 4);
    PaddedShape(a.month, 2);
    PaddedShape(b.month, 2);
    assert da[..4] == Padded(a.year, 4) && db[..4] == Padded(b.year, 4);
    assert da[4..6] == Padded(a.month, 2) && db[4..6] == Padded(b.month, 2);
    assert da[6..] == Padded(a.day, 2) && db[6..] == Padded(b.day, 2);
    PaddedInjective(a.year, b.year, 4);
    PaddedInjective(a.month, b.month, 2);
    PaddedInjective(a.day, b.day, 2);
  }

  // ---- rows and their views ----------------------------------------------

  /** The row createBooking inserts: a guest reservation (no customer id),
      pending and unpaid, picked up and returned at the main branch. */
  function NewReservation(form: BookingFormData, totalAmount: int, id: string, number: string, nowMs: int): Reservation {
    Reservation(id, number, form.vehicleId, None,
      form.customerName, form.customerPhone, form.customerEmail,
      form.startDate, form.endDate, form.startTime, form.endTime,
      "본점", "본점", totalAmount, "pending", "pending", form.notes, nowMs, nowMs)
  }

  /** The mapping createBooking applies to the inserted row. */
  function ToBooking(row: Reservation): Booking {
    Booking(row.id, row.vehicleId, row.guestName, row.guestPhone, row.guestEmail,
      row.startDate, row.endDate, row.startTime, row.endTime, row.status,
      row.totalAmount, row.notes, row.createdAt, row.updatedAt)
  }

  /** The booking createBooking returns carries the form's data unchanged,
      the guest fields under the customer names, and the pending status. */
  lemma CreatedBookingCarriesForm(form: BookingFormData, totalAmount: int, id: string, number: string, nowMs: int)
    ensures var b := ToBooking(NewReservation(form, totalAmount, id, number, nowMs));
      b.id == id && b.vehicleId == form.vehicleId
      && b.customerName == form.customerName && b.customerPhone == form.customerPhone
      && b.customerEmail == form.customerEmail
      && b.startDate == form.startDate && b.endDate == form.endDate
      && b.startTime == form.startTime && b.endTime == form.endTime
      && b.notes == form.notes && b.totalAmount == totalAmount
      && b.status == "pending" && b.createdAt == b.updatedAt == nowMs
  {
  }

  /** `time || fallback`: an absent time shows as the fallback. */
  function TimeOr(time: string, fallback: string): (t: string)
    ensures time != "" ==> t == time
    ensures time == "" ==> t == fallback
  {
    if time == "" then fallback else time
  }

  /** The mapping getCustomerBookings applies: the createBooking mapping
      with the opening hours as default times. */
  function HistoryView(row: Reservation): (b: Booking)
    ensures b.(startTime := row.startTime, endTime := row.endTime) == ToBooking(row)
    ensures b.startTime == (if row.startTime == "" then "09:00" else row.startTime)
    ensures b.endTime == (if row.endTime == "" then "18:00" else row.endTime)
  {
    ToBooking(row).(startTime := TimeOr(row.startTime, "09:00"), endTime := TimeOr(row.endTime, "18:00"))
  }

  function HistoryViews(rows: seq<Reservation>): (r: seq<Booking>)
    ensures |r| == |rows|
    ensures forall i :: 0 <= i < |rows| ==> r[i] == HistoryView(rows[i])
  {
    seq(|rows|, i requires 0 <= i < |rows| => HistoryView(rows[i]))
  }

  /** Every booking in the history has a start and an end time. */
  lemma HistoryTimesPresent(row: Reservation)
    ensures HistoryView(row).startTime != "" && HistoryView(row).endTime != ""
    ensures row.startTime != "" ==> HistoryView(row).startTime == row.startTime
    ensures row.endTime != "" ==> HistoryView(row).endTime == row.endTime
  {
  }

  // ---- query filters -----------------------------------------------------

  /** `.in('status', ['pending', 'confirmed'])` */
  predicate HoldsVehicle(status: string) {
    status == "pending" || status == "confirmed"
  }

  /** The date condition of checkVehicleAvailability: `.or(start_date.lte.end,
      end_date.gte.start)`, the two comparisons joined by OR. */
  predicate OrDateCondition(row: Reservation, startDate: Day, endDate: Day) {
    row.startDate <= endDate || row.endDate >= startDate
  }

  /** The two ranges share at least one day. */
  predicate Overlaps(row: Reservation, startDate: Day, endDate: Day) {
    row.startDate <= endDate && row.endDate >= startDate
  }

  /** The rows checkVehicleAvailability selects. */
  function AvailabilityQuery(vehicleId: string, startDate: Day, endDate: Day): Reservation -> bool {
    (row: Reservation) => row.vehicleId == vehicleId && HoldsVehicle(row.status) && OrDateCondition(row, startDate, endDate)
  }

  /** The rows getVehicleBookedDates selects: `.gte('end_date', start)` and
      `.lte('start_date', end)`, both applied. */
  function BookedQuery(vehicleId: string, startDate: Day, endDate: Day): Reservation -> bool {
    (row: Reservation) => row.vehicleId == vehicleId && HoldsVehicle(row.status) && Overlaps(row, startDate, endDate)
  }

  function EmailQuery(email: string): Reservation -> bool {
    (row: Reservation) => row.guestEmail == email
  }

  function CreatedAt(b: Booking): int { b.createdAt }

  function RangeOf(row: Reservation): DateRange {
    DateRange(row.startDate, row.endDate)
  }

  function Ranges(rows: seq<Reservation>): (r: seq<DateRange>)
    ensures |r| == |rows|
    ensures forall i :: 0 <= i < |rows| ==> r[i] == RangeOf(rows[i])
  {
    seq(|rows|, i requires 0 <= i < |rows| => RangeOf(rows[i]))
  }

  /** A reservation whose end is not before its start. */
  predicate WellFormed(row: Reservation) {
    row.startDate <= row.endDate
  }

  /** With the OR-joined condition and a proper query range, every
      well-formed row matches the date condition: the dates play no part. */
  lemma OrConditionAlwaysHolds(row: Reservation, startDate: Day, endDate: Day)
    requires WellFormed(row) && startDate <= endDate
    ensures OrDateCondition(row, startDate, endDate)
  {
  }

  /** Overlap implies the OR condition; the converse fails (see
      AvailabilityCounterexample). */
  lemma OverlapImpliesOrCondition(row: Reservation, startDate: Day, endDate: Day)
    ensures Overlaps(row, startDate, endDate) ==> OrDateCondition(row, startDate, endDate)
  {
  }

  function IdIndex(rows: seq<Reservation>, id: string): (r: Option<nat>)
    ensures r.Some? ==> r.value < |rows| && rows[r.value].id == id
    ensures r.Some? ==> forall i :: 0 <= i < r.value ==> rows[i].id != id
    ensures r.None? <==> forall i :: 0 <= i < |rows| ==> rows[i].id != id
  {
    if rows == [] then None
    else if rows[0].id == id then Some(0)
    else
      var k := IdIndex(rows[1..], id);
      if k.Some? then Some(k.value + 1) else None
  }

  /** The table after `.update({ status, updated_at }).eq('id', id)`. */
  function SetStatus(rows: seq<Reservation>, id: string, status: string, nowMs: int): (r: seq<Reservation>)
    ensures |r| == |rows|
    ensures forall i :: 0 <= i < |rows| && rows[i].id != id ==> r[i] == rows[i]
    ensures forall i :: 0 <= i < |rows| && rows[i].id == id ==> r[i] == rows[i].(status := status, updatedAt := nowMs)
  {
    seq(|rows|, i requires 0 <= i < |rows| =>
      if rows[i].id == id then rows[i].(status := status, updatedAt := nowMs) else rows[i])
  }

  /** No two rows share an id (the table's primary key). */
  predicate DistinctIds(rows: seq<Reservation>) {
    forall i, j :: 0 <= i < j < |rows| ==> rows[i].id != rows[j].id
  }

  lemma SetStatusKeepsIds(rows: seq<Reservation>, id: string, status: string, nowMs: int)
    ensures forall i :: 0 <= i < |rows| ==> SetStatus(rows, id, status, nowMs)[i].id == rows[i].id
    ensures DistinctIds(rows) ==> DistinctIds(SetStatus(rows, id, status, nowMs))
  {
  }

  // ---- the table ----------------------------------------------------------

  class ReservationTable {
    var rows: seq<Reservation>

    predicate Valid()
      reads this
    {
      DistinctIds(rows)
    }

    constructor()
      ensures rows == [] && Valid()
    {
      rows := [];
    }

    /** createBooking: inserts one pending guest reservation and returns it
        in the Booking shape. A failed insert, including a clash with an
        existing id, changes nothing and is an error. */
    method CreateBooking(form: BookingFormData, totalAmount: int, id: string,
                         today: CivilDate, r: real, nowMs: int, storeOk: bool)
      returns (result: Result<Booking>)
      requires Valid() && 0.0 <= r < 1.0
      modifies this
      ensures Valid()
      ensures var row := NewReservation(form, totalAmount, id, ReservationNumber(today, r), nowMs);
        if storeOk && IdIndex(old(rows), id).None? then
          rows == old(rows) + [row] && result == Ok(ToBooking(row))
        else
          rows == old(rows) && result == Err("예약 생성에 실패했습니다.")
    {
      var number := ReservationNumber(today, r);
      if !storeOk || IdIndex(rows, id).Some? {
        return Err("예약 생성에 실패했습니다.");
      }
      var row := NewReservation(form, totalAmount, id, number, nowMs);
      rows := rows + [row];
      result := Ok(ToBooking(row));
    }

    /** checkVehicleAvailability: available iff no row matches the query. */
    method CheckVehicleAvailability(vehicleId: string, startDate: Day, endDate: Day, storeOk: bool)
      returns (result: Result<bool>)
      ensures !storeOk ==> result == Err("차량 가용성 확인에 실패했습니다.")
      ensures storeOk ==> (result.Ok?
        && (result.value <==> forall i :: 0 <= i < |rows| ==> !AvailabilityQuery(vehicleId, startDate, endDate)(rows[i])))
    {
      if !storeOk {
        return Err("차량 가용성 확인에 실패했습니다.");
      }
      var matches := Filter(rows, AvailabilityQuery(vehicleId, startDate, endDate));
      forall i | 0 <= i < |rows|
        ensures AvailabilityQuery(vehicleId, startDate, endDate)(rows[i]) ==> matches != []
      {
        FilterMembership(rows, AvailabilityQuery(vehicleId, startDate, endDate), rows[i]);
      }
      if matches != [] {
        FilterMembership(rows, AvailabilityQuery(vehicleId, startDate, endDate), matches[0]);
      }
      result := Ok(|matches| == 0);
    }

    /** The availability the code presumably means: no pending or confirmed
        row of the vehicle overlaps the requested range. */
    method CheckVehicleAvailabilityIntended(vehicleId: string, startDate: Day, endDate: Day, storeOk: bool)
      returns (result: Result<bool>)
      ensures !storeOk ==> result == Err("차량 가용성 확인에 실패했습니다.")
      ensures storeOk ==> (result.Ok?
        && (result.value <==> forall i :: 0 <= i < |rows| ==> !BookedQuery(vehicleId, startDate, endDate)(rows[i])))
    {
      if !storeOk {
        return Err("차량 가용성 확인에 실패했습니다.");
      }
      var matches := Filter(rows, BookedQuery(vehicleId, startDate, endDate));
      forall i | 0 <= i < |rows|
        ensures BookedQuery(vehicleId, startDate, endDate)(rows[i]) ==> matches != []
      {
        FilterMembership(rows, BookedQuery(vehicleId, startDate, endDate), rows[i]);
      }
      if matches != [] {
        FilterMembership(rows, BookedQuery(vehicleId, startDate, endDate), matches[0]);
      }
      result := Ok(|matches| == 0);
    }

    /** getCustomerBookings: the rows booked under the email, newest first,
        in the history view; no match is an empty list. */
    method GetCustomerBookings(email: string, storeOk: bool) returns (result: Result<seq<Booking>>)
      ensures !storeOk ==> result == Err("예약 목록 조회에 실패했습니다.")
      ensures storeOk ==> (result.Ok?
        && multiset(result.value) == multiset(HistoryViews(Filter(rows, EmailQuery(email))))
        && SortedDesc(result.value, CreatedAt))
    {
      if !storeOk {
        return Err("예약 목록 조회에 실패했습니다.");
      }
      result := Ok(SortDesc(HistoryViews(Filter(rows, EmailQuery(email))), CreatedAt));
    }

    /** updateBookingStatus: sets status and updated_at of the row with that
        id and returns it; an unknown id is an error and changes nothing. */
    method UpdateBookingStatus(id: string, status: string, nowMs: int, storeOk: bool)
      returns (result: Result<Reservation>)
      requires Valid()
      modifies this
      ensures Valid()
      ensures if storeOk && IdIndex(old(rows), id).Some? then
          rows == SetStatus(old(rows), id, status, nowMs)
          && result == Ok(old(rows)[IdIndex(old(rows), id).value].(status := status, updatedAt := nowMs))
        else
          rows == old(rows) && result == Err("예약 상태 업데이트에 실패했습니다.")
    {
      var k := IdIndex(rows, id);
      if !storeOk || k.None? {
        return Err("예약 상태 업데이트에 실패했습니다.");
      }
      var updated := rows[k.value].(status := status, updatedAt := nowMs);
      SetStatusKeepsIds(rows, id, status, nowMs);
      rows := SetStatus(rows, id, status, nowMs);
      result := Ok(updated);
    }

    /** getBookingById: the row with that id; not found (PGRST116) is
        `null`, any other store error is thrown. */
    method GetBookingById(id: string, storeOk: bool) returns (result: Result<Option<Reservation>>)
      ensures !storeOk ==> result == Err("예약 조회에 실패했습니다.")
      ensures storeOk ==> result.Ok?
      ensures storeOk ==> (result.value.None? <==> forall i :: 0 <= i < |rows| ==> rows[i].id != id)
      ensures result.Ok? && result.value.Some? ==> result.value.value in rows && result.value.value.id == id
    {
      if !storeOk {
        return Err("예약 조회에 실패했습니다.");
      }
      var k := IdIndex(rows, id);
      if k.None? {
        return Ok(None);
      }
      result := Ok(Some(rows[k.value]));
    }

    /** getVehicleBookedDates: the ranges of the vehicle's pending and
        confirmed rows that overlap the window, in table order. */
    method GetVehicleBookedDates(vehicleId: string, startDate: Day, endDate: Day, storeOk: bool)
      returns (result: Result<seq<DateRange>>)
      ensures !storeOk ==> result == Err("예약 날짜 조회에 실패했습니다.")
      ensures storeOk ==> (result.Ok?
        && result.value == Ranges(Filter(rows, BookedQuery(vehicleId, startDate, endDate))))
    {
      if !storeOk {
        return Err("예약 날짜 조회에 실패했습니다.");
      }
      result := Ok(Ranges(Filter(rows, BookedQuery(vehicleId, startDate, endDate))));
    }
  }

  // ---- properties relating the queries -----------------------------------

  /** A booking appears in an email's history iff some row carries that
      email and shows as that booking. */
  lemma HistoryMembership(rows: seq<Reservation>, email: string, b: Booking)
    ensures b in SortDesc(HistoryViews(Filter(rows, EmailQuery(email))), CreatedAt)
      <==> exists row :: row in rows && row.guestEmail == email && b == HistoryView(row)
  {
    SortDescMembers(HistoryViews(Filter(rows, EmailQuery(email))), CreatedAt, b);
    ViewsMembership(rows, email, b);
  }

  /** The unsorted history views: a booking is among them iff some row
      carries that email and shows as that booking. */
  lemma ViewsMembership(rows: seq<Reservation>, email: string, b: Booking)
    ensures b in HistoryViews(Filter(rows, EmailQuery(email)))
      <==> exists row :: row in rows && row.guestEmail == email && b == HistoryView(row)
  {
    if b in HistoryViews(Filter(rows, EmailQuery(email))) {
      ViewHasRow(rows, email, b);
    }
    if exists row :: row in rows && row.guestEmail == email && b == HistoryView(row) {
      var row :| row in rows && row.guestEmail == email && b == HistoryView(row);
      RowHasView(rows, email, row);
    }
  }

  lemma ViewHasRow(rows: seq<Reservation>, email: string, b: Booking)
    requires b in HistoryViews(Filter(rows, EmailQuery(email)))
    ensures exists row :: row in rows && row.guestEmail == email && b == HistoryView(row)
  {
    var matching := Filter(rows, EmailQuery(email));
    var views := HistoryViews(matching);
    var i :| 0 <= i < |views| && views[i] == b;
    FilterMembership(rows, EmailQuery(email), matching[i]);
    assert matching[i] in rows && matching[i].guestEmail == email && b == HistoryView(matching[i]);
  }

  lemma RowHasView(rows: seq<Reservation>, email: string, row: Reservation)
    requires row in rows && row.guestEmail == email
    ensures HistoryView(row) in HistoryViews(Filter(rows, EmailQuery(email)))
  {
    var matching := Filter(rows, EmailQuery(email));
    FilterMembership(rows, EmailQuery(email), row);
    var i :| 0 <= i < |matching| && matching[i] == row;
    assert HistoryViews(matching)[i] == HistoryView(row);
  }

  /** With a proper range and well-formed rows, checkVehicleAvailability
      reports a vehicle available iff it has no pending or confirmed row at
      all, whatever the dates asked for. */
  lemma AvailabilityIgnoresDates(rows: seq<Reservation>, vehicleId: string, startDate: Day, endDate: Day)
    requires startDate <= endDate
    requires forall i :: 0 <= i < |rows| ==> WellFormed(rows[i])
    ensures (forall i :: 0 <= i < |rows| ==> !AvailabilityQuery(vehicleId, startDate, endDate)(rows[i]))
      <==> (forall i :: 0 <= i < |rows| ==> !(rows[i].vehicleId == vehicleId && HoldsVehicle(rows[i].status)))
  {
    forall i | 0 <= i < |rows|
      ensures OrDateCondition(rows[i], startDate, endDate)
    {
      OrConditionAlwaysHolds(rows[i], startDate, endDate);
    }
  }

  /** A cancelled or completed reservation never blocks a vehicle. */
  lemma FinishedRowsNeverBlock(row: Reservation, vehicleId: string, startDate: Day, endDate: Day)
    requires row.status == "cancelled" || row.status == "completed"
    ensures !AvailabilityQuery(vehicleId, startDate, endDate)(row)
    ensures !BookedQuery(vehicleId, startDate, endDate)(row)
  {
  }

  /** The intended availability agrees with the calendar's query: a vehicle
      is free for a range iff the booked-dates query returns nothing. */
  lemma IntendedAvailabilityMatchesCalendar(rows: seq<Reservation>, vehicleId: string, startDate: Day, endDate: Day)
    ensures (forall i :: 0 <= i < |rows| ==> !BookedQuery(vehicleId, startDate, endDate)(rows[i]))
      <==> Ranges(Filter(rows, BookedQuery(vehicleId, startDate, endDate))) == []
  {
    var q := BookedQuery(vehicleId, startDate, endDate);
    var m := Filter(rows, q);
    forall i | 0 <= i < |rows|
      ensures q(rows[i]) ==> m != []
    {
      FilterMembership(rows, q, rows[i]);
    }
    if m != [] {
      FilterMembership(rows, q, m[0]);
    }
  }

  /** A confirmed booking of 10 to 15 June blocks a request for 1 to 3 July
      under the OR-joined condition, though the ranges are disjoint; `june1`
      is the day number of 1 June of any year. */
  lemma AvailabilityCounterexample(june1: Day)
    ensures var row := Reservation("r1", "RENT-20240601-0001", "car1", None, "Kim", "010-1234-5678",
        "kim@example.com", june1 + 9, june1 + 14, "09:00", "18:00",
        "본점", "본점", 210000, "confirmed", "pending", "", 0, 0);
      AvailabilityQuery("car1", june1 + 30, june1 + 32)(row) && !BookedQuery("car1", june1 + 30, june1 + 32)(row)
  {
  }
}
