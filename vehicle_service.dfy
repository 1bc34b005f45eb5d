// The vehicle catalogue queries of src/lib/vehicleService.ts. They only
// read, so each is a function of the table contents and of the store's
// outcome. The catalogue lists fall back to fixed defaults whenever the
// store fails or has nothing to offer.
module VehicleService {
  import opened Wrappers
  import opened Seqs
  import opened Dates
  import BookingService

  /** The columns of a `vehicles` row the queries look at. */
  datatype Vehicle = Vehicle(id: string, status: string, createdAt: int)

  /** A row of `vehicle_categories` or `vehicle_locations`. */
  datatype CatalogueRow = CatalogueRow(id: string, name: string, isActive: bool)

  /** An entry of a catalogue list as the pages receive it. */
  datatype NamedItem = NamedItem(id: string, name: string)

  /** A row of `vehicle_brands`. */
  datatype Brand = Brand(id: string, name: string)

  // ---- getVehicles ---------------------------------------------------------

  function StatusQuery(status: string): Vehicle -> bool {
    (v: Vehicle) => status == "" || v.status == status
  }

  function VehicleCreatedAt(v: Vehicle): int { v.createdAt }

  /** getVehicles: newest first, restricted to one status when a non-empty
      status is given; an error gives the empty list. */
  function GetVehicles(table: seq<Vehicle>, status: string, storeOk: bool): (r: seq<Vehicle>)
    ensures !storeOk ==> r == []
    ensures storeOk ==> multiset(r) == multiset(Filter(table, StatusQuery(status)))
    ensures SortedDesc(r, VehicleCreatedAt)
  {
    if storeOk then SortDesc(Filter(table, StatusQuery(status)), VehicleCreatedAt) else []
  }

  /** A vehicle is listed iff the store answered, it is in the table and it
      has the requested status (any status when none is requested). */
  lemma GetVehiclesMembership(table: seq<Vehicle>, status: string, storeOk: bool, v: Vehicle)
    ensures v in GetVehicles(table, status, storeOk)
      <==> storeOk && v in table && (status == "" || v.status == status)
  {
    if storeOk {
      SortDescMembers(Filter(table, StatusQuery(status)), VehicleCreatedAt, v);
      FilterMembership(table, StatusQuery(status), v);
    }
  }

  // ---- checkVehicleAvailability (confirmed rows only) ----------------------

  /** The rows this availability check selects: the vehicle's confirmed
      rows, with the date conditions joined by OR. */
  function ConfirmedQuery(vehicleId: string, startDate: Day, endDate: Day): BookingService.Reservation -> bool {
    (row: BookingService.Reservation) =>
      row.vehicleId == vehicleId && row.status == "confirmed"
      && BookingService.OrDateCondition(row, startDate, endDate)
  }

  /** checkVehicleAvailability: true iff no row matches; a store error is
      re-thrown with its own message, never reported as available. */
  function CheckVehicleAvailability(rows: seq<BookingService.Reservation>, vehicleId: string,
                                    startDate: Day, endDate: Day, storeError: Option<string>): (r: Result<bool>)
    ensures storeError.Some? ==> r == Err(storeError.value)
    ensures storeError.None? ==>
      r.Ok? && (r.value <==> forall i :: 0 <= i < |rows| ==> !ConfirmedQuery(vehicleId, startDate, endDate)(rows[i]))
  {
    if storeError.Some? then Err(storeError.value)
    else
      var matches := Filter(rows, ConfirmedQuery(vehicleId, startDate, endDate));
      assert matches != [] <==> exists i :: 0 <= i < |rows| && ConfirmedQuery(vehicleId, startDate, endDate)(rows[i]) by {
        if matches != [] {
          FilterMembership(rows, ConfirmedQuery(vehicleId, startDate, endDate), matches[0]);
        }
        forall i | 0 <= i < |rows| && ConfirmedQuery(vehicleId, startDate, endDate)(rows[i])
          ensures matches != []
        {
          FilterMembership(rows, ConfirmedQuery(vehicleId, startDate, endDate), rows[i]);
        }
      }
      Ok(|matches| == 0)
  }

  /** Only confirmed rows count here: a pending reservation, which blocks the
      vehicle in the booking service's check, never blocks it here. */
  lemma PendingBlocksOnlyInBookingService(row: BookingService.Reservation, vehicleId: string, startDate: Day, endDate: Day)
    requires row.vehicleId == vehicleId && row.status == "pending"
    requires BookingService.OrDateCondition(row, startDate, endDate)
    ensures !ConfirmedQuery(vehicleId, startDate, endDate)(row)
    ensures BookingService.AvailabilityQuery(vehicleId, startDate, endDate)(row)
  {
  }

  /** Every row this check selects, the booking service's check selects too,
      so the booking service never calls a vehicle free that this check
      calls taken. */
  lemma ConfirmedQueryNarrower(rows: seq<BookingService.Reservation>, vehicleId: string, startDate: Day, endDate: Day)
    requires CheckVehicleAvailability(rows, vehicleId, startDate, endDate, None) == Ok(false)
    ensures exists i :: 0 <= i < |rows| && BookingService.AvailabilityQuery(vehicleId, startDate, endDate)(rows[i])
  {
    var i :| 0 <= i < |rows| && ConfirmedQuery(vehicleId, startDate, endDate)(rows[i]);
    assert BookingService.AvailabilityQuery(vehicleId, startDate, endDate)(rows[i]);
  }

  /** With a proper range and well-formed rows, the vehicle is available iff
      it has no confirmed reservation at all. */
  lemma ConfirmedAvailabilityIgnoresDates(rows: seq<BookingService.Reservation>, vehicleId: string, startDate: Day, endDate: Day)
    requires startDate <= endDate
    requires forall i :: 0 <= i < |rows| ==> BookingService.WellFormed(rows[i])
    ensures CheckVehicleAvailability(rows, vehicleId, startDate, endDate, None)
      == Ok(forall i :: 0 <= i < |rows| ==> !(rows[i].vehicleId == vehicleId && rows[i].status == "confirmed"))
  {
    forall i | 0 <= i < |rows|
      ensures BookingService.OrDateCondition(rows[i], startDate, endDate)
    {
      BookingService.OrConditionAlwaysHolds(rows[i], startDate, endDate);
    }
  }

  // ---- catalogue lists -----------------------------------------------------

  /** The six categories used when the store cannot supply any. */
  const DefaultCategories: seq<NamedItem> := [
    NamedItem("1", "경차"), NamedItem("2", "소형"), NamedItem("3", "중형세단"),
    NamedItem("4", "SUV"), NamedItem("5", "승합차"), NamedItem("6", "전기차")]

  /** The five branches used when the store cannot supply any. */
  const DefaultLocations: seq<NamedItem> := [
    NamedItem("1", "강남점"), NamedItem("2", "본점"), NamedItem("3", "부산점"),
    NamedItem("4", "대구점"), NamedItem("5", "홍대점")]

  function IsActive(row: CatalogueRow): bool { row.isActive }

  function Items(rows: seq<CatalogueRow>): (r: seq<NamedItem>)
    ensures |r| == |rows|
    ensures forall i :: 0 <= i < |rows| ==> r[i] == NamedItem(rows[i].id, rows[i].name)
  {
    seq(|rows|, i requires 0 <= i < |rows| => NamedItem(rows[i].id, rows[i].name))
  }

  /** The shared shape of getVehicleCategories and getVehicleLocations: a
      probe query, then the active rows; a failed probe, a failed query
      (both also stand for a thrown exception) or an empty answer all give
      the defaults. */
  function ActiveOrDefaults(table: seq<CatalogueRow>, probeOk: bool, queryOk: bool,
                            defaults: seq<NamedItem>): (r: seq<NamedItem>)
    ensures defaults != [] ==> r != []
    ensures r == defaults || (probeOk && queryOk && r == Items(Filter(table, IsActive)))
    ensures probeOk && queryOk && Filter(table, IsActive) != [] ==> r == Items(Filter(table, IsActive))
    ensures !(probeOk && queryOk) ==> r == defaults
  {
    if !probeOk || !queryOk then defaults
    else
      var active := Filter(table, IsActive);
      if |active| > 0 then Items(active) else defaults
  }

  /** getVehicleCategories */
  function GetVehicleCategories(table: seq<CatalogueRow>, probeOk: bool, queryOk: bool): (r: seq<NamedItem>)
    ensures r != []
    ensures r == DefaultCategories
      || forall i :: 0 <= i < |r| ==> FromActiveRow(table, r[i])
  {
    ActiveItemsFromTable(table);
    var res := ActiveOrDefaults(table, probeOk, queryOk, DefaultCategories);
    assert res != DefaultCategories ==> res == Items(Filter(table, IsActive));
    res
  }

  /** getVehicleLocations */
  function GetVehicleLocations(table: seq<CatalogueRow>, probeOk: bool, queryOk: bool): (r: seq<NamedItem>)
    ensures r != []
    ensures r == DefaultLocations
      || forall i :: 0 <= i < |r| ==> FromActiveRow(table, r[i])
  {
    ActiveItemsFromTable(table);
    var res := ActiveOrDefaults(table, probeOk, queryOk, DefaultLocations);
    assert res != DefaultLocations ==> res == Items(Filter(table, IsActive));
    res
  }

  /** The item lists an active row of the table. */
  predicate FromActiveRow(table: seq<CatalogueRow>, item: NamedItem) {
    exists row :: row in table && row.isActive && item == NamedItem(row.id, row.name)
  }

  /** Every item listed from the table comes from one of its active rows. */
  lemma ActiveItemsFromTable(table: seq<CatalogueRow>)
    ensures var items := Items(Filter(table, IsActive));
      forall i :: 0 <= i < |items| ==> FromActiveRow(table, items[i])
  {
    var active := Filter(table, IsActive);
    var items := Items(active);
    forall i | 0 <= i < |items|
      ensures FromActiveRow(table, items[i])
    {
      assert active[i] in active;
      FilterMembership(table, IsActive, active[i]);
      assert active[i] in table;
      assert IsActive(active[i]);
      assert items[i] == NamedItem(active[i].id, active[i].name);
    }
  }

  /** The store's categories are used, in full, whenever it supplies any. */
  lemma CategoriesFromStore(table: seq<CatalogueRow>)
    requires exists row :: row in table && row.isActive
    ensures GetVehicleCategories(table, true, true) == Items(Filter(table, IsActive))
    ensures GetVehicleLocations(table, true, true) == Items(Filter(table, IsActive))
  {
    var row :| row in table && row.isActive;
    FilterMembership(table, IsActive, row);
  }

  /** getVehicleBrands: the table, or nothing on an error. */
  function GetVehicleBrands(table: seq<Brand>, storeOk: bool): (r: seq<Brand>)
    ensures storeOk ==> r == table
    ensures !storeOk ==> r == []
  {
    if storeOk then table else []
  }
}
