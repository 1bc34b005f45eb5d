// The consultation store (src/lib/consultationService.ts): the
// `consultations` table as a sequence of stored rows owned by a class, each
// service call a method on it, and the conversion that turns a stored row
// into the record the pages use. A store error is re-thrown with the
// store's own message, modelled as `storeError`; the new row's id and the
// clock are parameters.
module ConsultationService {
  import opened Wrappers
  import opened Text
  import opened Seqs

  /** A stored row. A nullable column is an Option; the timestamps are
      filled by the table's defaults and are never null. */
  datatype StoredConsultation = StoredConsultation(
    id: string,
    consultationNumber: string,
    customerName: string,
    customerPhone: string,
    customerEmail: string,
    kind: Option<string>,
    subject: string,
    content: string,
    status: Option<string>,
    priority: Option<string>,
    rentalStartDate: Option<string>,
    rentalEndDate: Option<string>,
    preferredVehicle: Option<string>,
    adminMemo: Option<string>,
    isRead: bool,
    createdAt: int,
    updatedAt: int)

  /** The `Consultation` record the pages receive; None is `undefined`. */
  datatype Consultation = Consultation(
    id: string,
    consultationNumber: string,
    customerName: string,
    customerPhone: string,
    customerEmail: string,
    kind: Option<string>,
    subject: string,
    content: string,
    status: string,
    priority: string,
    rentalStartDate: Option<string>,
    rentalEndDate: Option<string>,
    preferredVehicle: Option<string>,
    adminMemo: Option<string>,
    isRead: bool,
    createdAt: int,
    updatedAt: int)

  /** What a form submits; `undefined` fields are None. */
  datatype CreateConsultationData = CreateConsultationData(
    customerName: string,
    customerPhone: string,
    customerEmail: string,
    kind: Option<string>,
    subject: string,
    content: string,
    rentalStartDate: Option<string>,
    rentalEndDate: Option<string>,
    preferredVehicle: Option<string>)

  // ---- conversion ----------------------------------------------------------

  /** `value || undefined`: a missing or empty string becomes undefined. */
  function Present(o: Option<string>): (r: Option<string>)
    ensures r.None? <==> o.None? || o.value == ""
    ensures r.Some? ==> r == o
  {
    if o.Some? && o.value != "" then o else None
  }

  /** `value || fallback` for a nullable string column. */
  function OrDefault(o: Option<string>, fallback: string): (r: string)
    ensures (o.None? || o.value == "") ==> r == fallback
    ensures (o.Some? && o.value != "") ==> r == o.value
  {
    if o.Some? && o.value != "" then o.value else fallback
  }

  /** convertToConsultation: every column kept, except that empty optional
      texts become undefined and an empty status or priority becomes
      'pending' or 'normal'. */
  function Convert(row: StoredConsultation): (c: Consultation) {
    Consultation(row.id, row.consultationNumber, row.customerName, row.customerPhone, row.customerEmail,
      Present(row.kind), row.subject, row.content,
      OrDefault(row.status, "pending"), OrDefault(row.priority, "normal"),
      Present(row.rentalStartDate), Present(row.rentalEndDate), Present(row.preferredVehicle),
      Present(row.adminMemo), row.isRead, row.createdAt, row.updatedAt)
  }

  /** A record as convertToConsultation produces it: no empty optional
      text, and a status and priority that are set. */
  predicate Normalised(c: Consultation) {
    (c.kind.None? || c.kind.value != "") && c.status != "" && c.priority != ""
    && (c.rentalStartDate.None? || c.rentalStartDate.value != "")
    && (c.rentalEndDate.None? || c.rentalEndDate.value != "")
    && (c.preferredVehicle.None? || c.preferredVehicle.value != "")
    && (c.adminMemo.None? || c.adminMemo.value != "")
  }

  /** The row that stores a record as it is. */
  function Store(c: Consultation): StoredConsultation {
    StoredConsultation(c.id, c.consultationNumber, c.customerName, c.customerPhone, c.customerEmail,
      c.kind, c.subject, c.content, Some(c.status), Some(c.priority),
      c.rentalStartDate, c.rentalEndDate, c.preferredVehicle, c.adminMemo, c.isRead, c.createdAt, c.updatedAt)
  }

  /** Conversion always yields a normalised record, keeps the identifying
      and free-text columns, and fills the status and priority defaults. */
  lemma ConvertNormalises(row: StoredConsultation)
    ensures Normalised(Convert(row))
    ensures var c := Convert(row);
      c.id == row.id && c.consultationNumber == row.consultationNumber
      && c.customerName == row.customerName && c.customerPhone == row.customerPhone
      && c.customerEmail == row.customerEmail && c.subject == row.subject && c.content == row.content
      && c.isRead == row.isRead && c.createdAt == row.createdAt && c.updatedAt == row.updatedAt
    ensures (row.status.None? || row.status == Some("")) ==> Convert(row).status == "pending"
    ensures (row.priority.None? || row.priority == Some("")) ==> Convert(row).priority == "normal"
    ensures row.adminMemo == Some("") ==> Convert(row).adminMemo.None?
  {
  }

  /** A normalised record survives storing and converting unchanged, so
      conversion is idempotent on its own results. */
  lemma ConvertStoreRoundTrip(c: Consultation)
    requires Normalised(c)
    ensures Convert(Store(c)) == c
  {
  }

  function ConvertAll(rows: seq<StoredConsultation>): (r: seq<Consultation>)
    ensures |r| == |rows| && forall i :: 0 <= i < |rows| ==> r[i] == Convert(rows[i])
  {
    seq(|rows|, i requires 0 <= i < |rows| => Convert(rows[i]))
  }

  // ---- create --------------------------------------------------------------

  /** `CONS${Date.now()}` */
  function ConsultationNumber(nowMs: nat): (n: string)
    ensures |n| > 4 && n[..4] == "CONS" && AllDigits(n[4..])
  {
    "CONS" + Decimal(nowMs)
  }

  /** The number reads back as its timestamp, so two requests get the same
      number only when made in the same millisecond. */
  lemma ConsultationNumberReadsBack(nowMs: nat)
    ensures DigitsValue(ConsultationNumber(nowMs)[4..]) == nowMs
  {
    assert ConsultationNumber(nowMs)[4..] == Decimal(nowMs);
    DecimalValue(nowMs);
  }

  lemma ConsultationNumberInjective(a: nat, b: nat)
    requires ConsultationNumber(a) == ConsultationNumber(b)
    ensures a == b
  {
    ConsultationNumberReadsBack(a);
    ConsultationNumberReadsBack(b);
  }

  const NoEmail: string := "noemail@temp.com"

  /** The row create inserts: the number, the submitted fields, the email
      or its placeholder, and a fixed status, priority and unread flag,
      whatever the caller sent; no memo yet. */
  function NewRow(data: CreateConsultationData, id: string, nowMs: nat): StoredConsultation {
    StoredConsultation(id, ConsultationNumber(nowMs), data.customerName, data.customerPhone,
      if data.customerEmail == "" then NoEmail else data.customerEmail,
      data.kind, data.subject, data.content, Some("pending"), Some("normal"),
      data.rentalStartDate, data.rentalEndDate, data.preferredVehicle, None, false, nowMs, nowMs)
  }

  /** What create hands back: a pending, normal, unread record whose email
      is never empty. */
  lemma CreatedRecord(data: CreateConsultationData, id: string, nowMs: nat)
    ensures var c := Convert(NewRow(data, id, nowMs));
      c.status == "pending" && c.priority == "normal" && !c.isRead && c.adminMemo.None?
      && c.customerEmail != ""
      && (data.customerEmail != "" ==> c.customerEmail == data.customerEmail)
      && c.consultationNumber == ConsultationNumber(nowMs)
  {
  }

  // ---- the table -----------------------------------------------------------

  function CreatedAtOf(c: Consultation): int { c.createdAt }

  function Unread(row: StoredConsultation): bool { !row.isRead }

  function RowIndex(rows: seq<StoredConsultation>, id: string): (r: Option<nat>)
    ensures r.Some? ==> r.value < |rows| && rows[r.value].id == id
    ensures r.None? <==> forall i :: 0 <= i < |rows| ==> rows[i].id != id
  {
    if rows == [] then None
    else if rows[0].id == id then Some(0)
    else
      var k := RowIndex(rows[1..], id);
      if k.Some? then Some(k.value + 1) else None
  }

  /** `.update(changes).eq('id', id)`: the change applied to that id's rows. */
  function MarkRead(rows: seq<StoredConsultation>, id: string): (r: seq<StoredConsultation>)
    ensures |r| == |rows|
    ensures forall i :: 0 <= i < |rows| ==> r[i] == if rows[i].id == id then rows[i].(isRead := true) else rows[i]
  {
    seq(|rows|, i requires 0 <= i < |rows| => if rows[i].id == id then rows[i].(isRead := true) else rows[i])
  }

  /** The status always, the memo only when one is given. */
  function SetStatus(rows: seq<StoredConsultation>, id: string, status: string, memo: Option<string>)
    : (r: seq<StoredConsultation>)
    ensures |r| == |rows|
    ensures forall i :: 0 <= i < |rows| && rows[i].id != id ==> r[i] == rows[i]
    ensures forall i :: 0 <= i < |rows| && rows[i].id == id ==>
      r[i] == rows[i].(status := Some(status), adminMemo := if memo.Some? then memo else rows[i].adminMemo)
  {
    seq(|rows|, i requires 0 <= i < |rows| =>
      if rows[i].id == id then rows[i].(status := Some(status), adminMemo := if memo.Some? then memo else rows[i].adminMemo)
      else rows[i])
  }

  function IdOf(row: StoredConsultation): string { row.id }

  /** The message the store gives when an insert reuses a primary key. */
  const DuplicateKey: string := "duplicate key value violates unique constraint"

  function IdIsNot(id: string): StoredConsultation -> bool {
    (row: StoredConsultation) => row.id != id
  }

  predicate IsConsultationStatus(s: string) {
    s == "pending" || s == "in_progress" || s == "resolved" || s == "closed"
  }

  class ConsultationTable {
    var rows: seq<StoredConsultation>

    /** `id` is the table's primary key: no two rows share it. */
    predicate Valid()
      reads this
    {
      DistinctKeys(rows, IdOf)
    }

    constructor()
      ensures rows == [] && Valid()
    {
      rows := [];
    }

    /** create: inserts the new row and returns it converted; a store error
        is re-thrown and inserts nothing, and so does an id that is already
        taken, which the store refuses as a duplicate key. */
    method Create(data: CreateConsultationData, id: string, nowMs: nat, storeError: Option<string>)
      returns (result: Result<Consultation>)
      requires Valid()
      modifies this
      ensures Valid()
      ensures storeError.Some? ==> result == Err(storeError.value) && rows == old(rows)
      ensures storeError.None? && RowIndex(old(rows), id).Some? ==>
        result == Err(DuplicateKey) && rows == old(rows)
      ensures storeError.None? && RowIndex(old(rows), id).None? ==>
        rows == old(rows) + [NewRow(data, id, nowMs)] && result == Ok(Convert(NewRow(data, id, nowMs)))
    {
      if storeError.Some? {
        return Err(storeError.value);
      }
      if RowIndex(rows, id).Some? {
        return Err(DuplicateKey);
      }
      var row := NewRow(data, id, nowMs);
      rows := rows + [row];
      result := Ok(Convert(row));
    }

    /** getAll: every record, newest first. */
    method GetAll(storeError: Option<string>) returns (result: Result<seq<Consultation>>)
      ensures storeError.Some? ==> result == Err(storeError.value)
      ensures storeError.None? ==>
        result.Ok? && multiset(result.value) == multiset(ConvertAll(rows)) && SortedDesc(result.value, CreatedAtOf)
    {
      if storeError.Some? {
        return Err(storeError.value);
      }
      result := Ok(SortDesc(ConvertAll(rows), CreatedAtOf));
    }

    /** getUnread: the unread records, newest first. */
    method GetUnread(storeError: Option<string>) returns (result: Result<seq<Consultation>>)
      ensures storeError.Some? ==> result == Err(storeError.value)
      ensures storeError.None? ==>
        result.Ok? && multiset(result.value) == multiset(ConvertAll(Filter(rows, Unread)))
        && SortedDesc(result.value, CreatedAtOf)
    {
      if storeError.Some? {
        return Err(storeError.value);
      }
      result := Ok(SortDesc(ConvertAll(Filter(rows, Unread)), CreatedAtOf));
    }

    /** markAsRead: that id's rows become read. */
    method MarkAsRead(id: string, storeError: Option<string>) returns (result: Result<()>)
      requires Valid()
      modifies this
      ensures Valid()
      ensures storeError.Some? ==> result == Err(storeError.value) && rows == old(rows)
      ensures storeError.None? ==> result.Ok? && rows == MarkRead(old(rows), id)
    {
      if storeError.Some? {
        return Err(storeError.value);
      }
      rows := MarkRead(rows, id);
      result := Ok(());
    }

    /** updateStatus: writes the status, and the memo when one is given. */
    method UpdateStatus(id: string, status: string, memo: Option<string>, storeError: Option<string>)
      returns (result: Result<()>)
      requires IsConsultationStatus(status)
      requires Valid()
      modifies this
      ensures Valid()
      ensures storeError.Some? ==> result == Err(storeError.value) && rows == old(rows)
      ensures storeError.None? ==> result.Ok? && rows == SetStatus(old(rows), id, status, memo)
    {
      if storeError.Some? {
        return Err(storeError.value);
      }
      rows := SetStatus(rows, id, status, memo);
      result := Ok(());
    }

    /** getById: the record with that id, which is the only one since ids
        are distinct; not found (PGRST116) is null, any other error is
        re-thrown. */
    method GetById(id: string, storeError: Option<string>) returns (result: Result<Option<Consultation>>)
      requires Valid()
      ensures storeError.Some? ==> result == Err(storeError.value)
      ensures storeError.None? ==> result.Ok?
      ensures result.Ok? ==> (result.value.None? <==> forall i :: 0 <= i < |rows| ==> rows[i].id != id)
      ensures result.Ok? && result.value.Some? ==>
        exists i :: 0 <= i < |rows| && rows[i].id == id && result.value.value == Convert(rows[i])
      ensures result.Ok? && result.value.Some? ==>
        forall i :: 0 <= i < |rows| && rows[i].id == id ==> result.value.value == Convert(rows[i])
    {
      if storeError.Some? {
        return Err(storeError.value);
      }
      var k := RowIndex(rows, id);
      if k.None? {
        return Ok(None);
      }
      result := Ok(Some(Convert(rows[k.value])));
    }

    /** delete: removes that id's rows. */
    method Delete(id: string, storeError: Option<string>) returns (result: Result<()>)
      requires Valid()
      modifies this
      ensures Valid()
      ensures storeError.Some? ==> result == Err(storeError.value) && rows == old(rows)
      ensures storeError.None? ==> result.Ok? && rows == Filter(old(rows), IdIsNot(id))
    {
      if storeError.Some? {
        return Err(storeError.value);
      }
      FilterKeepsDistinctKeys(rows, IdIsNot(id), IdOf);
      rows := Filter(rows, IdIsNot(id));
      result := Ok(());
    }
  }

  /** After markAsRead the row no longer counts as unread, and every other
      unread row still does. */
  lemma MarkAsReadLeavesUnread(rows: seq<StoredConsultation>, id: string, row: StoredConsultation)
    ensures row in Filter(MarkRead(rows, id), Unread) <==> row in rows && row.id != id && !row.isRead
  {
    FilterMembership(MarkRead(rows, id), Unread, row);
    if row in rows && row.id != id && !row.isRead {
      var i :| 0 <= i < |rows| && rows[i] == row;
      assert MarkRead(rows, id)[i] == row;
    }
  }

  /** Without a memo only the status changes: the stored memo is kept. */
  lemma UpdateWithoutMemoKeepsMemo(rows: seq<StoredConsultation>, id: string, status: string, i: nat)
    requires i < |rows|
    ensures SetStatus(rows, id, status, None)[i].adminMemo == rows[i].adminMemo
    ensures rows[i].id == id && status != "" ==> Convert(SetStatus(rows, id, status, None)[i]).status == status
  {
  }
}
