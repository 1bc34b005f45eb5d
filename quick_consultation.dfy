// The quick consultation form (src/components/ui/QuickConsultationModal.tsx):
// five required answers, the Korean consultation type mapped to the
// store's type, and the request filed as a consultation.
module QuickConsultation {
  import opened Wrappers
  import ConsultationService

  datatype QuickField = CustomerName | CustomerPhone | CustomerEmail | ConsultationType | Content

  datatype QuickForm = QuickForm(
    customerName: string,
    customerPhone: string,
    customerEmail: string,
    consultationType: string,
    content: string)

  const EmptyForm: QuickForm := QuickForm("", "", "", "", "")

  /** The choices of the type selector. */
  const ConsultationTypes: seq<string> := ["일반문의", "예약문의", "기술문의", "불만접수"]

  const Subject: string := "렌터카 상담 신청"
  const RequiredMissing: string := "모든 필수 항목을 입력해주세요."
  const Submitted: string := "상담 신청이 완료되었습니다.\n빠른 시일 내에 연락드리겠습니다."
  const SubmitFailed: string := "상담 신청 중 오류가 발생했습니다. 다시 시도해주세요."

  /** `{ ...prev, [field]: value }` */
  function WithField(f: QuickForm, field: QuickField, value: string): QuickForm {
    match field
    case CustomerName => f.(customerName := value)
    case CustomerPhone => f.(customerPhone := value)
    case CustomerEmail => f.(customerEmail := value)
    case ConsultationType => f.(consultationType := value)
    case Content => f.(content := value)
  }

  function FieldValue(f: QuickForm, field: QuickField): string {
    match field
    case CustomerName => f.customerName
    case CustomerPhone => f.customerPhone
    case CustomerEmail => f.customerEmail
    case ConsultationType => f.consultationType
    case Content => f.content
  }

  lemma WithFieldOnlyThatField(f: QuickForm, field: QuickField, value: string, other: QuickField)
    ensures FieldValue(WithField(f, field, value), field) == value
    ensures other != field ==> FieldValue(WithField(f, field, value), other) == FieldValue(f, other)
  {
  }

  /** Every answer is required (an empty string is falsy; whitespace is
      not checked). */
  predicate Complete(f: QuickForm) {
    forall field: QuickField :: FieldValue(f, field) != ""
  }

  /** getConsultationType */
  function StoreType(koreanType: string): (t: string)
    ensures t in {"general", "booking", "technical", "complaint"}
  {
    match koreanType
    case "일반문의" => "general"
    case "예약문의" => "booking"
    case "기술문의" => "technical"
    case "불만접수" => "complaint"
    case _ => "general"
  }

  /** The four choices map to four different types, 일반문의 to general, and
      anything outside the selector falls back to general. */
  lemma StoreTypeMapping(a: string, b: string)
    ensures a in ConsultationTypes && b in ConsultationTypes && a != b ==> StoreType(a) != StoreType(b)
    ensures a !in ConsultationTypes ==> StoreType(a) == StoreType("일반문의") == "general"
    ensures StoreType("예약문의") == "booking" && StoreType("기술문의") == "technical"
      && StoreType("불만접수") == "complaint"
  {
  }

  /** Every type the store can receive from here is reached by exactly one
      selector choice. */
  lemma StoreTypeOnto(t: string)
    requires t in {"general", "booking", "technical", "complaint"}
    ensures exists k :: k in ConsultationTypes && StoreType(k) == t
  {
    if t == "general" { assert StoreType(ConsultationTypes[0]) == t; }
    else if t == "booking" { assert StoreType(ConsultationTypes[1]) == t; }
    else if t == "technical" { assert StoreType(ConsultationTypes[2]) == t; }
    else { assert StoreType(ConsultationTypes[3]) == t; }
  }

  /** The consultation the form files: the answers, the mapped type, the
      fixed subject, and no rental details. */
  function Request(f: QuickForm): (d: ConsultationService.CreateConsultationData)
    ensures d.kind == Some(StoreType(f.consultationType)) && d.subject == Subject
    ensures d.customerName == f.customerName && d.customerPhone == f.customerPhone
      && d.customerEmail == f.customerEmail && d.content == f.content
    ensures d.rentalStartDate.None? && d.rentalEndDate.None? && d.preferredVehicle.None?
  {
    ConsultationService.CreateConsultationData(f.customerName, f.customerPhone, f.customerEmail,
      Some(StoreType(f.consultationType)), Subject, f.content, None, None, None)
  }

  class QuickConsultationState {
    var isSubmitting: bool
    var form: QuickForm

    constructor()
      ensures !isSubmitting && form == EmptyForm
    {
      isSubmitting := false;
      form := EmptyForm;
    }

    method HandleInputChange(field: QuickField, value: string)
      modifies this
      ensures form == WithField(old(form), field, value) && isSubmitting == old(isSubmitting)
    {
      form := WithField(form, field, value);
    }

    /** handleSubmit: an incomplete form only raises the alert; otherwise
        the request is filed, and on success the form is cleared and the
        modal closed, on failure the answers stay. Submitting ends false. */
    method HandleSubmit(table: ConsultationService.ConsultationTable, id: string, nowMs: nat,
                        storeError: Option<string>)
      returns (alert: string, closed: bool)
      requires table.Valid()
      modifies this, table
      ensures table.Valid()
      ensures !Complete(old(form)) ==>
        alert == RequiredMissing && !closed && form == old(form) && table.rows == old(table.rows)
        && isSubmitting == old(isSubmitting)
      ensures Complete(old(form)) ==> !isSubmitting
      ensures Complete(old(form)) && storeError.None? && ConsultationService.RowIndex(old(table.rows), id).None? ==>
        table.rows == old(table.rows) + [ConsultationService.NewRow(Request(old(form)), id, nowMs)]
        && alert == Submitted && closed && form == EmptyForm
      ensures Complete(old(form)) && (storeError.Some? || ConsultationService.RowIndex(old(table.rows), id).Some?) ==>
        table.rows == old(table.rows) && alert == SubmitFailed && !closed && form == old(form)
    {
      if form.customerName == "" || form.customerPhone == "" || form.customerEmail == ""
         || form.consultationType == "" || form.content == "" {
        assert FieldValue(form, if form.customerName == "" then CustomerName
          else if form.customerPhone == "" then CustomerPhone
          else if form.customerEmail == "" then CustomerEmail
          else if form.consultationType == "" then ConsultationType else Content) == "";
        return RequiredMissing, false;
      }
      isSubmitting := true;
      var result := table.Create(Request(form), id, nowMs, storeError);
      if result.Ok? {
        alert := Submitted;
        form := EmptyForm;
        closed := true;
      } else {
        alert := SubmitFailed;
        closed := false;
      }
      isSubmitting := false;
    }
  }

  /** A filed quick request carries no rental details and is stored pending
      with the mapped type. */
  lemma FiledRequest(f: QuickForm, id: string, nowMs: nat)
    ensures var c := ConsultationService.Convert(ConsultationService.NewRow(Request(f), id, nowMs));
      c.kind == Some(StoreType(f.consultationType)) && c.status == "pending"
      && c.rentalStartDate.None? && c.rentalEndDate.None? && c.preferredVehicle.None?
  {
    var row := ConsultationService.NewRow(Request(f), id, nowMs);
    ConsultationService.CreatedRecord(Request(f), id, nowMs);
    assert row.kind == Some(StoreType(f.consultationType)) && row.rentalStartDate.None?;
  }
}
