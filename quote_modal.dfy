// The three-step quote request form (src/components/ui/QuoteModal.tsx): the
// step, the submitting flag and the form as a class whose methods are the
// form's handlers. Submitting files the request as a 'booking' consultation
// whose content lays the answers out section by section.
module QuoteModal {
  import opened Wrappers
  import opened Text
  import opened Seqs
  import ConsultationService

  datatype QuoteField =
    | CustomerName | CustomerPhone | CustomerEmail | RentalStartDate | RentalEndDate
    | PickupLocation | ReturnLocation | PreferredVehicle | Passengers | SpecialRequests | BudgetRange

  datatype QuoteForm = QuoteForm(
    customerName: string,
    customerPhone: string,
    customerEmail: string,
    rentalStartDate: string,
    rentalEndDate: string,
    pickupLocation: string,
    returnLocation: string,
    preferredVehicle: string,
    passengers: string,
    additionalOptions: seq<string>,
    specialRequests: string,
    budgetRange: string)

  const EmptyForm: QuoteForm := QuoteForm("", "", "", "", "", "", "", "", "", [], "", "")

  /** The option buttons offered on the third step. */
  const AdditionalOptions: seq<string> := ["내비게이션", "하이패스", "블랙박스", "아이카시트", "부스터시트",
    "스키랙", "자전거랙", "추가운전자", "완전자차보험", "해외운전면허"]

  const Subject: string := "렌터카 견적 문의"
  const Submitted: string := "견적 문의가 성공적으로 접수되었습니다.\n담당자가 24시간 내에 연락드리겠습니다."
  const SubmitFailed: string := "견적 문의 제출 중 오류가 발생했습니다. 다시 시도해주세요."
  const Nothing: string := "없음"

  /** `{ ...prev, [field]: value }` */
  function WithField(f: QuoteForm, field: QuoteField, value: string): QuoteForm {
    match field
    case CustomerName => f.(customerName := value)
    case CustomerPhone => f.(customerPhone := value)
    case CustomerEmail => f.(customerEmail := value)
    case RentalStartDate => f.(rentalStartDate := value)
    case RentalEndDate => f.(rentalEndDate := value)
    case PickupLocation => f.(pickupLocation := value)
    case ReturnLocation => f.(returnLocation := value)
    case PreferredVehicle => f.(preferredVehicle := value)
    case Passengers => f.(passengers := value)
    case SpecialRequests => f.(specialRequests := value)
    case BudgetRange => f.(budgetRange := value)
  }

  function FieldValue(f: QuoteForm, field: QuoteField): string {
    match field
    case CustomerName => f.customerName
    case CustomerPhone => f.customerPhone
    case CustomerEmail => f.customerEmail
    case RentalStartDate => f.rentalStartDate
    case RentalEndDate => f.rentalEndDate
    case PickupLocation => f.pickupLocation
    case ReturnLocation => f.returnLocation
    case PreferredVehicle => f.preferredVehicle
    case Passengers => f.passengers
    case SpecialRequests => f.specialRequests
    case BudgetRange => f.budgetRange
  }

  /** Setting a field changes that field and no other, options included. */
  lemma WithFieldOnlyThatField(f: QuoteForm, field: QuoteField, value: string, other: QuoteField)
    ensures FieldValue(WithField(f, field, value), field) == value
    ensures other != field ==> FieldValue(WithField(f, field, value), other) == FieldValue(f, other)
    ensures WithField(f, field, value).additionalOptions == f.additionalOptions
  {
  }

  // ---- options -------------------------------------------------------------

  function IsNot(option: string): string -> bool {
    (o: string) => o != option
  }

  /** handleOptionToggle: a chosen option is removed (every copy of it), an
      unchosen one is appended. */
  function ToggleOption(options: seq<string>, option: string): (r: seq<string>)
    ensures option in r <==> option !in options
    ensures forall o :: o != option ==> (o in r <==> o in options)
  {
    if option in options then
      FilterMembership(options, IsNot(option), option);
      forall o | o != option
        ensures o in Filter(options, IsNot(option)) <==> o in options
      {
        FilterMembership(options, IsNot(option), o);
      }
      Filter(options, IsNot(option))
    else options + [option]
  }

  /** Choosing an option and then un-choosing it leaves the choice as it
      was. */
  lemma ToggleTwiceRestores(options: seq<string>, option: string)
    requires option !in options
    ensures ToggleOption(ToggleOption(options, option), option) == options
  {
    FilterConcat(options, [option], IsNot(option));
    FilterKeepsAll(options, IsNot(option));
  }

  /** Toggling never lists an option twice. */
  lemma ToggleKeepsDistinct(options: seq<string>, option: string)
    requires Distinct(options)
    ensures Distinct(ToggleOption(options, option))
  {
    if option in options {
      FilterDistinct(options, IsNot(option));
    }
  }

  // ---- the request text ----------------------------------------------------

  /** The options line: the choices joined with ", ", or '없음'. */
  function OptionsText(options: seq<string>): string {
    if |options| > 0 then Join(options, ", ") else Nothing
  }

  lemma JoinStartsWithFirst(parts: seq<string>, sep: string)
    requires parts != []
    ensures |Join(parts, sep)| >= |parts[0]|
  {
  }

  /** '없음' is shown exactly when nothing is chosen (no offered option
      reads '없음'). */
  lemma OptionsTextNone(options: seq<string>)
    requires forall i :: 0 <= i < |options| ==> options[i] in AdditionalOptions
    ensures OptionsText(options) == Nothing <==> options == []
  {
    if options != [] {
      JoinStartsWithFirst(options, ", ");
      assert |options[0]| >= 3;
    }
  }

  /** `special_requests || '없음'` */
  function RequestsText(s: string): (r: string)
    ensures r != []
    ensures s != [] ==> r == s
  {
    if s == "" then Nothing else s
  }

  const Header: string := "견적 문의 상세정보:"

  /** The request text between the template's opening newline and its
      closing indentation: the header line, then the details. */
  function Body(f: QuoteForm): (b: string)
    ensures |b| > |Header| && b[..|Header|] == Header
    ensures var r := RequestsText(f.specialRequests); b[|b| - 1] == r[|r| - 1]
  {
    Header + Details(f)
  }

  /** The four sections of the request, the special requests last. */
  function Details(f: QuoteForm): (d: string)
    ensures var r := RequestsText(f.specialRequests); |d| > 0 && d[|d| - 1] == r[|r| - 1]
  {
    "\n\n【대여 정보】\n• 대여일: " + f.rentalStartDate
    + "\n• 반납일: " + f.rentalEndDate
    + "\n• 대여지: " + f.pickupLocation
    + "\n• 반납지: " + f.returnLocation
    + "\n\n【차량 정보】\n• 희망차종: " + f.preferredVehicle
    + "\n• 탑승인원: " + f.passengers
    + "명\n• 예산범위: " + f.budgetRange
    + "\n\n【추가 옵션】\n" + OptionsText(f.additionalOptions)
    + "\n\n【특별 요청사항】\n" + RequestsText(f.specialRequests)
  }

  const Indent: string := "\n        "

  lemma IndentIsBlank()
    ensures IsBlank(Indent)
  {
    forall i | 0 <= i < |Indent|
      ensures IsJsSpace(Indent[i])
    {
      assert Indent[i] == '\n' || Indent[i] == ' ';
    }
  }

  /** The submitted content: the template literal, trimmed. */
  function QuoteContent(f: QuoteForm): string {
    Trim("\n" + Body(f) + Indent)
  }

  /** The content always opens with the header line; and when the special
      requests do not end in whitespace, trimming removes exactly the
      template's opening newline and closing indentation, so the content
      ends with the requests (or '없음'). */
  lemma QuoteContentShape(f: QuoteForm)
    ensures |QuoteContent(f)| >= |Header| && QuoteContent(f)[..|Header|] == Header
    ensures !IsJsSpace(RequestsText(f.specialRequests)[|RequestsText(f.specialRequests)| - 1]) ==>
      QuoteContent(f) == Body(f)
  {
    TemplateTrim(Body(f));
  }

  /** Trimming the template around a text that opens with the header. */
  lemma TemplateTrim(b: string)
    requires |b| > |Header| && b[..|Header|] == Header
    ensures var t := Trim("\n" + b + Indent); |t| >= |Header| && t[..|Header|] == Header
    ensures !IsJsSpace(b[|b| - 1]) ==> Trim("\n" + b + Indent) == b
  {
    TemplateTrimStart(b);
    assert (b + Indent)[..|Header|] == Header;
    HeaderKept(b + Indent);
    if !IsJsSpace(b[|b| - 1]) {
      IndentTrimmed(b);
    }
  }

  lemma HeaderKept(s: string)
    requires |s| >= |Header| && s[..|Header|] == Header
    ensures |TrimEnd(s)| >= |Header| && TrimEnd(s)[..|Header|] == Header
  {
    TrimEndKeeps(s, |Header| - 1);
  }

  lemma IndentTrimmed(b: string)
    requires b != [] && !IsJsSpace(b[|b| - 1])
    ensures TrimEnd(b + Indent) == b
  {
    IndentIsBlank();
    TrimEndBlankTail(b, Indent);
  }

  /** The opening newline is the only whitespace trimmed at the start. */
  lemma TemplateTrimStart(b: string)
    requires |b| > |Header| && b[..|Header|] == Header
    ensures Trim("\n" + b + Indent) == TrimEnd(b + Indent)
  {
    var bi := b + Indent;
    assert "\n" + b + Indent == "\n" + bi;
    assert bi[0] == Header[0];
    TrimStartNewline(bi);
  }

  /** The consultation the form files. */
  function Request(f: QuoteForm): (d: ConsultationService.CreateConsultationData)
    ensures d.kind == Some("booking") && d.subject == Subject
    ensures d.customerName == f.customerName && d.customerPhone == f.customerPhone
      && d.customerEmail == f.customerEmail
    ensures d.rentalStartDate == Some(f.rentalStartDate) && d.rentalEndDate == Some(f.rentalEndDate)
      && d.preferredVehicle == Some(f.preferredVehicle)
  {
    ConsultationService.CreateConsultationData(f.customerName, f.customerPhone, f.customerEmail,
      Some("booking"), Subject, QuoteContent(f),
      Some(f.rentalStartDate), Some(f.rentalEndDate), Some(f.preferredVehicle))
  }

  // ---- steps ---------------------------------------------------------------

  /** `Math.min(prev + 1, 3)` */
  function NextStep(step: int): (n: int)
    ensures step < 3 ==> n == step + 1
    ensures step >= 3 ==> n == 3
  {
    if step + 1 < 3 then step + 1 else 3
  }

  /** `Math.max(prev - 1, 1)` */
  function PrevStep(step: int): (n: int)
    ensures step > 1 ==> n == step - 1
    ensures step <= 1 ==> n == 1
  {
    if step - 1 > 1 then step - 1 else 1
  }

  /** Both moves stay within the three steps and undo each other away from
      the ends. */
  lemma StepsInverse(step: int)
    requires 1 <= step <= 3
    ensures 1 <= NextStep(step) <= 3 && 1 <= PrevStep(step) <= 3
    ensures step < 3 ==> PrevStep(NextStep(step)) == step
    ensures step > 1 ==> NextStep(PrevStep(step)) == step
  {
  }

  /** isStep1Valid: name, phone and email are filled in. */
  predicate Step1Valid(f: QuoteForm) {
    f.customerName != "" && f.customerPhone != "" && f.customerEmail != ""
  }

  /** isStep2Valid: dates, pick-up place and vehicle are filled in; the
      return place is not required. */
  predicate Step2Valid(f: QuoteForm) {
    f.rentalStartDate != "" && f.rentalEndDate != "" && f.pickupLocation != "" && f.preferredVehicle != ""
  }

  /** The "next" button is disabled on a step whose answers are missing. */
  predicate NextDisabled(step: int, f: QuoteForm) {
    (step == 1 && !Step1Valid(f)) || (step == 2 && !Step2Valid(f))
  }

  /** "Previous" is shown past the first step; "next" before the last, in
      place of "submit". */
  predicate ShowsPrevious(step: int) { step > 1 }
  predicate ShowsNext(step: int) { step < 3 }

  /** Reaching the last step through the buttons means both earlier steps
      were filled in at the time they were left. */
  lemma ButtonsGuardSteps(f: QuoteForm, step: int)
    requires 1 <= step <= 2 && ShowsNext(step) && !NextDisabled(step, f)
    ensures step == 1 ==> Step1Valid(f) && NextStep(step) == 2
    ensures step == 2 ==> Step2Valid(f) && NextStep(step) == 3
  {
  }

  class QuoteModalState {
    var step: int
    var isSubmitting: bool
    var form: QuoteForm

    /** The state the handlers keep: a step among the three, and no option
        listed twice. */
    predicate Valid()
      reads this
    {
      1 <= step <= 3 && Distinct(form.additionalOptions)
    }

    constructor()
      ensures Valid() && step == 1 && !isSubmitting && form == EmptyForm
    {
      step := 1;
      isSubmitting := false;
      form := EmptyForm;
    }

    method HandleInputChange(field: QuoteField, value: string)
      requires Valid()
      modifies this
      ensures Valid()
      ensures form == WithField(old(form), field, value)
      ensures step == old(step) && isSubmitting == old(isSubmitting)
    {
      form := WithField(form, field, value);
    }

    method HandleOptionToggle(option: string)
      requires Valid()
      modifies this
      ensures Valid()
      ensures form == old(form).(additionalOptions := ToggleOption(old(form).additionalOptions, option))
      ensures step == old(step) && isSubmitting == old(isSubmitting)
    {
      ToggleKeepsDistinct(form.additionalOptions, option);
      form := form.(additionalOptions := ToggleOption(form.additionalOptions, option));
    }

    /** A click on "next": nothing while it is disabled. */
    method ClickNext()
      requires Valid() && ShowsNext(step)
      modifies this
      ensures Valid()
      ensures step == if NextDisabled(old(step), old(form)) then old(step) else NextStep(old(step))
      ensures form == old(form) && isSubmitting == old(isSubmitting)
    {
      if !NextDisabled(step, form) {
        step := NextStep(step);
      }
    }

    method ClickPrevious()
      requires Valid() && ShowsPrevious(step)
      modifies this
      ensures Valid()
      ensures step == PrevStep(old(step)) == old(step) - 1
      ensures form == old(form) && isSubmitting == old(isSubmitting)
    {
      step := PrevStep(step);
    }

    /** handleSubmit: files the request; on success the form is cleared,
        the first step shown and the modal closed; on failure the answers
        stay. Either way an alert is shown and submitting ends. */
    method HandleSubmit(table: ConsultationService.ConsultationTable, id: string, nowMs: nat,
                        storeError: Option<string>)
      returns (alert: string, closed: bool)
      requires Valid()
      requires table.Valid()
      modifies this, table
      ensures table.Valid()
      ensures Valid() && !isSubmitting
      ensures storeError.None? && ConsultationService.RowIndex(old(table.rows), id).None? ==>
        table.rows == old(table.rows) + [ConsultationService.NewRow(Request(old(form)), id, nowMs)]
        && alert == Submitted && closed && form == EmptyForm && step == 1
      ensures (storeError.Some? || ConsultationService.RowIndex(old(table.rows), id).Some?) ==>
        table.rows == old(table.rows) && alert == SubmitFailed && !closed
        && form == old(form) && step == old(step)
    {
      isSubmitting := true;
      var result := table.Create(Request(form), id, nowMs, storeError);
      if result.Ok? {
        alert := Submitted;
        form := EmptyForm;
        step := 1;
        closed := true;
      } else {
        alert := SubmitFailed;
        closed := false;
      }
      isSubmitting := false;
    }
  }

  /** A filed quote request is a pending 'booking' consultation whose
      content starts with the header line. */
  lemma FiledQuote(f: QuoteForm, id: string, nowMs: nat)
    ensures var c := ConsultationService.Convert(ConsultationService.NewRow(Request(f), id, nowMs));
      c.kind == Some("booking") && c.status == "pending" && c.subject == Subject
      && |c.content| >= |Header| && c.content[..|Header|] == Header
  {
    var row := ConsultationService.NewRow(Request(f), id, nowMs);
    ConsultationService.CreatedRecord(Request(f), id, nowMs);
    ConsultationService.ConvertNormalises(row);
    assert row.content == QuoteContent(f) && row.kind == Some("booking");
    QuoteContentShape(f);
  }
}
