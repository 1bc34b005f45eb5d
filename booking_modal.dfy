// The booking form (src/components/booking/BookingModal.tsx): its state
// (form fields, per-field errors, the submitting flag) as a class whose
// methods are the component's handlers, the field rules as predicates, and
// the price summary as integer arithmetic. Date fields hold the full-date
// strings the calendar writes, '' when unset, as in the source.
module BookingModal {
  import opened Wrappers
  import opened Text
  import opened Dates

  datatype Field =
    | VehicleId | CustomerName | CustomerPhone | CustomerEmail
    | StartDate | EndDate | StartTime | EndTime | Notes

  datatype BookingForm = BookingForm(
    vehicleId: string,
    customerName: string,
    customerPhone: string,
    customerEmail: string,
    startDate: string,
    endDate: string,
    startTime: string,
    endTime: string,
    notes: string)

  /** The form as it opens or is reset: starting today, no end date, the
      opening hours as times. */
  function InitialForm(today: CivilDate, vehicleId: string): BookingForm {
    BookingForm(vehicleId, "", "", "", FullDate(today), "", "09:00", "18:00", "")
  }

  /** `{ ...prev, [field]: value }` */
  function WithField(f: BookingForm, field: Field, value: string): BookingForm {
    match field
    case VehicleId => f.(vehicleId := value)
    case CustomerName => f.(customerName := value)
    case CustomerPhone => f.(customerPhone := value)
    case CustomerEmail => f.(customerEmail := value)
    case StartDate => f.(startDate := value)
    case EndDate => f.(endDate := value)
    case StartTime => f.(startTime := value)
    case EndTime => f.(endTime := value)
    case Notes => f.(notes := value)
  }

  function FieldValue(f: BookingForm, field: Field): string {
    match field
    case VehicleId => f.vehicleId
    case CustomerName => f.customerName
    case CustomerPhone => f.customerPhone
    case CustomerEmail => f.customerEmail
    case StartDate => f.startDate
    case EndDate => f.endDate
    case StartTime => f.startTime
    case EndTime => f.endTime
    case Notes => f.notes
  }

  /** Setting a field changes that field and no other. */
  lemma WithFieldOnlyThatField(f: BookingForm, field: Field, value: string, other: Field)
    ensures FieldValue(WithField(f, field, value), field) == value
    ensures other != field ==> FieldValue(WithField(f, field, value), other) == FieldValue(f, other)
  {
  }

  // ---- field rules ---------------------------------------------------------

  /** `/^[0-9-+\s()]*$/`: digits, '-', '+', whitespace and parentheses. */
  predicate PhoneChar(c: char) {
    IsDigit(c) || c == '-' || c == '+' || IsJsSpace(c) || c == '(' || c == ')'
  }

  predicate PhonePattern(s: string) {
    forall i :: 0 <= i < |s| ==> PhoneChar(s[i])
  }

  /** `[^\s@]+` without the length condition. */
  predicate NoSpaceNoAt(s: string) {
    forall i :: 0 <= i < |s| ==> !IsJsSpace(s[i]) && s[i] != '@'
  }

  /** `/^[^\s@]+@[^\s@]+\.[^\s@]+$/`: a non-empty local part, '@', and a
      domain with a '.' that has a character on each side; no whitespace
      and no other '@'. */
  predicate EmailPattern(s: string) {
    exists a, b :: 0 < a && a + 1 < b < |s| - 1 && s[a] == '@' && s[b] == '.'
      && NoSpaceNoAt(s[..a]) && NoSpaceNoAt(s[a + 1..])
  }

  /** A matching address has exactly one '@', and no whitespace. */
  lemma EmailPatternOneAt(s: string, k: nat)
    requires EmailPattern(s) && k < |s| && s[k] == '@'
    ensures forall i :: 0 <= i < |s| && i != k ==> s[i] != '@'
    ensures forall i :: 0 <= i < |s| ==> !IsJsSpace(s[i])
  {
    var a, b :| 0 < a && a + 1 < b < |s| - 1 && s[a] == '@' && s[b] == '.'
      && NoSpaceNoAt(s[..a]) && NoSpaceNoAt(s[a + 1..]);
    forall i | 0 <= i < |s| && i != a
      ensures s[i] != '@' && !IsJsSpace(s[i])
    {
      if i < a {
        assert s[..a][i] == s[i];
      } else {
        assert s[a + 1..][i - a - 1] == s[i];
      }
    }
  }

  lemma EmailExamples()
    ensures EmailPattern("kim@rent.kr")
    ensures !EmailPattern("kim@rent")
    ensures !EmailPattern("@rent.kr")
    ensures !EmailPattern("kim@.kr")
    ensures !EmailPattern("kim@rent.")
  {
    var s := "kim@rent.kr";
    assert s[..3] == "kim" && s[4..] == "rent.kr";
    assert s[3] == '@' && s[8] == '.';
    NoDotAfterAt();
    EmptyLocalPart();
    EmptyDomainLabel();
    TrailingDot();
  }

  lemma NoDotAfterAt()
    ensures !EmailPattern("kim@rent")
  {
    var s := "kim@rent";
    forall b | 0 <= b < |s|
      ensures s[b] != '.'
    {
    }
  }

  lemma EmptyLocalPart()
    ensures !EmailPattern("@rent.kr")
  {
    var s := "@rent.kr";
    forall a | 0 < a < |s|
      ensures s[a] != '@'
    {
    }
  }

  lemma EmptyDomainLabel()
    ensures !EmailPattern("kim@.kr")
  {
    var s := "kim@.kr";
    forall a, b | 0 < a && a + 1 < b < |s| - 1 && s[a] == '@'
      ensures s[b] != '.'
    {
      assert a == 3;
    }
  }

  lemma TrailingDot()
    ensures !EmailPattern("kim@rent.")
  {
    var s := "kim@rent.";
    forall b | 0 <= b < |s| - 1
      ensures s[b] != '.'
    {
    }
  }

  const NameRequired := "이름을 입력해주세요"
  const PhoneRequired := "연락처를 입력해주세요"
  const PhoneInvalid := "올바른 연락처 형식이 아닙니다"
  const EmailRequired := "이메일을 입력해주세요"
  const EmailInvalid := "올바른 이메일 형식이 아닙니다"
  const StartRequired := "대여 시작일을 선택해주세요"
  const EndRequired := "대여 종료일을 선택해주세요"
  const EndBeforeStart := "종료일은 시작일 이후여야 합니다"

  /** The end date is rejected when it is missing, or when both dates are
      set and the end compares below the start as a string. */
  predicate EndDateRejected(f: BookingForm) {
    f.endDate == "" || (f.startDate != "" && LexLess(f.endDate, f.startDate))
  }

  /** On full-dates the string test is the calendar test: the end is
      rejected iff it lies before the start, and the same day passes. */
  lemma EndDateRuleIsChronological(f: BookingForm, start: CivilDate, end: CivilDate)
    requires ValidDate(start) && ValidDate(end)
    requires f.startDate == FullDate(start) && f.endDate == FullDate(end)
    ensures EndDateRejected(f) <==> DayNumber(end) < DayNumber(start)
  {
    FullDateOrder(end, start);
    PaddedShape(start.year, 4);
    PaddedShape(end.year, 4);
  }

  /** The message validateForm records for each field, if any. Each test is
      the source's `!value.trim()` or pattern test. */
  function NameError(f: BookingForm): Option<string>
  {
    if Trim(f.customerName) == "" then Some(NameRequired) else None
  }

  function PhoneError(f: BookingForm): Option<string>
  {
    if Trim(f.customerPhone) == "" then Some(PhoneRequired)
    else if !PhonePattern(f.customerPhone) then Some(PhoneInvalid)
    else None
  }

  function EmailError(f: BookingForm): Option<string>
  {
    if Trim(f.customerEmail) == "" then Some(EmailRequired)
    else if !EmailPattern(f.customerEmail) then Some(EmailInvalid)
    else None
  }

  /** The name check fails iff the name is blank. */
  lemma NameErrorRule(f: BookingForm)
    ensures NameError(f).Some? <==> IsBlank(f.customerName)
    ensures NameError(f).Some? ==> NameError(f).value == NameRequired
  {
    TrimEmptyIffBlank(f.customerName);
  }

  /** The phone check fails iff the phone is blank or not phone-shaped; a
      blank phone is reported as missing. */
  lemma PhoneErrorRule(f: BookingForm)
    ensures PhoneError(f).Some? <==> IsBlank(f.customerPhone) || !PhonePattern(f.customerPhone)
    ensures PhoneError(f).Some? ==> PhoneError(f).value == (if IsBlank(f.customerPhone) then PhoneRequired else PhoneInvalid)
  {
    TrimEmptyIffBlank(f.customerPhone);
  }

  /** The email check fails iff the address is blank or does not match;
      a blank address is reported as missing. */
  lemma EmailErrorRule(f: BookingForm)
    ensures EmailError(f).Some? <==> IsBlank(f.customerEmail) || !EmailPattern(f.customerEmail)
    ensures EmailError(f).Some? ==> EmailError(f).value == (if IsBlank(f.customerEmail) then EmailRequired else EmailInvalid)
  {
    TrimEmptyIffBlank(f.customerEmail);
  }

  function StartError(f: BookingForm): (e: Option<string>)
    ensures e.Some? <==> f.startDate == ""
  {
    if f.startDate == "" then Some(StartRequired) else None
  }

  function EndError(f: BookingForm): (e: Option<string>)
    ensures e.Some? <==> EndDateRejected(f)
    ensures e.Some? ==> e.value == (if f.endDate == "" then EndRequired else EndBeforeStart)
  {
    if f.endDate == "" then Some(EndRequired)
    else if f.startDate != "" && LexLess(f.endDate, f.startDate) then Some(EndBeforeStart)
    else None
  }

  /** A blank phone or email is reported as missing, not as malformed: the
      two messages of a field never both apply. */
  lemma BlankIsMissingNotMalformed(f: BookingForm)
    requires IsBlank(f.customerPhone)
    ensures PhoneError(f) == Some(PhoneRequired)
  {
    PhoneErrorRule(f);
  }

  // ---- pricing ---------------------------------------------------------------

  /** calculateDays: the inclusive number of days between two parsed dates,
      at least 1; 1 when a date is missing or not a date (a NaN difference
      fails the `> 0` test). */
  function CalculateDays(startDate: string, endDate: string): (n: int)
    ensures n >= 1
    ensures (match (ParseFullDate(startDate), ParseFullDate(endDate))
      case (Some(s), Some(e)) => n == (if DayNumber(e) - DayNumber(s) + 1 > 0 then DayNumber(e) - DayNumber(s) + 1 else 1)
      case _ => n == 1)
  {
    if startDate != "" && endDate != "" then
      match (ParseFullDate(startDate), ParseFullDate(endDate))
      case (Some(s), Some(e)) =>
        var diffDays := DayNumber(e) - DayNumber(s) + 1;
        if diffDays > 0 then diffDays else 1
      case _ => 1
    else 1
  }

  /** For a start not after the end, the count is the number of days from
      the start to the end inclusive; an end before the start counts 1. */
  lemma CalculateDaysInclusive(s: CivilDate, e: CivilDate)
    requires ValidDate(s) && ValidDate(e)
    ensures DayNumber(s) <= DayNumber(e) ==> CalculateDays(FullDate(s), FullDate(e)) == DayNumber(e) - DayNumber(s) + 1
    ensures DayNumber(e) < DayNumber(s) ==> CalculateDays(FullDate(s), FullDate(e)) == 1
  {
    ParseFullDateInverse(s);
    ParseFullDateInverse(e);
    PaddedShape(s.year, 4);
    PaddedShape(e.year, 4);
  }

  /** calculateTotal: the daily rate times the day count; 0 without a rate
      (a rate of 0 is falsy too). */
  function CalculateTotal(dailyRate: Option<int>, startDate: string, endDate: string): (t: int)
    ensures dailyRate.None? || dailyRate.value == 0 ==> t == 0
    ensures dailyRate.Some? ==> t == dailyRate.value * CalculateDays(startDate, endDate)
  {
    if dailyRate.Some? && dailyRate.value != 0 then dailyRate.value * CalculateDays(startDate, endDate) else 0
  }

  /** `Math.round(x)`: the nearest integer, halves rounded up. */
  function Round(num: int, den: int): (r: int)
    requires den > 0
    ensures 2 * num - den < 2 * r * den <= 2 * num + den
  {
    (2 * num + den) / (2 * den)
  }

  /** `Math.round(total * 0.05)`: the 5% launch discount. */
  function Discount(total: int): int {
    Round(total * 5, 100)
  }

  /** `Math.round(total * 0.95)`: the amount shown as final, as written. */
  function FinalAmount(total: int): int {
    Round(total * 95, 100)
  }

  /** The final amount the summary evidently means: subtotal less discount. */
  function FinalAmountCorrected(total: int): (r: int)
    ensures r + Discount(total) == total
  {
    total - Discount(total)
  }

  /** The corrected final amount is the one shown, except when the subtotal
      is 10 modulo 20: there it is one won less. */
  lemma CorrectedDiffersOnlyOnTies(total: int)
    ensures total % 20 != 10 ==> FinalAmountCorrected(total) == FinalAmount(total)
    ensures total % 20 == 10 ==> FinalAmountCorrected(total) == FinalAmount(total) - 1
  {
    DiscountPlusFinal(total);
  }

  /** The two rounded amounts add up to the subtotal, except when the
      subtotal is 10 modulo 20: both halves then round up and the summary
      shows one won more than the subtotal. */
  lemma DiscountPlusFinal(total: int)
    ensures total % 20 != 10 ==> Discount(total) + FinalAmount(total) == total
    ensures total % 20 == 10 ==> Discount(total) + FinalAmount(total) == total + 1
  {
    var q, r := total / 20, total % 20;
    assert total == 20 * q + r;
    assert Discount(total) == (10 * total + 100) / 200;
    assert FinalAmount(total) == (190 * total + 100) / 200;
    if r < 10 {
      assert Discount(total) == q;
      assert 190 * total + 100 == 200 * (19 * q + r) + (100 - 10 * r);
      assert FinalAmount(total) == 19 * q + r;
    } else if r == 10 {
      assert Discount(total) == q + 1;
      assert FinalAmount(total) == 19 * q + 10;
    } else {
      assert 10 * total + 100 == 200 * (q + 1) + (10 * r - 100);
      assert Discount(total) == q + 1;
      assert 190 * total + 100 == 200 * (19 * q + r - 1) + (300 - 10 * r);
      assert FinalAmount(total) == 19 * q + r - 1;
    }
  }

  /** The smallest subtotal that shows the mismatch: 10 won gives a
      discount of 1 and a final amount of 10. */
  lemma DiscountMismatchExample()
    ensures Discount(10) == 1 && FinalAmount(10) == 10 && Discount(10) + FinalAmount(10) == 11
    ensures FinalAmountCorrected(10) == 9
  {
  }

  lemma June2024FullDates()
    ensures FullDate(CivilDate(2024, 6, 10)) == "2024-06-10"
    ensures FullDate(CivilDate(2024, 6, 12)) == "2024-06-12"
  {
    YearPadded();
    MonthDayPadded();
  }

  lemma YearPadded()
    ensures Padded(2024, 4) == "2024"
  {
    assert Decimal(20) == "20";
    assert Decimal(202) == "202";
    assert Decimal(2024) == "2024";
  }

  lemma MonthDayPadded()
    ensures Padded(6, 2) == "06" && Padded(10, 2) == "10" && Padded(12, 2) == "12"
  {
    assert Decimal(10) == "10" && Decimal(12) == "12";
  }

  /** The summary for a 70000 won car from 10 to 12 June of a year (for
      2024 the dates read "2024-06-10" and "2024-06-12"): 3 days, 210000
      won, a 10500 won discount and 199500 won to pay. */
  lemma PriceExample(year: nat)
    requires year <= 9999
    ensures var start, end := FullDate(CivilDate(year, 6, 10)), FullDate(CivilDate(year, 6, 12));
      CalculateDays(start, end) == 3
      && CalculateTotal(Some(70000), start, end) == 210000
      && Discount(210000) == 10500 && FinalAmount(210000) == 199500
      && FinalAmountCorrected(210000) == 199500
  {
    var s, e := CivilDate(year, 6, 10), CivilDate(year, 6, 12);
    assert DayNumber(e) == DayNumber(s) + 2;
    CalculateDaysInclusive(s, e);
  }

  // ---- the component state ---------------------------------------------------

  /** The `errors` object: a message per validated field, if any. */
  datatype FormErrors = FormErrors(
    customerName: Option<string>,
    customerPhone: Option<string>,
    customerEmail: Option<string>,
    startDate: Option<string>,
    endDate: Option<string>)

  const NoErrors := FormErrors(None, None, None, None, None)

  /** The errors object validateForm builds: each check's message, or
      nothing where the field passes. */
  function Errors(f: BookingForm): FormErrors {
    FormErrors(NameError(f), PhoneError(f), EmailError(f), StartError(f), EndError(f))
  }

  /** `errors[field]` */
  function ErrorOf(e: FormErrors, field: Field): Option<string> {
    match field
    case CustomerName => e.customerName
    case CustomerPhone => e.customerPhone
    case CustomerEmail => e.customerEmail
    case StartDate => e.startDate
    case EndDate => e.endDate
    case _ => None
  }

  /** `{ ...prev, [field]: undefined }` */
  function ClearError(e: FormErrors, field: Field): (r: FormErrors)
    ensures ErrorOf(r, field) == None
    ensures forall other :: other != field ==> ErrorOf(r, other) == ErrorOf(e, other)
  {
    match field
    case CustomerName => e.(customerName := None)
    case CustomerPhone => e.(customerPhone := None)
    case CustomerEmail => e.(customerEmail := None)
    case StartDate => e.(startDate := None)
    case EndDate => e.(endDate := None)
    case _ => e
  }

  class BookingModalState {
    var form: BookingForm
    var errors: FormErrors
    var isSubmitting: bool

    constructor(today: CivilDate)
      ensures form == InitialForm(today, "") && errors == NoErrors && !isSubmitting
    {
      form := InitialForm(today, "");
      errors := NoErrors;
      isSubmitting := false;
    }

    /** The reset when the modal closes: the initial form for the shown
        vehicle, no errors, not submitting. */
    method Close(today: CivilDate, vehicleId: string)
      modifies this
      ensures form == InitialForm(today, vehicleId) && errors == NoErrors && !isSubmitting
    {
      form := InitialForm(today, vehicleId);
      errors := NoErrors;
      isSubmitting := false;
    }

    /** handleInputChange: stores the value and clears that field's error
        only. */
    method HandleInputChange(field: Field, value: string)
      modifies this
      ensures form == WithField(old(form), field, value)
      ensures ErrorOf(errors, field) == None
      ensures forall other :: other != field ==> ErrorOf(errors, other) == ErrorOf(old(errors), other)
      ensures isSubmitting == old(isSubmitting)
    {
      form := WithField(form, field, value);
      if ErrorOf(errors, field).Some? {
        errors := ClearError(errors, field);
      }
    }

    /** validateForm: records one message per failing field and reports
        whether none failed. */
    method ValidateForm() returns (valid: bool)
      modifies this
      ensures form == old(form) && isSubmitting == old(isSubmitting)
      ensures errors == Errors(form)
      ensures valid <==> errors == NoErrors
    {
      var f := form;
      var name, phone, email, start, end :=
        NameError(f), PhoneError(f), EmailError(f), StartError(f), EndError(f);
      errors := FormErrors(name, phone, email, start, end);
      valid := name.None? && phone.None? && email.None? && start.None? && end.None?;
    }

    /** handleSubmit: the form is passed on only when it validates; after
        the attempt the modal is closed if the submission succeeded, and it
        is no longer submitting either way. */
    method HandleSubmit(submitOk: bool) returns (submitted: Option<BookingForm>, closed: bool)
      modifies this
      ensures form == old(form)
      ensures errors == Errors(old(form))
      ensures submitted.Some? ==> !isSubmitting
      ensures submitted.None? ==> isSubmitting == old(isSubmitting)
      ensures submitted.Some? <==> errors == NoErrors
      ensures submitted.Some? <==> FormValid(old(form))
      ensures submitted.Some? ==> submitted.value == form
      ensures closed <==> submitted.Some? && submitOk
    {
      NoErrorsIffValid(form);
      var valid := ValidateForm();
      if !valid {
        return None, false;
      }
      isSubmitting := true;
      submitted := Some(form);
      closed := submitOk;
      isSubmitting := false;
    }
  }

  /** A form passes validation iff every field rule holds. */
  predicate FormValid(f: BookingForm) {
    !IsBlank(f.customerName) && !IsBlank(f.customerPhone) && PhonePattern(f.customerPhone)
    && !IsBlank(f.customerEmail) && EmailPattern(f.customerEmail)
    && f.startDate != "" && !EndDateRejected(f)
  }

  /** validateForm reports no errors exactly for the forms satisfying every
      field rule. */
  lemma NoErrorsIffValid(f: BookingForm)
    ensures Errors(f) == NoErrors <==> FormValid(f)
  {
    NameErrorRule(f);
    PhoneErrorRule(f);
    EmailErrorRule(f);
  }

  /** The freshly opened form never validates: name, phone, email and end
      date are still empty. */
  lemma InitialFormInvalid(today: CivilDate, vehicleId: string)
    ensures !FormValid(InitialForm(today, vehicleId))
  {
  }
}
