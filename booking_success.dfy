// The confirmation shown after a booking
// (src/components/booking/BookingSuccessModal.tsx): whether it renders, the
// rental length it prints, the time and status texts, and the name of the
// downloadable confirmation. The booking's dates are day numbers.
module BookingSuccess {
  import opened Wrappers
  import opened Text
  import opened Dates
  import BookingService
  import BookingModal

  /** The modal renders nothing unless both the booking and the vehicle are
      present. */
  predicate ShouldRender<V>(booking: Option<BookingService.Booking>, vehicle: Option<V>) {
    booking.Some? && vehicle.Some?
  }

  /** A missing booking or vehicle hides the modal whatever the other is. */
  lemma MissingPartHides<V>(booking: Option<BookingService.Booking>, vehicle: Option<V>)
    ensures booking.None? ==> !ShouldRender(booking, vehicle)
    ensures vehicle.None? ==> !ShouldRender(booking, vehicle)
    ensures ShouldRender(booking, vehicle) ==> booking.Some? && vehicle.Some?
  {
  }

  /** calculateDays of the confirmation: the inclusive count of days, with
      no clamp, so a reversed range gives zero or less. */
  function SuccessDays(b: BookingService.Booking): (n: int)
    ensures n >= 1 <==> b.startDate <= b.endDate
    ensures n == 1 <==> b.startDate == b.endDate
  {
    b.endDate - b.startDate + 1
  }

  /** For ordered dates the confirmation prints the count the booking form
      priced; for reversed ones the form clamps to 1 while this count drops
      below 1. */
  lemma SuccessDaysMatchesForm(s: CivilDate, e: CivilDate, b: BookingService.Booking)
    requires ValidDate(s) && ValidDate(e)
    requires b.startDate == DayNumber(s) && b.endDate == DayNumber(e)
    ensures DayNumber(s) <= DayNumber(e) ==> SuccessDays(b) == BookingModal.CalculateDays(FullDate(s), FullDate(e))
    ensures DayNumber(e) < DayNumber(s) ==> SuccessDays(b) < 1 == BookingModal.CalculateDays(FullDate(s), FullDate(e))
  {
    BookingModal.CalculateDaysInclusive(s, e);
  }

  /** formatTime: the first five characters, so "HH:mm:ss" shows as "HH:mm". */
  function FormatTime(time: string): (r: string)
    ensures |r| == if |time| < 5 then |time| else 5
    ensures r == time[..|r|]
  {
    Take(time, 5)
  }

  /** A "HH:mm:ss" time loses its seconds, an "HH:mm" time is kept, and
      formatting twice is formatting once. */
  lemma FormatTimeShapes(time: string)
    ensures |time| == 8 ==> FormatTime(time) == time[..5]
    ensures |time| <= 5 ==> FormatTime(time) == time
    ensures FormatTime(FormatTime(time)) == FormatTime(time)
  {
  }

  /** The status line: '확인 대기' (awaiting confirmation) for pending,
      the raw status otherwise. */
  function StatusText(status: string): (t: string)
    ensures status == "pending" ==> t == "확인 대기"
    ensures status != "pending" ==> t == status
  {
    if status == "pending" then "확인 대기" else status
  }

  /** Two different statuses print differently unless one of them is the
      pending label itself. */
  lemma StatusTextInjective(a: string, b: string)
    requires a != b && a != "확인 대기" && b != "확인 대기"
    ensures StatusText(a) != StatusText(b)
  {
  }

  const FileNamePrefix: string := "예약확인서_"

  /** The download's file name: the prefix, the first eight characters of
      the booking id, and ".txt". */
  function DownloadFileName(id: string): (name: string)
    ensures |name| == |FileNamePrefix| + |Take(id, 8)| + 4
    ensures name[..|FileNamePrefix|] == FileNamePrefix
    ensures name[|FileNamePrefix|..|name| - 4] == Take(id, 8)
    ensures name[|name| - 4..] == ".txt"
  {
    FileNamePrefix + Take(id, 8) + ".txt"
  }

  /** The file name determines the first eight characters of the id and
      nothing more: ids that agree there share a file name. */
  lemma DownloadFileNameKeepsPrefix(a: string, b: string)
    requires |a| >= 8 && |b| >= 8
    ensures DownloadFileName(a) == DownloadFileName(b) <==> a[..8] == b[..8]
  {
    if DownloadFileName(a) == DownloadFileName(b) {
      assert Take(a, 8) == DownloadFileName(a)[|FileNamePrefix|..|DownloadFileName(a)| - 4];
    }
  }
}
