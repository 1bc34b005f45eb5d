// The booking-history page (src/app/booking-history/page.tsx): a search by
// guest email over the reservation store, and the badge shown for each
// booking's status.
module BookingHistory {
  import opened Wrappers
  import opened Seqs
  import BookingService
  import BookingSuccess
  import IconMap

  const EmailMissing: string := "이메일을 입력해주세요."
  const SearchFailed: string := "예약 조회 중 오류가 발생했습니다. 다시 시도해주세요."

  /** The badge of a status: its label and its colour classes, or, when the
      status map's index yields a member every plain object inherits, a badge
      whose label and colour are both undefined. */
  datatype Badge = Badge(caption: string, color: string) | UndefinedBadge

  const Gray: string := "bg-gray-100 text-gray-800"

  /** getStatusBadge: the five known statuses have fixed badges. Any other
      status is shown as itself in gray, except a name the status map
      inherits from Object.prototype: that member is truthy, so the `||`
      fallback is skipped and the badge reads label and colour off it. */
  function StatusBadge(status: string): (b: Badge)
    ensures status == "pending" ==> b == Badge("예약 신청", "bg-yellow-100 text-yellow-800")
    ensures status == "confirmed" ==> b == Badge("예약 확정", "bg-green-100 text-green-800")
    ensures status == "active" ==> b == Badge("대여중", "bg-blue-100 text-blue-800")
    ensures status == "completed" ==> b == Badge("반납 완료", Gray)
    ensures status == "cancelled" ==> b == Badge("취소됨", "bg-red-100 text-red-800")
    ensures !IsKnownStatus(status) && status !in IconMap.InheritedKeys ==> b == Badge(status, Gray)
    ensures b.UndefinedBadge? <==> status in IconMap.InheritedKeys
  {
    match status
    case "pending" => Badge("예약 신청", "bg-yellow-100 text-yellow-800")
    case "confirmed" => Badge("예약 확정", "bg-green-100 text-green-800")
    case "active" => Badge("대여중", "bg-blue-100 text-blue-800")
    case "completed" => Badge("반납 완료", Gray)
    case "cancelled" => Badge("취소됨", "bg-red-100 text-red-800")
    case _ => if status in IconMap.InheritedKeys then UndefinedBadge else Badge(status, Gray)
  }

  predicate IsKnownStatus(status: string) {
    status in {"pending", "confirmed", "active", "completed", "cancelled"}
  }

  /** Known statuses get pairwise different labels, so the label tells the
      status back. */
  lemma BadgeLabelsDistinguish(a: string, b: string)
    requires IsKnownStatus(a) && IsKnownStatus(b) && a != b
    ensures StatusBadge(a).Badge? && StatusBadge(b).Badge?
    ensures StatusBadge(a).caption != StatusBadge(b).caption
  {
  }

  /** Only completed statuses and unknown statuses the status map does not
      inherit are gray. */
  lemma GrayBadges(status: string)
    ensures StatusBadge(status).Badge? && StatusBadge(status).color == Gray
        <==> status == "completed" || (!IsKnownStatus(status) && status !in IconMap.InheritedKeys)
  {
  }

  /** A status such as "constructor" gets neither its own name nor gray:
      the fallback is bypassed and the badge is left without label and
      colour. */
  lemma InheritedStatusBypassesFallback()
    ensures StatusBadge("constructor") == UndefinedBadge
    ensures StatusBadge("toString") == UndefinedBadge
  {
    assert "constructor" == IconMap.InheritedKeys[0];
    assert "toString" == IconMap.InheritedKeys[5];
  }

  /** formatTime of this page is the confirmation's: "HH:mm:ss" shows as
      "HH:mm", and a shorter time is kept. */
  lemma HistoryFormatTime(time: string)
    ensures |time| >= 5 ==> BookingSuccess.FormatTime(time) == time[..5]
    ensures |time| < 5 ==> BookingSuccess.FormatTime(time) == time
  {
  }

  class HistoryPage {
    var bookings: seq<BookingService.Booking>
    var loading: bool
    var searched: bool

    constructor()
      ensures bookings == [] && !loading && !searched
    {
      bookings := [];
      loading := false;
      searched := false;
    }

    /** handleSearchWithEmail: an empty email raises an alert and stops
        before any query. Otherwise the store is asked; on success the list
        is replaced and the page counts as searched, on failure an alert is
        raised and both stay as they were. Loading ends false either way. */
    method HandleSearchWithEmail(searchEmail: string, table: BookingService.ReservationTable, storeOk: bool)
      returns (alert: Option<string>)
      modifies this
      ensures searchEmail == "" ==>
        alert == Some(EmailMissing) && bookings == old(bookings)
        && loading == old(loading) && searched == old(searched)
      ensures searchEmail != "" ==> !loading
      ensures searchEmail != "" && !storeOk ==>
        alert == Some(SearchFailed) && bookings == old(bookings) && searched == old(searched)
      ensures searchEmail != "" && storeOk ==>
        alert.None? && searched
        && multiset(bookings) == multiset(BookingService.HistoryViews(Filter(table.rows, BookingService.EmailQuery(searchEmail))))
        && SortedDesc(bookings, BookingService.CreatedAt)
    {
      if searchEmail == "" {
        return Some(EmailMissing);
      }
      loading := true;
      var result := table.GetCustomerBookings(searchEmail, storeOk);
      if result.Ok? {
        bookings := result.value;
        searched := true;
        alert := None;
      } else {
        alert := Some(SearchFailed);
      }
      loading := false;
    }
  }

  /** After a successful search the page lists exactly the guest's
      bookings: a booking is shown iff it is the history view of a row
      booked under that email. */
  lemma SearchShowsGuestBookings(rows: seq<BookingService.Reservation>, email: string,
                                 shown: seq<BookingService.Booking>, b: BookingService.Booking)
    requires multiset(shown) == multiset(BookingService.HistoryViews(Filter(rows, BookingService.EmailQuery(email))))
    ensures b in shown <==> exists row :: row in rows && row.guestEmail == email && b == BookingService.HistoryView(row)
  {
    var views := BookingService.HistoryViews(Filter(rows, BookingService.EmailQuery(email)));
    assert b in shown <==> b in multiset(views);
    BookingService.ViewsMembership(rows, email, b);
  }
}
