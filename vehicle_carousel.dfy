// The vehicle carousel (src/components/vehicles/VehicleCarousel.tsx): the
// shown index moves cyclically over the vehicle list; any manual move stops
// autoplay and sets the slide direction. The index itself lives in the
// parent and is written through `onIndexChange`; here it is a field of the
// same state. The autoplay timer is the `AutoplayTick` method.
module VehicleCarousel {
  import opened Wrappers

  datatype VehicleImage = VehicleImage(url: Option<string>)

  /** The fields of a listed vehicle the carousel reads. `images` is None
      when the column is null or not an array. */
  datatype CarouselVehicle = CarouselVehicle(
    id: string, brand: string, model: string, status: string, images: Option<seq<VehicleImage>>)

  datatype SlideDirection = Left | Right

  // ---- index arithmetic ----------------------------------------------------

  /** `(i + 1) % n` */
  function NextIndex(i: int, n: int): (j: int)
    requires 0 <= i < n
    ensures 0 <= j < n
    ensures j == if i == n - 1 then 0 else i + 1
  {
    (i + 1) % n
  }

  /** `(i - 1 + n) % n` */
  function PrevIndex(i: int, n: int): (j: int)
    requires 0 <= i < n
    ensures 0 <= j < n
    ensures j == if i == 0 then n - 1 else i - 1
  {
    (i - 1 + n) % n
  }

  /** The two moves undo each other. */
  lemma NextPrevInverse(i: int, n: int)
    requires 0 <= i < n
    ensures NextIndex(PrevIndex(i, n), n) == i
    ensures PrevIndex(NextIndex(i, n), n) == i
  {
  }

  /** The index after k forward moves. */
  function Advance(i: int, n: int, k: nat): (j: int)
    requires 0 <= i < n
    ensures 0 <= j < n
  {
    if k == 0 then i else NextIndex(Advance(i, n, k - 1), n)
  }

  /** k forward moves, for k up to a full round, land k places further,
      wrapping past the end once. */
  lemma {:induction false} AdvanceIsOffset(i: int, n: int, k: nat)
    requires 0 <= i < n && k <= n
    ensures Advance(i, n, k) == if i + k < n then i + k else i + k - n
  {
    if k > 0 {
      AdvanceIsOffset(i, n, k - 1);
    }
  }

  /** A full autoplay round of n moves comes back to the start, and no
      vehicle is shown twice on the way, so every one of them is shown. */
  lemma FullRoundReturns(i: int, n: int)
    requires 0 <= i < n
    ensures Advance(i, n, n) == i
    ensures forall k1, k2 :: 0 <= k1 < k2 < n ==> Advance(i, n, k1) != Advance(i, n, k2)
  {
    AdvanceIsOffset(i, n, n);
    forall k1, k2 | 0 <= k1 < k2 < n
      ensures Advance(i, n, k1) != Advance(i, n, k2)
    {
      AdvanceIsOffset(i, n, k1);
      AdvanceIsOffset(i, n, k2);
    }
  }

  // ---- rendering rules -----------------------------------------------------

  /** The placeholder replaces the carousel when there is nothing to show
      or the index is out of range. */
  predicate ShowsPlaceholder(vehicles: seq<CarouselVehicle>, currentIndex: int) {
    |vehicles| == 0 || currentIndex < 0 || currentIndex >= |vehicles|
  }

  /** getVehicleImage: the first image's url when there is a non-empty
      image list, otherwise nothing. */
  function VehicleImageUrl(v: Option<CarouselVehicle>): (url: Option<string>)
    ensures url.Some? ==> (v.Some? && v.value.images.Some? && |v.value.images.value| > 0
      && url == v.value.images.value[0].url)
    ensures v.Some? && v.value.images.Some? && |v.value.images.value| > 0 ==>
      url == v.value.images.value[0].url
  {
    if v.None? then None
    else if v.value.images.Some? && |v.value.images.value| > 0 then v.value.images.value[0].url
    else None
  }

  /** The booking button works only for an available vehicle. */
  predicate BookingEnabled(v: CarouselVehicle) {
    v.status == "available"
  }

  class CarouselState {
    var vehicles: seq<CarouselVehicle>
    var currentIndex: int
    var isAutoPlay: bool
    var slideDirection: SlideDirection

    /** The carousel itself is on screen (not the placeholder). */
    predicate Showing()
      reads this
    {
      !ShowsPlaceholder(vehicles, currentIndex)
    }

    constructor(vehicles: seq<CarouselVehicle>, currentIndex: int)
      ensures this.vehicles == vehicles && this.currentIndex == currentIndex
      ensures isAutoPlay && slideDirection == Right
    {
      this.vehicles := vehicles;
      this.currentIndex := currentIndex;
      isAutoPlay := true;
      slideDirection := Right;
    }

    /** nextVehicle: autoplay off, slide right, one place forward. */
    method NextVehicle()
      requires Showing()
      modifies this
      ensures Showing() && !isAutoPlay && slideDirection == Right
      ensures vehicles == old(vehicles) && currentIndex == NextIndex(old(currentIndex), |vehicles|)
    {
      isAutoPlay := false;
      slideDirection := Right;
      currentIndex := NextIndex(currentIndex, |vehicles|);
    }

    /** prevVehicle: autoplay off, slide left, one place back. */
    method PrevVehicle()
      requires Showing()
      modifies this
      ensures Showing() && !isAutoPlay && slideDirection == Left
      ensures vehicles == old(vehicles) && currentIndex == PrevIndex(old(currentIndex), |vehicles|)
    {
      isAutoPlay := false;
      slideDirection := Left;
      currentIndex := PrevIndex(currentIndex, |vehicles|);
    }

    /** goToVehicle: a thumbnail click; slides right iff the target lies
        after the current vehicle. */
    method GoToVehicle(index: int)
      requires Showing() && 0 <= index < |vehicles|
      modifies this
      ensures Showing() && !isAutoPlay && currentIndex == index && vehicles == old(vehicles)
      ensures slideDirection == Right <==> index > old(currentIndex)
    {
      isAutoPlay := false;
      slideDirection := if index > currentIndex then Right else Left;
      currentIndex := index;
    }

    /** One autoplay interval: only while autoplay is on and there is more
        than one vehicle, slide right one place forward; else nothing. */
    method AutoplayTick()
      requires Showing()
      modifies this
      ensures Showing() && isAutoPlay == old(isAutoPlay) && vehicles == old(vehicles)
      ensures old(isAutoPlay) && |vehicles| > 1 ==>
        currentIndex == NextIndex(old(currentIndex), |vehicles|) && slideDirection == Right
      ensures !(old(isAutoPlay) && |vehicles| > 1) ==>
        currentIndex == old(currentIndex) && slideDirection == old(slideDirection)
    {
      if isAutoPlay && |vehicles| > 1 {
        slideDirection := Right;
        currentIndex := NextIndex(currentIndex, |vehicles|);
      }
    }

    /** The play/pause button. */
    method ToggleAutoPlay()
      modifies this
      ensures isAutoPlay == !old(isAutoPlay)
      ensures vehicles == old(vehicles) && currentIndex == old(currentIndex) && slideDirection == old(slideDirection)
    {
      isAutoPlay := !isAutoPlay;
    }

    /** The booking button hands the shown vehicle to the parent, and does
        nothing while it is disabled. */
    method ClickBooking() returns (booked: Option<CarouselVehicle>)
      requires Showing()
      ensures booked.Some? <==> BookingEnabled(vehicles[currentIndex])
      ensures booked.Some? ==> booked.value == vehicles[currentIndex]
    {
      var v := vehicles[currentIndex];
      booked := if BookingEnabled(v) then Some(v) else None;
    }
  }
}
