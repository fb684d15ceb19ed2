/** The booking controller: create a booking (input guard, tour lookup,
    coupon check, price, frozen coupon snapshot), list the caller's or all
    bookings newest first, and cancel (owner or admin, once). The booking
    collection is a sequence of documents; the caller and "now" are
    parameters. */
module Bookings {
  import opened Common
  import opened Model
  import opened Pricing
  import Coupons
  import Seqs

  /** The request body of POST /bookings; None stands for an absent field. */
  datatype BookingRequest = BookingRequest(
    tourId: Option<TourId>,
    bookingDate: Option<Timestamp>,
    travelers: Option<real>,
    couponCode: Option<string>)

  /** The first guard: tourId, bookingDate and travelers all truthy. A
      negative traveler count passes it. */
  predicate DetailsGiven(req: BookingRequest)
  {
    StringGiven(req.tourId) && req.bookingDate.Some? && NumberGiven(req.travelers)
  }

  /** The booking-time coupon check: the coupon exists, is active and has
      not expired (expiring exactly now is still accepted). */
  predicate CouponAccepted(found: Option<Coupon>, now: Timestamp)
  {
    !(found.None? || !found.value.isActive || found.value.expiryDate < now)
  }

  /** The coupon a request names, when it names one. */
  function RequestedCoupon(coupons: seq<Coupon>, req: BookingRequest): Option<Coupon>
  {
    if StringGiven(req.couponCode) then Coupons.FindByCode(coupons, req.couponCode.value) else None
  }

  /** POST /bookings. On success the new booking is appended to the store;
      on failure nothing is stored. */
  function CreateBooking(tours: seq<Tour>, coupons: seq<Coupon>, bookings: seq<Booking>, caller: Caller,
                         req: BookingRequest, now: Timestamp): (r: Result<(seq<Booking>, Booking)>)
    ensures !DetailsGiven(req) ==> r == Err(MissingBookingDetails)
    ensures DetailsGiven(req) && TourById(tours, req.tourId.value).None? ==> r == Err(TourNotFound)
    ensures && DetailsGiven(req) && TourById(tours, req.tourId.value).Some? && StringGiven(req.couponCode)
            && !CouponAccepted(RequestedCoupon(coupons, req), now)
            ==> r == Err(InvalidOrExpiredCoupon)
    ensures r.Ok? <==> && DetailsGiven(req) && TourById(tours, req.tourId.value).Some?
                       && (StringGiven(req.couponCode) ==> CouponAccepted(RequestedCoupon(coupons, req), now))
    ensures r.Ok? ==> var b := r.value.1;
                      && r.value.0 == bookings + [b]
                      && (forall x :: x in bookings ==> x.id != b.id)
                      && b.status == Confirmed
                      && b.user == caller.id
                      && b.tour == req.tourId.value
                      && b.bookingDate == req.bookingDate.value
                      && b.travelers == req.travelers.value
                      && b.createdAt == now
    ensures r.Ok? && !StringGiven(req.couponCode) ==>
              && r.value.1.couponApplied == None
              && r.value.1.totalPrice == TourById(tours, req.tourId.value).value.price as real * req.travelers.value
    ensures r.Ok? && StringGiven(req.couponCode) ==>
              var c := RequestedCoupon(coupons, req).value;
              var original := TourById(tours, req.tourId.value).value.price as real * req.travelers.value;
              && r.value.1.couponApplied == Some(CouponSnapshot(c.code, c.discountPercentage))
              && r.value.1.totalPrice * 100.0 == original * (100.0 - c.discountPercentage)
  {
    if !DetailsGiven(req) then Err(MissingBookingDetails)
    else
      match TourById(tours, req.tourId.value)
      case None => Err(TourNotFound)
      case Some(tour) =>
        var found := RequestedCoupon(coupons, req);
        if StringGiven(req.couponCode) && !CouponAccepted(found, now) then Err(InvalidOrExpiredCoupon)
        else
          var snapshot := if StringGiven(req.couponCode)
                          then Some(CouponSnapshot(found.value.code, found.value.discountPercentage))
                          else None;
          var id := Seqs.NextId(bookings, BookingId);
          var price := Total(tour.price, req.travelers.value, snapshot);
          var b := NewBooking(id, caller.id, req.tourId.value, req.bookingDate.value, Some(req.travelers.value),
                              Some(price), Some(Confirmed), snapshot, now);
          assert b == Booking(id, caller.id, req.tourId.value, req.bookingDate.value, req.travelers.value,
                              price, Confirmed, snapshot, now);
          assert forall x :: x in bookings ==> x.id != id;
          Ok((bookings + [b], b))
  }

  /** The status the schema would give is never the one a created booking has. */
  lemma CreatedBookingIsConfirmed(tours: seq<Tour>, coupons: seq<Coupon>, bookings: seq<Booking>, caller: Caller,
                                  req: BookingRequest, now: Timestamp)
    requires CreateBooking(tours, coupons, bookings, caller, req, now).Ok?
    ensures CreateBooking(tours, coupons, bookings, caller, req, now).value.1.status != DefaultStatus
  {
  }

  /** With coupons from a valid store, a non-negative unit price and a
      positive traveler count, the stored price lies between 0 and the
      undiscounted price. */
  lemma CreatedPriceBounds(tours: seq<Tour>, coupons: seq<Coupon>, bookings: seq<Booking>, caller: Caller,
                           req: BookingRequest, now: Timestamp)
    requires CouponStoreOk(coupons)
    requires CreateBooking(tours, coupons, bookings, caller, req, now).Ok?
    requires TourById(tours, req.tourId.value).value.price >= 0 && req.travelers.value > 0.0
    ensures var b := CreateBooking(tours, coupons, bookings, caller, req, now).value.1;
            0.0 <= b.totalPrice <= TourById(tours, req.tourId.value).value.price as real * b.travelers
  {
    var b := CreateBooking(tours, coupons, bookings, caller, req, now).value.1;
    var original := TourById(tours, req.tourId.value).value.price as real * b.travelers;
    assert original >= 0.0;
    if StringGiven(req.couponCode) {
      var c := RequestedCoupon(coupons, req).value;
      var i :| 0 <= i < |coupons| && coupons[i] == c;
      assert ValidCoupon(coupons[i]);
      assert b.totalPrice == Discounted(original, c.discountPercentage);
      DiscountBounds(original, c.discountPercentage);
    }
  }

  /** The advisory apply check and the booking-time check accept exactly
      the same coupons, and the apply result carries the values the
      booking freezes. */
  lemma ApplyAgreesWithBooking(coupons: seq<Coupon>, code: string, now: Timestamp)
    ensures Coupons.ApplyCoupon(coupons, code, now).Ok? <==> CouponAccepted(Coupons.FindByCode(coupons, code), now)
    ensures Coupons.ApplyCoupon(coupons, code, now).Ok? ==>
              var a := Coupons.ApplyCoupon(coupons, code, now).value;
              var c := Coupons.FindByCode(coupons, code).value;
              a.code == c.code && a.discountPercentage == c.discountPercentage
  {
  }

  /** Creating a booking keeps booking ids unique. */
  lemma CreateKeepsIdsUnique(tours: seq<Tour>, coupons: seq<Coupon>, bookings: seq<Booking>, caller: Caller,
                             req: BookingRequest, now: Timestamp)
    requires UniqueBookingIds(bookings)
    requires CreateBooking(tours, coupons, bookings, caller, req, now).Ok?
    ensures UniqueBookingIds(CreateBooking(tours, coupons, bookings, caller, req, now).value.0)
  {
    var r := CreateBooking(tours, coupons, bookings, caller, req, now).value;
    forall i, j | 0 <= i < j < |r.0| ensures r.0[i].id != r.0[j].id {
      assert r.0[i] == bookings[i];
      if j == |bookings| { assert bookings[i] in bookings; } else { assert r.0[j] == bookings[j]; }
    }
  }

  /** GET /bookings/mybookings: exactly the caller's bookings, newest first. */
  function GetMyBookings(bookings: seq<Booking>, caller: UserId): (r: seq<Booking>)
    ensures forall b :: multiset(r)[b] == if b.user == caller then multiset(bookings)[b] else 0
    ensures forall b :: b in r <==> b in bookings && b.user == caller
    ensures forall i, j :: 0 <= i < j < |r| ==> r[i].createdAt >= r[j].createdAt
  {
    var mine := Seqs.Filter(bookings, (b: Booking) => b.user == caller);
    var r := Seqs.SortDesc(mine, BookingCreatedAt);
    forall b ensures multiset(r)[b] == if b.user == caller then multiset(bookings)[b] else 0 {
      Seqs.FilterMultiset(bookings, (b: Booking) => b.user == caller, b);
    }
    assert forall b :: b in r <==> b in multiset(mine);
    r
  }

  /** GET /bookings/all: every booking, newest first. */
  function GetAllBookings(bookings: seq<Booking>): (r: seq<Booking>)
    ensures multiset(r) == multiset(bookings)
    ensures forall i, j :: 0 <= i < j < |r| ==> r[i].createdAt >= r[j].createdAt
  {
    Seqs.SortDesc(bookings, BookingCreatedAt)
  }

  /** findById over the booking collection: the first index with the id. */
  function BookingIndex(bookings: seq<Booking>, id: DocId): (r: Option<nat>)
    ensures r.Some? ==> r.value < |bookings| && bookings[r.value].id == id
    ensures r.Some? ==> forall i :: 0 <= i < r.value ==> bookings[i].id != id
    ensures r.None? <==> forall b :: b in bookings ==> b.id != id
  {
    Seqs.FindIndex(bookings, (b: Booking) => b.id == id)
  }

  /** The owner of a booking or an admin may cancel it. */
  predicate MayCancel(caller: Caller, b: Booking)
  {
    b.user == caller.id || caller.role == Admin
  }

  /** PUT /bookings/:id/cancel: not found, then not authorised, then
      already cancelled; on success only the status changes. */
  function CancelBooking(bookings: seq<Booking>, caller: Caller, id: DocId): (r: Result<(seq<Booking>, Booking)>)
    ensures BookingIndex(bookings, id).None? ==> r == Err(BookingNotFound)
    ensures var k := BookingIndex(bookings, id);
            k.Some? && !MayCancel(caller, bookings[k.value]) ==> r == Err(NotAuthorizedToCancel)
    ensures var k := BookingIndex(bookings, id);
            k.Some? && MayCancel(caller, bookings[k.value]) && bookings[k.value].status == Cancelled
            ==> r == Err(AlreadyCancelled)
    ensures var k := BookingIndex(bookings, id);
            r.Ok? <==> k.Some? && MayCancel(caller, bookings[k.value]) && bookings[k.value].status != Cancelled
    ensures r.Ok? ==> var k := BookingIndex(bookings, id).value;
                      && r.value.1 == bookings[k].(status := Cancelled)
                      && r.value.0 == bookings[k := r.value.1]
  {
    match BookingIndex(bookings, id)
    case None => Err(BookingNotFound)
    case Some(k) =>
      var b := bookings[k];
      if !MayCancel(caller, b) then Err(NotAuthorizedToCancel)
      else if b.status == Cancelled then Err(AlreadyCancelled)
      else
        var cancelled := b.(status := Cancelled);
        Ok((bookings[k := cancelled], cancelled))
  }

  /** A cancelled booking cannot be cancelled again, by anyone. */
  lemma CancelTwiceFails(bookings: seq<Booking>, caller: Caller, other: Caller, id: DocId)
    requires CancelBooking(bookings, caller, id).Ok?
    ensures var after := CancelBooking(bookings, caller, id).value.0;
            && CancelBooking(after, caller, id) == Err(AlreadyCancelled)
            && CancelBooking(after, other, id).Err?
  {
    var k := BookingIndex(bookings, id).value;
    var after := CancelBooking(bookings, caller, id).value.0;
    assert after[k].id == id;
    assert forall i :: 0 <= i < k ==> after[i] == bookings[i];
    var k' := BookingIndex(after, id);
    assert k'.Some? by { assert after[k] in after; }
    assert k'.value <= k;
  }

  /** Cancelling keeps every booking's frozen price and coupon snapshot, and
      every field but the status of the cancelled one. */
  lemma CancelKeepsFrozenFields(bookings: seq<Booking>, caller: Caller, id: DocId)
    requires CancelBooking(bookings, caller, id).Ok?
    ensures var after := CancelBooking(bookings, caller, id).value.0;
            && |after| == |bookings|
            && forall i :: 0 <= i < |bookings| ==> after[i] == bookings[i].(status := after[i].status)
  {
  }
}
