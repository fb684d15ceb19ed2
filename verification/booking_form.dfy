/** The booking form's state rules: the traveler field setter, the price
    preview, the coupon-apply handler and the submit handler. Server
    replies are parameters. */
module BookingForm {
  import opened Common
  import opened Text
  import opened Model
  import opened Pricing
  import Coupons
  import Bookings

  // -------------------------------------------------------------- travelers

  /** The travelers field's change handler as written: Number() of the
      typed text (None for NaN) is kept when positive, otherwise 1. */
  function SetTravelersAsWritten(input: Option<real>): (r: real)
    ensures r > 0.0
    ensures input.Some? && input.value > 0.0 ==> r == input.value
    ensures input.None? || input.value <= 0.0 ==> r == 1.0
  {
    if input.Some? && input.value > 0.0 then input.value else 1.0
  }

  /** A number with no fractional part. */
  predicate IsWhole(x: real)
  {
    x.Floor as real == x
  }

  /** The handler with the bounds the field declares (min 1, step 1): a
      count of at least 1 loses its fractional part, and anything below 1,
      or non-numeric, becomes 1. */
  function SetTravelers(input: Option<real>): (r: real)
    ensures r >= 1.0 && IsWhole(r)
    ensures input.Some? && input.value >= 1.0 ==> r <= input.value < r + 1.0
    ensures input.Some? && input.value >= 1.0 && IsWhole(input.value) ==> r == input.value
    ensures input.None? || input.value < 1.0 ==> r == 1.0
  {
    if input.Some? && input.value >= 1.0 then input.value.Floor as real else 1.0
  }

  /** The two handlers agree exactly on the inputs the field accepts or
      replaces by 1: absent, not positive, or whole. */
  lemma SetTravelersAgreement(input: Option<real>)
    ensures SetTravelers(input) == SetTravelersAsWritten(input)
            <==> input.None? || input.value <= 0.0 || IsWhole(input.value)
  {
    if input.Some? && 0.0 < input.value < 1.0 {
      assert input.value.Floor == 0;
    }
  }

  // ------------------------------------------------------------------ state

  datatype Form = Form(
    travelers: real,
    bookingDate: Option<Timestamp>,
    couponCode: string,
    appliedCoupon: Option<CouponSnapshot>,
    error: string,
    couponError: string)

  const InitialForm: Form := Form(1.0, None, "", None, "", "")

  /** The traveler count stays positive. */
  ghost predicate FormOk(f: Form)
  {
    f.travelers > 0.0
  }

  /** The form opens with one traveler, no coupon, and the unit price as total. */
  lemma InitialFormShowsUnitPrice(unitPrice: int)
    ensures FormOk(InitialForm)
    ensures PricePreview(unitPrice, InitialForm.travelers, InitialForm.appliedCoupon)
            == Preview(unitPrice as real, unitPrice as real)
  {
  }

  /** An edit of the travelers field, through the handler as written: a
      positive number is stored as typed, anything else as 1, and nothing
      else in the form changes. */
  function ChangeTravelers(f: Form, input: Option<real>): (f': Form)
    ensures FormOk(f')
    ensures input.Some? && input.value > 0.0 ==> f'.travelers == input.value
    ensures input.None? || input.value <= 0.0 ==> f'.travelers == 1.0
    ensures f' == f.(travelers := f'.travelers)
  {
    f.(travelers := SetTravelersAsWritten(input))
  }

  /** Typing 0.5 stores a count below the field's minimum of 1, and the
      preview then shows half the unit price. */
  lemma FractionalTravelersBelowMinimum(unitPrice: int)
    ensures ChangeTravelers(InitialForm, Some(0.5)).travelers == 0.5 < 1.0
    ensures PricePreview(unitPrice, ChangeTravelers(InitialForm, Some(0.5)).travelers, None).total
            == unitPrice as real / 2.0
  {
  }

  /** The same edit through the corrected handler: the stored count is a
      whole number of at least 1. */
  function ChangeTravelersCorrected(f: Form, input: Option<real>): (f': Form)
    ensures f'.travelers >= 1.0 && IsWhole(f'.travelers)
    ensures input.Some? && input.value >= 1.0 && IsWhole(input.value) ==> f'.travelers == input.value
    ensures f' == f.(travelers := f'.travelers)
  {
    f.(travelers := SetTravelers(input))
  }

  /** The coupon field upper-cases what is typed; it is disabled once a
      coupon is applied. */
  function ChangeCouponCode(f: Form, text: string): (f': Form)
    ensures f.appliedCoupon.Some? ==> f' == f
    ensures f.appliedCoupon.None? ==> f' == f.(couponCode := Upper(text))
    ensures f.appliedCoupon.None? ==> NoLower(f'.couponCode) && |f'.couponCode| == |text|
  {
    if f.appliedCoupon.Some? then f else f.(couponCode := Upper(text))
  }

  // ---------------------------------------------------------------- preview

  datatype Preview = Preview(original: real, total: real)

  /** The preview effect: the original price, and the total after the
      applied coupon's discount. */
  function PricePreview(unitPrice: int, travelers: real, applied: Option<CouponSnapshot>): (p: Preview)
    ensures p.original == unitPrice as real * travelers
    ensures applied.None? ==> p.total == p.original
    ensures applied.Some? ==> p.total * 100.0 == p.original * (100.0 - applied.value.discountPercentage)
  {
    var original := unitPrice as real * travelers;
    if applied.Some? then
      Preview(original, original - original * (applied.value.discountPercentage / 100.0))
    else Preview(original, original)
  }

  /** The preview computes the same total as the server's price rule. */
  lemma PreviewIsServerPrice(unitPrice: int, travelers: real, applied: Option<CouponSnapshot>)
    ensures PricePreview(unitPrice, travelers, applied).total == Total(unitPrice, travelers, applied)
  {
  }

  // ------------------------------------------------------------ apply coupon

  /** What came back from a request: the server's answer, or nothing (a
      network failure). */
  datatype Reply<T> = Replied(result: Result<T>) | NoResponse

  /** handleApplyCoupon. An empty code sets an error and sends nothing
      (requested is false); otherwise the reply decides: a success records
      the coupon's code and discount, a failure shows the server's message
      (or a fallback) and clears any applied coupon. */
  function ApplyCouponClick(f: Form, reply: Reply<Coupons.AppliedCoupon>): (res: (Form, bool))
    ensures f.couponCode == "" ==> !res.1 && res.0 == f.(couponError := "Please enter a coupon code.")
    ensures f.couponCode != "" ==> res.1
    ensures f.couponCode != "" && reply.Replied? && reply.result.Ok? ==>
              && res.0.appliedCoupon == Some(CouponSnapshot(reply.result.value.code, reply.result.value.discountPercentage))
              && res.0.couponError == ""
    ensures f.couponCode != "" && (reply.NoResponse? || reply.result.Err?) ==>
              res.0.appliedCoupon == None && res.0.couponError != ""
    ensures res.0 == f.(couponError := res.0.couponError, appliedCoupon := res.0.appliedCoupon)
  {
    if f.couponCode == "" then (f.(couponError := "Please enter a coupon code."), false)
    else
      var cleared := f.(couponError := "");
      match reply
      case Replied(Ok(c)) =>
        (cleared.(appliedCoupon := Some(CouponSnapshot(c.code, c.discountPercentage))), true)
      case Replied(Err(e)) => (cleared.(couponError := e.Message(), appliedCoupon := None), true)
      case NoResponse => (cleared.(couponError := "Invalid coupon code.", appliedCoupon := None), true)
  }

  /** A coupon the form records is one the server found, active and
      unexpired, with its stored code and discount. */
  lemma AppliedCouponIsStored(f: Form, coupons: seq<Coupon>, now: Timestamp)
    requires f.couponCode != ""
    requires ApplyCouponClick(f, Replied(Coupons.ApplyCoupon(coupons, f.couponCode, now))).0.appliedCoupon.Some?
    ensures var a := ApplyCouponClick(f, Replied(Coupons.ApplyCoupon(coupons, f.couponCode, now))).0.appliedCoupon.value;
            exists c :: && c in coupons && c.code == a.code && c.discountPercentage == a.discountPercentage
                        && c.isActive && now <= c.expiryDate
  {
  }

  // ----------------------------------------------------------------- submit

  /** What submitting the form does next. */
  datatype Effect = GoToLogin | NoRequest | SendBooking(request: Bookings.BookingRequest)

  /** handleBooking: without a user go to login; without a date show an
      error; otherwise send the booking, naming the coupon only when one was
      applied. */
  function Submit(f: Form, user: Option<UserId>, tour: Tour): (res: (Form, Effect))
    ensures user.None? ==> res == (f, GoToLogin)
    ensures user.Some? && f.bookingDate.None? ==> res == (f.(error := "Please select a date."), NoRequest)
    ensures res.1.SendBooking? <==> user.Some? && f.bookingDate.Some?
    ensures res.1.SendBooking? ==>
              && res.1.request.tourId == Some(tour.id)
              && res.1.request.bookingDate == f.bookingDate
              && res.1.request.travelers == Some(f.travelers)
              && (res.1.request.couponCode.Some? <==> f.appliedCoupon.Some?)
              && (f.appliedCoupon.Some? ==> res.1.request.couponCode == Some(f.appliedCoupon.value.code))
              && res.0.error == ""
  {
    if user.None? then (f, GoToLogin)
    else if f.bookingDate.None? then (f.(error := "Please select a date."), NoRequest)
    else
      var code := if f.appliedCoupon.Some? then Some(f.appliedCoupon.value.code) else None;
      (f.(error := ""), SendBooking(Bookings.BookingRequest(Some(tour.id), f.bookingDate, Some(f.travelers), code)))
  }

  /** A created booking's price is the price rule applied to its own snapshot. */
  lemma BookedTotal(tours: seq<Tour>, coupons: seq<Coupon>, bookings: seq<Booking>, caller: Caller,
                    req: Bookings.BookingRequest, now: Timestamp)
    requires Bookings.CreateBooking(tours, coupons, bookings, caller, req, now).Ok?
    ensures var b := Bookings.CreateBooking(tours, coupons, bookings, caller, req, now).value.1;
            b.totalPrice == Total(TourById(tours, req.tourId.value).value.price, req.travelers.value, b.couponApplied)
  {
  }

  /** When the submitted booking is created against the same tour price and
      a coupon still carrying the applied discount, the booked price is
      the price the form showed. */
  lemma BookedPriceMatchesPreview(f: Form, user: UserId, tour: Tour, tours: seq<Tour>, coupons: seq<Coupon>,
                                  bookings: seq<Booking>, caller: Caller, now: Timestamp)
    requires f.bookingDate.Some?
    requires CouponStoreOk(coupons)
    requires TourById(tours, tour.id).Some? && TourById(tours, tour.id).value.price == tour.price
    requires f.appliedCoupon.Some? ==>
               var found := Coupons.FindByCode(coupons, f.appliedCoupon.value.code);
               found.Some? && found.value.discountPercentage == f.appliedCoupon.value.discountPercentage
    requires var req := Submit(f, Some(user), tour).1.request;
             Bookings.CreateBooking(tours, coupons, bookings, caller, req, now).Ok?
    ensures var req := Submit(f, Some(user), tour).1.request;
            Bookings.CreateBooking(tours, coupons, bookings, caller, req, now).value.1.totalPrice
            == PricePreview(tour.price, f.travelers, f.appliedCoupon).total
  {
    var req := Submit(f, Some(user), tour).1.request;
    var b := Bookings.CreateBooking(tours, coupons, bookings, caller, req, now).value.1;
    BookedTotal(tours, coupons, bookings, caller, req, now);
    PreviewIsServerPrice(tour.price, f.travelers, f.appliedCoupon);
    if f.appliedCoupon.Some? {
      var c := Coupons.FindByCode(coupons, f.appliedCoupon.value.code).value;
      assert StringGiven(req.couponCode) by {
        var i :| 0 <= i < |coupons| && coupons[i] == c;
        assert ValidCoupon(coupons[i]);
      }
      assert b.couponApplied == f.appliedCoupon;
    }
  }
}
