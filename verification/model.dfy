/** The entities of the marketplace (Tour, Review, itinerary day, Coupon,
    Booking) as the Mongoose schemas and the shared client types define
    them, the schema constructors that apply setters, defaults and
    validators on save, and the invariants the stores keep. */
module Model {
  import opened Common
  import opened Text
  import Seqs

  type UserId = string
  type TourId = string
  /** Ids the server assigns to the coupons and bookings it creates. */
  type DocId = nat
  /** Dates are instants in milliseconds; date parsing is not modelled. */
  type Timestamp = int

  datatype Role = Customer | Admin

  /** The authenticated caller, as the authentication middleware supplies it. */
  datatype Caller = Caller(id: UserId, name: string, role: Role)

  datatype Category = Adventure | Relaxation | Cultural | Nature | Spiritual

  datatype Review = Review(name: string, rating: real, comment: string, user: UserId, createdAt: Timestamp)

  datatype DayPlan = DayPlan(day: int, title: string, description: string)

  datatype Tour = Tour(
    id: TourId,
    title: string,
    location: string,
    state: string,
    price: int,
    duration: int,
    description: string,
    images: seq<string>,
    category: Category,
    reviews: seq<Review>,
    rating: real,
    numReviews: int,
    itinerary: seq<DayPlan>)

  datatype Coupon = Coupon(
    id: DocId,
    code: string,
    discountPercentage: real,
    expiryDate: Timestamp,
    isActive: bool,
    user: UserId,
    createdAt: Timestamp)

  /** The value copy of a coupon a booking keeps; never a reference. */
  datatype CouponSnapshot = CouponSnapshot(code: string, discountPercentage: real)

  datatype Status = Pending | Confirmed | Cancelled

  datatype Booking = Booking(
    id: DocId,
    user: UserId,
    tour: TourId,
    bookingDate: Timestamp,
    travelers: real,
    totalPrice: real,
    status: Status,
    couponApplied: Option<CouponSnapshot>,
    createdAt: Timestamp)

  // ---------------------------------------------------------------- reviews

  /** The rating range the client type documents; the server does not enforce it. */
  predicate ValidRating(rating: real)
  {
    1.0 <= rating <= 5.0
  }

  function RatingSum(reviews: seq<Review>): real
    decreases |reviews|
  {
    if |reviews| == 0 then 0.0 else RatingSum(reviews[..|reviews| - 1]) + reviews[|reviews| - 1].rating
  }

  /** rating is the mean of the review ratings (0 without reviews) and
      numReviews their count. */
  ghost predicate RatingConsistent(t: Tour)
  {
    && t.numReviews == |t.reviews|
    && (|t.reviews| == 0 ==> t.rating == 0.0)
    && (|t.reviews| > 0 ==> t.rating * |t.reviews| as real == RatingSum(t.reviews))
  }

  lemma {:induction false} RatingSumBounds(reviews: seq<Review>)
    requires forall i :: 0 <= i < |reviews| ==> ValidRating(reviews[i].rating)
    ensures |reviews| as real <= RatingSum(reviews) <= 5.0 * |reviews| as real
    decreases |reviews|
  {
    if |reviews| > 0 {
      RatingSumBounds(reviews[..|reviews| - 1]);
    }
  }

  /** When every review rating is in the documented range, so is the mean. */
  lemma MeanRatingInRange(t: Tour)
    requires RatingConsistent(t) && |t.reviews| > 0
    requires forall i :: 0 <= i < |t.reviews| ==> ValidRating(t.reviews[i].rating)
    ensures 1.0 <= t.rating <= 5.0
  {
    RatingSumBounds(t.reviews);
    MeanBounds(t.rating, |t.reviews| as real, RatingSum(t.reviews));
  }

  lemma MulStrict(a: real, b: real, n: real)
    requires a < b && n > 0.0
    ensures a * n < b * n
  {
    var d := b - a;
    assert d * n > 0.0;
    assert b * n == a * n + d * n;
  }

  /** A mean of n values between 1 and 5 lies between 1 and 5. */
  lemma MeanBounds(r: real, n: real, s: real)
    requires n > 0.0 && r * n == s && n <= s <= 5.0 * n
    ensures 1.0 <= r <= 5.0
  {
    if r < 1.0 { MulStrict(r, 1.0, n); }
    if r > 5.0 { MulStrict(5.0, r, n); }
  }

  /** A review document as the review schema saves it: name, comment and
      user are required strings, so an empty one is rejected. */
  function NewReview(name: string, rating: real, comment: string, user: UserId, now: Timestamp): (r: Result<Review>)
    ensures r.Ok? <==> name != "" && comment != "" && user != ""
    ensures r.Ok? ==> r.value.name == name && r.value.rating == rating && r.value.comment == comment
                      && r.value.user == user && r.value.createdAt == now
    ensures r.Err? ==> r.error == ValidationRejected
  {
    if name == "" || comment == "" || user == "" then Err(ValidationRejected)
    else Ok(Review(name, rating, comment, user, now))
  }

  // ------------------------------------------------------------------ tours

  /** A tour document as the tour schema creates it: price falls back to 0
      and the derived review fields start at "no reviews". */
  function NewTour(id: TourId, title: string, location: string, state: string, price: Option<int>,
                   duration: int, description: string, images: seq<string>, category: Category,
                   itinerary: seq<DayPlan>): (t: Tour)
    ensures t.price == (if price.Some? then price.value else 0)
    ensures t.reviews == [] && t.rating == 0.0 && t.numReviews == 0
    ensures RatingConsistent(t)
  {
    Tour(id, title, location, state, if price.Some? then price.value else 0, duration, description,
         images, category, [], 0.0, 0, itinerary)
  }

  /** The position findById finds in a tour collection: the first tour
      carrying the id. */
  function TourIndex(tours: seq<Tour>, id: TourId): (r: Option<nat>)
    ensures r.Some? ==> r.value < |tours| && tours[r.value].id == id
    ensures r.Some? ==> forall i :: 0 <= i < r.value ==> tours[i].id != id
    ensures r.None? <==> forall t :: t in tours ==> t.id != id
  {
    Seqs.FindIndex(tours, (t: Tour) => t.id == id)
  }

  /** findById over a tour collection. */
  function TourById(tours: seq<Tour>, id: TourId): (r: Option<Tour>)
    ensures r.Some? ==> r.value in tours && r.value.id == id
    ensures r.None? <==> forall t :: t in tours ==> t.id != id
  {
    match TourIndex(tours, id)
    case None => None
    case Some(k) => Some(tours[k])
  }

  // ---------------------------------------------------------------- coupons

  /** A stored coupon: its code went through the setters and is not
      empty, and its discount is within the schema's bounds. */
  ghost predicate ValidCoupon(c: Coupon)
  {
    IsNormalized(c.code) && c.code != "" && 1.0 <= c.discountPercentage <= 100.0
  }

  /** The coupon collection: every coupon valid, codes unique (the unique
      index), ids unique. */
  ghost predicate CouponStoreOk(store: seq<Coupon>)
  {
    && (forall i :: 0 <= i < |store| ==> ValidCoupon(store[i]))
    && (forall i, j :: 0 <= i < j < |store| ==> store[i].code != store[j].code)
    && (forall i, j :: 0 <= i < j < |store| ==> store[i].id != store[j].id)
  }

  /** A coupon document as the coupon schema saves it: the code is
      uppercased and trimmed, isActive defaults to true, and the
      validators reject a missing or empty code, a missing discount or
      expiry date, and a discount outside [1, 100]. */
  function NewCoupon(id: DocId, code: string, discountPercentage: Option<real>, expiryDate: Option<Timestamp>,
                     isActive: Option<bool>, user: UserId, now: Timestamp): (r: Result<Coupon>)
    ensures r.Ok? <==> && Normalize(code) != "" && user != ""
                       && discountPercentage.Some? && 1.0 <= discountPercentage.value <= 100.0
                       && expiryDate.Some?
    ensures r.Err? ==> r.error == ValidationRejected
    ensures r.Ok? ==> && r.value.id == id
                      && r.value.code == Normalize(code)
                      && r.value.discountPercentage == discountPercentage.value
                      && r.value.expiryDate == expiryDate.value
                      && r.value.isActive == (isActive.None? || isActive.value)
                      && r.value.user == user
                      && r.value.createdAt == now
    ensures r.Ok? ==> ValidCoupon(r.value)
  {
    var stored := Normalize(code);
    if stored == "" || user == "" || discountPercentage.None? || expiryDate.None? then Err(ValidationRejected)
    else if !(1.0 <= discountPercentage.value <= 100.0) then Err(ValidationRejected)
    else
      var active := if isActive.Some? then isActive.value else true;
      Ok(Coupon(id, stored, discountPercentage.value, expiryDate.value, active, user, now))
  }

  // --------------------------------------------------------------- bookings

  const DefaultStatus: Status := Pending
  const DefaultTravelers: real := 1.0
  const DefaultTotalPrice: real := 0.0

  /** A booking document as the booking schema creates it: travelers,
      totalPrice and status fall back to their defaults when not given. */
  function NewBooking(id: DocId, user: UserId, tour: TourId, bookingDate: Timestamp, travelers: Option<real>,
                      totalPrice: Option<real>, status: Option<Status>, couponApplied: Option<CouponSnapshot>,
                      now: Timestamp): (b: Booking)
    ensures b.travelers == (if travelers.Some? then travelers.value else 1.0)
    ensures b.totalPrice == (if totalPrice.Some? then totalPrice.value else 0.0)
    ensures b.status == (if status.Some? then status.value else Pending)
    ensures b.id == id && b.user == user && b.tour == tour && b.bookingDate == bookingDate
    ensures b.couponApplied == couponApplied && b.createdAt == now
  {
    Booking(id, user, tour, bookingDate,
            if travelers.Some? then travelers.value else DefaultTravelers,
            if totalPrice.Some? then totalPrice.value else DefaultTotalPrice,
            if status.Some? then status.value else DefaultStatus,
            couponApplied, now)
  }

  ghost predicate UniqueBookingIds(store: seq<Booking>)
  {
    forall i, j :: 0 <= i < j < |store| ==> store[i].id != store[j].id
  }

  function CouponId(c: Coupon): nat { c.id }
  function BookingId(b: Booking): nat { b.id }
  function CouponCreatedAt(c: Coupon): int { c.createdAt }
  function BookingCreatedAt(b: Booking): int { b.createdAt }
}
