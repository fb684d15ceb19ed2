/** The handlers evaluated on the seed data: the Kerala tour at 14500 per person
    and the seeded coupons SUMMER20 (20%, 60 days left), EXPIRED (50%,
    5 days past), INACTIVE15 (15%, switched off). */
module Scenarios {
  import opened Common
  import opened Model
  import Coupons
  import Bookings

  const Day: int := 86400000
  const Now: Timestamp := 1700000000000

  function Kerala(): Tour
  {
    NewTour("1", "Kerala Backwaters Cruise", "Alleppey", "Kerala", Some(14500), 3,
            "Experience the serene backwaters of Kerala on a traditional houseboat.",
            ["https://picsum.photos/seed/kerala/800/600"], Relaxation, [])
  }

  function SeedCoupons(): seq<Coupon>
  {
    [ Coupon(0, "SUMMER20", 20.0, Now + 60 * Day, true, "admin", Now),
      Coupon(1, "TRAVELX10", 10.0, Now + 30 * Day, true, "admin", Now),
      Coupon(2, "EXPIRED", 50.0, Now - 5 * Day, true, "admin", Now),
      Coupon(3, "INACTIVE15", 15.0, Now + 90 * Day, false, "admin", Now) ]
  }

  const Alice: Caller := Caller("u2", "Jane Doe", Customer)
  const Bob: Caller := Caller("u3", "Sam Wilson", Customer)
  const Staff: Caller := Caller("u1", "Admin User", Admin)

  function TwoTravelers(code: Option<string>): Bookings.BookingRequest
  {
    Bookings.BookingRequest(Some("1"), Some(Now + 10 * Day), Some(2.0), code)
  }

  /** Two travelers, no coupon: 29000, confirmed, no snapshot. */
  lemma NoCouponBooking()
    ensures var r := Bookings.CreateBooking([Kerala()], SeedCoupons(), [], Alice, TwoTravelers(None), Now);
            && r.Ok? && r.value.1.totalPrice == 29000.0 && r.value.1.status == Confirmed
            && r.value.1.couponApplied == None
  {
  }

  /** SUMMER20 on 29000 gives 23200 and freezes {SUMMER20, 20}. */
  lemma Summer20Booking()
    ensures var r := Bookings.CreateBooking([Kerala()], SeedCoupons(), [], Alice, TwoTravelers(Some("SUMMER20")), Now);
            && r.Ok? && r.value.1.totalPrice == 23200.0
            && r.value.1.couponApplied == Some(CouponSnapshot("SUMMER20", 20.0))
  {
    assert Coupons.FindByCode(SeedCoupons(), "SUMMER20") == Some(SeedCoupons()[0]);
  }

  /** An expired coupon blocks the booking and is reported as expired by apply. */
  lemma ExpiredCoupon()
    ensures Bookings.CreateBooking([Kerala()], SeedCoupons(), [], Alice, TwoTravelers(Some("EXPIRED")), Now)
            == Err(InvalidOrExpiredCoupon)
    ensures Coupons.ApplyCoupon(SeedCoupons(), "EXPIRED", Now) == Err(CouponExpired)
  {
    assert Coupons.FindByCode(SeedCoupons(), "EXPIRED") == Some(SeedCoupons()[2]);
  }

  /** An inactive coupon fails both at apply time and at booking time. */
  lemma InactiveCoupon()
    ensures Bookings.CreateBooking([Kerala()], SeedCoupons(), [], Alice, TwoTravelers(Some("INACTIVE15")), Now)
            == Err(InvalidOrExpiredCoupon)
    ensures Coupons.ApplyCoupon(SeedCoupons(), "INACTIVE15", Now) == Err(CouponNotActive)
  {
    assert Coupons.FindByCode(SeedCoupons(), "INACTIVE15") == Some(SeedCoupons()[3]);
  }

  /** A customer cannot cancel someone else's booking; an admin can. */
  lemma ForeignCancel()
    ensures var made := Bookings.CreateBooking([Kerala()], SeedCoupons(), [], Bob, TwoTravelers(None), Now);
            && made.Ok?
            && Bookings.CancelBooking(made.value.0, Alice, made.value.1.id) == Err(NotAuthorizedToCancel)
            && Bookings.CancelBooking(made.value.0, Staff, made.value.1.id).Ok?
  {
  }
}
