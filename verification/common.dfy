/** Shared wrappers: optional values, results, and the failures the
    controllers raise: the HTTP status and message text the controller
    sets, and for the two schema errors a stand-in for Mongoose's own
    message. */
module Common {

  datatype Option<+T> = None | Some(value: T)

  datatype Result<+T> = Ok(value: T) | Err(error: Failure)

  /** Every way a request handled by the core can fail. */
  datatype Failure =
    // bookingController.js
    | MissingBookingDetails
    | TourNotFound
    | InvalidOrExpiredCoupon
    | BookingNotFound
    | NotAuthorizedToCancel
    | AlreadyCancelled
    // couponController.js
    | CouponExists
    | CouponNotFound
    | InvalidCouponCode
    | CouponNotActive
    | CouponExpired
    // tourController.js
    | TourAlreadyReviewed
    | TourNotInDatabase
    // raised by the schema on save, not by a controller guard
    | ValidationRejected
    | DuplicateKey
  {
    /** The status the controller sets before throwing; None when the
        controller sets none and the error middleware decides. */
    function Status(): Option<nat>
    {
      match this
      case MissingBookingDetails => Some(400)
      case TourNotFound => Some(404)
      case InvalidOrExpiredCoupon => Some(400)
      case BookingNotFound => Some(404)
      case NotAuthorizedToCancel => Some(401)
      case AlreadyCancelled => Some(400)
      case CouponExists => Some(400)
      case CouponNotFound => Some(404)
      case InvalidCouponCode => Some(404)
      case CouponNotActive => Some(400)
      case CouponExpired => Some(400)
      case TourAlreadyReviewed => Some(400)
      case TourNotInDatabase => Some(404)
      case ValidationRejected => None
      case DuplicateKey => None
    }

    /** The message sent back in the response body. */
    function Message(): string
    {
      match this
      case MissingBookingDetails => "Missing booking details"
      case TourNotFound => "Tour not found"
      case InvalidOrExpiredCoupon => "Invalid or expired coupon code."
      case BookingNotFound => "Booking not found"
      case NotAuthorizedToCancel => "User not authorized to cancel this booking"
      case AlreadyCancelled => "Booking is already cancelled"
      case CouponExists => "Coupon with this code already exists"
      case CouponNotFound => "Coupon not found"
      case InvalidCouponCode => "Invalid coupon code"
      case CouponNotActive => "This coupon is not active"
      case CouponExpired => "This coupon has expired"
      case TourAlreadyReviewed => "Tour already reviewed"
      case TourNotInDatabase => "Tour not found in database. Cannot add review."
      case ValidationRejected => "Validation failed"
      case DuplicateKey => "E11000 duplicate key error"
    }
  }

  /** JavaScript truthiness of an optional string field: absent and "" are falsy. */
  predicate StringGiven(s: Option<string>)
  {
    s.Some? && s.value != ""
  }

  /** JavaScript truthiness of an optional number field: absent, NaN (both
      modelled as None) and 0 are falsy. */
  predicate NumberGiven(n: Option<real>)
  {
    n.Some? && n.value != 0.0
  }
}
