# Tour booking marketplace: a Dafny model of its core rules

This project models the core of a tour-booking marketplace in Dafny and proves properties of that model. The core covers:

- the tour catalog, with state and keyword filtering;
- the lookup that merges a tour's static catalog entry with its database review data;
- one review per user per tour, with the mean rating recomputed from all reviews;
- admin-issued percentage coupons, whose codes are stored upper-cased and trimmed;
- bookings, whose price and coupon snapshot are frozen when the booking is made;
- cancellation by the booking's owner or an admin;
- the client-side wishlist;
- the booking form's rules;
- the tour details page's carousel and itinerary accordion.

Each database collection is a sequence of immutable documents. Each controller handler is a pure function of the stores, the caller and "now". A handler that writes, or that can fail, returns a `Result`: either its value (together with the new stores when it writes) or a `Failure` that carries the handler's HTTP status and message. The listing handlers cannot fail and return the listed sequence. An optional request field is an `Option`, and JavaScript truthiness is spelled out: an empty string and the number 0 count as absent. Tour unit prices are whole numbers, as in the seed and mock data; discounts, traveler counts and computed prices are exact reals. Ids the server assigns are natural numbers, each larger than every id already in use.

Modules:

- `Common`: `Option`, `Result`, the failures and their messages.
- `Text`: ASCII case mapping, ECMAScript `trim`, `includes`, and the coupon-code setters.
- `Seqs`: filter, find, the descending sort by a key, and fresh ids.
- `Model`: the schemas and their defaults and validators.
- `Pricing`: the price rule.
- `Coupons`, `Bookings`, `Tours`: the three controllers.
- `Wishlist`, `TourDetails`, `BookingForm`: the client rules.
- `Scenarios`: the handlers evaluated on the seed coupons.

Behaviour of the code worth noting:

- The booking guard rejects only a falsy traveler count, so a negative count gets through.
- Expiry compares full instants. A coupon that expires exactly now is still accepted.
- A tour must pass both catalog filters when both parameters are given.
- The discounted price is used as computed, without clamping or rounding.
- The admin-only restriction on listing all bookings sits in the routes, not in the handler.

## Model

| member | source | states |
|---|---|---|
| Text.Lower | server/controllers/tourController.js:20-33 | toLowerCase maps every ASCII capital to its lower-case letter, keeps every other character, and leaves no capital letter |
| Text.Upper | client/components/BookingForm.tsx:129 | toUpperCase maps every ASCII lower-case letter to its capital, keeps every other character, and leaves no lower-case letter |
| Text.Normalize | server/models/couponModel.js:5-11 | the stored form of a coupon code has no lower-case ASCII letter and no white space at either end |
| Text.Trim | server/models/couponModel.js:10 | trim's result is an infix of the input, obtained by removing only white space from the two ends, and it neither starts nor ends with white space |
| Text.LeadingSpaces | server/models/couponModel.js:10 | the count of leading characters that trim removes: all of them are white space and the next one is not |
| Text.ContentEnd | server/models/couponModel.js:10 | the end of the part that trim keeps: everything after it is white space and the character before it is not |
| Text.TrimNoLower | server/models/couponModel.js:9-10 | trimming a code with no lower-case letter leaves none, so trim after uppercase keeps the upper-case form |
| Text.CutPointsUpper | server/models/couponModel.js:9-10 | upper-casing moves neither of trim's cut points |
| Text.Includes | server/controllers/tourController.js:27-33 | includes is true exactly when the needle occurs at some offset of the haystack |
| Text.NormalizedFixpoint | server/models/couponModel.js:9-10 | the setters leave a code that is already in stored form unchanged |
| Text.UpperTrimCommute | server/models/couponModel.js:9-10 | the uppercase and trim setters commute, so the order in which they are applied does not change the stored code |
| Text.NormalizeIdempotent | server/models/couponModel.js:9-10 | saving a stored code a second time leaves it unchanged |
| Seqs.Filter | server/controllers/tourController.js:19-21 | filter keeps exactly the elements that pass the test, in their original order |
| Seqs.FilterFilter | server/controllers/tourController.js:18-36 | filtering by p and then by q is the same as filtering once by p and q |
| Seqs.SortDesc | server/controllers/bookingController.js:63 | sort({createdAt: -1}) returns a permutation of its input ordered by non-increasing key |
| Seqs.FindIndex | server/controllers/couponController.js:42 | findIndex returns the first index that satisfies the test, and returns none exactly when no element satisfies it |
| Model.NewReview | server/models/tourModel.js:3-17 | a review is saved, with exactly the given fields, if and only if name, comment and user are all non-empty |
| Model.NewTour | server/models/tourModel.js:35-42 | price defaults to 0 and a new tour starts with no reviews, rating 0 and numReviews 0, which is a consistent rating |
| Model.MeanRatingInRange | types.ts:14 | when every review rating is in 1..5, a consistent tour rating is also in 1..5 |
| Model.MeanBounds | types.ts:14 | a rating r whose product with a positive review count n is a sum between n and 5n lies in 1..5 |
| Model.TourById | server/controllers/bookingController.js:17-22 | findById finds a tour carrying the id, and finds none exactly when no tour carries it |
| Model.NewCoupon | server/models/couponModel.js:3-36 | a coupon saves if and only if its normalised code and its user are non-empty, the discount is given and in 1..100, fractions included, and the expiry is given. The saved code is the normalised code, isActive defaults to true, and the saved coupon is valid |
| Model.NewBooking | server/models/bookingModel.js:19-38 | travelers defaults to 1, totalPrice to 0 and status to pending; every other field is kept as given |
| Pricing.Discounted | server/controllers/bookingController.js:34-35 | the discounted price times 100 equals the original price times (100 - discount), and the amount taken off is discount percent of the original price |
| Pricing.Total | server/controllers/bookingController.js:24-40 | without a coupon the price is unit price times travelers; with a coupon it is that price less the coupon's percentage |
| Pricing.DiscountBounds | server/models/couponModel.js:12-17 | a discount in 1..100 keeps a non-negative price between 0 and the original price |
| Coupons.FindByCode | server/controllers/couponController.js:10 | findOne({code}) returns a stored coupon whose code equals the given code exactly, and returns none exactly when no stored coupon has that code |
| Coupons.FindByCodeUnique | server/models/couponModel.js:5-11 | when codes are unique, looking up a stored coupon's code returns that coupon |
| Coupons.CheckForApply | server/controllers/couponController.js:62-75 | the apply checks run in order: not found (404), then inactive, then expired (strictly before now). A found coupon that is active and not expired passes |
| Coupons.ApplyCoupon | server/controllers/couponController.js:57-82 | a code no coupon carries is rejected as invalid; every failure is one of the three apply errors; a success returns the id, code and discount of an active, unexpired stored coupon with exactly that code |
| Coupons.ApplyCouponPrecedence | server/controllers/couponController.js:60-81 | for the coupon the lookup finds, each of the four outcomes of the apply endpoint, in precedence order |
| Coupons.CreateCoupon | server/controllers/couponController.js:7-26 | a code already stored exactly as given is rejected as a duplicate. Creation succeeds if and only if neither the raw nor the normalised code is taken and the schema accepts the fields. A duplicate-key failure happens only for fields the schema accepts, since validation runs before the unique index. On success the store gains exactly one coupon, with a fresh id, the normalised code, isActive true and the caller as creator |
| Coupons.CreateCouponKeepsStoreOk | server/models/couponModel.js:3-31 | creating a coupon keeps every stored coupon valid and keeps codes and ids unique |
| Coupons.GetCoupons | server/controllers/couponController.js:31-34 | the listing is a permutation of the store, newest first |
| Coupons.UpdateCoupon | server/controllers/couponController.js:39-52 | an unknown id is rejected with 404, and only an unknown id is. The update succeeds if and only if the id is known and isActive is given. On success only the isActive field of the coupon with that id changes, and it takes the requested value |
| Coupons.UpdateCouponKeepsStoreOk | server/controllers/couponController.js:44-47 | toggling isActive keeps the coupon store valid |
| Bookings.CreateBooking | server/controllers/bookingController.js:9-54 | the errors in order: missing details (400), unknown tour (404), invalid or expired coupon (400). Creation succeeds if and only if none of them applies. On success the store gains exactly one booking, with a fresh id, confirmed, for the caller, tour, date and travelers. Its price is the discounted price and its snapshot is the found coupon's code and discount, or the plain price and no snapshot when no coupon is named |
| Bookings.CreatedBookingIsConfirmed | server/controllers/bookingController.js:48 | a created booking never has the schema's default status, pending |
| Bookings.CreatedPriceBounds | server/controllers/bookingController.js:24-39 | given a valid coupon store, a non-negative unit price and positive travelers, the stored price lies between 0 and the undiscounted price |
| Bookings.ApplyAgreesWithBooking | server/controllers/bookingController.js:27-39 | the apply endpoint accepts exactly the coupons that booking creation accepts, and returns the code and discount that the booking freezes |
| Bookings.CreateKeepsIdsUnique | server/controllers/bookingController.js:42-52 | creating a booking keeps booking ids unique |
| Bookings.GetMyBookings | server/controllers/bookingController.js:59-65 | each of the caller's bookings appears as often as it does in the store, no other booking appears, and the list is newest first |
| Bookings.GetAllBookings | server/controllers/bookingController.js:70-76 | the listing is a permutation of the store, newest first |
| Bookings.BookingIndex | server/controllers/bookingController.js:82 | findById returns the first booking with the id, and returns none exactly when no booking has it |
| Bookings.CancelBooking | server/controllers/bookingController.js:81-108 | the errors in order: not found (404), neither owner nor admin (401), already cancelled (400). Cancelling succeeds if and only if none applies. On success only that booking's status changes, and it becomes cancelled |
| Bookings.CancelTwiceFails | server/controllers/bookingController.js:95-98 | after a successful cancel, a second cancel of the same booking fails for any caller; for the same caller it fails as already cancelled |
| Bookings.CancelKeepsFrozenFields | server/controllers/bookingController.js:100-101 | cancelling changes no field other than status in any booking, so frozen prices and snapshots are kept |
| Tours.GetTours | server/controllers/tourController.js:12-39 | with neither parameter the whole catalog is returned. Otherwise the result is a subsequence of the catalog, and a tour is in it if and only if it passes every filter whose parameter is given; a passing tour appears as often as in the catalog and a failing one not at all |
| Tours.BothFiltersConjoin | server/controllers/tourController.js:18-36 | state then keyword is the same as a single filter on their conjunction, in catalog order |
| Tours.KeywordInTitle | server/controllers/tourController.js:25-27 | a keyword that is a piece of a tour's lower-cased title matches that tour |
| Tours.GetTourById | server/controllers/tourController.js:44-76 | 404 if and only if the id is not in the static catalog, and success for every id in it, whatever the database lookup returns. The catalog fields always come from the static entry; reviews, rating and numReviews come from the database document when there is one; a missing document or a failed database call returns the static entry unchanged |
| Tours.MergedRatingConsistent | server/controllers/tourController.js:53-60 | for an id in the static catalog, the merged tour keeps the database document's consistent rating |
| Tours.WithReview | server/controllers/tourController.js:105-110 | appending a review recomputes numReviews as the review count and rating as the mean, and changes no other field |
| Tours.CreateTourReview | server/controllers/tourController.js:83-118 | a tour not in the database gives 404, and a user who has already reviewed the tour gives 400. Otherwise the review saves if and only if the schema accepts it, and the tour gains it with a recomputed count and mean and no other change |
| Tours.ReviewOncePerUser | server/controllers/tourController.js:89-96 | after a user reviews a tour, any further review by the same user is rejected as already reviewed |
| Tours.ReviewedRatingInRange | server/controllers/tourController.js:107-110 | when all ratings are in 1..5, the recomputed mean is in 1..5 |
| Wishlist.Add | contexts/WishlistContext.tsx:31-38 | an id already in the list leaves it unchanged; any other id is appended |
| Wishlist.Remove | contexts/WishlistContext.tsx:40-42 | the id is no longer present, every other id keeps its multiplicity, and the order is kept |
| Wishlist.Contains | contexts/WishlistContext.tsx:44-46 | true exactly when some entry equals the id |
| Wishlist.ContainsAfterChange | contexts/WishlistContext.tsx:31-46 | after adding an id the list contains exactly the old entries and that id; after removing it, exactly the old entries other than that id |
| Wishlist.AddIdempotent | contexts/WishlistContext.tsx:33-35 | adding twice is the same as adding once |
| Wishlist.AddKeepsNoDuplicates | contexts/WishlistContext.tsx:31-38 | adding keeps the list free of duplicates |
| Wishlist.RemoveKeepsNoDuplicates | contexts/WishlistContext.tsx:40-42 | removing keeps the list free of duplicates |
| Wishlist.RemoveUndoesAdd | contexts/WishlistContext.tsx:31-42 | removing an id that was just added restores the list |
| Wishlist.RemoveIdempotent | contexts/WishlistContext.tsx:40-42 | removing twice is the same as removing once |
| Wishlist.Toggle | client/pages/TourDetailsPage.tsx:77-83 | the toggle flips whether the tour is in the wishlist, and every other tour stays in or out of it as before |
| Wishlist.ToggleTwice | client/pages/TourDetailsPage.tsx:77-83 | toggling an absent tour twice restores the list |
| TourDetails.NextImage | client/pages/TourDetailsPage.tsx:44-49 | from a valid index, next moves to (i + 1) mod the image count and stays in range |
| TourDetails.PrevImage | client/pages/TourDetailsPage.tsx:51-56 | from a valid index, previous moves to (i - 1) mod the image count and stays in range |
| TourDetails.PrevUndoesNext | client/pages/TourDetailsPage.tsx:44-56 | next and previous undo each other |
| TourDetails.FullCycle | client/pages/TourDetailsPage.tsx:44-49 | pressing next as many times as there are images returns to the starting image |
| TourDetails.InitialPageState | client/pages/TourDetailsPage.tsx:14-15 | the page opens on image 0 with only day 1 expanded |
| TourDetails.ToggleDay | client/pages/TourDetailsPage.tsx:149 | clicking a day flips whether that day is open and leaves every other day closed |
| TourDetails.ToggleDayTwice | client/pages/TourDetailsPage.tsx:149-166 | clicking the open day twice restores the page; clicking a closed day twice leaves every day closed |
| BookingForm.SetTravelersAsWritten | client/components/BookingForm.tsx:100 | the handler as written keeps a positive number, and a missing or non-positive one becomes 1, so the count is always positive |
| BookingForm.FractionalTravelersBelowMinimum | client/components/BookingForm.tsx:100-101 | typing 0.5 stores 0.5, below the field's declared minimum of 1, and the preview then shows half the unit price |
| BookingForm.SetTravelers | client/components/BookingForm.tsx:100-101 | the corrected handler always gives a whole count of at least 1: a value of at least 1 is rounded down to a whole number, a whole one is kept, and anything else becomes 1 |
| BookingForm.SetTravelersAgreement | client/components/BookingForm.tsx:100 | the corrected handler and the handler as written agree exactly on a missing value, on a value of at most 0, and on a whole number |
| BookingForm.InitialFormShowsUnitPrice | client/components/BookingForm.tsx:17-28 | the form opens with one traveler and no coupon, and shows the unit price as both original and total |
| BookingForm.ChangeTravelers | client/components/BookingForm.tsx:100 | a traveler edit as written stores a positive number as typed and anything else as 1, so the count stays positive, and changes nothing else |
| BookingForm.ChangeTravelersCorrected | client/components/BookingForm.tsx:100-101 | a traveler edit with the corrected handler stores a whole count of at least 1, keeps a whole input of at least 1, and changes nothing else |
| BookingForm.ChangeCouponCode | client/components/BookingForm.tsx:129-130 | the typed code is stored upper-cased, so it has the typed length and no lower-case letter, and the field ignores input once a coupon is applied |
| BookingForm.PricePreview | client/components/BookingForm.tsx:30-40 | the preview's original price is unit price times travelers, and its total has the applied coupon's percentage taken off |
| BookingForm.PreviewIsServerPrice | client/components/BookingForm.tsx:34-36 | the preview total equals the price the server computes from the same inputs |
| BookingForm.ApplyCouponClick | client/components/BookingForm.tsx:43-56 | an empty code shows an error and sends nothing. A success records the returned code and discount. Any failure clears the applied coupon and shows a message. Every field other than the applied coupon and the coupon message is kept |
| BookingForm.AppliedCouponIsStored | client/components/BookingForm.tsx:50-51 | a coupon the form records is an active, unexpired stored coupon with that code and discount |
| BookingForm.Submit | client/components/BookingForm.tsx:58-79 | without a user the form goes to login; without a date it shows an error. Otherwise it sends the tour, date and travelers, and names a coupon if and only if one was applied |
| BookingForm.BookedTotal | server/controllers/bookingController.js:24-47 | a created booking's stored price is the price rule applied to the tour's unit price, the travelers and the booking's own coupon snapshot |
| BookingForm.BookedPriceMatchesPreview | client/components/BookingForm.tsx:73-79 | when the stored tour has the price the form shows and the applied coupon still carries its discount, the booked price is the previewed total |
| Scenarios.NoCouponBooking | server/controllers/bookingController.js:24-50 | two travelers on a 14500 tour without a coupon book at 29000, confirmed |
| Scenarios.Summer20Booking | server/data/coupons.js:15-20 | SUMMER20 takes 20% off: 23200, with the snapshot SUMMER20/20 |
| Scenarios.ExpiredCoupon | server/data/coupons.js:27-32 | the seeded EXPIRED coupon is refused both at booking and at apply |
| Scenarios.InactiveCoupon | server/data/coupons.js:33-38 | the seeded INACTIVE15 coupon is refused both at booking and at apply |
| Scenarios.ForeignCancel | server/controllers/bookingController.js:89-93 | a customer cannot cancel another customer's booking, and an admin can |

## Left out

- Authentication and authorisation middleware: the caller is a parameter. The admin gate on the coupon routes and on listing all bookings sits in the routes and middleware, and is not modelled.
- populate(): the joined user and tour fields in listings and responses are display projections of documents already modelled.
- Date parsing and time zones: dates are integer instants. The client form's `min` of today on the date input is not modelled, and the server does not check it.
- Floating-point arithmetic: prices are exact reals, so JavaScript rounding of `price * travelers * (1 - d/100)` is not modelled.
- Unicode case mapping: toLowerCase/toUpperCase are modelled on ASCII letters only.
- Mongoose cast errors: an id that is not a valid ObjectId, `Number()` of a non-numeric string (NaN), and an absent `code` in the coupon requests are not modelled. The model's request fields are typed values; discounts, ratings and traveler counts are reals, so fractional values are covered.
- Coupons.FindByCode: the coupon lookups `findOne({ code })` (server/controllers/couponController.js:10 and 60, server/controllers/bookingController.js:28) are modelled as an exact match on the stored code. Depending on the Mongoose version, the query filter may be cast through the schema's uppercase and trim setters, which would make the lookup case-insensitive. The duplicate-key path of Coupons.CreateCoupon and the case-sensitive outcomes of the apply and booking handlers rest on this assumption.
- The HTTP status of schema validation and duplicate-key errors: these depend on the error middleware, so `Failure.Status` returns none for them.
- Bookings.GetMyBookings: does not state the order among bookings with equal createdAt, because the sort's tie order is not specified by the store. The same holds for Bookings.GetAllBookings, Coupons.GetCoupons and Seqs.SortDesc.
- The review rating range: the 1..5 range comes from the client type and the server does not enforce it, so the rating lemmas take it as a premise.
- The category enum is the client type's. The server schema stores any string.
- The tour's creator field and timestamps other than createdAt are not modelled, because no handler in the core reads them.
- Concurrency: two simultaneous saves, and the unique index racing the duplicate check, are not modelled.
- The travel-tip endpoint (generateTourTip and the Gemini service): it calls an external service.
- BookingForm.Submit: the browser's HTML constraint validation is not modelled. The date is `required`, and travelers is `required` with `min="1"` and step 1, so a browser blocks a submit with an empty date or 0.5 travelers before handleBooking runs. Submit and BookingForm.BookedPriceMatchesPreview model handleBooking as if it were called on any form state.
- localStorage persistence of the wishlist, and the React loading, success and navigation state of the form: these are I/O and rendering.
- The seeder's bulk inserts and the static catalog data file: the catalog is a parameter.

## Findings

| source | as written | input that shows it | evidently intended | confidence | as-written member | corrected member |
|---|---|---|---|---|---|---|
| client/components/BookingForm.tsx:100 | the travelers handler keeps any number greater than 0 | typing 0.5 stores 0.5 and the price preview shows half the unit price; the field's min/step validation then blocks the submit | a whole traveler count of at least 1, as `min="1"` and the default step declare | medium, not executed | BookingForm.SetTravelersAsWritten, BookingForm.ChangeTravelers (counterexample BookingForm.FractionalTravelersBelowMinimum) | BookingForm.SetTravelers, BookingForm.ChangeTravelersCorrected |
