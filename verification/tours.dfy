/** The tour controller: catalog filtering by state and keyword, the
    lookup that merges the static catalog entry with the database's
    review data, and review submission. */
module Tours {
  import opened Common
  import opened Text
  import opened Model
  import Seqs

  // ------------------------------------------------------------- filtering

  /** The state filter: equal after lower-casing both sides. */
  predicate MatchesState(t: Tour, state: string)
  {
    Lower(t.state) == Lower(state)
  }

  predicate DayMatches(d: DayPlan, kw: string)
  {
    Includes(Lower(d.title), kw) || Includes(Lower(d.description), kw)
  }

  /** The keyword filter, for an already lower-cased keyword: it occurs in
      the title, location, state or description, or in the title or
      description of some itinerary day. */
  predicate MatchesKeyword(t: Tour, kw: string)
  {
    || Includes(Lower(t.title), kw)
    || Includes(Lower(t.location), kw)
    || Includes(Lower(t.state), kw)
    || Includes(Lower(t.description), kw)
    || exists i :: 0 <= i < |t.itinerary| && DayMatches(t.itinerary[i], kw)
  }

  function ByState(catalog: seq<Tour>, state: string): seq<Tour>
  {
    Seqs.Filter(catalog, (t: Tour) => MatchesState(t, state))
  }

  function ByKeyword(catalog: seq<Tour>, keyword: string): seq<Tour>
  {
    Seqs.Filter(catalog, (t: Tour) => MatchesKeyword(t, Lower(keyword)))
  }

  /** A tour passes every filter whose query parameter is truthy. */
  predicate PassesFilters(t: Tour, keyword: Option<string>, state: Option<string>)
  {
    && (StringGiven(state) ==> MatchesState(t, state.value))
    && (StringGiven(keyword) ==> MatchesKeyword(t, Lower(keyword.value)))
  }

  /** GET /tours?keyword=&state=: the state filter, then the keyword
      filter, each applied only when its parameter is truthy. */
  function GetTours(catalog: seq<Tour>, keyword: Option<string>, state: Option<string>): (r: seq<Tour>)
    ensures !StringGiven(keyword) && !StringGiven(state) ==> r == catalog
    ensures Seqs.IsSubsequence(r, catalog)
    ensures forall t :: t in r <==> t in catalog && PassesFilters(t, keyword, state)
    ensures forall t :: multiset(r)[t] == if PassesFilters(t, keyword, state) then multiset(catalog)[t] else 0
  {
    var byState := if StringGiven(state) then ByState(catalog, state.value) else catalog;
    Seqs.SubsequenceRefl(catalog);
    forall t ensures multiset(byState)[t] == if StringGiven(state) ==> MatchesState(t, state.value)
                                             then multiset(catalog)[t] else 0 {
      if StringGiven(state) { Seqs.FilterMultiset(catalog, (t: Tour) => MatchesState(t, state.value), t); }
    }
    if StringGiven(keyword) then
      var r := ByKeyword(byState, keyword.value);
      Seqs.SubsequenceTrans(r, byState, catalog);
      forall t ensures multiset(r)[t] == if PassesFilters(t, keyword, state) then multiset(catalog)[t] else 0 {
        Seqs.FilterMultiset(byState, (t: Tour) => MatchesKeyword(t, Lower(keyword.value)), t);
      }
      r
    else byState
  }

  /** Both filters together keep exactly the tours that pass both, in
      catalog order: applying state first then keyword is one conjunctive
      filter. */
  lemma BothFiltersConjoin(catalog: seq<Tour>, keyword: string, state: string)
    requires keyword != "" && state != ""
    ensures GetTours(catalog, Some(keyword), Some(state))
            == Seqs.Filter(catalog, (t: Tour) => MatchesState(t, state) && MatchesKeyword(t, Lower(keyword)))
  {
    Seqs.FilterFilter(catalog, (t: Tour) => MatchesState(t, state), (t: Tour) => MatchesKeyword(t, Lower(keyword)),
                      (t: Tour) => MatchesState(t, state) && MatchesKeyword(t, Lower(keyword)));
  }

  /** A keyword matches a tour's title whenever it is a lower-cased piece of it. */
  lemma KeywordInTitle(t: Tour, kw: string, i: int)
    requires 0 <= i && i + |kw| <= |t.title| && Lower(t.title)[i..i + |kw|] == kw
    ensures MatchesKeyword(t, kw)
  {
    assert OccursAt(Lower(t.title), kw, i);
  }

  // ---------------------------------------------------------------- lookup

  /** The outcome of the database lookup for a tour: a document, no
      document, or a failed call (for instance, no connection). */
  datatype DbLookup = DbFound(tour: Tour) | DbMissing | DbFailed

  /** GET /tours/:id: the static catalog decides existence; the database
      only contributes reviews, rating and numReviews, and any database
      miss or failure falls back to the static entry. */
  function GetTourById(staticTours: seq<Tour>, id: TourId, db: DbLookup): (r: Result<Tour>)
    ensures TourById(staticTours, id).None? <==> r == Err(TourNotFound)
    ensures r.Ok? <==> TourById(staticTours, id).Some?
    ensures TourById(staticTours, id).Some? && !db.DbFound? ==> r == Ok(TourById(staticTours, id).value)
    ensures r.Ok? ==> var st := TourById(staticTours, id).value;
                      r.value.(reviews := st.reviews, rating := st.rating, numReviews := st.numReviews) == st
    ensures r.Ok? && db.DbFound? ==> && r.value.reviews == db.tour.reviews
                                     && r.value.rating == db.tour.rating
                                     && r.value.numReviews == db.tour.numReviews
    ensures r.Ok? && !db.DbFound? ==> r.value == TourById(staticTours, id).value
  {
    match TourById(staticTours, id)
    case None => Err(TourNotFound)
    case Some(st) =>
      match db
      case DbFound(d) => Ok(st.(reviews := d.reviews, rating := d.rating, numReviews := d.numReviews))
      case _ => Ok(st)
  }

  /** The merged tour shows the database's consistent rating. */
  lemma MergedRatingConsistent(staticTours: seq<Tour>, id: TourId, d: Tour)
    requires RatingConsistent(d)
    requires TourById(staticTours, id).Some?
    ensures RatingConsistent(GetTourById(staticTours, id, DbFound(d)).value)
  {
  }

  // --------------------------------------------------------------- reviews

  predicate HasReviewBy(t: Tour, user: UserId)
  {
    exists i :: 0 <= i < |t.reviews| && t.reviews[i].user == user
  }

  /** The tour after a review is appended and the derived fields recomputed. */
  function WithReview(t: Tour, review: Review): (r: Tour)
    ensures r.reviews == t.reviews + [review]
    ensures RatingConsistent(r)
    ensures r.(reviews := t.reviews, rating := t.rating, numReviews := t.numReviews) == t
  {
    var reviews := t.reviews + [review];
    assert reviews[..|reviews| - 1] == t.reviews;
    t.(reviews := reviews, numReviews := |reviews|, rating := RatingSum(reviews) / |reviews| as real)
  }

  /** POST /tours/:id/reviews: the tour must be in the database and not
      yet reviewed by the caller; the review is appended and numReviews and
      rating are recomputed from all reviews. */
  function CreateTourReview(db: seq<Tour>, id: TourId, caller: Caller, rating: real, comment: string,
                            now: Timestamp): (r: Result<(seq<Tour>, Tour)>)
    ensures TourIndex(db, id).None? ==> r == Err(TourNotInDatabase)
    ensures TourIndex(db, id).Some? && HasReviewBy(db[TourIndex(db, id).value], caller.id)
            ==> r == Err(TourAlreadyReviewed)
    ensures r.Ok? <==> && TourIndex(db, id).Some? && !HasReviewBy(db[TourIndex(db, id).value], caller.id)
                       && NewReview(caller.name, rating, comment, caller.id, now).Ok?
    ensures r.Ok? ==> var k := TourIndex(db, id).value;
                      && r.value.0 == db[k := r.value.1]
                      && r.value.1.reviews == db[k].reviews + [Review(caller.name, rating, comment, caller.id, now)]
                      && r.value.1.numReviews == |r.value.1.reviews|
                      && r.value.1.rating * |r.value.1.reviews| as real == RatingSum(r.value.1.reviews)
                      && r.value.1.(reviews := db[k].reviews, rating := db[k].rating, numReviews := db[k].numReviews)
                         == db[k]
  {
    match TourIndex(db, id)
    case None => Err(TourNotInDatabase)
    case Some(k) =>
      var t := db[k];
      if HasReviewBy(t, caller.id) then Err(TourAlreadyReviewed)
      else
        match NewReview(caller.name, rating, comment, caller.id, now)
        case Err(e) => Err(e)
        case Ok(review) =>
          var t' := WithReview(t, review);
          Ok((db[k := t'], t'))
  }

  /** A user who has reviewed a tour cannot review it again. */
  lemma ReviewOncePerUser(db: seq<Tour>, id: TourId, caller: Caller, rating: real, comment: string, now: Timestamp,
                          rating2: real, comment2: string, later: Timestamp)
    requires CreateTourReview(db, id, caller, rating, comment, now).Ok?
    ensures var after := CreateTourReview(db, id, caller, rating, comment, now).value.0;
            CreateTourReview(after, id, caller, rating2, comment2, later) == Err(TourAlreadyReviewed)
  {
    var k := TourIndex(db, id).value;
    var res := CreateTourReview(db, id, caller, rating, comment, now).value;
    var after := res.0;
    assert after[k] == res.1;
    assert after[k].id == id;
    assert forall i :: 0 <= i < k ==> after[i] == db[i];
    var k' := TourIndex(after, id);
    assert k'.Some? by { assert after[k] in after; }
    assert k'.value <= k;
    var n := |db[k].reviews|;
    assert after[k].reviews[n].user == caller.id;
  }

  /** While every rating is in the documented 1-5 range, so is the
      recomputed mean. */
  lemma ReviewedRatingInRange(db: seq<Tour>, id: TourId, caller: Caller, rating: real, comment: string, now: Timestamp)
    requires CreateTourReview(db, id, caller, rating, comment, now).Ok?
    requires forall i :: 0 <= i < |db[TourIndex(db, id).value].reviews| ==> ValidRating(db[TourIndex(db, id).value].reviews[i].rating)
    requires ValidRating(rating)
    ensures var t := CreateTourReview(db, id, caller, rating, comment, now).value.1;
            1.0 <= t.rating <= 5.0
  {
    var t := CreateTourReview(db, id, caller, rating, comment, now).value.1;
    var earlier := db[TourIndex(db, id).value].reviews;
    assert forall i :: 0 <= i < |t.reviews| ==> ValidRating(t.reviews[i].rating) by {
      forall i | 0 <= i < |t.reviews| ensures ValidRating(t.reviews[i].rating) {
        if i < |earlier| { assert t.reviews[i] == earlier[i]; }
      }
    }
    MeanRatingInRange(t);
  }
}
