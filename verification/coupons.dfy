/** The coupon controller: create with a duplicate guard, list newest
    first, toggle isActive, and the advisory apply check. The coupon
    collection is a sequence of documents; findOne({ code }) is an exact
    match on the stored code. */
module Coupons {
  import opened Common
  import opened Text
  import opened Model
  import Seqs

  /** findOne({ code }): the first stored coupon whose code is exactly code. */
  function FindByCode(store: seq<Coupon>, code: string): (r: Option<Coupon>)
    ensures r.Some? ==> r.value in store && r.value.code == code
    ensures r.None? <==> forall c :: c in store ==> c.code != code
  {
    Seqs.Find(store, (c: Coupon) => c.code == code)
  }

  /** With unique codes the lookup finds the one coupon carrying the code. */
  lemma FindByCodeUnique(store: seq<Coupon>, c: Coupon)
    requires CouponStoreOk(store)
    requires c in store
    ensures FindByCode(store, c.code) == Some(c)
  {
    var r := FindByCode(store, c.code);
    var i :| 0 <= i < |store| && store[i] == c;
    var j :| 0 <= j < |store| && store[j] == r.value;
    if i != j {
      if i < j { assert store[i].code != store[j].code; } else { assert store[j].code != store[i].code; }
    }
  }

  /** What the apply endpoint returns on success. */
  datatype AppliedCoupon = AppliedCoupon(id: DocId, code: string, discountPercentage: real)

  /** The apply endpoint's checks, in the order it makes them: not found,
      then inactive, then expired (strictly before now). */
  function CheckForApply(found: Option<Coupon>, now: Timestamp): (r: Result<Coupon>)
    ensures found.None? ==> r == Err(InvalidCouponCode)
    ensures found.Some? && !found.value.isActive ==> r == Err(CouponNotActive)
    ensures found.Some? && found.value.isActive && found.value.expiryDate < now ==> r == Err(CouponExpired)
    ensures r.Ok? <==> found.Some? && found.value.isActive && now <= found.value.expiryDate
    ensures r.Ok? ==> r.value == found.value
  {
    match found
    case None => Err(InvalidCouponCode)
    case Some(c) =>
      if !c.isActive then Err(CouponNotActive)
      else if c.expiryDate < now then Err(CouponExpired)
      else Ok(c)
  }

  /** POST /coupons/apply: advisory; it reads the store and changes nothing. */
  function ApplyCoupon(store: seq<Coupon>, code: string, now: Timestamp): (r: Result<AppliedCoupon>)
    ensures (forall c :: c in store ==> c.code != code) ==> r == Err(InvalidCouponCode)
    ensures r.Err? ==> r.error in {InvalidCouponCode, CouponNotActive, CouponExpired}
    ensures r.Ok? ==> exists c :: && c in store && c.code == code && c.isActive && now <= c.expiryDate
                                  && r.value == AppliedCoupon(c.id, c.code, c.discountPercentage)
  {
    var found := FindByCode(store, code);
    match CheckForApply(found, now)
    case Err(e) => Err(e)
    case Ok(c) => Ok(AppliedCoupon(c.id, c.code, c.discountPercentage))
  }

  /** The apply endpoint reports the failures in a fixed order for the
      coupon the lookup finds. */
  lemma ApplyCouponPrecedence(store: seq<Coupon>, code: string, now: Timestamp)
    ensures FindByCode(store, code).None? ==> ApplyCoupon(store, code, now) == Err(InvalidCouponCode)
    ensures FindByCode(store, code).Some? && !FindByCode(store, code).value.isActive
            ==> ApplyCoupon(store, code, now) == Err(CouponNotActive)
    ensures var f := FindByCode(store, code);
            f.Some? && f.value.isActive && f.value.expiryDate < now ==> ApplyCoupon(store, code, now) == Err(CouponExpired)
    ensures var f := FindByCode(store, code);
            f.Some? && f.value.isActive && now <= f.value.expiryDate
            ==> ApplyCoupon(store, code, now) == Ok(AppliedCoupon(f.value.id, f.value.code, f.value.discountPercentage))
  {
  }

  /** POST /coupons: rejects a code that is already stored exactly as
      given; otherwise saves a new coupon through the schema, whose unique
      index still refuses a normalised code that is already taken. */
  function CreateCoupon(store: seq<Coupon>, caller: Caller, code: string, discountPercentage: Option<real>,
                        expiryDate: Option<Timestamp>, now: Timestamp): (r: Result<(seq<Coupon>, Coupon)>)
    ensures (exists c :: c in store && c.code == code) ==> r == Err(CouponExists)
    ensures r.Err? ==> r.error in {CouponExists, ValidationRejected, DuplicateKey}
    ensures r == Err(DuplicateKey) ==> && Normalize(code) != "" && caller.id != ""
                                       && discountPercentage.Some? && 1.0 <= discountPercentage.value <= 100.0
                                       && expiryDate.Some?
    ensures r.Ok? <==> && (forall c :: c in store ==> c.code != code && c.code != Normalize(code))
                       && Normalize(code) != "" && caller.id != ""
                       && discountPercentage.Some? && 1.0 <= discountPercentage.value <= 100.0
                       && expiryDate.Some?
    ensures r.Ok? ==> && r.value.0 == store + [r.value.1]
                      && r.value.1 == Coupon(r.value.1.id, Normalize(code), discountPercentage.value,
                                             expiryDate.value, true, caller.id, now)
                      && forall c :: c in store ==> c.id != r.value.1.id && c.code != r.value.1.code
  {
    if FindByCode(store, code).Some? then Err(CouponExists)
    else
      var id := Seqs.NextId(store, CouponId);
      var made := NewCoupon(id, code, discountPercentage, expiryDate, None, caller.id, now);
      if made.Err? then Err(made.error)
      else if FindByCode(store, made.value.code).Some? then Err(DuplicateKey)
      else
        assert forall c :: c in store ==> c.id != id;
        Ok((store + [made.value], made.value))
  }

  /** Creating a coupon keeps the collection's invariant. */
  lemma CreateCouponKeepsStoreOk(store: seq<Coupon>, caller: Caller, code: string, discountPercentage: Option<real>,
                                 expiryDate: Option<Timestamp>, now: Timestamp)
    requires CouponStoreOk(store)
    ensures var r := CreateCoupon(store, caller, code, discountPercentage, expiryDate, now);
            r.Ok? ==> CouponStoreOk(r.value.0)
  {
    if CreateCoupon(store, caller, code, discountPercentage, expiryDate, now).Err? { return; }
    var r := CreateCoupon(store, caller, code, discountPercentage, expiryDate, now).value;
    var s': seq<Coupon>, c: Coupon := r.0, r.1;
    assert ValidCoupon(c);
    forall i | 0 <= i < |s'| ensures ValidCoupon(s'[i]) {
      if i < |store| { assert s'[i] == store[i]; }
    }
    forall i, j | 0 <= i < j < |s'| ensures s'[i].code != s'[j].code && s'[i].id != s'[j].id {
      assert s'[i] == store[i];
      if j == |store| { assert store[i] in store; } else { assert s'[j] == store[j]; }
    }
  }

  /** GET /coupons: every coupon, newest first. */
  function GetCoupons(store: seq<Coupon>): (r: seq<Coupon>)
    ensures multiset(r) == multiset(store)
    ensures forall i, j :: 0 <= i < j < |r| ==> r[i].createdAt >= r[j].createdAt
  {
    Seqs.SortDesc(store, CouponCreatedAt)
  }

  /** PUT /coupons/:id: sets isActive on the coupon with that id and
      leaves every other field and every other coupon as it was. */
  function UpdateCoupon(store: seq<Coupon>, id: DocId, isActive: Option<bool>): (r: Result<(seq<Coupon>, Coupon)>)
    ensures (forall c :: c in store ==> c.id != id) <==> r == Err(CouponNotFound)
    ensures (exists c :: c in store && c.id == id) && isActive.None? ==> r == Err(ValidationRejected)
    ensures r.Ok? <==> (exists c :: c in store && c.id == id) && isActive.Some?
    ensures r.Ok? ==> isActive.Some? && exists k :: && 0 <= k < |store| && store[k].id == id
                                                   && r.value.1 == store[k].(isActive := isActive.value)
                                                   && r.value.0 == store[k := r.value.1]
  {
    match Seqs.FindIndex(store, (c: Coupon) => c.id == id)
    case None => Err(CouponNotFound)
    case Some(k) =>
      if isActive.None? then Err(ValidationRejected)
      else
        var c := store[k].(isActive := isActive.value);
        Ok((store[k := c], c))
  }

  /** Toggling a coupon keeps the collection's invariant. */
  lemma UpdateCouponKeepsStoreOk(store: seq<Coupon>, id: DocId, isActive: Option<bool>)
    requires CouponStoreOk(store)
    requires UpdateCoupon(store, id, isActive).Ok?
    ensures CouponStoreOk(UpdateCoupon(store, id, isActive).value.0)
  {
  }
}
