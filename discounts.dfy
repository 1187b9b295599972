/** Discount codes of an event: the lookup of a redeemable code and the
    price it yields when a ticket is booked, and the duplicate-code lookup
    done when a code is added. */
module Discounts {
  import opened EventModel

  /** The predicate of the booking's discount lookup: the same code string,
      and an expiry strictly after the current time. */
  predicate Redeemable(dc: DiscountCode, code: string, now: Instant)
  {
    dc.code == code && now < dc.expiry
  }

  /** The first discount code that `code` redeems at time `now`. */
  function RedeemableIndex(codes: seq<DiscountCode>, code: string, now: Instant): (r: Option<nat>)
    ensures r.Some? ==> r.value < |codes| && Redeemable(codes[r.value], code, now)
    ensures r.Some? ==> forall j :: 0 <= j < r.value ==> !Redeemable(codes[j], code, now)
    ensures r.None? <==> forall j :: 0 <= j < |codes| ==> !Redeemable(codes[j], code, now)
  {
    FirstIndex(codes, (dc: DiscountCode) => Redeemable(dc, code, now))
  }

  /** The first discount code whose string equals `code`, whatever its
      expiry. */
  function CodeIndex(codes: seq<DiscountCode>, code: string): (r: Option<nat>)
    ensures r.Some? ==> r.value < |codes| && codes[r.value].code == code
    ensures r.None? <==> forall j :: 0 <= j < |codes| ==> codes[j].code != code
  {
    FirstIndex(codes, (dc: DiscountCode) => dc.code == code)
  }

  /** No two discount codes of an event share a code string. */
  predicate DistinctCodes(codes: seq<DiscountCode>)
  {
    forall i, j :: 0 <= i < j < |codes| ==> codes[i].code != codes[j].code
  }

  /** A price reduced by a percentage, in exact rational arithmetic. */
  function Discounted(price: real, percentage: real): real
  {
    price * (1.0 - percentage / 100.0)
  }

  /** The price a booking charges for a ticket of price `price`: the price
      itself when no code is supplied, the discounted price when the code
      redeems an entry, and an error otherwise. */
  function Quote(price: real, codes: seq<DiscountCode>, code: Option<string>, now: Instant): Result<real>
  {
    if !Supplied(code) then Ok(price)
    else match RedeemableIndex(codes, code.value, now)
      case None => Err(InvalidDiscountCode)
      case Some(d) => Ok(Discounted(price, codes[d].percentage))
  }

  /** A percentage between 0 and 100 never raises a non-negative price and
      never makes it negative. */
  lemma DiscountedWithinPrice(price: real, percentage: real)
    requires 0.0 <= percentage <= 100.0 && 0.0 <= price
    ensures 0.0 <= Discounted(price, percentage) <= price
  {

  }

  /** Without a code the price is charged as it is; with a code the quote
      succeeds exactly when some entry redeems it, and then charges the
      price reduced by the first such entry's percentage. */
  lemma QuoteOutcome(price: real, codes: seq<DiscountCode>, code: Option<string>, now: Instant)
    ensures !Supplied(code) ==> Quote(price, codes, code, now) == Ok(price)
    ensures Supplied(code) ==>
      (Quote(price, codes, code, now).Ok? <==>
        exists i :: 0 <= i < |codes| && Redeemable(codes[i], code.value, now))
    ensures Quote(price, codes, code, now).Err? ==>
      Quote(price, codes, code, now).error == InvalidDiscountCode
    ensures forall i ::
      (&& 0 <= i < |codes| && Supplied(code)
       && Redeemable(codes[i], code.value, now)
       && (forall j :: 0 <= j < i ==> !Redeemable(codes[j], code.value, now)))
      ==> Quote(price, codes, code, now) == Ok(Discounted(price, codes[i].percentage))
  {

  }

  /** A code every one of whose entries has expired (or that matches no
      entry at all) is refused. */
  lemma ExpiredCodeRejected(price: real, codes: seq<DiscountCode>, code: string, now: Instant)
    requires code != ""
    requires forall i :: 0 <= i < |codes| && codes[i].code == code ==> codes[i].expiry <= now
    ensures Quote(price, codes, Some(code), now) == Err(InvalidDiscountCode)
  {

  }

  /** When every entry's percentage lies between 0 and 100, a successful
      quote for a non-negative price lies between 0 and that price. */
  lemma QuoteWithinPrice(price: real, codes: seq<DiscountCode>, code: Option<string>, now: Instant)
    requires 0.0 <= price
    requires forall i :: 0 <= i < |codes| ==> 0.0 <= codes[i].percentage <= 100.0
    ensures Quote(price, codes, code, now).Ok? ==>
      0.0 <= Quote(price, codes, code, now).value <= price
  {

  }

  /** Appending a code whose string is not yet used keeps the code strings
      distinct. */
  lemma AppendNewCodeKeepsDistinct(codes: seq<DiscountCode>, dc: DiscountCode)
    requires DistinctCodes(codes) && CodeIndex(codes, dc.code).None?
    ensures DistinctCodes(codes + [dc])
  {

  }
}
