/** The decision part of booking a ticket: the guards a booking passes
    through once its event is found, in the order the handler runs them, and
    the event that results from a successful booking. */
module Booking {
  import opened EventModel
  import opened Discounts

  /** The first ticket type whose name is `name`. */
  function TicketIndex(types: seq<TicketType>, name: string): (r: Option<nat>)
    ensures r.Some? ==> r.value < |types| && types[r.value].name == name
    ensures r.Some? ==> forall j :: 0 <= j < r.value ==> types[j].name != name
    ensures r.None? <==> forall j :: 0 <= j < |types| ==> types[j].name != name
  {
    FirstIndex(types, (t: TicketType) => t.name == name)
  }

  /** An admitted booking: the index of the ticket type sold and the price
      charged for it. */
  datatype Sale = Sale(index: nat, price: real)

  /** The guards of a booking against the event `e`: the attendee must not
      attend already, the ticket type must exist, a supplied discount code
      must be redeemable, and only then must a ticket of the type be left. */
  function Admission(e: Event, attendee: UserId, ticketType: string, code: Option<string>, now: Instant): Result<Sale>
  {
    if attendee in e.attendees then Err(AlreadyAttending)
    else match TicketIndex(e.ticketTypes, ticketType)
      case None => Err(TicketTypeNotFound)
      case Some(i) =>
        var ticket := e.ticketTypes[i];
        match Quote(ticket.price, e.discountCodes, code, now)
        case Err(failure) => Err(failure)
        case Ok(price) =>
          if ticket.quantity <= 0 then Err(SoldOut) else Ok(Sale(i, price))
  }

  /** The event after selling a ticket of type `i` to `attendee`: that
      type's `quantity` goes down by one, its `remaining` goes up by one,
      and the attendee joins the attendee list. */
  function Sold(e: Event, i: nat, attendee: UserId): Event
    requires i < |e.ticketTypes|
  {
    var t := e.ticketTypes[i];
    e.(ticketTypes := e.ticketTypes[i := t.(quantity := t.quantity - 1, remaining := t.remaining + 1)],
       attendees := e.attendees + [attendee])
  }

  /** No ticket type has a negative `quantity`. */
  predicate StockNonNegative(types: seq<TicketType>)
  {
    forall i :: 0 <= i < |types| ==> types[i].quantity >= 0
  }

  /** What each guard decides, in the order the handler evaluates them. */
  lemma AdmissionGuards(e: Event, attendee: UserId, ticketType: string, code: Option<string>, now: Instant)
    ensures attendee in e.attendees ==>
      Admission(e, attendee, ticketType, code, now) == Err(AlreadyAttending)
    ensures attendee !in e.attendees && (forall j :: 0 <= j < |e.ticketTypes| ==> e.ticketTypes[j].name != ticketType) ==>
      Admission(e, attendee, ticketType, code, now) == Err(TicketTypeNotFound)
    ensures (&& attendee !in e.attendees && TicketIndex(e.ticketTypes, ticketType).Some?
             && Supplied(code)
             && (forall j :: 0 <= j < |e.discountCodes| ==> !Redeemable(e.discountCodes[j], code.value, now)))
      ==> Admission(e, attendee, ticketType, code, now) == Err(InvalidDiscountCode)
    ensures (&& attendee !in e.attendees && TicketIndex(e.ticketTypes, ticketType).Some?
             && Quote(e.ticketTypes[TicketIndex(e.ticketTypes, ticketType).value].price, e.discountCodes, code, now).Ok?
             && e.ticketTypes[TicketIndex(e.ticketTypes, ticketType).value].quantity <= 0)
      ==> Admission(e, attendee, ticketType, code, now) == Err(SoldOut)
  {
  }

  /** A booking is admitted exactly when every guard passes; it then sells
      the first ticket type of that name, which has a ticket left, at the
      quoted price. */
  lemma AdmissionSucceeds(e: Event, attendee: UserId, ticketType: string, code: Option<string>, now: Instant)
    ensures Admission(e, attendee, ticketType, code, now).Ok? <==>
      && attendee !in e.attendees
      && TicketIndex(e.ticketTypes, ticketType).Some?
      && Quote(e.ticketTypes[TicketIndex(e.ticketTypes, ticketType).value].price, e.discountCodes, code, now).Ok?
      && e.ticketTypes[TicketIndex(e.ticketTypes, ticketType).value].quantity > 0
    ensures Admission(e, attendee, ticketType, code, now).Ok? ==>
      var sale := Admission(e, attendee, ticketType, code, now).value;
      && sale.index < |e.ticketTypes|
      && e.ticketTypes[sale.index].name == ticketType
      && (forall j :: 0 <= j < sale.index ==> e.ticketTypes[j].name != ticketType)
      && e.ticketTypes[sale.index].quantity > 0
      && Quote(e.ticketTypes[sale.index].price, e.discountCodes, code, now) == Ok(sale.price)
  {
  }

  /** An expired or unknown discount code is refused before the stock is
      looked at: a sold-out ticket type with a bad code yields the discount
      error, not the sold-out one. */
  lemma DiscountCheckedBeforeStock(e: Event, attendee: UserId, ticketType: string, code: string, now: Instant)
    requires attendee !in e.attendees && code != ""
    requires exists j :: 0 <= j < |e.ticketTypes| && e.ticketTypes[j].name == ticketType
    requires forall j :: 0 <= j < |e.discountCodes| && e.discountCodes[j].code == code ==> e.discountCodes[j].expiry <= now
    ensures Admission(e, attendee, ticketType, Some(code), now) == Err(InvalidDiscountCode)
  {

  }

  /** Selling changes only the sold type's two counters, by one each and in
      opposite directions, and appends the attendee; the ticket types'
      names and prices, the discount codes and the feedback stay as they
      were. */
  lemma SoldEffect(e: Event, i: nat, attendee: UserId)
    requires i < |e.ticketTypes|
    ensures |Sold(e, i, attendee).ticketTypes| == |e.ticketTypes|
    ensures Sold(e, i, attendee).ticketTypes[i].quantity == e.ticketTypes[i].quantity - 1
    ensures Sold(e, i, attendee).ticketTypes[i].remaining == e.ticketTypes[i].remaining + 1
    ensures Sold(e, i, attendee).ticketTypes[i].quantity + Sold(e, i, attendee).ticketTypes[i].remaining
      == e.ticketTypes[i].quantity + e.ticketTypes[i].remaining
    ensures forall j :: 0 <= j < |e.ticketTypes| ==>
      && Sold(e, i, attendee).ticketTypes[j].name == e.ticketTypes[j].name
      && Sold(e, i, attendee).ticketTypes[j].price == e.ticketTypes[j].price
    ensures forall j :: 0 <= j < |e.ticketTypes| && j != i ==>
      Sold(e, i, attendee).ticketTypes[j] == e.ticketTypes[j]
    ensures Sold(e, i, attendee).attendees == e.attendees + [attendee]
    ensures Sold(e, i, attendee).discountCodes == e.discountCodes
    ensures Sold(e, i, attendee).feedback == e.feedback
    ensures Sold(e, i, attendee).title == e.title && Sold(e, i, attendee).date == e.date
    ensures Sold(e, i, attendee).organizer == e.organizer
  {
  }

  /** An admitted sale never drives a `quantity` below zero and never lets
      an attendee in twice. */
  lemma SaleKeepsInvariants(e: Event, attendee: UserId, ticketType: string, code: Option<string>, now: Instant)
    requires Admission(e, attendee, ticketType, code, now).Ok?
    ensures StockNonNegative(e.ticketTypes) ==>
      StockNonNegative(Sold(e, Admission(e, attendee, ticketType, code, now).value.index, attendee).ticketTypes)
    ensures Distinct(e.attendees) ==>
      Distinct(Sold(e, Admission(e, attendee, ticketType, code, now).value.index, attendee).attendees)
  {

  }
}
