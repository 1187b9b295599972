/** The request handlers of the event controller that change an event:
    booking a ticket, adding a discount code, marking attendance and adding
    feedback. Each loads the event from the store, runs its guards in the
    source's order, changes the loaded copy, saves it back and queues one
    notification; on every error nothing is saved and nothing is sent. */
module EventController {
  import opened EventModel
  import opened Discounts
  import opened Booking

  /** What the handlers keep true of an event once it holds: no attendee
      listed twice, no discount code string used twice, and no ticket type
      with a negative `quantity`. */
  predicate WellFormed(e: Event)
  {
    Distinct(e.attendees) && DistinctCodes(e.discountCodes) && StockNonNegative(e.ticketTypes)
  }

  /** The event store together with the queue of notifications handed to
      the mail transport. */
  class EventStore {
    var events: map<EventId, Event>
    var outbox: seq<Notification>

    ghost predicate WellFormedStore()
      reads this
    {
      forall id :: id in events ==> WellFormed(events[id])
    }

    constructor (initial: map<EventId, Event>)
      ensures events == initial && outbox == []
    {
      events := initial;
      outbox := [];
    }

    /** Adds `attendee` to the attendees of the event, unless the event is
        missing or the attendee is already listed. */
    method MarkEventAsAttended(eventId: EventId, attendee: UserId) returns (r: Result<Event>)
      modifies this
      ensures eventId !in old(events) ==> r == Err(EventNotFound)
      ensures eventId in old(events) && attendee in old(events)[eventId].attendees ==> r == Err(AlreadyAttending)
      ensures r.Ok? <==> eventId in old(events) && attendee !in old(events)[eventId].attendees
      ensures r.Err? ==> events == old(events) && outbox == old(outbox)
      ensures r.Ok? ==>
        && r.value == old(events)[eventId].(attendees := old(events)[eventId].attendees + [attendee])
        && events == old(events)[eventId := r.value]
        && outbox == old(outbox) + [Notification(attendee, AttendanceMarked(r.value.title))]
      ensures old(WellFormedStore()) ==> WellFormedStore()
    {
      if eventId !in events {
        return Err(EventNotFound);
      }
      var event := events[eventId];
      if attendee in event.attendees {
        return Err(AlreadyAttending);
      }
      event := event.(attendees := event.attendees + [attendee]);
      events := events[eventId := event];
      outbox := outbox + [Notification(attendee, AttendanceMarked(event.title))];
      r := Ok(event);
    }

    /** Appends a feedback entry to the event, unless the event is missing or
        the comment is absent or empty. One attendee may leave any number of
        entries. */
    method AddFeedback(eventId: EventId, attendee: UserId, rating: int, comment: Option<string>) returns (r: Result<Event>)
      modifies this
      ensures eventId !in old(events) ==> r == Err(EventNotFound)
      ensures eventId in old(events) && !Supplied(comment) ==> r == Err(CommentRequired)
      ensures r.Ok? <==> eventId in old(events) && Supplied(comment)
      ensures r.Err? ==> events == old(events) && outbox == old(outbox)
      ensures r.Ok? ==>
        && r.value == old(events)[eventId].(feedback := old(events)[eventId].feedback + [Feedback(attendee, rating, comment.value)])
        && events == old(events)[eventId := r.value]
        && outbox == old(outbox) + [Notification(attendee, FeedbackReceived(r.value.title))]
      ensures old(WellFormedStore()) ==> WellFormedStore()
    {
      if eventId !in events {
        return Err(EventNotFound);
      }
      if !Supplied(comment) {
        return Err(CommentRequired);
      }
      var event := events[eventId];
      event := event.(feedback := event.feedback + [Feedback(attendee, rating, comment.value)]);
      events := events[eventId := event];
      outbox := outbox + [Notification(attendee, FeedbackReceived(event.title))];
      r := Ok(event);
    }

    /** Appends a discount code to the event, unless the event is missing or
        already has a code with the same string. The percentage and the
        expiry are stored as given. */
    method AddDiscountCode(eventId: EventId, code: string, percentage: real, expiry: Instant) returns (r: Result<Event>)
      modifies this
      ensures eventId !in old(events) ==> r == Err(EventNotFound)
      ensures eventId in old(events) && (exists j :: 0 <= j < |old(events)[eventId].discountCodes| && old(events)[eventId].discountCodes[j].code == code)
        ==> r == Err(DuplicateDiscountCode)
      ensures r.Ok? <==> eventId in old(events) && CodeIndex(old(events)[eventId].discountCodes, code).None?
      ensures r.Err? ==> events == old(events) && outbox == old(outbox)
      ensures r.Ok? ==>
        && r.value == old(events)[eventId].(discountCodes := old(events)[eventId].discountCodes + [DiscountCode(code, percentage, expiry)])
        && events == old(events)[eventId := r.value]
        && outbox == old(outbox) + [Notification(r.value.organizer, DiscountCodeAdded(r.value.title))]
      ensures old(WellFormedStore()) ==> WellFormedStore()
    {
      if eventId !in events {
        return Err(EventNotFound);
      }
      var event := events[eventId];
      if CodeIndex(event.discountCodes, code).Some? {
        return Err(DuplicateDiscountCode);
      }
      var entry := DiscountCode(code, percentage, expiry);
      event := event.(discountCodes := event.discountCodes + [entry]);
      events := events[eventId := event];
      outbox := outbox + [Notification(event.organizer, DiscountCodeAdded(event.title))];
      r := Ok(event);
    }

    /** Books a ticket of type `ticketType` for `attendee` and answers the
        price charged. After the event lookup the guards of `Admission` run
        in order; on success the sold type's `quantity` is decremented, its
        `remaining` incremented and the attendee appended. */
    method BookTicket(eventId: EventId, attendee: UserId, ticketType: string, discountCode: Option<string>, now: Instant)
      returns (r: Result<real>)
      modifies this
      ensures eventId !in old(events) ==> r == Err(EventNotFound)
      ensures eventId in old(events) && Admission(old(events)[eventId], attendee, ticketType, discountCode, now).Err? ==>
        r == Err(Admission(old(events)[eventId], attendee, ticketType, discountCode, now).error)
      ensures r.Ok? <==> eventId in old(events) && Admission(old(events)[eventId], attendee, ticketType, discountCode, now).Ok?
      ensures r.Err? ==> events == old(events) && outbox == old(outbox)
      ensures r.Ok? ==>
        var e := old(events)[eventId];
        var sale := Admission(e, attendee, ticketType, discountCode, now).value;
        && sale.index < |e.ticketTypes|
        && r.value == sale.price
        && events == old(events)[eventId := Sold(e, sale.index, attendee)]
        && outbox == old(outbox) + [Notification(attendee, TicketBooked(e.title))]
      ensures old(WellFormedStore()) ==> WellFormedStore()
    {
      if eventId !in events {
        return Err(EventNotFound);
      }
      var event := events[eventId];
      var admission := Admission(event, attendee, ticketType, discountCode, now);
      if admission.Err? {
        return Err(admission.error);
      }
      AdmissionSucceeds(event, attendee, ticketType, discountCode, now);
      ghost var before := event;
      var i := admission.value.index;
      var tickets := event.ticketTypes;
      tickets := tickets[i := tickets[i].(quantity := tickets[i].quantity - 1)];
      tickets := tickets[i := tickets[i].(remaining := tickets[i].remaining + 1)];
      event := event.(ticketTypes := tickets, attendees := event.attendees + [attendee]);
      assert event == Sold(before, i, attendee);
      events := events[eventId := event];
      outbox := outbox + [Notification(attendee, TicketBooked(event.title))];
      r := Ok(admission.value.price);
    }
  }

  /** A sold-out ticket type: the first booking of the only VIP ticket is
      charged the full price, the second is refused. */
  method SoldOutScenario()
  {
    var vip := TicketType("VIP", 100.0, 1, 0);
    var event := Event("Launch", 20, "organizer", [vip], [], [], []);
    var store := new EventStore(map["launch" := event]);
    var first := store.BookTicket("launch", "alice", "VIP", None, 0);
    assert first == Ok(100.0);
    assert store.events["launch"].ticketTypes[0].quantity == 0;
    var second := store.BookTicket("launch", "bob", "VIP", None, 0);
    assert second == Err(SoldOut);
  }

  /** A twenty-percent code that expires tomorrow takes a 50.00 ticket down
      to 40.00. */
  method DiscountScenario()
  {
    var standard := TicketType("Standard", 50.0, 10, 0);
    var save20 := DiscountCode("SAVE20", 20.0, 86_400_000);
    var event := Event("Launch", 20, "organizer", [standard], [save20], [], []);
    var store := new EventStore(map["launch" := event]);
    var booked := store.BookTicket("launch", "alice", "Standard", Some("SAVE20"), 0);
    assert booked == Ok(40.0);
  }
}
