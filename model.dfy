/** The event aggregate handled by the event controller: an event with its
    ticket types, discount codes, attendees and feedback, the notifications
    the handlers emit, and the sequence helpers the handlers lean on
    (`Array.prototype.find`, `findIndex` and `includes`). */
module EventModel {

  type EventId = string
  type UserId = string

  /** A calendar day, counted in days from an arbitrary epoch. */
  type Day = int

  /** A point in time, counted in milliseconds from an arbitrary epoch. */
  type Instant = int

  datatype Option<+T> = None | Some(value: T)

  /** The client errors the handlers answer with (HTTP 404 for the two
      not-found cases, HTTP 400 for all others). */
  datatype Failure =
    | EventNotFound
    | AlreadyAttending
    | TicketTypeNotFound
    | InvalidDiscountCode
    | SoldOut
    | DuplicateDiscountCode
    | CommentRequired

  datatype Result<+T> = Ok(value: T) | Err(error: Failure)

  /** A ticket type of an event. `name` is the field the source calls
      `type`; `quantity` and `remaining` keep the source's names and the
      directions in which a booking moves them. */
  datatype TicketType = TicketType(name: string, price: real, quantity: int, remaining: int)

  datatype DiscountCode = DiscountCode(code: string, percentage: real, expiry: Instant)

  datatype Feedback = Feedback(attendee: UserId, rating: int, comment: string)

  datatype Event = Event(
    title: string,
    date: Day,
    organizer: UserId,
    ticketTypes: seq<TicketType>,
    discountCodes: seq<DiscountCode>,
    attendees: seq<UserId>,
    feedback: seq<Feedback>)

  datatype ReminderKind = ThreeDaysLeft | HappeningToday

  /** The message bodies the handlers and the reminder scheduler send, each
      naming the event's title. */
  datatype Message =
    | AttendanceMarked(title: string)
    | FeedbackReceived(title: string)
    | DiscountCodeAdded(title: string)
    | TicketBooked(title: string)
    | EventReminder(kind: ReminderKind, title: string)

  /** A message handed to the mail transport, addressed to a user. */
  datatype Notification = Notification(recipient: UserId, message: Message)

  function Subject(m: Message): string
  {
    match m
    case AttendanceMarked(_) => "Event Attendance"
    case FeedbackReceived(_) => "Feedback Received"
    case DiscountCodeAdded(_) => "Discount Code Added"
    case TicketBooked(_) => "Ticket Booked"
    case EventReminder(_, _) => "Event Reminder"
  }

  /** JavaScript truthiness of an optional request field holding a string:
      absent and the empty string are falsy. */
  predicate Supplied(s: Option<string>)
  {
    s.Some? && s.value != ""
  }

  /** The index of the first element satisfying `p`, as `findIndex` (and,
      through the index, `find`) computes it; `None` stands for -1. */
  function FirstIndex<T>(s: seq<T>, p: T -> bool): (r: Option<nat>)
    ensures r.Some? ==> r.value < |s| && p(s[r.value])
    ensures r.Some? ==> forall j :: 0 <= j < r.value ==> !p(s[j])
    ensures r.None? <==> forall j :: 0 <= j < |s| ==> !p(s[j])
  {
    if |s| == 0 then None
    else if p(s[0]) then Some(0)
    else match FirstIndex(s[1..], p)
      case None => None
      case Some(k) => Some(k + 1)
  }

  /** No value occurs twice. */
  predicate Distinct<T(==)>(s: seq<T>)
  {
    forall i, j :: 0 <= i < j < |s| ==> s[i] != s[j]
  }

  /** The number of occurrences of `x` in `s`. */
  function Occurrences<T(==)>(s: seq<T>, x: T): nat
  {
    if s == [] then 0
    else Occurrences(s[..|s| - 1], x) + (if s[|s| - 1] == x then 1 else 0)
  }

  lemma {:induction false} OccurrencesOfDistinct<T>(s: seq<T>, x: T)
    requires Distinct(s)
    ensures Occurrences(s, x) == if x in s then 1 else 0
  {
    if s != [] {
      var init := s[..|s| - 1];
      assert Distinct(init);
      OccurrencesOfDistinct(init, x);
      assert s == init + [s[|s| - 1]];
      if s[|s| - 1] == x {
        assert x !in init;
      }
    }
  }

  lemma {:induction false} OccurrencesOfAbsent<T>(s: seq<T>, x: T)
    requires x !in s
    ensures Occurrences(s, x) == 0
  {
    if s != [] {
      OccurrencesOfAbsent(s[..|s| - 1], x);
    }
  }

  /** Appending a value that is not yet present keeps a sequence free of
      duplicates. */
  lemma AppendAbsentKeepsDistinct<T>(s: seq<T>, x: T)
    requires Distinct(s) && x !in s
    ensures Distinct(s + [x])
  {

  }
}
