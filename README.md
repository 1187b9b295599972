# Event booking engine — a Dafny model

This project models the part of an event-management backend that changes
events: the event controller's handlers for booking a ticket, adding a
discount code, marking attendance and leaving feedback, and the decision
made by the daily reminder job. An event carries ordered lists of ticket
types, discount codes, attendees and feedback entries; the store maps event
ids to events, and the mail transport is modelled as an outbox of
notifications.

Modules:

- `EventModel` (`model.dfy`): the data model (events, ticket types,
  discount codes, feedback, notifications, the client errors), JavaScript
  truthiness of optional string fields (`Supplied`), and `FirstIndex`, the
  first-match search behind `find` / `findIndex`.
- `Discounts` (`discounts.dfy`): which discount entry a code redeems at a
  given time, the discounted price, the quote a booking charges, and the
  duplicate-code lookup.
- `Booking` (`booking.dfy`): `Admission`, the chain of guards a booking runs
  once its event is found, in the handler's order (already attending,
  unknown ticket type, invalid or expired code, sold out), and `Sold`, the
  event after a sale.
- `Reminders` (`reminders.dfy`): the per-attendee reminder decision and the
  run over all events, as a specification (`ReminderRun`) and as the nested
  loop the job performs (`SendReminders`).
- `EventController` (`event_controller.dfy`): the class `EventStore` whose
  methods are the four handlers. Each loads the event, runs its guards,
  updates the loaded copy step by step, writes it back and queues one
  notification. On every error the store and the outbox stay as they were.
  `WellFormedStore` (no attendee listed twice, no code string used twice,
  no negative `quantity`) is preserved by every handler.

Modelling choices:

- Event dates and the scheduler's "today" are day numbers (`Day`).
  Discount expiry and "now" are instants (`Instant`), because the source
  compares full timestamps there. The current time is a parameter.
- Prices and percentages are `real`, so `price * (1 - pct/100)` is exact.
- The field directions of the source are kept: a booking decrements
  `quantity` and increments `remaining`. So `quantity + remaining` is
  constant, and `quantity` can never go below zero when it starts at zero
  or more.
- `discountCode` and `comment` are optional strings. As in JavaScript, an
  absent value and the empty string both count as not supplied.
- The order of guards follows the code: the discount code is checked before
  the sold-out test (controller/EventController.js:263-280). The system's
  description of booking lists the sold-out test first; the model follows
  the code.
- A notification records the recipient's user id and the message. The
  message names the event's title; its subject is `Subject(message)`.

## Model

| member | source | states |
|---|---|---|
| EventModel.FirstIndex | controller/EventController.js:253-255 | `findIndex`/`find`: the result is the first index whose element satisfies the predicate, and there is none exactly when no element does |
| EventModel.AppendAbsentKeepsDistinct | controller/EventController.js:153-159 | pushing an attendee only after the `includes` check fails keeps the attendee list free of duplicates |
| Discounts.RedeemableIndex | controller/EventController.js:264-266 | the discount lookup picks the first entry with an equal code and an expiry strictly after now, and finds none exactly when no entry qualifies |
| Discounts.CodeIndex | controller/EventController.js:216 | the duplicate lookup finds an entry with the same code string, and finds none exactly when no entry has it |
| Discounts.DiscountedWithinPrice | controller/EventController.js:268 | for a percentage in 0..100 and a non-negative price, the discounted price lies between 0 and the price |
| Discounts.QuoteOutcome | controller/EventController.js:261-274 | with no or an empty code the price is charged unchanged; with a code the quote succeeds iff some entry redeems it, charges `price * (1 - pct/100)` for the first such entry, and otherwise fails with the invalid-code error |
| Discounts.ExpiredCodeRejected | controller/EventController.js:263-273 | a code whose every matching entry has expired (or that matches none) is refused with the invalid-code error |
| Discounts.QuoteWithinPrice | controller/EventController.js:261-273 | when all percentages lie in 0..100, a successful quote for a non-negative price lies between 0 and the price |
| Discounts.AppendNewCodeKeepsDistinct | controller/EventController.js:216-221 | appending a code only after the duplicate lookup fails keeps code strings unique |
| Booking.TicketIndex | controller/EventController.js:253-258 | the ticket type booked is the first one whose `type` equals the requested one; none is found exactly when no type matches |
| Booking.AdmissionGuards | controller/EventController.js:247-280 | an existing attendee gives the already-attending error, an unknown type the type-not-found error, a supplied code no entry redeems the invalid-code error, and a type with `quantity <= 0` (after the code passed) the sold-out error |
| Booking.AdmissionSucceeds | controller/EventController.js:247-280 | a booking is admitted iff the attendee is new, the type exists, the quote succeeds and `quantity > 0`; it then sells the first matching type at the quoted price |
| Booking.DiscountCheckedBeforeStock | controller/EventController.js:263-280 | an expired or unknown code is refused with the discount error even when the type is sold out |
| Booking.SoldEffect | controller/EventController.js:282-285 | a sale decrements the type's `quantity` by 1, increments its `remaining` by 1 (their sum is unchanged), leaves every other type, the codes and the feedback as they were, and appends the attendee |
| Booking.SaleKeepsInvariants | controller/EventController.js:276-285 | an admitted sale keeps every `quantity` non-negative and the attendee list free of duplicates |
| Reminders.ReminderDue | controller/EventController.js:308-327 | "3 days" exactly when the event is three days after today, "today" exactly when it is today, and nothing otherwise |
| Reminders.SendReminders | controller/EventController.js:304-329 | the nested walk over events and their attendees sends exactly the notifications of `ReminderRun` for the given events and day |
| Reminders.RemindersGoToAttendees | controller/EventController.js:312-327 | every reminder of an event goes to one of its attendees, is an event reminder naming the event, and carries the kind due today |
| Reminders.RemindersPerAttendee | controller/EventController.js:312-327 | a user receives from an event as many reminders as it is listed among the attendees when a reminder is due today, and none otherwise |
| Reminders.AtMostOneReminderPerAttendee | controller/EventController.js:312-327 | with no attendee listed twice, each attendee gets exactly one reminder per run on the two reminder days, and a non-attendee gets none |
| Reminders.NoReminderForNonAttendees | controller/EventController.js:307-329 | a user attending none of the events receives no reminder from a run |
| EventController.EventStore.MarkEventAsAttended | controller/EventController.js:143-174 | an unknown event gives not-found, a listed attendee gives already-attending, both changing nothing; otherwise the attendee is appended, the event saved and one attendance notification queued; well-formedness is preserved |
| EventController.EventStore.AddFeedback | controller/EventController.js:176-204 | the event lookup comes first; an absent or empty comment is refused with the feedback list unchanged; otherwise exactly one entry `{attendee, rating, comment}` is appended (repeat feedback allowed) and a thank-you notification queued |
| EventController.EventStore.AddDiscountCode | controller/EventController.js:206-236 | an unknown event gives not-found; an existing code string gives the duplicate error with the list unchanged; otherwise exactly one entry is appended, with no range check on percentage or expiry, and the organizer is notified |
| EventController.EventStore.BookTicket | controller/EventController.js:238-299 | an unknown event gives not-found; otherwise the result is the first failing guard of `Admission` with nothing changed, or the quoted price with the event replaced by `Sold` and one booking notification queued; well-formedness is preserved |

## Left out

- Persistence: the Mongoose calls (`findById`, `find`, `save`) are the map
  lookup and the map update of `EventStore`. Schema validation on `save`
  and the 500 answers for storage failures are not modelled. The event
  model's schema file is not part of this model.
- `createEvent`, `getAllEvents`, `getEventById`, `updateEvent` and
  `deleteEvent` (controller/EventController.js:48-141) are left out. They
  wrap the store and do nothing beyond found / not-found; `EventStore`'s
  constructor takes the initial events instead.
- Email: the Nodemailer transport and `sendEmail` are external I/O. A
  handler's success queues one notification for the user id it would
  mail. Resolving that id to an email address (`User.findById`) is not
  modelled. Neither is the 500 answer the source gives, after the event is
  already saved, when that user does not exist.
- Scheduling: the cron trigger and the un-awaited asynchronous `forEach`
  are left out. `SendReminders` is one run, for a list of events and a day
  passed in. Its notifications are in iteration order; the source's
  asynchronous callbacks may send them in another order.
- Calendar and time: JavaScript `Date`, time zones, `setDate` and
  `toDateString` are abstracted to integer day numbers and instants.
- Concurrency: the read-modify-write race between concurrent bookings of
  the same event is out of scope of this sequential model. The model's
  counters stay non-negative only because handlers run one at a time.
- Numbers: JavaScript floating point is replaced by exact `real`
  arithmetic. Values of the wrong JSON type (a missing `quantity`, a
  non-string code) are not modelled.
- The event fields the core never reads (description, time, venue) are not
  part of the model's `Event`.
- The user controller (signup, login, JWT, bcrypt, profile handlers) and
  the route registration are not part of this model.
