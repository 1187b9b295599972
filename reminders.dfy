/** The daily reminder run: for every event and every attendee of it, a
    reminder three days before the event's day and another on the day
    itself, and nothing on any other day. */
module Reminders {
  import opened EventModel

  /** The reminder an attendee of an event held on `eventDate` is due on
      `today`, if any. The three-days-before test comes first. */
  function ReminderDue(eventDate: Day, today: Day): (r: Option<ReminderKind>)
    ensures r == Some(ThreeDaysLeft) <==> eventDate - today == 3
    ensures r == Some(HappeningToday) <==> eventDate == today
    ensures r == None <==> eventDate - today != 3 && eventDate != today
  {
    var threeDaysBefore := eventDate - 3;
    if today == threeDaysBefore then Some(ThreeDaysLeft)
    else if today == eventDate then Some(HappeningToday)
    else None
  }

  /** The reminder sent to one attendee of an event titled `title`. */
  function ReminderTo(attendee: UserId, title: string, eventDate: Day, today: Day): seq<Notification>
  {
    match ReminderDue(eventDate, today)
    case None => []
    case Some(kind) => [Notification(attendee, EventReminder(kind, title))]
  }

  /** The reminders sent to `attendees`, in their order. */
  function AttendeeReminders(attendees: seq<UserId>, title: string, eventDate: Day, today: Day): seq<Notification>
  {
    if attendees == [] then []
    else
      var last := |attendees| - 1;
      AttendeeReminders(attendees[..last], title, eventDate, today) + ReminderTo(attendees[last], title, eventDate, today)
  }

  function EventReminders(e: Event, today: Day): seq<Notification>
  {
    AttendeeReminders(e.attendees, e.title, e.date, today)
  }

  /** The reminders of one run over `events`, event by event. */
  function ReminderRun(events: seq<Event>, today: Day): seq<Notification>
  {
    if events == [] then []
    else ReminderRun(events[..|events| - 1], today) + EventReminders(events[|events| - 1], today)
  }

  /** The number of notifications addressed to `user`. */
  function SentTo(sent: seq<Notification>, user: UserId): nat
  {
    if sent == [] then 0
    else SentTo(sent[..|sent| - 1], user) + (if sent[|sent| - 1].recipient == user then 1 else 0)
  }

  /** One trigger of the scheduler: walks every event and every attendee of
      it and sends the reminder due today. */
  method SendReminders(events: seq<Event>, today: Day) returns (sent: seq<Notification>)
    ensures sent == ReminderRun(events, today)
  {
    sent := [];
    var i := 0;
    while i < |events|
      invariant 0 <= i <= |events|
      invariant sent == ReminderRun(events[..i], today)
    {
      var event := events[i];
      var j := 0;
      while j < |event.attendees|
        invariant 0 <= j <= |event.attendees|
        invariant sent == ReminderRun(events[..i], today)
          + AttendeeReminders(event.attendees[..j], event.title, event.date, today)
      {
        var attendee := event.attendees[j];
        match ReminderDue(event.date, today) {
          case Some(kind) =>
            sent := sent + [Notification(attendee, EventReminder(kind, event.title))];
          case None =>
        }
        assert event.attendees[..j + 1][..j] == event.attendees[..j];
        j := j + 1;
      }
      assert event.attendees[..j] == event.attendees;
      assert events[..i + 1][..i] == events[..i];
      i := i + 1;
    }
    assert events[..i] == events;
  }

  lemma {:induction false} SentToConcat(a: seq<Notification>, b: seq<Notification>, user: UserId)
    ensures SentTo(a + b, user) == SentTo(a, user) + SentTo(b, user)
    decreases |b|
  {
    if b != [] {
      assert (a + b)[..|a + b| - 1] == a + b[..|b| - 1];
      SentToConcat(a, b[..|b| - 1], user);
    } else {
      assert a + b == a;
    }
  }

  /** Every reminder of an event goes to one of its attendees, carries the
      kind due today and names the event. */
  lemma {:induction false} RemindersGoToAttendees(attendees: seq<UserId>, title: string, eventDate: Day, today: Day)
    ensures forall n :: n in AttendeeReminders(attendees, title, eventDate, today) ==>
      && n.recipient in attendees
      && n.message.EventReminder?
      && n.message.title == title
      && ReminderDue(eventDate, today) == Some(n.message.kind)
  {
    if attendees != [] {
      var init := attendees[..|attendees| - 1];
      RemindersGoToAttendees(init, title, eventDate, today);
      assert forall u :: u in init ==> u in attendees;
    }
  }

  /** An attendee receives from one event as many reminders as the times
      it appears in the event's attendee list, when a reminder is due
      today, and none otherwise. */
  lemma {:induction false} RemindersPerAttendee(attendees: seq<UserId>, title: string, eventDate: Day, today: Day, user: UserId)
    ensures SentTo(AttendeeReminders(attendees, title, eventDate, today), user)
      == if ReminderDue(eventDate, today).Some? then Occurrences(attendees, user) else 0
  {
    if attendees != [] {
      var init := attendees[..|attendees| - 1];
      var last := attendees[|attendees| - 1];
      RemindersPerAttendee(init, title, eventDate, today, user);
      SentToConcat(AttendeeReminders(init, title, eventDate, today), ReminderTo(last, title, eventDate, today), user);
      var tail := ReminderTo(last, title, eventDate, today);
      assert tail != [] ==> tail[..0] == [];
    }
  }

  /** With no attendee listed twice, one run sends each attendee of an event
      exactly one reminder from it on the two reminder days, and none on any
      other day; a user who does not attend gets none. */
  lemma AtMostOneReminderPerAttendee(e: Event, today: Day, user: UserId)
    requires Distinct(e.attendees)
    ensures SentTo(EventReminders(e, today), user)
      == if user in e.attendees && ReminderDue(e.date, today).Some? then 1 else 0
  {
    RemindersPerAttendee(e.attendees, e.title, e.date, today, user);
    OccurrencesOfDistinct(e.attendees, user);
  }

  /** A user attending none of the events receives no reminder from a run. */
  lemma {:induction false} NoReminderForNonAttendees(events: seq<Event>, today: Day, user: UserId)
    requires forall i :: 0 <= i < |events| ==> user !in events[i].attendees
    ensures SentTo(ReminderRun(events, today), user) == 0
  {
    if events != [] {
      var last := events[|events| - 1];
      NoReminderForNonAttendees(events[..|events| - 1], today, user);
      SentToConcat(ReminderRun(events[..|events| - 1], today), EventReminders(last, today), user);
      RemindersPerAttendee(last.attendees, last.title, last.date, today, user);
      OccurrencesOfAbsent(last.attendees, user);
    }
  }

  /** An event three days ahead with one attendee: the run sends that
      attendee exactly one three-days-left reminder and nobody else any. */
  method ThreeDaysAheadScenario()
  {
    var event := Event("Launch", 23, "organizer", [], [], ["alice"], []);
    var sent := SendReminders([event], 20);
    assert [event][..0] == [];
    assert ["alice"][..0] == [];
    assert sent == [Notification("alice", EventReminder(ThreeDaysLeft, "Launch"))];
  }
}
