/** The client booking store: the in-memory `events` and `bookings` lists,
    the two getters over them, and the actions that book, cancel and delete,
    updating the lists in place after their store writes. It is a separate
    implementation from the Cloud Function: it checks in another order, adds a
    time-conflict check, and has no "active" or "already started" check. */
module BookingStore {
  import opened Common
  import opened Seqs
  import UserStore

  /** An event as held in `events`. `spotsTotal` is absent when the object was
      built from event data that had none. */
  datatype Event = Event(
    id: string,
    title: string,
    start: int,
    end: int,
    spotsTotal: Option<int>,
    spotsBooked: int,
    spotsAvailable: int,
    isActive: bool)

  /** The `eventData` given to `createEvent`. */
  datatype EventData = EventData(title: string, start: int, end: int, spotsTotal: Option<int>)

  /** The `updates` given to `updateEvent`: the fields it sets. */
  datatype EventUpdate = EventUpdate(
    id: Option<string>,
    title: Option<string>,
    start: Option<int>,
    end: Option<int>,
    spotsTotal: Option<int>,
    spotsBooked: Option<int>,
    spotsAvailable: Option<int>,
    isActive: Option<bool>)

  /** A booking as held in `bookings`. */
  datatype Booking = Booking(
    id: string,
    eventId: string,
    userId: string,
    eventTitle: string,
    eventStart: int,
    eventEnd: int,
    userNotes: string,
    status: Status)

  /** The errors the actions throw. */
  datatype StoreError =
    | NotLoggedIn
    | AlreadyBooked
    | NoSpotsAvailable
    | ConflictingBooking
    | BookingNotFound
    | EventHasActiveBookings

  // -------------------------------------------------------------- getters

  /** The test of `availableEvents`. */
  predicate IsAvailable(e: Event, now: int) {
    e.isActive && e.spotsAvailable > 0 && e.start > now
  }

  /** `availableEvents`: the active events with a spot left that start after
      `now`, in list order (see `Seqs.FilterAppend`). */
  function AvailableEvents(events: seq<Event>, now: int): (r: seq<Event>)
    ensures forall e :: e in r <==> e in events && IsAvailable(e, now)
  {
    Filter((e: Event) => IsAvailable(e, now), events)
  }

  /** `userBookings`: the signed-in user's bookings, none without a user. */
  function UserBookings(bookings: seq<Booking>, user: Option<UserStore.User>): (r: seq<Booking>)
    ensures user.None? ==> r == []
    ensures user.Some? ==> forall b :: b in r <==> b in bookings && b.userId == user.value.uid
  {
    if user.None? then [] else Filter((b: Booking) => b.userId == user.value.uid, bookings)
  }

  // ------------------------------------------------------------- lookups

  /** `events.findIndex((e) => e.id === eventId)` */
  function EventIndex(events: seq<Event>, eventId: string): (r: Option<nat>)
    ensures r.Some? ==> r.value < |events| && events[r.value].id == eventId
    ensures r.Some? ==> forall j :: 0 <= j < r.value ==> events[j].id != eventId
    ensures r.None? <==> forall j :: 0 <= j < |events| ==> events[j].id != eventId
  {
    FindIndex((e: Event) => e.id == eventId, events)
  }

  /** `events.find((e) => e.id === eventId)`. It finds the element at the
      index `findIndex` gives, so the two lookups of an action always agree. */
  function EventById(events: seq<Event>, eventId: string): (r: Option<Event>)
    ensures r.Some? ==> r.value in events && r.value.id == eventId
    ensures r.None? <==> forall e :: e in events ==> e.id != eventId
    ensures r.Some? <==> EventIndex(events, eventId).Some?
    ensures r.Some? ==> r.value == events[EventIndex(events, eventId).value]
  {
    Find((e: Event) => e.id == eventId, events)
  }

  /** `bookings.findIndex((b) => b.id === bookingId)` */
  function BookingIndex(bookings: seq<Booking>, bookingId: string): (r: Option<nat>)
    ensures r.Some? ==> r.value < |bookings| && bookings[r.value].id == bookingId
    ensures r.Some? ==> forall j :: 0 <= j < r.value ==> bookings[j].id != bookingId
    ensures r.None? <==> forall j :: 0 <= j < |bookings| ==> bookings[j].id != bookingId
  {
    FindIndex((b: Booking) => b.id == bookingId, bookings)
  }

  // ------------------------------------------------------ conflict check

  /** The three-clause test of `bookEvent` for the candidate `[s1, e1)` and an
      existing booking's event `[s2, e2)`. The events conflict whenever they
      share an instant; see `ConflictIsHalfOpenOverlap` for the converse. */
  predicate TimesConflict(s1: int, e1: int, s2: int, e2: int): (r: bool)
    ensures s1 < e2 && s2 < e1 ==> r
  {
    || (s1 >= s2 && s1 < e2)
    || (e1 > s2 && e1 <= e2)
    || (s1 <= s2 && e1 >= e2)
  }

  /** For non-empty intervals the three clauses are exactly half-open interval
      overlap, so intervals that only touch, back to back, do not conflict. */
  lemma ConflictIsHalfOpenOverlap(s1: int, e1: int, s2: int, e2: int)
    requires s1 < e1 && s2 < e2
    ensures TimesConflict(s1, e1, s2, e2) <==> s1 < e2 && s2 < e1
    ensures e1 == s2 || e2 == s1 ==> !TimesConflict(s1, e1, s2, e2)
  {
  }

  /** Without non-empty intervals the two tests differ: a zero-length event at
      the start of another conflicts with it, though the intervals share no instant. */
  lemma EmptyIntervalConflicts()
    ensures TimesConflict(5, 5, 5, 10) && !(5 < 10 && 5 < 5)
  {
  }

  /** The test inside the conflict search: a confirmed booking whose event is
      in `events` and whose times conflict with the candidate's. */
  predicate ConflictsWith(events: seq<Event>, candidate: Event, b: Booking) {
    && b.status == Confirmed
    && EventById(events, b.eventId).Some?
    && TimesConflict(candidate.start, candidate.end,
                     EventById(events, b.eventId).value.start, EventById(events, b.eventId).value.end)
  }

  /** `userBookings.value.find(...)`: the first of the user's bookings that conflicts. */
  function FindConflict(events: seq<Event>, bookings: seq<Booking>, user: Option<UserStore.User>, candidate: Event)
    : Option<Booking>
  {
    Find((b: Booking) => ConflictsWith(events, candidate, b), UserBookings(bookings, user))
  }

  predicate WellFormedTimes(events: seq<Event>) {
    forall e :: e in events ==> e.start < e.end
  }

  /** With well-formed times, a conflict is found exactly when the user holds a
      confirmed booking whose event, looked up in `events`, overlaps the
      candidate as half-open intervals. Bookings of other users, cancelled
      bookings and bookings whose event is not in `events` never conflict. */
  lemma FindConflictIsOverlap(events: seq<Event>, bookings: seq<Booking>, user: UserStore.User, candidate: Event)
    requires WellFormedTimes(events) && candidate.start < candidate.end
    ensures FindConflict(events, bookings, Some(user), candidate).Some? <==>
      exists b :: b in bookings && b.userId == user.uid && b.status == Confirmed
        && EventById(events, b.eventId).Some?
        && candidate.start < EventById(events, b.eventId).value.end
        && EventById(events, b.eventId).value.start < candidate.end
  {
    var mine := UserBookings(bookings, Some(user));
    forall b | b in bookings && b.userId == user.uid && b.status == Confirmed && EventById(events, b.eventId).Some?
      ensures ConflictsWith(events, candidate, b) <==>
        candidate.start < EventById(events, b.eventId).value.end && EventById(events, b.eventId).value.start < candidate.end
    {
      var be := EventById(events, b.eventId).value;
      ConflictIsHalfOpenOverlap(candidate.start, candidate.end, be.start, be.end);
    }
    var found := FindConflict(events, bookings, Some(user), candidate);
    if found.Some? {
      assert found.value in mine;
    } else {
      forall b | b in bookings && b.userId == user.uid
        ensures !ConflictsWith(events, candidate, b)
      {
        assert b in mine;
        var j :| 0 <= j < |mine| && mine[j] == b;
      }
    }
  }

  /** `events.filter((e) => e.id !== eventId)` */
  function WithoutEvent(events: seq<Event>, eventId: string): (r: seq<Event>)
    ensures forall e :: e in r <==> e in events && e.id != eventId
  {
    Filter((e: Event) => e.id != eventId, events)
  }

  /** `bookings.filter((b) => b.id !== bookingId)` */
  function WithoutBooking(bookings: seq<Booking>, bookingId: string): (r: seq<Booking>)
    ensures forall b :: b in r <==> b in bookings && b.id != bookingId
  {
    Filter((b: Booking) => b.id != bookingId, bookings)
  }

  // ------------------------------------------------------------ bookings

  predicate IsConfirmedFor(b: Booking, uid: string, eventId: string) {
    b.eventId == eventId && b.userId == uid && b.status == Confirmed
  }

  /** The duplicate check of `bookEvent`. */
  predicate HasConfirmedBooking(bookings: seq<Booking>, uid: string, eventId: string) {
    exists i :: 0 <= i < |bookings| && IsConfirmedFor(bookings[i], uid, eventId)
  }

  /** The capacity check of `bookEvent`: the event is known and has a spot left. */
  predicate HasSpot(events: seq<Event>, eventId: string) {
    EventById(events, eventId).Some? && EventById(events, eventId).value.spotsAvailable > 0
  }

  /** The booking `bookEvent` appends; the note is stored as given. */
  function NewBooking(id: string, e: Event, eventId: string, uid: string, userNotes: string): Booking {
    Booking(id, eventId, uid, e.title, e.start, e.end, userNotes, Confirmed)
  }

  function SeatTaken(e: Event): Event {
    e.(spotsBooked := e.spotsBooked + 1, spotsAvailable := e.spotsAvailable - 1)
  }

  function SeatReleased(e: Event): Event {
    e.(spotsBooked := e.spotsBooked - 1, spotsAvailable := e.spotsAvailable + 1)
  }

  /** The events with one seat of `eventId` released, if that event is
      present: one spot moves back from booked to available, so consistent
      counters stay consistent, and no other event changes. */
  function ReleaseSeat(events: seq<Event>, eventId: string): (r: seq<Event>)
    ensures |r| == |events|
    ensures CountersConsistent(events) ==> CountersConsistent(r)
    ensures forall j :: 0 <= j < |events| && events[j].id != eventId ==> r[j] == events[j]
    ensures EventIndex(events, eventId).None? ==> r == events
    ensures EventIndex(events, eventId).Some? ==>
      var i := EventIndex(events, eventId).value;
      r == events[i := SeatReleased(events[i])]
  {
    match EventIndex(events, eventId)
    case None => events
    case Some(i) => events[i := SeatReleased(events[i])]
  }

  /** Every event's total equals booked plus available. */
  predicate CountersConsistent(events: seq<Event>) {
    forall i :: 0 <= i < |events| ==> events[i].spotsTotal == Some(events[i].spotsBooked + events[i].spotsAvailable)
  }

  /** `eventData.spotsTotal || 10`: an event never gets capacity 0, a
      non-negative (or missing) total gives a positive capacity, and a given
      non-zero total is kept. */
  function Capacity(spotsTotal: Option<int>): (r: int)
    ensures r != 0
    ensures (spotsTotal.None? || spotsTotal.value >= 0) ==> r > 0
    ensures spotsTotal.None? || spotsTotal == Some(0) ==> r == 10
    ensures spotsTotal.Some? && spotsTotal.value != 0 ==> r == spotsTotal.value
  {
    if spotsTotal.None? || spotsTotal.value == 0 then 10 else spotsTotal.value
  }

  /** The local event object `createEvent` pushes, as written: `...eventData`
      supplies `spotsTotal` without the default, while `spotsAvailable` gets it.
      Its counters are consistent exactly when a non-zero total is given. */
  function NewEventAsWritten(id: string, data: EventData): (e: Event)
    ensures e.spotsBooked == 0 && e.spotsAvailable == Capacity(data.spotsTotal)
    ensures CountersConsistent([e]) <==> data.spotsTotal.Some? && data.spotsTotal.value != 0
  {
    var e := Event(id, data.title, data.start, data.end, data.spotsTotal, 0, Capacity(data.spotsTotal), true);
    assert [e][0] == e;
    e
  }

  /** As written, an event created without a capacity (or with 0) is held
      locally with a total that disagrees with its counters: 0 booked and 10
      available, but no total, or a total of 0. */
  lemma NewEventAsWrittenBreaksCounters(id: string, data: EventData)
    requires data.spotsTotal.None? || data.spotsTotal == Some(0)
    ensures !CountersConsistent([NewEventAsWritten(id, data)])
  {
    assert [NewEventAsWritten(id, data)][0] == NewEventAsWritten(id, data);
  }

  /** The local event object with the same defaulted total the event document
      gets: capacity 10 when none (or 0) is given, nothing booked, every spot
      available, active. */
  function NewEvent(id: string, data: EventData): (e: Event)
    ensures e.id == id && e.title == data.title && e.start == data.start && e.end == data.end
    ensures e.spotsTotal == Some(Capacity(data.spotsTotal))
    ensures e.spotsBooked == 0 && e.spotsAvailable == Capacity(data.spotsTotal) && e.isActive
    ensures CountersConsistent([e])
  {
    Event(id, data.title, data.start, data.end, Some(Capacity(data.spotsTotal)), 0, Capacity(data.spotsTotal), true)
  }

  /** An update that sets none of the three counters. */
  predicate KeepsCounters(u: EventUpdate) {
    u.spotsTotal.None? && u.spotsBooked.None? && u.spotsAvailable.None?
  }

  /** `{ ...event, ...updates }`: the fields the update sets take its values,
      and every other field is the event's. An update that leaves the counters
      alone keeps them consistent, and an empty update changes nothing. */
  function Updated(e: Event, u: EventUpdate): (r: Event)
    ensures KeepsCounters(u) ==>
      r.spotsTotal == e.spotsTotal && r.spotsBooked == e.spotsBooked && r.spotsAvailable == e.spotsAvailable
    ensures KeepsCounters(u) && CountersConsistent([e]) ==> CountersConsistent([r])
    ensures u == EventUpdate(None, None, None, None, None, None, None, None) ==> r == e
  {
    var r := Event(
      if u.id.Some? then u.id.value else e.id,
      if u.title.Some? then u.title.value else e.title,
      if u.start.Some? then u.start.value else e.start,
      if u.end.Some? then u.end.value else e.end,
      if u.spotsTotal.Some? then u.spotsTotal else e.spotsTotal,
      if u.spotsBooked.Some? then u.spotsBooked.value else e.spotsBooked,
      if u.spotsAvailable.Some? then u.spotsAvailable.value else e.spotsAvailable,
      if u.isActive.Some? then u.isActive.value else e.isActive);
    assert [e][0] == e && [r][0] == r;
    r
  }

  /** Taking a seat moves one spot from available to booked, so the counters stay consistent. */
  lemma SeatTakenKeepsConsistent(events: seq<Event>, i: nat)
    requires i < |events|
    ensures CountersConsistent(events) ==> CountersConsistent(events[i := SeatTaken(events[i])])
  {
  }

  class BookingStore {
    var events: seq<Event>
    var bookings: seq<Booking>

    constructor ()
      ensures events == [] && bookings == []
    {
      events := [];
      bookings := [];
    }

    /** `createEvent(eventData)`; `newId` is the id of the added document. The
        new event object takes the defaulted total (see `NewEventAsWritten`). */
    method CreateEvent(data: EventData, newId: string) returns (id: string)
      modifies this
      ensures id == newId
      ensures events == old(events) + [NewEvent(newId, data)]
      ensures bookings == old(bookings)
      ensures CountersConsistent(old(events)) ==> CountersConsistent(events)
    {
      events := events + [NewEvent(newId, data)];
      id := newId;
    }

    /** `bookEvent(eventId, userNotes)`: the checks in order, then one new
        confirmed booking and one seat taken from that event. */
    method BookEvent(user: Option<UserStore.User>, eventId: string, userNotes: string, newId: string)
      returns (r: Result<string, StoreError>)
      modifies this
      ensures r == Err(NotLoggedIn) <==> user.None?
      ensures r == Err(AlreadyBooked) <==> user.Some? && HasConfirmedBooking(old(bookings), user.value.uid, eventId)
      ensures r == Err(NoSpotsAvailable) <==>
        user.Some? && !HasConfirmedBooking(old(bookings), user.value.uid, eventId) && !HasSpot(old(events), eventId)
      ensures r == Err(ConflictingBooking) <==>
        user.Some? && !HasConfirmedBooking(old(bookings), user.value.uid, eventId) && HasSpot(old(events), eventId)
        && FindConflict(old(events), old(bookings), user, EventById(old(events), eventId).value).Some?
      ensures r.Err? ==> r in {Err(NotLoggedIn), Err(AlreadyBooked), Err(NoSpotsAvailable), Err(ConflictingBooking)}
      ensures r.Err? ==> events == old(events) && bookings == old(bookings)
      ensures r.Ok? ==> r.value == newId && user.Some? && EventIndex(old(events), eventId).Some?
      ensures r.Ok? ==>
        var i := EventIndex(old(events), eventId).value;
        && bookings == old(bookings) + [NewBooking(newId, old(events)[i], eventId, user.value.uid, userNotes)]
        && events == old(events)[i := SeatTaken(old(events)[i])]
        && events[i].spotsBooked == old(events)[i].spotsBooked + 1
        && events[i].spotsAvailable == old(events)[i].spotsAvailable - 1 >= 0
        && forall j :: 0 <= j < |events| && j != i ==> events[j] == old(events)[j]
      ensures CountersConsistent(old(events)) ==> CountersConsistent(events)
    {
      if user.None? {
        return Err(NotLoggedIn);
      }
      var uid := user.value.uid;
      var existingBooking := Find((b: Booking) => IsConfirmedFor(b, uid, eventId), bookings);
      if existingBooking.Some? {
        return Err(AlreadyBooked);
      }
      var event := EventById(events, eventId);
      if event.None? || event.value.spotsAvailable <= 0 {
        return Err(NoSpotsAvailable);
      }
      var conflictingBooking := FindConflict(events, bookings, user, event.value);
      if conflictingBooking.Some? {
        return Err(ConflictingBooking);
      }
      bookings := bookings + [NewBooking(newId, event.value, eventId, uid, userNotes)];
      var eventIndex := EventIndex(events, eventId);
      if eventIndex.Some? {
        TakeLocalSeat(eventIndex.value);
      }
      r := Ok(newId);
    }

    /** The local update of `bookEvent`: one spot of the event at `k` goes
        from available to booked. */
    method TakeLocalSeat(k: nat)
      requires k < |events|
      modifies this
      ensures events == old(events)[k := SeatTaken(old(events)[k])]
      ensures bookings == old(bookings)
      ensures CountersConsistent(old(events)) ==> CountersConsistent(events)
    {
      SeatTakenKeepsConsistent(events, k);
      events := events[k := events[k].(spotsBooked := events[k].spotsBooked + 1)];
      events := events[k := events[k].(spotsAvailable := events[k].spotsAvailable - 1)];
    }

    /** The local seat release shared by `cancelBooking` and `deleteBooking`:
        when the event is in the list, one spot goes from booked back to available. */
    method ReleaseLocalSeat(eventId: string)
      modifies this
      ensures events == ReleaseSeat(old(events), eventId)
      ensures bookings == old(bookings)
      ensures CountersConsistent(old(events)) ==> CountersConsistent(events)
    {
      var event := EventById(events, eventId);
      if event.Some? {
        var eventIndex := EventIndex(events, eventId);
        if eventIndex.Some? {
          var i := eventIndex.value;
          events := events[i := events[i].(spotsBooked := events[i].spotsBooked - 1)];
          events := events[i := events[i].(spotsAvailable := events[i].spotsAvailable + 1)];
        }
      }
    }

    /** `cancelBooking(bookingId)`: the booking becomes cancelled and its
        event, if present, gets a seat back. The prior status is not checked,
        so cancelling a cancelled booking releases a seat again. */
    method CancelBooking(bookingId: string) returns (r: Result<(), StoreError>)
      modifies this
      ensures r == Err(BookingNotFound) <==> BookingIndex(old(bookings), bookingId).None?
      ensures r.Err? ==> r == Err(BookingNotFound)
      ensures r.Err? ==> events == old(events) && bookings == old(bookings)
      ensures r.Ok? ==>
        var k := BookingIndex(old(bookings), bookingId).value;
        var b := old(bookings)[k];
        && bookings == old(bookings)[k := b.(status := Cancelled)]
        && events == ReleaseSeat(old(events), b.eventId)
      ensures CountersConsistent(old(events)) ==> CountersConsistent(events)
    {
      var found := BookingIndex(bookings, bookingId);
      if found.None? {
        return Err(BookingNotFound);
      }
      var booking := bookings[found.value];
      ReleaseLocalSeat(booking.eventId);
      var bookingIndex := BookingIndex(bookings, bookingId);
      var k := bookingIndex.value;
      bookings := bookings[k := bookings[k].(status := Cancelled)];
      r := Ok(());
    }

    /** `updateEvent(eventId, updates)`: merged into the first event with that id only. */
    method UpdateEvent(eventId: string, updates: EventUpdate)
      modifies this
      ensures EventIndex(old(events), eventId).None? ==> events == old(events)
      ensures EventIndex(old(events), eventId).Some? ==>
        var i := EventIndex(old(events), eventId).value;
        events == old(events)[i := Updated(old(events)[i], updates)]
      ensures bookings == old(bookings)
      ensures KeepsCounters(updates) && CountersConsistent(old(events)) ==> CountersConsistent(events)
    {
      var index := EventIndex(events, eventId);
      if index.Some? {
        var i := index.value;
        events := events[i := Updated(events[i], updates)];
      }
    }

    /** `deleteEvent(eventId)`: refused while a confirmed booking references
        the event; otherwise every event with that id is removed. */
    method DeleteEvent(eventId: string) returns (r: Result<(), StoreError>)
      modifies this
      ensures r == Err(EventHasActiveBookings) <==>
        exists i :: 0 <= i < |old(bookings)| && old(bookings)[i].eventId == eventId && old(bookings)[i].status == Confirmed
      ensures r.Err? ==> r == Err(EventHasActiveBookings)
      ensures r.Err? ==> events == old(events)
      ensures r.Ok? ==> events == WithoutEvent(old(events), eventId)
      ensures bookings == old(bookings)
    {
      var eventBookings := Filter((b: Booking) => b.eventId == eventId && b.status == Confirmed, bookings);
      if |eventBookings| > 0 {
        assert eventBookings[0] in bookings;
        return Err(EventHasActiveBookings);
      }
      assert forall i :: 0 <= i < |bookings| ==> bookings[i] in bookings;
      events := WithoutEvent(events, eventId);
      r := Ok(());
    }

    /** `deleteBooking(bookingId)`: every booking with that id is removed; a
        confirmed one gives its event, if present, a seat back. */
    method DeleteBooking(bookingId: string) returns (r: Result<(), StoreError>)
      modifies this
      ensures r == Err(BookingNotFound) <==> BookingIndex(old(bookings), bookingId).None?
      ensures r.Err? ==> r == Err(BookingNotFound)
      ensures r.Err? ==> events == old(events) && bookings == old(bookings)
      ensures r.Ok? ==>
        var b := old(bookings)[BookingIndex(old(bookings), bookingId).value];
        && bookings == WithoutBooking(old(bookings), bookingId)
        && events == (if b.status == Confirmed then ReleaseSeat(old(events), b.eventId) else old(events))
      ensures CountersConsistent(old(events)) ==> CountersConsistent(events)
    {
      var found := BookingIndex(bookings, bookingId);
      if found.None? {
        return Err(BookingNotFound);
      }
      var booking := bookings[found.value];
      if booking.status == Confirmed {
        ReleaseLocalSeat(booking.eventId);
      }
      bookings := WithoutBooking(bookings, bookingId);
      r := Ok(());
    }
  }
}
