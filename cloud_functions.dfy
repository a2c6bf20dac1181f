/** The Cloud Functions: `processEventBooking`, `cancelEventBooking`,
    `processDonation` and the scheduled `cleanupPastEvents`, over an abstract
    document store. Each Firestore transaction is one atomic step: its callback
    reads the store and either refuses with an error kind or produces a list of
    writes, which are committed all together or not at all. */
module CloudFunctions {
  import opened Common
  import opened Sanitizer
  import UserStore

  /** The `HttpsError` codes the functions raise. */
  datatype ErrorKind =
    | Unauthenticated
    | InvalidArgument
    | NotFound
    | FailedPrecondition
    | ResourceExhausted
    | AlreadyExists
    | PermissionDenied
    | Internal

  /** `request.auth`: the verified caller. */
  datatype Auth = Auth(uid: string)

  /** A `volunteerEvents` document. */
  datatype Event = Event(
    title: string,
    start: int,
    end: int,
    spotsTotal: int,
    spotsBooked: int,
    spotsAvailable: int,
    isActive: bool)

  /** A `bookings` document; title and times are copied from the event when it is booked. */
  datatype Booking = Booking(
    eventId: string,
    userId: string,
    eventTitle: string,
    eventStart: int,
    eventEnd: int,
    userNotes: string,
    status: Status)

  /** A `donations` document. */
  datatype Donation = Donation(userId: string, amount: real, message: string, status: string)

  /** The collections the functions touch, each keyed by document id. */
  datatype Db = Db(
    events: map<string, Event>,
    bookings: map<string, Booking>,
    users: map<string, Record>,
    donations: map<string, Donation>)

  /** The store after a call, and what the caller receives. */
  datatype Response<T> = Response(db: Db, result: Result<T, ErrorKind>)

  /** `request.auth?.uid`, refused by `if (!userId)` when missing or empty. */
  function CallerId(auth: Option<Auth>): (r: Option<string>)
    ensures r.Some? <==> auth.Some? && auth.value.uid != ""
    ensures r.Some? ==> r.value == auth.value.uid
  {
    if auth.Some? && auth.value.uid != "" then Some(auth.value.uid) else None
  }

  /** A request argument that must be a non-empty string, as
      `!eventId || typeof eventId !== 'string'` demands. */
  function StringArg(v: Value): (r: Option<string>)
    ensures r.Some? <==> v.Str? && v.s != ""
    ensures r.Some? ==> r.value == v.s
  {
    if v.Str? && v.s != "" then Some(v.s) else None
  }

  // ------------------------------------------------- transaction writes

  /** `transaction.set` of a booking, `transaction.update` of a booking's
      status, and `transaction.update` of an event with two `FieldValue.increment`s. */
  datatype Write =
    | SetBooking(bookingId: string, booking: Booking)
    | UpdateBookingStatus(bookingId: string, status: Status)
    | IncrementSeats(eventId: string, booked: int, available: int)

  /** One write; an update of a document that does not exist fails. */
  function ApplyWrite(db: Db, w: Write): Option<Db> {
    match w
    case SetBooking(id, b) =>
      Some(db.(bookings := db.bookings[id := b]))
    case UpdateBookingStatus(id, s) =>
      if id in db.bookings then Some(db.(bookings := db.bookings[id := db.bookings[id].(status := s)]))
      else None
    case IncrementSeats(id, booked, available) =>
      if id in db.events then Some(db.(events := db.events[id := Incremented(db.events[id], booked, available)]))
      else None
  }

  /** The two `FieldValue.increment`s of an event update. */
  function Incremented(e: Event, booked: int, available: int): Event {
    e.(spotsBooked := e.spotsBooked + booked, spotsAvailable := e.spotsAvailable + available)
  }

  /** Commit: every write or none. */
  function Commit(db: Db, writes: seq<Write>): Option<Db>
    decreases |writes|
  {
    if writes == [] then Some(db)
    else match ApplyWrite(db, writes[0])
      case None => None
      case Some(next) => Commit(next, writes[1..])
  }

  /** What a transaction callback returns: its writes and its value. */
  datatype Transaction<T> = Transaction(writes: seq<Write>, value: T)

  /** `db.runTransaction(callback)`: an error thrown by the callback is passed
      on with no writes; a commit that fails becomes `internal`. */
  function RunTransaction<T>(db: Db, callback: Result<Transaction<T>, ErrorKind>): Response<T> {
    match callback
    case Err(k) => Response(db, Err(k))
    case Ok(t) =>
      match Commit(db, t.writes)
      case None => Response(db, Err(Internal))
      case Some(next) => Response(next, Ok(t.value))
  }

  // ----------------------------------------------------------- booking

  predicate IsConfirmedBookingOf(b: Booking, uid: string, eventId: string) {
    b.userId == uid && b.eventId == eventId && b.status == Confirmed
  }

  /** The duplicate query: a `confirmed` booking by this user for this event. */
  predicate HasConfirmedBooking(bookings: map<string, Booking>, uid: string, eventId: string) {
    exists id :: id in bookings && IsConfirmedBookingOf(bookings[id], uid, eventId)
  }

  /** The event checks that follow the existence check: active, a spot left,
      not yet started. */
  predicate Bookable(e: Event, now: int) {
    e.isActive && e.spotsAvailable > 0 && e.start > now
  }

  /** The booking document `processEventBooking` writes. */
  function NewBooking(e: Event, uid: string, eventId: string, userNotes: Value): Booking {
    Booking(eventId, uid, e.title, e.start, e.end, SanitizeInput(Or(userNotes, Str("")), 500), Confirmed)
  }

  /** The event after a booking: one more booked, one fewer available. */
  function SeatTaken(e: Event): Event {
    Incremented(e, 1, -1)
  }

  /** The event after a cancellation: one fewer booked, one more available. */
  function SeatReleased(e: Event): Event {
    Incremented(e, -1, 1)
  }

  /** `{ bookingId, eventTitle }` */
  datatype Receipt = Receipt(bookingId: string, eventTitle: string)

  /** The callback of `processEventBooking`; `newId` is the id that
      `collection('bookings').doc()` generates. */
  function BookingCallback(db: Db, uid: string, eventId: string, userNotes: Value, now: int, newId: string)
    : (r: Result<Transaction<Receipt>, ErrorKind>)
    ensures r.Err? ==> r.error in {NotFound, FailedPrecondition, ResourceExhausted, AlreadyExists}
    ensures r.Ok? <==>
      eventId in db.events && Bookable(db.events[eventId], now) && !HasConfirmedBooking(db.bookings, uid, eventId)
    ensures r.Ok? ==> r.value.value == Receipt(newId, db.events[eventId].title)
  {
    if eventId !in db.events then Err(NotFound)
    else
      var e := db.events[eventId];
      if !e.isActive then Err(FailedPrecondition)
      else if e.spotsAvailable <= 0 then Err(ResourceExhausted)
      else if e.start <= now then Err(FailedPrecondition)
      else if HasConfirmedBooking(db.bookings, uid, eventId) then Err(AlreadyExists)
      else Ok(Transaction([SetBooking(newId, NewBooking(e, uid, eventId, userNotes)),
                           IncrementSeats(eventId, 1, -1)],
                          Receipt(newId, e.title)))
  }

  /** `processEventBooking({ eventId, userNotes })`. `storeFault` stands for a
      failure of the store itself, which the handler reports as `internal`. */
  function ProcessEventBooking(db: Db, auth: Option<Auth>, eventId: Value, userNotes: Value,
                               now: int, newId: string, storeFault: bool): (r: Response<Receipt>)
    ensures r.result.Err? ==> r.db == db
    ensures r.result.Ok? ==> r.result.value.bookingId == newId
  {
    if CallerId(auth).None? then Response(db, Err(Unauthenticated))
    else if StringArg(eventId).None? then Response(db, Err(InvalidArgument))
    else if storeFault then Response(db, Err(Internal))
    else RunTransaction(db, BookingCallback(db, CallerId(auth).value, eventId.s, userNotes, now, newId))
  }

  /** The request passed the checks made before the transaction starts. */
  predicate BookingRequestWellFormed(auth: Option<Auth>, eventId: Value, storeFault: bool) {
    CallerId(auth).Some? && StringArg(eventId).Some? && !storeFault
  }

  /** The checks of `processEventBooking`, in order: each error kind is returned
      exactly when every earlier check passed and its own failed, and a refused
      booking writes nothing. */
  lemma {:induction false} BookingRejections(db: Db, auth: Option<Auth>, eventId: Value, userNotes: Value,
                                             now: int, newId: string, storeFault: bool)
    ensures var r := ProcessEventBooking(db, auth, eventId, userNotes, now, newId, storeFault);
      && (r.result.Err? ==> r.db == db)
      && (r.result == Err(Unauthenticated) <==> CallerId(auth).None?)
      && (r.result == Err(InvalidArgument) <==> CallerId(auth).Some? && StringArg(eventId).None?)
      && (r.result == Err(Internal) <==> CallerId(auth).Some? && StringArg(eventId).Some? && storeFault)
      && (r.result == Err(NotFound) <==>
            BookingRequestWellFormed(auth, eventId, storeFault) && eventId.s !in db.events)
      && (r.result == Err(FailedPrecondition) <==>
            BookingRequestWellFormed(auth, eventId, storeFault) && eventId.s in db.events
            && (!db.events[eventId.s].isActive
                || (db.events[eventId.s].spotsAvailable > 0 && db.events[eventId.s].start <= now)))
      && (r.result == Err(ResourceExhausted) <==>
            BookingRequestWellFormed(auth, eventId, storeFault) && eventId.s in db.events
            && db.events[eventId.s].isActive && db.events[eventId.s].spotsAvailable <= 0)
      && (r.result == Err(AlreadyExists) <==>
            BookingRequestWellFormed(auth, eventId, storeFault) && eventId.s in db.events
            && Bookable(db.events[eventId.s], now)
            && HasConfirmedBooking(db.bookings, auth.value.uid, eventId.s))
      && (r.result.Ok? <==>
            BookingRequestWellFormed(auth, eventId, storeFault) && eventId.s in db.events
            && Bookable(db.events[eventId.s], now)
            && !HasConfirmedBooking(db.bookings, auth.value.uid, eventId.s))
  {
    if BookingRequestWellFormed(auth, eventId, storeFault) && eventId.s in db.events {
      var uid := auth.value.uid;
      var e := db.events[eventId.s];
      var cb := BookingCallback(db, uid, eventId.s, userNotes, now, newId);
      if cb.Ok? {
        BookedCommit(db, newId, NewBooking(e, uid, eventId.s, userNotes), eventId.s);
      }
    }
  }

  /** The two writes of a booking always commit, since the event was just read. */
  lemma BookedCommit(db: Db, newId: string, b: Booking, eventId: string)
    requires eventId in db.events
    ensures Commit(db, [SetBooking(newId, b), IncrementSeats(eventId, 1, -1)])
      == Some(db.(bookings := db.bookings[newId := b], events := db.events[eventId := SeatTaken(db.events[eventId])]))
  {
    var ws := [SetBooking(newId, b), IncrementSeats(eventId, 1, -1)];
    var d1 := db.(bookings := db.bookings[newId := b]);
    var d2 := d1.(events := db.events[eventId := SeatTaken(db.events[eventId])]);
    assert ApplyWrite(db, ws[0]) == Some(d1);
    assert d1.events == db.events;
    assert ApplyWrite(d1, IncrementSeats(eventId, 1, -1)) == Some(d2);
    assert Commit(d2, []) == Some(d2);
    assert ws[1..] == [IncrementSeats(eventId, 1, -1)] && ws[1..][1..] == [];
    assert Commit(d1, ws[1..]) == Some(d2);
  }

  /** A successful booking writes one confirmed booking for the caller with the
      event's title and times and the sanitised note, takes exactly one seat of
      that event, and changes nothing else. The event is left with a
      non-negative number of available spots and the same booked + available
      total. */
  lemma BookingWrites(db: Db, auth: Option<Auth>, eventId: Value, userNotes: Value,
                      now: int, newId: string, storeFault: bool)
    requires ProcessEventBooking(db, auth, eventId, userNotes, now, newId, storeFault).result.Ok?
    ensures auth.Some? && auth.value.uid != "" && eventId.Str? && eventId.s in db.events
    ensures var r := ProcessEventBooking(db, auth, eventId, userNotes, now, newId, storeFault);
            var e := db.events[eventId.s];
      && r.result.value == Receipt(newId, e.title)
      && r.db == db.(bookings := db.bookings[newId := NewBooking(e, auth.value.uid, eventId.s, userNotes)],
                     events := db.events[eventId.s := SeatTaken(e)])
    ensures var r := ProcessEventBooking(db, auth, eventId, userNotes, now, newId, storeFault);
            var e := db.events[eventId.s];
            var b := NewBooking(e, auth.value.uid, eventId.s, userNotes);
      && b.status == Confirmed && b.userId == auth.value.uid && b.eventId == eventId.s
      && b.eventTitle == e.title && b.eventStart == e.start && b.eventEnd == e.end
      && b.userNotes == SanitizeInput(Or(userNotes, Str("")), 500)
      && SeatTaken(e).spotsBooked == e.spotsBooked + 1
      && SeatTaken(e).spotsAvailable == e.spotsAvailable - 1 >= 0
      && SeatTaken(e).spotsBooked + SeatTaken(e).spotsAvailable == e.spotsBooked + e.spotsAvailable
      && (newId !in db.bookings ==> |r.db.bookings| == |db.bookings| + 1)
  {
    BookingRejections(db, auth, eventId, userNotes, now, newId, storeFault);
    BookedCommit(db, newId, NewBooking(db.events[eventId.s], auth.value.uid, eventId.s, userNotes), eventId.s);
  }

  // ------------------------------------------------------- cancellation

  /** `(await transaction.get(users/uid)).data()`: the caller's profile, if any. */
  function ProfileOf(db: Db, uid: string): Option<Record> {
    if uid in db.users then Some(db.users[uid]) else None
  }

  /** The callback of `cancelEventBooking`. */
  function CancellationCallback(db: Db, uid: string, bookingId: string): (r: Result<Transaction<()>, ErrorKind>)
    ensures r.Err? ==> r.error in {NotFound, PermissionDenied, FailedPrecondition}
    ensures r.Ok? <==>
      bookingId in db.bookings && MayCancel(db, uid, db.bookings[bookingId]) && db.bookings[bookingId].status != Cancelled
  {
    if bookingId !in db.bookings then Err(NotFound)
    else
      var b := db.bookings[bookingId];
      if b.userId != uid && !UserStore.IsAdmin(ProfileOf(db, uid)) then Err(PermissionDenied)
      else if b.status == Cancelled then Err(FailedPrecondition)
      else Ok(Transaction([UpdateBookingStatus(bookingId, Cancelled), IncrementSeats(b.eventId, -1, 1)], ()))
  }

  /** `cancelEventBooking({ bookingId })`. An id that is not a non-empty string
      makes `collection('bookings').doc(bookingId)` throw, which the handler
      reports as `internal`. */
  function CancelEventBooking(db: Db, auth: Option<Auth>, bookingId: Value, storeFault: bool): (r: Response<()>)
    ensures r.result.Err? ==> r.db == db
    ensures r.result.Ok? ==> CallerId(auth).Some? && StringArg(bookingId).Some? && bookingId.s in db.bookings
  {
    if CallerId(auth).None? then Response(db, Err(Unauthenticated))
    else if StringArg(bookingId).None? || storeFault then Response(db, Err(Internal))
    else RunTransaction(db, CancellationCallback(db, CallerId(auth).value, bookingId.s))
  }

  /** The caller may cancel: the booking is theirs, or their profile's role is admin. */
  predicate MayCancel(db: Db, uid: string, b: Booking) {
    b.userId == uid || UserStore.IsAdmin(ProfileOf(db, uid))
  }

  predicate CancelRequestWellFormed(auth: Option<Auth>, bookingId: Value, storeFault: bool) {
    CallerId(auth).Some? && StringArg(bookingId).Some? && !storeFault
  }

  /** The checks of `cancelEventBooking`, in order, and its writes: the booking
      becomes `cancelled` and its event gets one seat back; nothing else changes.
      A booking whose event no longer exists cannot be cancelled: the event
      update fails, and with it the whole transaction. */
  lemma {:induction false} CancellationOutcomes(db: Db, auth: Option<Auth>, bookingId: Value, storeFault: bool)
    ensures var r := CancelEventBooking(db, auth, bookingId, storeFault);
      && (r.result.Err? ==> r.db == db)
      && (r.result == Err(Unauthenticated) <==> CallerId(auth).None?)
      && (r.result == Err(NotFound) <==>
            CancelRequestWellFormed(auth, bookingId, storeFault) && bookingId.s !in db.bookings)
      && (r.result == Err(PermissionDenied) <==>
            CancelRequestWellFormed(auth, bookingId, storeFault) && bookingId.s in db.bookings
            && !MayCancel(db, auth.value.uid, db.bookings[bookingId.s]))
      && (r.result == Err(FailedPrecondition) <==>
            CancelRequestWellFormed(auth, bookingId, storeFault) && bookingId.s in db.bookings
            && MayCancel(db, auth.value.uid, db.bookings[bookingId.s])
            && db.bookings[bookingId.s].status == Cancelled)
      && (r.result == Err(Internal) <==>
            CallerId(auth).Some? &&
            (!CancelRequestWellFormed(auth, bookingId, storeFault)
             || (bookingId.s in db.bookings && MayCancel(db, auth.value.uid, db.bookings[bookingId.s])
                 && db.bookings[bookingId.s].status == Confirmed
                 && db.bookings[bookingId.s].eventId !in db.events)))
      && (r.result.Ok? <==>
            CancelRequestWellFormed(auth, bookingId, storeFault) && bookingId.s in db.bookings
            && MayCancel(db, auth.value.uid, db.bookings[bookingId.s])
            && db.bookings[bookingId.s].status == Confirmed
            && db.bookings[bookingId.s].eventId in db.events)
      && (r.result.Ok? ==>
            var b := db.bookings[bookingId.s];
            r.db == db.(bookings := db.bookings[bookingId.s := b.(status := Cancelled)],
                        events := db.events[b.eventId := SeatReleased(db.events[b.eventId])]))
  {
    if CancelRequestWellFormed(auth, bookingId, storeFault) && bookingId.s in db.bookings {
      var id := bookingId.s;
      var b := db.bookings[id];
      if MayCancel(db, auth.value.uid, b) && b.status == Confirmed {
        var ws := [UpdateBookingStatus(id, Cancelled), IncrementSeats(b.eventId, -1, 1)];
        var d1 := db.(bookings := db.bookings[id := b.(status := Cancelled)]);
        assert ApplyWrite(db, ws[0]) == Some(d1);
        assert ws[1..] == [IncrementSeats(b.eventId, -1, 1)];
        assert ws[1..][1..] == [];
        assert Commit(d1, ws[1..]) == ApplyWrite(d1, ws[1]);
      }
    }
  }

  /** The owner of a confirmed booking that was just written, together with
      its seat, can cancel it, which gives the event back its counters. */
  lemma CancelJustBooked(db: Db, auth: Auth, id: string, b: Booking, eventId: string)
    requires id != "" && auth.uid != "" && eventId in db.events
    requires b.userId == auth.uid && b.eventId == eventId && b.status == Confirmed
    ensures var booked := db.(bookings := db.bookings[id := b], events := db.events[eventId := SeatTaken(db.events[eventId])]);
            var r := CancelEventBooking(booked, Some(auth), Str(id), false);
      && r.result.Ok?
      && r.db.events == db.events
      && r.db.bookings == db.bookings[id := b.(status := Cancelled)]
  {
    var e := db.events[eventId];
    var booked := db.(bookings := db.bookings[id := b], events := db.events[eventId := SeatTaken(e)]);
    CancellationOutcomes(booked, Some(auth), Str(id), false);
    assert CancelRequestWellFormed(Some(auth), Str(id), false);
    assert booked.bookings[id] == b && MayCancel(booked, auth.uid, b);
    assert booked.events[eventId := SeatReleased(SeatTaken(e))] == db.events;
    assert booked.bookings[id := b.(status := Cancelled)] == db.bookings[id := b.(status := Cancelled)];
  }

  /** Booking an event and then cancelling that booking (generated ids are
      never empty), as the same caller, gives the event back exactly the seat
      counters it had before the booking; the only trace left is the cancelled booking. */
  lemma BookThenCancelRestoresSeats(db: Db, auth: Auth, eventId: string, userNotes: Value, now: int, newId: string)
    requires ProcessEventBooking(db, Some(auth), Str(eventId), userNotes, now, newId, false).result.Ok?
    requires newId != ""
    ensures var booked := ProcessEventBooking(db, Some(auth), Str(eventId), userNotes, now, newId, false).db;
            var r := CancelEventBooking(booked, Some(auth), Str(newId), false);
      && r.result.Ok?
      && r.db.events == db.events
      && newId in booked.bookings
      && r.db.bookings == db.bookings[newId := booked.bookings[newId].(status := Cancelled)]
  {
    BookingWrites(db, Some(auth), Str(eventId), userNotes, now, newId, false);
    var b := NewBooking(db.events[eventId], auth.uid, eventId, userNotes);
    CancelJustBooked(db, auth, newId, b, eventId);
  }

  /** A booking succeeds exactly when the request is well formed and the event
      exists, is bookable, and the caller holds no confirmed booking for it. */
  lemma BookingAccepted(db: Db, auth: Option<Auth>, eventId: Value, userNotes: Value,
                        now: int, newId: string, storeFault: bool)
    ensures ProcessEventBooking(db, auth, eventId, userNotes, now, newId, storeFault).result.Ok? <==>
      BookingRequestWellFormed(auth, eventId, storeFault) && eventId.s in db.events
      && Bookable(db.events[eventId.s], now) && !HasConfirmedBooking(db.bookings, auth.value.uid, eventId.s)
  {
    BookingRejections(db, auth, eventId, userNotes, now, newId, storeFault);
  }

  /** Cancelling one booking adds no confirmed booking. */
  lemma CancelAddsNoConfirmed(bookings: map<string, Booking>, id: string, b: Booking, uid: string, eventId: string)
    requires !HasConfirmedBooking(bookings - {id}, uid, eventId)
    ensures !HasConfirmedBooking(bookings[id := b.(status := Cancelled)], uid, eventId)
  {
    var after := bookings[id := b.(status := Cancelled)];
    forall k | k in after
      ensures !IsConfirmedBookingOf(after[k], uid, eventId)
    {
      if k != id {
        assert k in bookings - {id};
      }
    }
  }

  /** Only a confirmed booking blocks: after booking and cancelling, the same
      user books the same event again, which creates a second booking while the
      first one stays cancelled. */
  lemma RebookAfterCancel(db: Db, auth: Auth, eventId: string, userNotes: Value, now: int,
                          firstId: string, secondId: string)
    requires ProcessEventBooking(db, Some(auth), Str(eventId), userNotes, now, firstId, false).result.Ok?
    requires firstId != "" && secondId != firstId
    ensures var booked := ProcessEventBooking(db, Some(auth), Str(eventId), userNotes, now, firstId, false).db;
            var cancelled := CancelEventBooking(booked, Some(auth), Str(firstId), false).db;
            var again := ProcessEventBooking(cancelled, Some(auth), Str(eventId), userNotes, now, secondId, false);
      && again.result.Ok?
      && firstId in again.db.bookings && secondId in again.db.bookings
      && again.db.bookings[firstId].status == Cancelled
      && again.db.bookings[secondId].status == Confirmed
      && again.db.bookings[secondId].userId == auth.uid
  {
    var booked := ProcessEventBooking(db, Some(auth), Str(eventId), userNotes, now, firstId, false).db;
    BookingAccepted(db, Some(auth), Str(eventId), userNotes, now, firstId, false);
    BookThenCancelRestoresSeats(db, auth, eventId, userNotes, now, firstId);
    var cancelled := CancelEventBooking(booked, Some(auth), Str(firstId), false).db;
    var first := booked.bookings[firstId];
    assert cancelled.bookings == db.bookings[firstId := first.(status := Cancelled)];
    assert !HasConfirmedBooking(db.bookings - {firstId}, auth.uid, eventId) by {
      forall k | k in db.bookings - {firstId}
        ensures !IsConfirmedBookingOf((db.bookings - {firstId})[k], auth.uid, eventId)
      {
        assert (db.bookings - {firstId})[k] == db.bookings[k];
      }
    }
    CancelAddsNoConfirmed(db.bookings, firstId, first, auth.uid, eventId);
    BookingAccepted(cancelled, Some(auth), Str(eventId), userNotes, now, secondId, false);
    BookingWrites(cancelled, Some(auth), Str(eventId), userNotes, now, secondId, false);
  }

  // ------------------------------------------------------ store invariant

  /** The ids of the confirmed bookings of one event. */
  function ConfirmedFor(bookings: map<string, Booking>, eventId: string): set<string> {
    set id | id in bookings && bookings[id].eventId == eventId && bookings[id].status == Confirmed
  }

  /** An event's counters agree with its confirmed bookings and its capacity. */
  predicate SeatsAccountedFor(e: Event, confirmed: nat) {
    e.spotsBooked == confirmed && e.spotsBooked + e.spotsAvailable == e.spotsTotal && e.spotsAvailable >= 0
  }

  /** Every event's counters agree with its confirmed bookings and its capacity. */
  ghost predicate SeatsMatch(db: Db) {
    forall eid :: eid in db.events ==> SeatsAccountedFor(db.events[eid], |ConfirmedFor(db.bookings, eid)|)
  }

  /** No user holds two confirmed bookings for one event. */
  predicate OneConfirmedPerUser(bookings: map<string, Booking>) {
    forall i, j :: i in bookings && j in bookings && bookings[i].status == Confirmed
      && IsConfirmedBookingOf(bookings[j], bookings[i].userId, bookings[i].eventId)
      ==> i == j
  }

  /** The invariant the booking operations keep: every event's counters match
      its confirmed bookings (so `0 <= spotsAvailable <= spotsTotal`), and no
      user holds two confirmed bookings for one event. */
  ghost predicate Valid(db: Db) {
    SeatsMatch(db) && OneConfirmedPerUser(db.bookings)
  }

  lemma ValidBounds(db: Db, eid: string)
    requires Valid(db) && eid in db.events
    ensures 0 <= db.events[eid].spotsAvailable <= db.events[eid].spotsTotal
  {
  }

  /** The confirmed bookings of each event after one booking document is
      written: the new id joins its event's set when it is confirmed. */
  lemma ConfirmedForAfterSet(bookings: map<string, Booking>, id: string, b: Booking, x: string)
    requires id !in bookings || bookings[id].eventId != x || bookings[id].status != Confirmed
    ensures ConfirmedFor(bookings[id := b], x)
      == if b.eventId == x && b.status == Confirmed then ConfirmedFor(bookings, x) + {id}
         else ConfirmedFor(bookings, x) - {id}
  {
  }

  /** One event's counters after a confirmed booking with a new id is
      written: the booked event takes one seat, every other event is as before. */
  lemma SeatTakenAccounts(bookings: map<string, Booking>, newId: string, b: Booking, e: Event, x: string)
    requires newId !in bookings && b.status == Confirmed
    requires SeatsAccountedFor(e, |ConfirmedFor(bookings, x)|)
    requires b.eventId == x ==> e.spotsAvailable > 0
    ensures SeatsAccountedFor(if b.eventId == x then SeatTaken(e) else e, |ConfirmedFor(bookings[newId := b], x)|)
  {
    ConfirmedForAfterSet(bookings, newId, b, x);
    assert newId !in ConfirmedFor(bookings, x);
  }

  /** A confirmed booking by a user who holds none for its event keeps one
      confirmed booking per user and event. */
  lemma NewConfirmedKeepsOnePerUser(bookings: map<string, Booking>, newId: string, b: Booking)
    requires OneConfirmedPerUser(bookings) && newId !in bookings
    requires !HasConfirmedBooking(bookings, b.userId, b.eventId)
    ensures OneConfirmedPerUser(bookings[newId := b])
  {
    var after := bookings[newId := b];
    forall i, j | i in after && j in after && after[i].status == Confirmed
        && IsConfirmedBookingOf(after[j], after[i].userId, after[i].eventId)
      ensures i == j
    {
      if i != newId && j != newId {
        assert bookings[i] == after[i] && bookings[j] == after[j];
      }
    }
  }

  /** Adding a confirmed booking for an event with a spot left, by a user who
      holds none for it yet, and taking one seat keeps the invariant. */
  lemma SeatTakenKeepsValid(db: Db, newId: string, b: Booking)
    requires Valid(db) && newId !in db.bookings
    requires b.eventId in db.events && db.events[b.eventId].spotsAvailable > 0
    requires b.status == Confirmed && !HasConfirmedBooking(db.bookings, b.userId, b.eventId)
    ensures Valid(db.(bookings := db.bookings[newId := b], events := db.events[b.eventId := SeatTaken(db.events[b.eventId])]))
  {
    var after := db.(bookings := db.bookings[newId := b], events := db.events[b.eventId := SeatTaken(db.events[b.eventId])]);
    forall x | x in after.events
      ensures SeatsAccountedFor(after.events[x], |ConfirmedFor(after.bookings, x)|)
    {
      assert SeatsAccountedFor(db.events[x], |ConfirmedFor(db.bookings, x)|);
      SeatTakenAccounts(db.bookings, newId, b, db.events[x], x);
    }
    NewConfirmedKeepsOnePerUser(db.bookings, newId, b);
  }

  /** A booking with a freshly generated id keeps the invariant. */
  lemma BookingKeepsValid(db: Db, auth: Option<Auth>, eventId: Value, userNotes: Value,
                          now: int, newId: string, storeFault: bool)
    requires Valid(db) && newId !in db.bookings
    ensures Valid(ProcessEventBooking(db, auth, eventId, userNotes, now, newId, storeFault).db)
  {
    var r := ProcessEventBooking(db, auth, eventId, userNotes, now, newId, storeFault);
    BookingRejections(db, auth, eventId, userNotes, now, newId, storeFault);
    if r.result.Ok? {
      BookingWrites(db, auth, eventId, userNotes, now, newId, storeFault);
      SeatTakenKeepsValid(db, newId, NewBooking(db.events[eventId.s], auth.value.uid, eventId.s, userNotes));
    }
  }

  /** Cancelling a confirmed booking whose event exists, and releasing one seat
      of that event, keeps the invariant. */
  lemma SeatReleasedKeepsValid(db: Db, id: string)
    requires Valid(db) && id in db.bookings
    requires db.bookings[id].status == Confirmed && db.bookings[id].eventId in db.events
    ensures var b := db.bookings[id];
      Valid(db.(bookings := db.bookings[id := b.(status := Cancelled)],
                events := db.events[b.eventId := SeatReleased(db.events[b.eventId])]))
  {
    var b := db.bookings[id];
    var after := db.(bookings := db.bookings[id := b.(status := Cancelled)],
                     events := db.events[b.eventId := SeatReleased(db.events[b.eventId])]);
    forall x | x in after.events
      ensures SeatsAccountedFor(after.events[x], |ConfirmedFor(after.bookings, x)|)
    {
      assert ConfirmedFor(after.bookings, x) == ConfirmedFor(db.bookings, x) - {id};
      assert SeatsAccountedFor(db.events[x], |ConfirmedFor(db.bookings, x)|);
      if x == b.eventId {
        assert id in ConfirmedFor(db.bookings, x);
      }
    }
  }

  /** A cancellation keeps the invariant. */
  lemma CancellationKeepsValid(db: Db, auth: Option<Auth>, bookingId: Value, storeFault: bool)
    requires Valid(db)
    ensures Valid(CancelEventBooking(db, auth, bookingId, storeFault).db)
  {
    CancellationOutcomes(db, auth, bookingId, storeFault);
    if CancelEventBooking(db, auth, bookingId, storeFault).result.Ok? {
      SeatReleasedKeepsValid(db, bookingId.s);
    }
  }

  // ----------------------------------------------------------- donations

  /** `!amount || amount < 1 || amount > 100000 || typeof amount !== 'number'`.
      A comparison with a non-number never matters here: the last test refuses it. */
  predicate AmountRejected(amount: Value) {
    || !Truthy(amount)
    || (amount.Num? && (amount.n < 1.0 || amount.n > 100000.0))
    || !amount.Num?
  }

  /** `processDonation({ amount, message })`; `newId` is the id of the added document. */
  function ProcessDonation(db: Db, auth: Option<Auth>, amount: Value, message: Value,
                           newId: string, storeFault: bool): (r: Response<string>)
    ensures r.result.Err? ==> r.db == db
    ensures r.db.events == db.events && r.db.bookings == db.bookings && r.db.users == db.users
    ensures r.result.Ok? ==> r.result.value == newId && newId in r.db.donations
  {
    if CallerId(auth).None? then Response(db, Err(Unauthenticated))
    else if AmountRejected(amount) then Response(db, Err(InvalidArgument))
    else if storeFault then Response(db, Err(Internal))
    else
      var d := Donation(CallerId(auth).value, amount.n, SanitizeInput(Or(message, Str("")), 500), "completed");
      Response(db.(donations := db.donations[newId := d]), Ok(newId))
  }

  /** `processDonation` refuses an unauthenticated caller first, then any amount
      that is not a number from 1 to 100000; a recorded donation is `completed`,
      carries the caller, the amount and the sanitised message, and is the only write. */
  lemma DonationOutcomes(db: Db, auth: Option<Auth>, amount: Value, message: Value, newId: string, storeFault: bool)
    ensures var r := ProcessDonation(db, auth, amount, message, newId, storeFault);
      && (r.result.Err? ==> r.db == db)
      && (r.result == Err(Unauthenticated) <==> CallerId(auth).None?)
      && (r.result == Err(InvalidArgument) <==>
            CallerId(auth).Some? && !(amount.Num? && 1.0 <= amount.n <= 100000.0))
      && (r.result.Ok? <==> CallerId(auth).Some? && amount.Num? && 1.0 <= amount.n <= 100000.0 && !storeFault)
      && (r.result.Ok? ==>
            && r.db == db.(donations := r.db.donations)
            && r.db.donations == db.donations[newId := r.db.donations[newId]]
            && r.db.donations[newId] == Donation(auth.value.uid, amount.n,
                                                 SanitizeInput(Or(message, Str("")), 500), "completed"))
  {
  }

  /** Donations touch neither events nor bookings. */
  lemma DonationKeepsValid(db: Db, auth: Option<Auth>, amount: Value, message: Value, newId: string, storeFault: bool)
    requires Valid(db)
    ensures Valid(ProcessDonation(db, auth, amount, message, newId, storeFault).db)
  {
  }

  // ------------------------------------------------- the request checks

  /** All three callable functions check the caller first: a request without
      `request.auth`, or with an empty uid, is refused as unauthenticated and
      changes nothing, and any other request gets past this check. */
  lemma AuthenticationFirst(db: Db, auth: Option<Auth>, eventId: Value, userNotes: Value, bookingId: Value,
                            amount: Value, message: Value, now: int, newId: string, storeFault: bool)
    ensures var b := ProcessEventBooking(db, auth, eventId, userNotes, now, newId, storeFault);
      (b.result == Err(Unauthenticated) <==> auth.None? || auth.value.uid == "")
      && (b.result == Err(Unauthenticated) ==> b.db == db)
    ensures var c := CancelEventBooking(db, auth, bookingId, storeFault);
      (c.result == Err(Unauthenticated) <==> auth.None? || auth.value.uid == "")
      && (c.result == Err(Unauthenticated) ==> c.db == db)
    ensures var d := ProcessDonation(db, auth, amount, message, newId, storeFault);
      (d.result == Err(Unauthenticated) <==> auth.None? || auth.value.uid == "")
      && (d.result == Err(Unauthenticated) ==> d.db == db)
  {
    BookingAuthentication(db, auth, eventId, userNotes, now, newId, storeFault);
    CancellationAuthentication(db, auth, bookingId, storeFault);
    DonationAuthentication(db, auth, amount, message, newId, storeFault);
  }

  lemma BookingAuthentication(db: Db, auth: Option<Auth>, eventId: Value, userNotes: Value,
                              now: int, newId: string, storeFault: bool)
    ensures ProcessEventBooking(db, auth, eventId, userNotes, now, newId, storeFault).result == Err(Unauthenticated)
      <==> CallerId(auth).None?
  {
    if CallerId(auth).Some? && StringArg(eventId).Some? && !storeFault {
      var cb := BookingCallback(db, CallerId(auth).value, eventId.s, userNotes, now, newId);
      assert cb.Err? ==> cb.error != Unauthenticated;
    }
  }

  lemma CancellationAuthentication(db: Db, auth: Option<Auth>, bookingId: Value, storeFault: bool)
    ensures CancelEventBooking(db, auth, bookingId, storeFault).result == Err(Unauthenticated) <==> CallerId(auth).None?
  {
    if CallerId(auth).Some? && StringArg(bookingId).Some? && !storeFault {
      var cb := CancellationCallback(db, CallerId(auth).value, bookingId.s);
      assert cb.Err? ==> cb.error != Unauthenticated;
    }
  }

  lemma DonationAuthentication(db: Db, auth: Option<Auth>, amount: Value, message: Value, newId: string, storeFault: bool)
    ensures ProcessDonation(db, auth, amount, message, newId, storeFault).result == Err(Unauthenticated)
      <==> CallerId(auth).None?
  {
  }

  /** For an authenticated caller, an event id that is missing, empty or not a
      string is refused as an invalid argument, and no other booking request
      is; a booking id of that kind makes the cancellation fail as internal. */
  lemma IdArgumentsChecked(db: Db, auth: Option<Auth>, eventId: Value, userNotes: Value, bookingId: Value,
                           now: int, newId: string, storeFault: bool)
    requires auth.Some? && auth.value.uid != ""
    ensures ProcessEventBooking(db, auth, eventId, userNotes, now, newId, storeFault).result == Err(InvalidArgument)
      <==> !(eventId.Str? && eventId.s != "")
    ensures !(bookingId.Str? && bookingId.s != "") ==>
      CancelEventBooking(db, auth, bookingId, storeFault) == Response(db, Err(Internal))
  {
  }

  // ------------------------------------------------------------ cleanup

  /** The cleanup query: `where('isActive', '==', true).where('end', '<', now)`. */
  predicate Ended(e: Event, now: int) {
    e.isActive && e.end < now
  }

  function EndedIds(events: map<string, Event>, now: int): set<string> {
    set id | id in events && Ended(events[id], now)
  }

  /** `cleanupPastEvents`: one batch that sets `isActive = false` on every
      active event that has ended, committed when it holds an update; returns
      how many it deactivated. */
  method CleanupPastEvents(db: Db, now: int) returns (after: Db, deactivated: nat)
    ensures after.events.Keys == db.events.Keys
    ensures forall id :: id in db.events && Ended(db.events[id], now) ==>
              after.events[id] == db.events[id].(isActive := false)
    ensures forall id :: id in db.events && !Ended(db.events[id], now) ==> after.events[id] == db.events[id]
    ensures deactivated == |EndedIds(db.events, now)|
    ensures after.bookings == db.bookings && after.users == db.users && after.donations == db.donations
    ensures Valid(db) ==> Valid(after)
  {
    var pastEvents := EndedIds(db.events, now);
    var batch := db.events;
    var count := 0;
    var pending := pastEvents;
    while pending != {}
      invariant pending <= pastEvents
      invariant count + |pending| == |pastEvents|
      invariant batch.Keys == db.events.Keys
      invariant forall id :: id in db.events && id in pastEvents - pending ==>
                  batch[id] == db.events[id].(isActive := false)
      invariant forall id :: id in db.events && id !in pastEvents - pending ==> batch[id] == db.events[id]
      decreases |pending|
    {
      var id :| id in pending;
      batch := batch[id := batch[id].(isActive := false)];
      pending := pending - {id};
      count := count + 1;
    }
    if count > 0 {
      after := db.(events := batch);
    } else {
      after := db;
    }
    deactivated := count;
    if Valid(db) {
      forall eid | eid in after.events
        ensures SeatsAccountedFor(after.events[eid], |ConfirmedFor(after.bookings, eid)|)
      {
        assert SeatsAccountedFor(db.events[eid], |ConfirmedFor(db.bookings, eid)|);
      }
    }
  }
}
