/**
 * EventServiceImpl: event search, upcoming events, bookings and guarded deletion. The
 * event table and the booking table are in-memory stores; a booking is keyed by its
 * (event id, user id) pair, which is how bookingFactory.get(eventId, userId) finds it.
 * Ids and dates the database would assign are parameters.
 */
module EventService {

  import opened Wrappers
  import opened Text
  import opened Models
  import opened Filters
  import opened Scopes
  import opened ScopeUtils
  import opened CoreResults

  /** SearchEventModel; the text is never null (search lowercases it unconditionally). */
  datatype SearchEventModel = SearchEventModel(textSearch: string, fromDate: Option<int>, toDate: Option<int>,
                                               capacity: int, communityId: int)

  /** The search predicate: text in name, description or venue, then the optional filters. */
  predicate EventMatches(m: SearchEventModel, e: Event) {
    var text := ToLower(m.textSearch);
    (Contains(ToLower(e.name), text) || Contains(ToLower(e.description), text) || Contains(ToLower(e.venue), text))
    && (m.fromDate.None? || e.scheduled >= m.fromDate.value)
    && (m.toDate.None? || e.scheduled <= m.toDate.value)
    && (m.capacity == 0 || e.capacity == m.capacity)
    && (m.communityId == 0 || e.communityId == m.communityId)
  }

  /** search over all events: the matching ones, in store order. */
  function SearchEvents(events: seq<Event>, m: SearchEventModel): (r: seq<Event>)
    ensures forall e :: e in r <==> e in events && EventMatches(m, e)
    ensures forall i :: 0 <= i < |r| ==> EventMatches(m, r[i])
  {
    FilterSatisfies(events, e => EventMatches(m, e));
    forall e ensures e in Filter(events, e => EventMatches(m, e)) <==> e in events && EventMatches(m, e) {
      FilterMembership(events, e => EventMatches(m, e), e);
    }
    Filter(events, e => EventMatches(m, e))
  }

  /** The search keeps store order: searching a concatenation concatenates the searches. */
  lemma SearchKeepsOrder(a: seq<Event>, b: seq<Event>, m: SearchEventModel)
    ensures SearchEvents(a + b, m) == SearchEvents(a, m) + SearchEvents(b, m)
  {
    FilterAppend(a, b, e => EventMatches(m, e));
  }

  /** The model a blank search form gives: empty text, no dates, capacity and community 0. */
  const Unfiltered := SearchEventModel("", None, None, 0, 0)

  /** A blank search returns every event. */
  lemma UnfilteredSearchKeepsAll(events: seq<Event>)
    ensures SearchEvents(events, Unfiltered) == events
  {
    forall i | 0 <= i < |events|
      ensures EventMatches(Unfiltered, events[i])
    {
      ContainsEmpty(ToLower(events[i].name));
    }
    FilterAll(events, e => EventMatches(Unfiltered, e));
  }

  /** Text matching ignores letter case on both sides. */
  lemma SearchIgnoresTextCase(events: seq<Event>, m: SearchEventModel, text: string)
    requires ToLower(text) == ToLower(m.textSearch)
    ensures SearchEvents(events, m.(textSearch := text)) == SearchEvents(events, m)
  {
    var m2 := m.(textSearch := text);
    assert ToLower(m2.textSearch) == ToLower(m.textSearch);
    forall i | 0 <= i < |events|
      ensures EventMatches(m2, events[i]) == EventMatches(m, events[i])
    {
    }
    FilterSame(events, e => EventMatches(m2, e), e => EventMatches(m, e));
  }

  /** listUpcomingEvents: the user's community events followed by the public ones. */
  method ListUpcomingEvents(userCommunityEvents: seq<Event>, publicEvents: seq<Event>) returns (r: seq<Event>)
    ensures |r| == |userCommunityEvents| + |publicEvents|
    ensures r[..|userCommunityEvents|] == userCommunityEvents && r[|userCommunityEvents|..] == publicEvents
    ensures forall e :: e in r <==> e in userCommunityEvents || e in publicEvents
  {
    r := userCommunityEvents;
    r := r + publicEvents;
  }

  /** BookingAlreadyExistsException, with the ids it reports. */
  datatype BookingAlreadyExists = BookingAlreadyExists(eventId: int, userId: int) {
    function Message(): string {
      "User id " + IntToString(userId) + " is already booked into event id " + IntToString(eventId)
    }
  }

  /** EventBookingResult: a CoreResult of a booking or a BookingAlreadyExists. */
  type EventBookingResult = CoreResult<Booking, BookingAlreadyExists>

  type BookingStore = map<(int, int), Booking>

  /** The permission a new booking gets: combineScopes(EVENT_READ). */
  function BookingPermission(): (p: int)
    ensures p == 2
  {
    MaskOfSingleton(EventRead);
    MaskOf({EventRead}) as int
  }

  predicate Booked(bookings: BookingStore, eventId: int, userId: int) {
    (eventId, userId) in bookings
  }

  /** getUserPermissionLevel: the booking's permission, or 0 (read only) without a booking. */
  function PermissionLevel(bookings: BookingStore, userId: int, eventId: int): (level: int)
    ensures Booked(bookings, eventId, userId) ==> level == bookings[(eventId, userId)].permission
    ensures !Booked(bookings, eventId, userId) ==> level == 0
  {
    if (eventId, userId) in bookings then bookings[(eventId, userId)].permission else 0
  }

  /** isAdmin: the permission level is exactly 1. */
  predicate IsAdminIn(bookings: BookingStore, userId: int, eventId: int) {
    PermissionLevel(bookings, userId, eventId) == 1
  }

  /**
   * bookEvent on the store: an existing booking of the pair is an error and nothing is
   * created; otherwise one booking with the read permission is added and returned.
   */
  function Book(bookings: BookingStore, eventId: int, userId: int, newId: int, now: int)
    : (r: (BookingStore, EventBookingResult))
    ensures Booked(bookings, eventId, userId) ==>
              r.0 == bookings && !r.1.IsSuccess() && r.1.error == Some(BookingAlreadyExists(eventId, userId))
    ensures !Booked(bookings, eventId, userId) ==>
              r.0.Keys == bookings.Keys + {(eventId, userId)}
              && r.1.IsSuccess() && r.1.result == Some(r.0[(eventId, userId)])
              && (forall k :: k in bookings ==> r.0[k] == bookings[k])
              && r.0[(eventId, userId)] == Booking(newId, eventId, userId, now, 2)
  {
    if Booked(bookings, eventId, userId) then (bookings, OfError(Some(BookingAlreadyExists(eventId, userId))))
    else
      var booking := Booking(newId, eventId, userId, now, BookingPermission());
      (bookings[(eventId, userId) := booking], OfResult(Some(booking)))
  }

  /** cancelBooking on the store: true and the pair removed iff it was booked. */
  function Cancel(bookings: BookingStore, userId: int, eventId: int): (r: (BookingStore, bool))
    ensures r.1 <==> Booked(bookings, eventId, userId)
    ensures r.0.Keys == bookings.Keys - {(eventId, userId)}
    ensures forall k :: k in r.0 ==> r.0[k] == bookings[k]
  {
    if Booked(bookings, eventId, userId) then (bookings - {(eventId, userId)}, true) else (bookings, false)
  }

  /** After a first booking the pair is booked, and booking it again fails and changes nothing. */
  lemma BookTwice(bookings: BookingStore, eventId: int, userId: int, id1: int, id2: int, now: int)
    requires !Booked(bookings, eventId, userId)
    ensures var (b1, r1) := Book(bookings, eventId, userId, id1, now);
            var (b2, r2) := Book(b1, eventId, userId, id2, now);
            r1.IsSuccess() && Booked(b1, eventId, userId) && !r2.IsSuccess() && b2 == b1
  {
  }

  /** A booking made by bookEvent has level 2, so it never makes the user an admin of the event. */
  lemma BookingNeverAdmin(bookings: BookingStore, eventId: int, userId: int, newId: int, now: int)
    requires !Booked(bookings, eventId, userId)
    ensures PermissionLevel(Book(bookings, eventId, userId, newId, now).0, userId, eventId) == 2
    ensures !IsAdminIn(Book(bookings, eventId, userId, newId, now).0, userId, eventId)
  {
  }

  /** Booking a free pair and cancelling it gives the original store back. */
  lemma BookThenCancel(bookings: BookingStore, eventId: int, userId: int, newId: int, now: int)
    requires !Booked(bookings, eventId, userId)
    ensures var (b1, _) := Book(bookings, eventId, userId, newId, now);
            Cancel(b1, userId, eventId) == (bookings, true)
  {
    var b1 := Book(bookings, eventId, userId, newId, now).0;
    assert b1 - {(eventId, userId)} == bookings;
  }

  /** Bookings of other pairs keep their permission level across a booking or a cancellation. */
  lemma OtherPairsUnaffected(bookings: BookingStore, eventId: int, userId: int, newId: int, now: int,
                             e: int, u: int)
    requires (e, u) != (eventId, userId)
    ensures PermissionLevel(Book(bookings, eventId, userId, newId, now).0, u, e) == PermissionLevel(bookings, u, e)
    ensures PermissionLevel(Cancel(bookings, userId, eventId).0, u, e) == PermissionLevel(bookings, u, e)
  {
  }

  /** The first event with the given id, as eventFactory.get(id) finds it. */
  function FindEvent(events: seq<Event>, id: int): (r: Option<Event>)
    ensures r.Some? ==> r.value in events && r.value.id == id
    ensures r.None? ==> forall i :: 0 <= i < |events| ==> events[i].id != id
  {
    if events == [] then None else if events[0].id == id then Some(events[0]) else FindEvent(events[1..], id)
  }

  /** How deleteEvent ends: the event deleted, or the exception it throws. */
  datatype DeleteOutcome = Deleted | SecurityDenied(message: string) | NotFound(message: string)

  /**
   * deleteEvent on the stores: a non-admin is refused before any lookup; an admin gets an
   * error for a missing event, otherwise its row is removed and the others keep their order.
   */
  function Delete(events: seq<Event>, bookings: BookingStore, eventId: int, userId: int)
    : (r: (seq<Event>, DeleteOutcome))
    ensures !IsAdminIn(bookings, userId, eventId) ==>
              r == (events, SecurityDenied("Only admins can delete events."))
    ensures IsAdminIn(bookings, userId, eventId) && FindEvent(events, eventId).None? ==>
              r == (events, NotFound("Event with ID " + IntToString(eventId) + " not found."))
    ensures r.1.Deleted? <==> IsAdminIn(bookings, userId, eventId) && FindEvent(events, eventId).Some?
    ensures r.1.Deleted? ==> r.0 == Filter(events, (e: Event) => e.id != eventId)
  {
    if !IsAdminIn(bookings, userId, eventId) then (events, SecurityDenied("Only admins can delete events."))
    else if FindEvent(events, eventId).None? then (events, NotFound("Event with ID " + IntToString(eventId) + " not found."))
    else (Filter(events, (e: Event) => e.id != eventId), Deleted)
  }

  /** After a deletion no event has the id, and every other event is still there. */
  lemma DeleteRemovesOnlyThatEvent(events: seq<Event>, bookings: BookingStore, eventId: int, userId: int, x: Event)
    requires Delete(events, bookings, eventId, userId).1.Deleted?
    ensures FindEvent(Delete(events, bookings, eventId, userId).0, eventId).None?
    ensures x in Delete(events, bookings, eventId, userId).0 <==> x in events && x.id != eventId
  {
    var rest := Filter(events, (e: Event) => e.id != eventId);
    FilterSatisfies(events, (e: Event) => e.id != eventId);
    FilterMembership(events, (e: Event) => e.id != eventId, x);
    assert forall i :: 0 <= i < |rest| ==> rest[i].id != eventId;
  }

  /** A user booked through bookEvent can never delete the event. */
  lemma BookedUserCannotDelete(events: seq<Event>, bookings: BookingStore, eventId: int, userId: int,
                               newId: int, now: int)
    requires !Booked(bookings, eventId, userId)
    ensures Delete(events, Book(bookings, eventId, userId, newId, now).0, eventId, userId).1.SecurityDenied?
  {
    BookingNeverAdmin(bookings, eventId, userId, newId, now);
  }

  class EventServiceImpl {

    /** The Events table, in getAllEvents order. */
    var events: seq<Event>
    /** The Bookings table, keyed by (event id, user id). */
    var bookings: BookingStore

    constructor (events: seq<Event>, bookings: BookingStore)
      ensures this.events == events && this.bookings == bookings
    {
      this.events := events;
      this.bookings := bookings;
    }

    function Search(m: SearchEventModel): seq<Event>
      reads this
    {
      SearchEvents(events, m)
    }

    predicate IsBooked(eventId: int, userId: int)
      reads this
    {
      Booked(bookings, eventId, userId)
    }

    /** `newId` and `now` are the id and creation date the database assigns. */
    method BookEvent(eventId: int, userId: int, newId: int, now: int) returns (r: EventBookingResult)
      modifies this
      ensures (bookings, r) == Book(old(bookings), eventId, userId, newId, now)
      ensures events == old(events)
    {
      if IsBooked(eventId, userId) {
        return OfError(Some(BookingAlreadyExists(eventId, userId)));
      }
      var permission := CombineScopes([EventRead]);
      assert Elements([EventRead]) == {EventRead};
      var booking := Booking(newId, eventId, userId, now, permission as int);
      bookings := bookings[(eventId, userId) := booking];
      r := OfResult(Some(bookings[(eventId, userId)]));
    }

    method CancelBooking(userId: int, eventId: int) returns (cancelled: bool)
      modifies this
      ensures (bookings, cancelled) == Cancel(old(bookings), userId, eventId)
      ensures events == old(events)
    {
      if (eventId, userId) in bookings {
        bookings := bookings - {(eventId, userId)};
        cancelled := true;
      } else {
        cancelled := false;
      }
    }

    function GetUserPermissionLevel(userId: int, eventId: int): int
      reads this
    {
      PermissionLevel(bookings, userId, eventId)
    }

    predicate IsAdmin(userId: int, eventId: int)
      reads this
    {
      IsAdminIn(bookings, userId, eventId)
    }

    method DeleteEvent(eventId: int, userId: int) returns (outcome: DeleteOutcome)
      modifies this
      ensures (events, outcome) == Delete(old(events), old(bookings), eventId, userId)
      ensures bookings == old(bookings)
    {
      if !IsAdmin(userId, eventId) {
        return SecurityDenied("Only admins can delete events.");
      }
      var found := FindEvent(events, eventId);
      if found.None? {
        return NotFound("Event with ID " + IntToString(eventId) + " not found.");
      }
      events := Filter(events, (e: Event) => e.id != found.value.id);
      outcome := Deleted;
    }
  }
}
