/**
 * POST and GET /api/bookings (src/app/api/bookings/route.ts): booking
 * admission for customers, and the role-scoped booking list. The session,
 * the current instant, the store rows the route reads and the outcome of the
 * insert are inputs; the reply and the identifier counters are outputs.
 */
module Bookings {
  import opened Common
  import opened Entities
  import opened Ids
  import Slots

  /** The request body after JSON decoding; `startAt` is None unless it is an ISO datetime. */
  datatype BookingRequest = BookingRequest(providerProfileId: Option<string>, serviceId: Option<string>, startAt: Option<Instant>)

  /** `createBookingSchema`: two non-empty strings and a datetime. */
  predicate ValidRequest(body: BookingRequest)
  {
    Present(body.providerProfileId) && Present(body.serviceId) && body.startAt.Some?
  }

  /**
   * Everything the route checks before it tries the insert: a customer
   * session, a valid body, a start not before `now`, an existing approved
   * provider profile, and an existing active service.
   */
  predicate Admissible(session: Option<Session>, body: BookingRequest, now: Instant,
                       profiles: map<ProfileId, ProviderProfile>, services: map<string, Service>)
  {
    && session.Some? && session.value.role == Customer
    && ValidRequest(body)
    && now <= body.startAt.value
    && ProfileId(body.providerProfileId.value) in profiles
    && profiles[ProfileId(body.providerProfileId.value)].approved
    && body.serviceId.value in services
    && services[body.serviceId.value].active
  }

  datatype Admission = Admission(reply: Reply<Booking>, counters: Counters)

  /**
   * POST /api/bookings. A booking is created exactly when the request is
   * admissible and the store accepts the insert; it is confirmed, belongs to
   * the caller, names the provider by its USER id, copies the service's
   * duration and carries the next BK identifier. A BK identifier is drawn
   * for every admissible request whose draw succeeds, even when the insert
   * then fails; nothing is drawn for a rejected one. The draw and the insert
   * share one try block: a unique-constraint violation is a 409, any other
   * failure of either a 500.
   */
  function CreateBooking(session: Option<Session>, body: BookingRequest, now: Instant,
                         profiles: map<ProfileId, ProviderProfile>, services: map<string, Service>,
                         counters: Counters, insert: InsertResult): (r: Admission)
    ensures r.reply.Success? <==> Admissible(session, body, now, profiles, services) && insert == Inserted
    ensures r.reply.Success? ==>
      var b := r.reply.body;
      && r.reply.status == 201
      && b.id == FormatId(BK, counters(BK) + 1)
      && b.customerId == session.value.userId
      && b.providerId == profiles[ProfileId(body.providerProfileId.value)].userId
      && b.serviceId == body.serviceId.value
      && b.startAt == body.startAt.value
      && b.durationMinutes == services[body.serviceId.value].durationMinutes
      && b.status == Confirmed
    ensures r.reply.Failure? ==> r.reply.status in {400, 403, 404, 409, 500}
    ensures r.reply.Failure? && r.reply.status == 409 <==>
      Admissible(session, body, now, profiles, services) && insert == UniqueViolation
    ensures r.reply.Failure? && r.reply.status == 500 <==>
      Admissible(session, body, now, profiles, services) && (insert == OtherFailure || insert == DrawFailure)
    ensures Admissible(session, body, now, profiles, services) && insert != DrawFailure ==>
      r.counters(BK) == counters(BK) + 1 && forall p :: p != BK ==> r.counters(p) == counters(p)
    ensures !Admissible(session, body, now, profiles, services) || insert == DrawFailure ==>
      forall p :: r.counters(p) == counters(p)
  {
    if session.None? || session.value.role != Customer then
      Admission(Failure(403, "Forbidden"), counters)
    else if !ValidRequest(body) then
      Admission(Failure(400, "Invalid booking request"), counters)
    else
      var start := body.startAt.value;
      var profileId := ProfileId(body.providerProfileId.value);
      var serviceId := body.serviceId.value;
      if start < now then
        Admission(Failure(400, "Cannot book a past time"), counters)
      else if profileId !in profiles then
        Admission(Failure(404, "Provider not found"), counters)
      else if !profiles[profileId].approved then
        Admission(Failure(403, "Provider not approved"), counters)
      else if serviceId !in services || !services[serviceId].active then
        Admission(Failure(404, "Service not found"), counters)
      else
        var draw := GenerateId(counters, BK);
        var booking := Booking(draw.id, session.value.userId, profiles[profileId].userId, serviceId, start,
                               services[serviceId].durationMinutes, Confirmed);
        match insert
        case DrawFailure => Admission(Failure(500, "Failed to create booking"), counters)
        case Inserted => Admission(Success(201, booking), draw.counters)
        case UniqueViolation => Admission(Failure(409, "Slot already booked"), draw.counters)
        case OtherFailure => Admission(Failure(500, "Failed to create booking"), draw.counters)
  }

  /**
   * The checks run in a fixed order, and the first failing one decides the
   * reply: role 403, body 400, past start 400, unknown profile 404,
   * unapproved profile 403, unknown or inactive service 404.
   */
  lemma RejectionOrder(session: Option<Session>, body: BookingRequest, now: Instant,
                       profiles: map<ProfileId, ProviderProfile>, services: map<string, Service>,
                       counters: Counters, insert: InsertResult)
    ensures var reply := CreateBooking(session, body, now, profiles, services, counters, insert).reply;
      && (session.None? || session.value.role != Customer ==> reply == Failure(403, "Forbidden"))
      && (session.Some? && session.value.role == Customer ==>
          && (!ValidRequest(body) ==> reply.Failure? && reply.status == 400)
          && (ValidRequest(body) ==>
              var profileId := ProfileId(body.providerProfileId.value);
              && (body.startAt.value < now ==> reply == Failure(400, "Cannot book a past time"))
              && (now <= body.startAt.value && profileId !in profiles ==> reply == Failure(404, "Provider not found"))
              && (now <= body.startAt.value && profileId in profiles && !profiles[profileId].approved ==>
                  reply == Failure(403, "Provider not approved"))
              && (now <= body.startAt.value && profileId in profiles && profiles[profileId].approved
                  && (body.serviceId.value !in services || !services[body.serviceId.value].active) ==>
                  reply == Failure(404, "Service not found"))))
  {
  }

  /** An inactive service is treated exactly like a missing one. */
  lemma InactiveServiceLikeMissing(session: Option<Session>, body: BookingRequest, now: Instant,
                                   profiles: map<ProfileId, ProviderProfile>, services: map<string, Service>,
                                   counters: Counters, insert: InsertResult, s: Service)
    requires ValidRequest(body) && !s.active
    ensures CreateBooking(session, body, now, profiles, services[body.serviceId.value := s], counters, insert).reply
         == CreateBooking(session, body, now, profiles, services - {body.serviceId.value}, counters, insert).reply
  {
  }

  /**
   * Slot exclusion and booking admission key the provider differently: a
   * booking stores the provider's user id, the slot query filters on the
   * profile id. So when the two ids differ, a booking just admitted leaves
   * the slots computed for that provider's profile exactly as they were;
   * the slot it took is still offered. Only the store's unique constraint
   * then refuses a second booking at the same instant.
   */
  lemma AdmittedBookingLeavesSlotsUnchanged(session: Option<Session>, body: BookingRequest, now: Instant,
                                            profiles: map<ProfileId, ProviderProfile>, services: map<string, Service>,
                                            counters: Counters, blocks: seq<Availability>, bookings: seq<Booking>,
                                            anchor: Instant, durationMinutes: int)
    requires ValidDuration(durationMinutes)
    requires Admissible(session, body, now, profiles, services)
    requires profiles[ProfileId(body.providerProfileId.value)].userId.raw != body.providerProfileId.value
    ensures var booking := CreateBooking(session, body, now, profiles, services, counters, Inserted).reply.body;
      Slots.ComputeSlots(blocks, bookings + [booking], body.providerProfileId.value, body.serviceId.value, anchor, durationMinutes)
      == Slots.ComputeSlots(blocks, bookings, body.providerProfileId.value, body.serviceId.value, anchor, durationMinutes)
  {
    var booking := CreateBooking(session, body, now, profiles, services, counters, Inserted).reply.body;
    var pid, sid := body.providerProfileId.value, body.serviceId.value;
    assert !Slots.Blocks(booking, pid, sid, anchor);
    assert Slots.BookedStarts(bookings + [booking], pid, sid, anchor) == Slots.BookedStarts(bookings, pid, sid, anchor);
  }

  /** Which bookings a session sees: all for an admin, its own for a customer, those it provides otherwise. */
  predicate Visible(s: Session, b: Booking)
  {
    match s.role
    case Admin => true
    case Customer => b.customerId == s.userId
    case Provider => b.providerId == s.userId
  }

  /**
   * GET /api/bookings. Without a verified session the reply is 401; with one
   * it is exactly the visible bookings, each as often as stored and in the
   * store's order (newest first, as the store is asked to return them).
   */
  function ListBookings(session: Option<Session>, bookings: seq<Booking>): (r: Reply<seq<Booking>>)
    ensures session.None? <==> r == Failure(401, "Unauthorized")
    ensures session.Some? ==> r.Success? && r.status == 200
    ensures session.Some? ==> forall b :: b in r.body <==> b in bookings && Visible(session.value, b)
    ensures session.Some? ==> forall b :: multiset(r.body)[b] == if Visible(session.value, b) then multiset(bookings)[b] else 0
  {
    match session
    case None => Failure(401, "Unauthorized")
    case Some(auth) =>
      if auth.role == Admin then
        assert forall b :: Visible(auth, b);
        Success(200, bookings)
      else
        Success(200, Filter(bookings, (b: Booking) => Visible(auth, b)))
  }

  /** A customer never sees another customer's booking, and a provider never sees another provider's. */
  lemma NoForeignBookings(s: Session, bookings: seq<Booking>, b: Booking)
    requires s.role != Admin
    requires b in ListBookings(Some(s), bookings).body
    ensures s.role == Customer ==> b.customerId == s.userId
    ensures s.role == Provider ==> b.providerId == s.userId
  {
  }
}
