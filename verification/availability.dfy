/**
 * GET and POST /api/availability (src/app/api/availability/route.ts): the
 * public listing of a provider's active blocks in a time range, and the
 * creation of a block by an approved provider.
 */
module AvailabilityRoute {
  import opened Common
  import opened Entities
  import opened Ids
  import Sorting

  /** Query parameters; a missing or empty parameter is None. */
  datatype AvailabilityQuery = AvailabilityQuery(providerId: Option<string>, startAt: Option<Instant>, endAt: Option<Instant>)

  /** Blocks in ascending order of start. */
  predicate ByStart(a: Availability, b: Availability)
  {
    a.startAt <= b.startAt
  }

  lemma ByStartIsTotalPreorder()
    ensures Sorting.TotalPreorder(ByStart)
  {
  }

  /** A block the listing returns: active, of the provider, starting in `[from, to)`. */
  predicate Listed(b: Availability, providerId: string, from: Instant, to: Instant)
  {
    b.providerId.raw == providerId && b.active && from <= b.startAt < to
  }

  /**
   * GET /api/availability. `providerId` and `startAt` are required (400).
   * Without `endAt` the range ends at `endOfDay`, the last millisecond of the
   * start's calendar day in the server's time zone, which the caller supplies.
   * The reply holds exactly the active blocks of the provider that START in
   * the range, each as often as stored, in ascending order of start; a block
   * that began earlier and is still running is not listed.
   */
  function ListAvailability(q: AvailabilityQuery, endOfDay: Instant, blocks: seq<Availability>): (r: Reply<seq<Availability>>)
    ensures r.Failure? <==> !Present(q.providerId) || q.startAt.None?
    ensures r.Failure? ==> r.status == 400
    ensures r.Success? ==>
      var to := if q.endAt.Some? then q.endAt.value else endOfDay;
      && r.status == 200
      && Sorting.SortedBy(r.body, ByStart)
      && (forall b :: b in r.body <==> b in blocks && Listed(b, q.providerId.value, q.startAt.value, to))
      && (forall b :: multiset(r.body)[b] == if Listed(b, q.providerId.value, q.startAt.value, to) then multiset(blocks)[b] else 0)
  {
    if !Present(q.providerId) || q.startAt.None? then
      Failure(400, "providerId and startAt are required")
    else
      var providerId := q.providerId.value;
      var from := q.startAt.value;
      var to := if q.endAt.Some? then q.endAt.value else endOfDay;
      ByStartIsTotalPreorder();
      var matching := Filter(blocks, (b: Availability) => Listed(b, providerId, from, to));
      var sorted := Sorting.Sort(matching, ByStart);
      assert forall b :: b in sorted <==> b in matching by {
        forall b ensures b in sorted <==> b in matching {
          assert b in sorted <==> b in multiset(sorted);
        }
      }
      Success(200, sorted)
  }

  /** A block that starts before the range is left out even when it overlaps the range. */
  lemma RunningBlockNotListed(q: AvailabilityQuery, endOfDay: Instant, blocks: seq<Availability>, b: Availability)
    requires Present(q.providerId) && q.startAt.Some?
    requires b.startAt < q.startAt.value
    ensures b !in ListAvailability(q, endOfDay, blocks).body
  {
  }

  /** The request body; each instant is None unless it is an ISO datetime. */
  datatype AvailabilityRequest = AvailabilityRequest(startAt: Option<Instant>, endAt: Option<Instant>)

  datatype Creation = Creation(reply: Reply<Availability>, counters: Counters)

  /**
   * What the route requires before it creates a block: a provider session,
   * a valid body, a start not before `now` and strictly before the end, and
   * an approved profile attached to the caller.
   */
  predicate Accepted(session: Option<Session>, body: AvailabilityRequest, now: Instant,
                     profilesByUser: map<UserId, ProviderProfile>)
  {
    && session.Some? && session.value.role == Provider
    && body.startAt.Some? && body.endAt.Some?
    && now <= body.startAt.value < body.endAt.value
    && session.value.userId in profilesByUser
    && profilesByUser[session.value.userId].approved
  }

  /**
   * POST /api/availability. `profilesByUser` maps a user id to the profile
   * attached to that user; a user with no profile, or no user row, is absent.
   * A block is created exactly when the request is accepted: it is active,
   * keyed by the caller's PROFILE id, spans the requested instants and takes
   * the next AV identifier, drawn only then. The start is checked against
   * `now` before it is compared with the end.
   */
  function CreateAvailability(session: Option<Session>, body: AvailabilityRequest, now: Instant,
                              profilesByUser: map<UserId, ProviderProfile>, counters: Counters): (r: Creation)
    ensures r.reply.Success? <==> Accepted(session, body, now, profilesByUser)
    ensures r.reply.Success? ==>
      && r.reply.status == 201
      && r.reply.body == Availability(FormatId(AV, counters(AV) + 1), profilesByUser[session.value.userId].id,
                                      body.startAt.value, body.endAt.value, true)
      && r.counters(AV) == counters(AV) + 1
      && forall p :: p != AV ==> r.counters(p) == counters(p)
    ensures r.reply.Success? ==> r.reply.body.startAt < r.reply.body.endAt && now <= r.reply.body.startAt
    ensures r.reply.Failure? ==> r.reply.status in {400, 403} && forall p :: r.counters(p) == counters(p)
    ensures session.None? || session.value.role != Provider ==> r.reply == Failure(403, "Forbidden")
  {
    if session.None? || session.value.role != Provider then
      Creation(Failure(403, "Forbidden"), counters)
    else if body.startAt.None? || body.endAt.None? then
      Creation(Failure(400, "Invalid availability request"), counters)
    else
      var start := body.startAt.value;
      var end := body.endAt.value;
      if start < now then
        Creation(Failure(400, "Cannot create availability in the past"), counters)
      else if start >= end then
        Creation(Failure(400, "startAt must be before endAt"), counters)
      else if session.value.userId !in profilesByUser then
        Creation(Failure(400, "Provider profile missing"), counters)
      else if !profilesByUser[session.value.userId].approved then
        Creation(Failure(403, "Provider not approved"), counters)
      else
        var draw := GenerateId(counters, AV);
        Creation(Success(201, Availability(draw.id, profilesByUser[session.value.userId].id, start, end, true)),
                 draw.counters)
  }

  /**
   * For a provider, the first failing check decides the reply: a missing
   * instant 400, a past start 400, an end not after the start 400, no
   * profile 400, an unapproved profile 403.
   */
  lemma AvailabilityRejectionOrder(session: Option<Session>, body: AvailabilityRequest, now: Instant,
                                   profilesByUser: map<UserId, ProviderProfile>, counters: Counters)
    requires session.Some? && session.value.role == Provider
    ensures var reply := CreateAvailability(session, body, now, profilesByUser, counters).reply;
      && (body.startAt.None? || body.endAt.None? ==> reply.Failure? && reply.status == 400)
      && (body.startAt.Some? && body.endAt.Some? ==>
          var start, end, caller := body.startAt.value, body.endAt.value, session.value.userId;
          && (start < now ==> reply == Failure(400, "Cannot create availability in the past"))
          && (now <= start && end <= start ==> reply == Failure(400, "startAt must be before endAt"))
          && (now <= start < end && caller !in profilesByUser ==> reply == Failure(400, "Provider profile missing"))
          && (now <= start < end && caller in profilesByUser && !profilesByUser[caller].approved ==>
              reply == Failure(403, "Provider not approved")))
  {
  }

  /**
   * A block created by a provider is listed for that provider's profile
   * id by a query whose range covers its start.
   */
  lemma CreatedBlockIsListed(session: Option<Session>, body: AvailabilityRequest, now: Instant,
                             profilesByUser: map<UserId, ProviderProfile>, counters: Counters,
                             blocks: seq<Availability>, to: Instant)
    requires Accepted(session, body, now, profilesByUser)
    requires body.startAt.value < to
    requires profilesByUser[session.value.userId].id.raw != ""
    ensures var created := CreateAvailability(session, body, now, profilesByUser, counters).reply.body;
      var q := AvailabilityQuery(Some(created.providerId.raw), body.startAt, Some(to));
      created in ListAvailability(q, to, blocks + [created]).body
  {
    var created := CreateAvailability(session, body, now, profilesByUser, counters).reply.body;
    assert created in blocks + [created];
  }
}
