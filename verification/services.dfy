/**
 * GET and POST /api/services (src/app/api/services/route.ts): the public
 * catalogue of bookable services, and service creation by an administrator,
 * which also asks for one audit record.
 */
module Services {
  import opened Common
  import opened Entities
  import opened Ids
  import Sorting

  /** Services in ascending order of name. */
  predicate ByName(a: Service, b: Service)
  {
    Sorting.LexLe(a.name, b.name)
  }

  lemma ByNameIsTotalPreorder()
    ensures Sorting.TotalPreorder(ByName)
  {
    forall x, y ensures ByName(x, y) || ByName(y, x) {
      Sorting.LexLeTotal(x.name, y.name);
    }
    forall x, y, z | ByName(x, y) && ByName(y, z) ensures ByName(x, z) {
      Sorting.LexLeTransitive(x.name, y.name, z.name);
    }
  }

  /** Shown in the catalogue: active and not soft-deleted. */
  predicate Bookable(s: Service)
  {
    s.active && s.deletedAt.None?
  }

  /**
   * GET /api/services: exactly the active, non-deleted services, each as
   * often as stored, in ascending order of name.
   */
  function ListServices(services: seq<Service>): (r: seq<Service>)
    ensures Sorting.SortedBy(r, ByName)
    ensures forall s :: s in r <==> s in services && Bookable(s)
    ensures forall s :: multiset(r)[s] == if Bookable(s) then multiset(services)[s] else 0
  {
    ByNameIsTotalPreorder();
    var shown := Filter(services, Bookable);
    var sorted := Sorting.Sort(shown, ByName);
    assert forall s :: s in sorted <==> s in shown by {
      forall s ensures s in sorted <==> s in shown {
        assert s in sorted <==> s in multiset(sorted);
      }
    }
    sorted
  }

  /** The request body; `durationMinutes` is the JSON number, None when absent or not a number. */
  datatype ServiceRequest = ServiceRequest(name: Option<string>, description: Option<string>, durationMinutes: Option<real>)

  /** The row the route inserts: the new SV identifier and the validated body. */
  datatype NewService = NewService(id: string, name: string, description: Option<string>, durationMinutes: int)

  /** What is handed to the audit log; a failure to write it never changes the reply. */
  datatype AuditRecord = AuditRecord(
    actorId: UserId,
    actorRole: Role,
    action: string,
    target: string,
    metadataName: string,
    metadataDurationMinutes: int)

  datatype ServiceCreation = ServiceCreation(reply: Reply<NewService>, audit: Option<AuditRecord>, counters: Counters)

  /** `durationMinutes: z.number().int().min(5).max(240)`. */
  predicate WholeMinutesInRange(d: real)
  {
    d == d.Floor as real && MinDurationMinutes as real <= d <= MaxDurationMinutes as real
  }

  /** `createSchema`: a name of at least two characters and a whole duration from 5 to 240 minutes. */
  predicate ValidServiceRequest(body: ServiceRequest)
  {
    && body.name.Some? && |body.name.value| >= 2
    && body.durationMinutes.Some? && WholeMinutesInRange(body.durationMinutes.value)
  }

  /**
   * POST /api/services. Anyone but a verified administrator gets 403 before
   * the body is looked at; an invalid body gets 400. Otherwise the service
   * is created with the next SV identifier and a valid duration, and exactly
   * one SERVICE_CREATED record naming the administrator, the new identifier,
   * the name and the duration is sent to the audit log. Rejections draw no
   * identifier and log nothing.
   */
  function CreateService(session: Option<Session>, body: ServiceRequest, counters: Counters): (r: ServiceCreation)
    ensures r.reply.Success? <==> session.Some? && session.value.role == Admin && ValidServiceRequest(body)
    ensures (session.None? || session.value.role != Admin) ==> r.reply == Failure(403, "Forbidden")
    ensures session.Some? && session.value.role == Admin && !ValidServiceRequest(body) ==>
      r.reply.Failure? && r.reply.status == 400
    ensures r.reply.Failure? ==> r.audit.None? && forall p :: r.counters(p) == counters(p)
    ensures r.reply.Success? ==>
      var s := r.reply.body;
      && r.reply.status == 201
      && s.id == FormatId(SV, counters(SV) + 1)
      && s.name == body.name.value && s.description == body.description
      && s.durationMinutes as real == body.durationMinutes.value
      && ValidDuration(s.durationMinutes)
      && r.audit == Some(AuditRecord(session.value.userId, Admin, "SERVICE_CREATED", s.id, s.name, s.durationMinutes))
      && r.counters(SV) == counters(SV) + 1
      && forall p :: p != SV ==> r.counters(p) == counters(p)
  {
    if session.None? || session.value.role != Admin then
      ServiceCreation(Failure(403, "Forbidden"), None, counters)
    else if !ValidServiceRequest(body) then
      ServiceCreation(Failure(400, "Invalid service request"), None, counters)
    else
      var draw := GenerateId(counters, SV);
      var service := NewService(draw.id, body.name.value, body.description, body.durationMinutes.value.Floor);
      var record := AuditRecord(session.value.userId, session.value.role, "SERVICE_CREATED", service.id,
                                service.name, service.durationMinutes);
      ServiceCreation(Success(201, service), Some(record), draw.counters)
  }

  /**
   * A duration that is not a whole number is refused for every caller, body
   * and counter state, even inside the range: an administrator gets 400 and
   * no service, audit record or identifier. For example 30.5 is refused.
   */
  lemma FractionalDurationRefused(session: Option<Session>, body: ServiceRequest, counters: Counters)
    requires body.durationMinutes.Some? && body.durationMinutes.value != body.durationMinutes.value.Floor as real
    ensures var r := CreateService(session, body, counters);
      && r.reply.Failure? && r.audit.None?
      && (session.Some? && session.value.role == Admin ==> r.reply.status == 400)
  {
  }
}
