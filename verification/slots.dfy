/**
 * The slot engine behind GET /api/slots (src/app/api/slots/route.ts): the
 * bookable start instants of one service with one provider in the 24 hours
 * from a requested start. Slot instants are kept as milliseconds; the route
 * renders them as ISO-8601 strings, whose string order agrees with this order.
 */
module Slots {
  import opened Common
  import opened Entities
  import Sorting

  /** The look-ahead window: 24 hours in milliseconds. */
  const WindowMs: int := 24 * 60 * 60 * 1000

  /** The three query parameters; `startAt` is None when missing or empty. */
  datatype SlotsQuery = SlotsQuery(providerId: Option<string>, serviceId: Option<string>, startAt: Option<Instant>)

  datatype SlotsBody = SlotsBody(
    providerId: string,
    serviceId: string,
    startAt: Instant,
    durationMinutes: int,
    slots: seq<Instant>)

  function Max(a: int, b: int): int { if a < b then b else a }
  function Min(a: int, b: int): int { if a < b then a else b }

  /** Where slot generation runs in a block: the block clipped to the window. */
  function ClipStart(b: Availability, anchor: Instant): Instant { Max(b.startAt, anchor) }
  function ClipEnd(b: Availability, anchor: Instant): Instant { Min(b.endAt, anchor + WindowMs) }

  /**
   * Independent description of a candidate: `t` is a whole number of steps
   * after the clipped start and a full step still fits before the clipped end.
   */
  predicate OnGrid(t: Instant, b: Availability, anchor: Instant, step: int)
    requires step > 0
  {
    ClipStart(b, anchor) <= t && t + step <= ClipEnd(b, anchor)
    && (t - ClipStart(b, anchor)) % step == 0
  }

  /** The availability query: active blocks of the provider that overlap the window. */
  predicate OverlapsWindow(b: Availability, providerId: string, anchor: Instant)
  {
    b.providerId.raw == providerId && b.active
    && b.startAt < anchor + WindowMs && b.endAt > anchor
  }

  /**
   * The booking query: a confirmed booking of the service whose stored
   * provider id equals the query's provider id, starting inside the window.
   * The query's id is a profile id while bookings store the provider's user
   * id; the comparison is on the raw strings, as the route does it.
   */
  predicate Blocks(bk: Booking, providerId: string, serviceId: string, anchor: Instant)
  {
    bk.providerId.raw == providerId && bk.serviceId == serviceId
    && anchor <= bk.startAt < anchor + WindowMs && bk.status == Confirmed
  }

  function BookedStarts(bookings: seq<Booking>, providerId: string, serviceId: string, anchor: Instant): (booked: set<Instant>)
    ensures forall t :: t in booked <==> exists bk :: bk in bookings && Blocks(bk, providerId, serviceId, anchor) && bk.startAt == t
  {
    set bk | bk in bookings && Blocks(bk, providerId, serviceId, anchor) :: bk.startAt
  }

  lemma MulAtLeast(k: int, step: int)
    requires k >= 1 && step > 0
    ensures k * step >= step
  {
    assert k * step == (k - 1) * step + step;
  }

  /** Euclidean division is unique: a quotient and remainder in range are the ones `/` and `%` give. */
  lemma DivModUnique(a: int, q: int, m: int, step: int)
    requires step > 0 && a == q * step + m && 0 <= m < step
    ensures a / step == q && a % step == m
  {
    var q', m' := a / step, a % step;
    assert a == q' * step + m';
    if q' < q {
      MulAtLeast(q - q', step);
    } else if q < q' {
      MulAtLeast(q' - q, step);
    }
  }

  /** Shifting by one step keeps the residue, and the only grid point below one step is the start. */
  lemma StepAlignment(x: int, t: int, step: int)
    requires step > 0
    ensures (x - (t + step)) % step == (x - t) % step
    ensures t <= x < t + step ==> ((x - t) % step == 0 <==> x == t)
  {
    var d := x - t;
    var q, m := d / step, d % step;
    assert d - step == (q - 1) * step + m;
    DivModUnique(d - step, q - 1, m, step);
    if t <= x < t + step {
      DivModUnique(d, 0, d, step);
    }
  }

  /** The instants `t, t + step, ...` that fit before `hi`, minus the booked ones. */
  function Steps(t: Instant, hi: Instant, step: int, booked: set<Instant>): seq<Instant>
    requires step > 0
    decreases hi - t
  {
    if t + step > hi then []
    else (if t in booked then [] else [t]) + Steps(t + step, hi, step, booked)
  }

  /** The walk visits exactly the grid points from `t` that leave room for a whole step, minus the booked ones. */
  lemma {:induction false} StepsMembers(t: Instant, hi: Instant, step: int, booked: set<Instant>)
    requires step > 0
    ensures forall x :: x in Steps(t, hi, step, booked) <==> t <= x && x + step <= hi && (x - t) % step == 0 && x !in booked
    decreases hi - t
  {
    if t + step <= hi {
      StepsMembers(t + step, hi, step, booked);
      forall x
        ensures x in Steps(t, hi, step, booked) <==> t <= x && x + step <= hi && (x - t) % step == 0 && x !in booked
      {
        StepAlignment(x, t, step);
      }
    }
  }

  /** The candidates of one block. */
  function BlockSlots(b: Availability, anchor: Instant, step: int, booked: set<Instant>): seq<Instant>
    requires step > 0
  {
    Steps(ClipStart(b, anchor), ClipEnd(b, anchor), step, booked)
  }

  /** The candidates of all blocks in order, duplicates kept. */
  function Candidates(blocks: seq<Availability>, anchor: Instant, step: int, booked: set<Instant>): seq<Instant>
    requires step > 0
  {
    if |blocks| == 0 then []
    else Candidates(blocks[..|blocks| - 1], anchor, step, booked) + BlockSlots(blocks[|blocks| - 1], anchor, step, booked)
  }

  /** A candidate is exactly an unbooked grid point of some block. */
  lemma {:induction false} CandidatesMembers(blocks: seq<Availability>, anchor: Instant, step: int, booked: set<Instant>)
    requires step > 0
    ensures forall t :: t in Candidates(blocks, anchor, step, booked) <==>
      t !in booked && exists b :: b in blocks && OnGrid(t, b, anchor, step)
  {
    if |blocks| > 0 {
      var init := blocks[..|blocks| - 1];
      var last := blocks[|blocks| - 1];
      var front := Candidates(init, anchor, step, booked);
      var r := Candidates(blocks, anchor, step, booked);
      CandidatesMembers(init, anchor, step, booked);
      StepsMembers(ClipStart(last, anchor), ClipEnd(last, anchor), step, booked);
      assert blocks == init + [last];
      forall t
        ensures t in r <==> t !in booked && exists b :: b in blocks && OnGrid(t, b, anchor, step)
      {
        if t in front {
          var b :| b in init && OnGrid(t, b, anchor, step);
          assert b in blocks;
        } else if t in BlockSlots(last, anchor, step, booked) {
          assert OnGrid(t, last, anchor, step);
        }
        if t !in booked && exists b :: b in blocks && OnGrid(t, b, anchor, step) {
          var b :| b in blocks && OnGrid(t, b, anchor, step);
          if b != last {
            assert b in init;
          }
        }
      }
    }
  }

  /**
   * The inner loop of the route for one block: walk from the clipped start in
   * steps of the service duration while a whole step fits, appending the
   * instants that are not booked.
   */
  method WalkBlock(found: seq<Instant>, b: Availability, anchor: Instant, step: int, booked: set<Instant>)
    returns (out: seq<Instant>)
    requires step > 0
    ensures out == found + BlockSlots(b, anchor, step, booked)
  {
    var lo := Max(b.startAt, anchor);
    var hi := Min(b.endAt, anchor + WindowMs);
    var t := lo;
    out := found;
    while t + step <= hi
      invariant out + Steps(t, hi, step, booked) == found + Steps(lo, hi, step, booked)
      decreases hi - t
    {
      ghost var rest := Steps(t + step, hi, step, booked);
      assert Steps(t, hi, step, booked) == (if t in booked then [] else [t]) + rest;
      if t !in booked {
        assert out + Steps(t, hi, step, booked) == (out + [t]) + rest;
        out := out + [t];
      }
      t := t + step;
    }
  }

  /**
   * The nested loop of the route followed by the sort. The result is the
   * sorted candidate list: every instant on some block's grid that is not
   * booked, as many times as blocks offer it.
   */
  method GenerateSlots(blocks: seq<Availability>, anchor: Instant, durationMinutes: int, booked: set<Instant>)
    returns (slots: seq<Instant>)
    requires ValidDuration(durationMinutes)
    ensures forall t :: t in slots <==>
      t !in booked && exists b :: b in blocks && OnGrid(t, b, anchor, durationMinutes * MinuteMs)
    ensures forall i, j :: 0 <= i < j < |slots| ==> slots[i] <= slots[j]
    ensures slots == Sorting.SortInts(Candidates(blocks, anchor, durationMinutes * MinuteMs, booked))
  {
    var step := durationMinutes * MinuteMs;
    var found: seq<Instant> := [];
    var i := 0;
    while i < |blocks|
      invariant 0 <= i <= |blocks|
      invariant found == Candidates(blocks[..i], anchor, step, booked)
    {
      found := WalkBlock(found, blocks[i], anchor, step, booked);
      assert blocks[..i + 1][..i] == blocks[..i];
      i := i + 1;
    }
    assert blocks[..i] == blocks;
    slots := Sorting.SortInts(found);
    CandidatesMembers(blocks, anchor, step, booked);
    assert forall t :: t in slots <==> t in found by {
      forall t ensures t in slots <==> t in found {
        assert t in slots <==> t in multiset(slots);
        assert t in found <==> t in multiset(found);
      }
    }
  }

  /** The whole slot computation the route performs once the request is admitted. */
  function ComputeSlots(blocks: seq<Availability>, bookings: seq<Booking>, providerId: string, serviceId: string,
                        anchor: Instant, durationMinutes: int): (slots: seq<Instant>)
    requires ValidDuration(durationMinutes)
  {
    var step := durationMinutes * MinuteMs;
    Sorting.SortInts(Candidates(Filter(blocks, b => OverlapsWindow(b, providerId, anchor)), anchor, step,
                                BookedStarts(bookings, providerId, serviceId, anchor)))
  }

  /** A slot of `step` milliseconds starting at `t` lies wholly inside the window. */
  predicate InWindow(t: Instant, anchor: Instant, step: int)
  {
    anchor <= t && t + step <= anchor + WindowMs
  }

  /** `t` is a grid point of some active block of the provider. */
  predicate OfferedBy(t: Instant, blocks: seq<Availability>, providerId: string, anchor: Instant, step: int)
    requires step > 0
  {
    exists b :: b in blocks && b.providerId.raw == providerId && b.active && OnGrid(t, b, anchor, step)
  }

  /** No blocking booking starts at `t`. */
  predicate Unbooked(t: Instant, bookings: seq<Booking>, providerId: string, serviceId: string, anchor: Instant)
  {
    forall bk :: bk in bookings && Blocks(bk, providerId, serviceId, anchor) ==> bk.startAt != t
  }

  predicate Ascending(s: seq<Instant>)
  {
    forall i, j :: 0 <= i < j < |s| ==> s[i] <= s[j]
  }

  /**
   * What the slot list of a successful reply means: ascending, every slot in
   * the window, and a slot exactly when it is a grid point of an active block
   * of the provider that no blocking booking starts at.
   */
  ghost predicate SlotsCorrect(slots: seq<Instant>, blocks: seq<Availability>, bookings: seq<Booking>,
                         providerId: string, serviceId: string, anchor: Instant, durationMinutes: int)
    requires ValidDuration(durationMinutes)
  {
    && Ascending(slots)
    && (forall t :: t in slots ==> InWindow(t, anchor, durationMinutes * MinuteMs))
    && (forall t :: t in slots <==>
          OfferedBy(t, blocks, providerId, anchor, durationMinutes * MinuteMs)
          && Unbooked(t, bookings, providerId, serviceId, anchor))
  }

  /** All three query parameters are present and non-empty. */
  predicate ParamsPresent(q: SlotsQuery)
  {
    Present(q.providerId) && Present(q.serviceId) && q.startAt.Some?
  }

  /** The requested service exists and is active (soft deletion is not consulted). */
  predicate ServiceUsable(q: SlotsQuery, services: map<string, Service>)
    requires ParamsPresent(q)
  {
    q.serviceId.value in services && services[q.serviceId.value].active
  }

  /**
   * GET /api/slots. Missing parameters are a 400; a missing or inactive
   * service is a 404 (checked before the past check); a start strictly before
   * `now` is a 400. Otherwise the reply echoes the query and the service's
   * duration, and the slots are exactly the computed ones, each as often as
   * a block offers it: every returned slot lies in the window, lies on the
   * step grid of an active block of the provider, and is not the start of a
   * blocking booking; every such grid point is returned; the slots are in
   * ascending order.
   */
  function GetSlots(q: SlotsQuery, now: Instant, services: map<string, Service>,
                    blocks: seq<Availability>, bookings: seq<Booking>): (r: Reply<SlotsBody>)
    requires ParamsPresent(q) && ServiceUsable(q, services) ==> ValidDuration(services[q.serviceId.value].durationMinutes)
    ensures r.Success? <==> ParamsPresent(q) && ServiceUsable(q, services) && now <= q.startAt.value
    ensures !ParamsPresent(q) ==> r.Failure? && r.status == 400
    ensures ParamsPresent(q) && !ServiceUsable(q, services) ==> r == Failure(404, "Service not found")
    ensures ParamsPresent(q) && ServiceUsable(q, services) && q.startAt.value < now ==>
      r == Failure(400, "Cannot request slots for past times")
    ensures r.Success? ==>
      && r.status == 200
      && r.body == SlotsBody(q.providerId.value, q.serviceId.value, q.startAt.value,
                             services[q.serviceId.value].durationMinutes, r.body.slots)
    ensures r.Success? ==>
      SlotsCorrect(r.body.slots, blocks, bookings, r.body.providerId, r.body.serviceId, r.body.startAt,
                   r.body.durationMinutes)
    ensures r.Success? ==>
      r.body.slots == ComputeSlots(blocks, bookings, q.providerId.value, q.serviceId.value, q.startAt.value,
                                   services[q.serviceId.value].durationMinutes)
  {
    if !Present(q.providerId) || !Present(q.serviceId) || q.startAt.None? then
      Failure(400, "providerId, serviceId, startAt (ISO datetime) are required")
    else
      var providerId := q.providerId.value;
      var serviceId := q.serviceId.value;
      var anchor := q.startAt.value;
      if serviceId !in services || !services[serviceId].active then
        Failure(404, "Service not found")
      else if anchor < now then
        Failure(400, "Cannot request slots for past times")
      else
        var d := services[serviceId].durationMinutes;
        var slots := ComputeSlots(blocks, bookings, providerId, serviceId, anchor, d);
        ComputeSlotsCorrect(blocks, bookings, providerId, serviceId, anchor, d);
        Success(200, SlotsBody(providerId, serviceId, anchor, d, slots))
  }

  /** Every computed slot comes from an active block of the provider, fits in the window and is not booked. */
  lemma SlotsSound(blocks: seq<Availability>, bookings: seq<Booking>, providerId: string, serviceId: string,
                   anchor: Instant, durationMinutes: int)
    requires ValidDuration(durationMinutes)
    ensures Ascending(ComputeSlots(blocks, bookings, providerId, serviceId, anchor, durationMinutes))
    ensures forall t :: t in ComputeSlots(blocks, bookings, providerId, serviceId, anchor, durationMinutes) ==>
      && InWindow(t, anchor, durationMinutes * MinuteMs)
      && OfferedBy(t, blocks, providerId, anchor, durationMinutes * MinuteMs)
      && Unbooked(t, bookings, providerId, serviceId, anchor)
  {
    var step := durationMinutes * MinuteMs;
    var slots := ComputeSlots(blocks, bookings, providerId, serviceId, anchor, durationMinutes);
    var overlapping := Filter(blocks, b => OverlapsWindow(b, providerId, anchor));
    var booked := BookedStarts(bookings, providerId, serviceId, anchor);
    var c := Candidates(overlapping, anchor, step, booked);
    assert multiset(slots) == multiset(c);
    CandidatesMembers(overlapping, anchor, step, booked);
    forall t | t in slots
      ensures InWindow(t, anchor, step)
      ensures OfferedBy(t, blocks, providerId, anchor, step)
      ensures Unbooked(t, bookings, providerId, serviceId, anchor)
    {
      assert t in multiset(c);
      assert t in c;
      var b :| b in overlapping && OnGrid(t, b, anchor, step);
      assert b in blocks && OverlapsWindow(b, providerId, anchor);
      forall bk | bk in bookings && Blocks(bk, providerId, serviceId, anchor)
        ensures bk.startAt != t
      {
        assert bk.startAt in booked;
      }
    }
  }

  /**
   * Completeness: a grid point of any active block of the provider that no
   * blocking booking starts at is offered. The overlap test of the block
   * query never removes a block with room for a slot.
   */
  lemma SlotsComplete(blocks: seq<Availability>, bookings: seq<Booking>, providerId: string, serviceId: string,
                      anchor: Instant, durationMinutes: int, t: Instant)
    requires ValidDuration(durationMinutes)
    requires OfferedBy(t, blocks, providerId, anchor, durationMinutes * MinuteMs)
    requires Unbooked(t, bookings, providerId, serviceId, anchor)
    ensures t in ComputeSlots(blocks, bookings, providerId, serviceId, anchor, durationMinutes)
  {
    var step := durationMinutes * MinuteMs;
    var b :| b in blocks && b.providerId.raw == providerId && b.active && OnGrid(t, b, anchor, step);
    var overlapping := Filter(blocks, b => OverlapsWindow(b, providerId, anchor));
    var booked := BookedStarts(bookings, providerId, serviceId, anchor);
    assert OverlapsWindow(b, providerId, anchor) by {
      assert b.startAt <= ClipStart(b, anchor) <= t;
      assert t + step <= ClipEnd(b, anchor) <= b.endAt;
      assert anchor <= t && t + step <= anchor + WindowMs;
    }
    assert b in overlapping;
    assert t !in booked;
    var c := Candidates(overlapping, anchor, step, booked);
    CandidatesMembers(overlapping, anchor, step, booked);
    assert t in c;
    assert t in multiset(c);
    assert t in multiset(ComputeSlots(blocks, bookings, providerId, serviceId, anchor, durationMinutes));
  }

  /** Soundness and completeness together: the computed slots are exactly the offered, unbooked grid points. */
  lemma ComputeSlotsCorrect(blocks: seq<Availability>, bookings: seq<Booking>, providerId: string, serviceId: string,
                            anchor: Instant, durationMinutes: int)
    requires ValidDuration(durationMinutes)
    ensures SlotsCorrect(ComputeSlots(blocks, bookings, providerId, serviceId, anchor, durationMinutes),
                         blocks, bookings, providerId, serviceId, anchor, durationMinutes)
  {
    var step := durationMinutes * MinuteMs;
    SlotsSound(blocks, bookings, providerId, serviceId, anchor, durationMinutes);
    forall t | OfferedBy(t, blocks, providerId, anchor, step) && Unbooked(t, bookings, providerId, serviceId, anchor)
      ensures t in ComputeSlots(blocks, bookings, providerId, serviceId, anchor, durationMinutes)
    {
      SlotsComplete(blocks, bookings, providerId, serviceId, anchor, durationMinutes, t);
    }
  }

  /**
   * A confirmed booking of the service at `t` inside the window removes slot
   * `t`; bookings of other services, with other statuses or at other instants
   * remove nothing (see SlotsComplete).
   */
  lemma BookedStartExcluded(blocks: seq<Availability>, bookings: seq<Booking>, providerId: string, serviceId: string,
                            anchor: Instant, durationMinutes: int, bk: Booking)
    requires ValidDuration(durationMinutes)
    requires bk in bookings && Blocks(bk, providerId, serviceId, anchor)
    ensures bk.startAt !in ComputeSlots(blocks, bookings, providerId, serviceId, anchor, durationMinutes)
  {
    SlotsSound(blocks, bookings, providerId, serviceId, anchor, durationMinutes);
  }

  /**
   * Overlapping blocks are not merged: two blocks covering the same five
   * minutes offer that slot twice.
   */
  lemma OverlappingBlocksDuplicate(anchor: Instant, owner: ProfileId)
    ensures var b := Availability("AV0001", owner, anchor, anchor + 5 * MinuteMs, true);
      multiset(ComputeSlots([b, b], [], owner.raw, "SV0001", anchor, 5))[anchor] == 2
  {
    var b := Availability("AV0001", owner, anchor, anchor + 5 * MinuteMs, true);
    var step := 5 * MinuteMs;
    var overlapping := Filter([b, b], b' => OverlapsWindow(b', owner.raw, anchor));
    assert multiset(overlapping)[b] == 2;
    assert |overlapping| <= 2;
    assert overlapping == [b, b] by {
      assert |multiset(overlapping)| == |overlapping|;
    }
    var booked := BookedStarts([], owner.raw, "SV0001", anchor);
    assert booked == {};
    assert ClipStart(b, anchor) == anchor && ClipEnd(b, anchor) == anchor + step;
    assert Steps(anchor + step, anchor + step, step, booked) == [];
    assert Steps(anchor, anchor + step, step, booked) == [anchor];
    assert BlockSlots(b, anchor, step, booked) == [anchor];
    assert [b, b][..1] == [b];
    assert Candidates([b], anchor, step, booked) == [anchor];
    assert Candidates([b, b], anchor, step, booked) == [anchor, anchor];
  }
}
