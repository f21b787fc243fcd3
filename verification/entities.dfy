/**
 * The stored records the routes read and write. Instants are integer
 * milliseconds since the epoch; durations are whole minutes.
 */
module Entities {
  import opened Common

  type Instant = int

  const MinuteMs: int := 60 * 1000

  /** Service durations accepted on creation: whole minutes from 5 to 240. */
  const MinDurationMinutes: int := 5
  const MaxDurationMinutes: int := 240

  predicate ValidDuration(minutes: int)
  {
    MinDurationMinutes <= minutes <= MaxDurationMinutes
  }

  datatype Service = Service(
    id: string,
    name: string,
    description: Option<string>,
    durationMinutes: int,
    active: bool,
    deletedAt: Option<Instant>)

  /** A user account; the password is kept only as a hash. */
  datatype User = User(id: UserId, name: string, email: string, passwordHash: string, role: Role)

  /** A provider's profile: its own id, the id of the user it belongs to, and admin approval. */
  datatype ProviderProfile = ProviderProfile(id: ProfileId, userId: UserId, approved: bool)

  /** An availability block; it is keyed by the provider's PROFILE id. */
  datatype Availability = Availability(
    id: string,
    providerId: ProfileId,
    startAt: Instant,
    endAt: Instant,
    active: bool)

  datatype BookingStatus = Confirmed | Cancelled | Completed

  /** A booking; its `providerId` holds the provider's USER id. */
  datatype Booking = Booking(
    id: string,
    customerId: UserId,
    providerId: UserId,
    serviceId: string,
    startAt: Instant,
    durationMinutes: int,
    status: BookingStatus)

  /**
   * How an insert ends: success, a unique-constraint violation (P2002), another
   * failure of the insert after its identifier was drawn, or a failure of the
   * identifier draw itself, which happens before the insert and consumes nothing.
   */
  datatype InsertResult = Inserted | UniqueViolation | OtherFailure | DrawFailure
}
