# Appointment booking core in Dafny

This project models the server-side core of a small appointment-booking web
application. Customers book services with providers. Providers publish
availability blocks. Administrators manage the service catalogue. The parts
modelled are:

- **Slot engine** (`Slots`): `GET /api/slots` clips a provider's active
  availability blocks to a 24-hour window from a requested start. It steps
  through each clipped block in increments of the service's duration, drops
  the start instants of confirmed bookings, and sorts what is left.
- **Booking admission and listing** (`Bookings`): the ordered checks of
  `POST /api/bookings`, the mapping of the insert outcome to 201, 409 or 500,
  and the per-role visibility of `GET /api/bookings`.
- **Availability** (`AvailabilityRoute`): the block listing and the
  validation and shape of a created block.
- **Registration** (`Register`) and **service catalogue** (`Services`),
  including the audit record sent on service creation.
- **Identifiers** (`Ids`): prefixed, zero-padded identifiers such as
  "BK0007", drawn from one counter per prefix.
- **Rate limiter** (`RateLimit`): a fixed-window limiter over a keyed store,
  with the clock passed in.
- **Request gate** (`Middleware`): public paths, the CSRF header rule for API
  writes, the login redirect, and role areas.
- **Audit page helpers** (`AuditLabels`): the action label formatter and the
  two badge-class choosers.

Instants are integer milliseconds. Everything the code obtains from outside
becomes an input:

- the current instant;
- the store rows a route reads;
- the outcome of an insert;
- the verified session (`Option<Session>`), or only its role for the gate;
- the e-mail syntax check and the password hash.

A route returns its reply together with the advanced identifier counters and
the row it creates, if any.

Availability blocks are keyed by the provider's *profile* id, while bookings
store the provider's *user* id (`ProfileId` and `UserId` are separate types).
The slot route filters bookings on the raw profile-id string it was given,
exactly as the source does. `Register.RegisterUser` proves that a provider's
profile id always differs from its user id.
`Bookings.AdmittedBookingLeavesSlotsUnchanged` proves the consequence: when
the ids differ, a booking admitted through the booking route leaves the
computed slots for that profile unchanged. The store's unique constraint,
modelled as the insert outcome, is then what refuses a second booking.

The slot route looks a service up by id and tests only `active`. A
soft-deleted service that is still active therefore still yields slots. The
model keeps this behaviour.

## Model

| member | source | states |
|---|---|---|
| Slots.GetSlots | src/app/api/slots/route.ts:4-88 | The only precondition is that a present, active requested service has a duration in [5, 240]. Success iff all three parameters are present, the service exists and is active, and the anchor is not before now. Missing parameters give 400. A missing or inactive service gives 404, even for a past anchor. A past anchor gives 400, and an anchor equal to now is accepted. On success the reply echoes the provider id, the service id, the parsed start instant and the service duration. The slots are exactly the computed list, with one copy per block that offers an instant. They are ascending and all lie in the 24 h window. An instant is a slot iff it is on the step grid of an active block of the provider and no blocking booking starts at it. |
| Slots.WalkBlock | src/app/api/slots/route.ts:65-79 | The per-block loop, clipped to the block and the 24-hour window, appends exactly the block's unbooked grid points, in order, to what was found before. |
| Slots.GenerateSlots | src/app/api/slots/route.ts:60-86 | The nested loop of the route yields exactly the unbooked grid points of the blocks, in ascending order. It equals the sorted per-block concatenation. |
| Slots.StepsMembers | src/app/api/slots/route.ts:74-78 | Stepping from t while a whole step fits visits exactly the instants x with t <= x, x + step <= end and (x - t) a multiple of the step, skipping booked ones. |
| Slots.CandidatesMembers | src/app/api/slots/route.ts:64-79 | The concatenated candidates are exactly the unbooked instants lying on the grid of some block clipped to the window. |
| Slots.BookedStarts | src/app/api/slots/route.ts:48-58 | The booked set holds exactly the start instants of confirmed bookings with the queried provider id and service that start in [anchor, anchor + 24 h). |
| Slots.SlotsSound | src/app/api/slots/route.ts:35-86 | Every computed slot lies in the window and fits a whole step before the window end. It comes from an active block of the provider and clears every blocking booking. The output is ascending. |
| Slots.SlotsComplete | src/app/api/slots/route.ts:64-79 | Completeness: every grid point of any active block of the provider that no blocking booking starts at is emitted. The overlap filter of the block query never loses such a point. |
| Slots.ComputeSlotsCorrect | src/app/api/slots/route.ts:35-86 | The computed list is ascending and inside the window. An instant is in it iff it is a grid point of an active block of the provider that no blocking booking starts at. |
| Slots.BookedStartExcluded | src/app/api/slots/route.ts:48-58 | A confirmed booking of the same provider id and service, starting inside the window, removes exactly its start instant. |
| Slots.OverlappingBlocksDuplicate | src/app/api/slots/route.ts:64-86 | Blocks are not merged: two identical blocks offer the same instant twice. |
| Sorting.SortInts | src/app/api/slots/route.ts:86 | The result is ascending and a permutation of the input. |
| Bookings.CreateBooking | src/app/api/bookings/route.ts:7-87 | A booking is returned iff every admission check passes and the insert succeeds. It is CONFIRMED, has the caller as customer and the profile's user id as provider, copies the service duration, and has the next BK id. A unique violation gives 409, both iff admissible. A failed insert or a failed BK draw gives 500, iff admissible. A BK id is consumed iff the request is admissible and the draw succeeds, even if the insert then fails. A failed draw consumes none. |
| Bookings.RejectionOrder | src/app/api/bookings/route.ts:8-53 | The first failing check decides the reply, in this order: not a customer 403, bad body 400, past start 400, unknown profile 404, unapproved profile 403, missing or inactive service 404. |
| Bookings.InactiveServiceLikeMissing | src/app/api/bookings/route.ts:50-53 | An inactive service gets the same reply as an absent one. |
| Bookings.AdmittedBookingLeavesSlotsUnchanged | src/app/api/bookings/route.ts:61 | A booking stores the provider's user id. When that id differs from the profile id, adding the booking leaves the slots computed for the profile id unchanged. |
| Bookings.ListBookings | src/app/api/bookings/route.ts:89-119 | 401 iff there is no session. Otherwise the reply holds exactly the visible bookings, with their stored multiplicity: an admin sees all, a customer its own, and a provider those where it is the provider. |
| Bookings.NoForeignBookings | src/app/api/bookings/route.ts:103-118 | A customer never receives another customer's booking, and a provider never receives another provider's. |
| AvailabilityRoute.ListAvailability | src/app/api/availability/route.ts:7-42 | 400 iff providerId or startAt is missing. Otherwise exactly the active blocks of the provider that start in [start, end), with their multiplicity, sorted by start. The end defaults to the supplied end of day. |
| AvailabilityRoute.RunningBlockNotListed | src/app/api/availability/route.ts:32-39 | A block that starts before the queried start is not listed, even if it is still running. |
| AvailabilityRoute.CreateAvailability | src/app/api/availability/route.ts:44-110 | A block is created iff the caller is a provider, both instants are given, now <= start < end, and the caller has an approved profile. The block is active, keyed by the profile id, and has the next AV id. Every created block has start < end. A caller that is not a provider gets 403 Forbidden. Failures are 400 or 403 and draw no id. |
| AvailabilityRoute.AvailabilityRejectionOrder | src/app/api/availability/route.ts:50-97 | For a provider, the first failing check decides the reply. A missing instant gives 400. A past start gives 400 with the past-time message, whatever the end. An end not after the start gives 400, even when the start is now. No profile gives 400. An unapproved profile gives 403. |
| AvailabilityRoute.CreatedBlockIsListed | src/app/api/availability/route.ts:99-107 | A created block is found by a listing query on the creator's profile id whose range covers its start. |
| Register.RegisterUser | src/app/api/auth/register/route.ts:14-55 | A user is created iff the body is valid and the e-mail is free. An invalid body gives 400, checked before any lookup. A taken e-mail gives 409 and creates nothing. The role is PROVIDER iff requested, otherwise CUSTOMER, and never ADMIN. A provider gets ids PR(n+1) and PR(n+2) for user and profile, which differ. A customer gets CU(n+1) and no profile. Only the hash of the password is stored, and the reply omits it. |
| Register.RegistrationKeepsEmailsUnique | src/app/api/auth/register/route.ts:27-33 | Registration preserves e-mail uniqueness among stored users. |
| Register.SecondRegistrationConflicts | src/app/api/auth/register/route.ts:27-33 | Repeating a successful registration gives 409 and creates nothing. |
| Services.ListServices | src/app/api/services/route.ts:9-15 | Exactly the active, non-deleted services, with their multiplicity, in ascending order of name. |
| Services.CreateService | src/app/api/services/route.ts:23-57 | Created iff the session is an admin and the body is valid. A non-admin gets 403 whatever the body. An invalid body gives 400. The new service has the next SV id and a whole duration in [5, 240]. Exactly one SERVICE_CREATED audit record is produced, naming the admin, the new id, the name and the duration. Rejections log nothing and draw no id. |
| Services.FractionalDurationRefused | src/app/api/services/route.ts:17-21 | For every caller, body and counter state, a duration that is not a whole number is refused, even inside [5, 240]. No audit record is written. An administrator gets 400. |
| Ids.GenerateId | src/lib/id.ts:4-14 | Increments exactly its own prefix's counter by one. The id encodes the new counter value. |
| Ids.FormatIdShape | src/lib/id.ts:13 | An id is the two-letter prefix followed by digits only. Counters 1..9999 give six characters. Larger counters are not truncated. |
| Ids.FormatIdRoundTrip | src/lib/id.ts:13 | The prefix and the counter can be read back from the id. |
| Ids.FormatIdInjective | src/lib/id.ts:13 | Distinct (prefix, counter) pairs give distinct ids. |
| Ids.DrawAt | src/lib/id.ts:7-13 | The i-th id of a run of draws formats its prefix's counter at a value above that prefix's starting counter. |
| Ids.DrawsAreDistinct | src/lib/id.ts:7-13 | However draws of different prefixes interleave, no id is handed out twice. |
| Ids.SuccessiveIdsDiffer | src/lib/id.ts:7-13 | Two successive draws with one prefix return different ids. |
| Ids.DecimalLength | src/lib/id.ts:13 | The decimal form of n has at most k digits iff n < 10^k. |
| RateLimit.Check | src/server/security/rateLimit.ts:13-31 | Only the key's entry can change. A call is allowed iff the entry is missing, expired, or under the limit. A missing or expired entry restarts at count 1 until now + window. An allowed call on a live window adds one. A refused call leaves the store unchanged and reports the ceiling of the remaining seconds, which is at least 0. With limit >= 1, no count ever exceeds the limit. |
| RateLimit.AllowedWithinOpenWindow | src/server/security/rateLimit.ts:20-30 | While no call comes after the window's end, at most limit - count further calls are allowed. |
| RateLimit.AtMostLimitPerWindow | src/server/security/rateLimit.ts:20-30 | The call that opens a window plus every later call up to its end: at most `limit` of them are allowed. |
| RateLimit.ExpiryIsStrict | src/server/security/rateLimit.ts:20 | A call at exactly resetAt still counts against the old window. A full window refuses it with retryAfter 0. |
| RateLimit.CeilSeconds | src/server/security/rateLimit.ts:26 | The result is the least whole number of seconds covering the remaining milliseconds. |
| Middleware.Middleware | middleware.ts:11-92 | A 403 only ever answers an API path with an unsafe method. Every redirect goes either to the login page with `next` set to the path (no verified session) or to the caller's own dashboard. |
| Middleware.HomeRoute | middleware.ts:15-32 | On "/", a verified session is sent to its dashboard. No session, or a bad token, passes. |
| Middleware.PublicPathsPass | middleware.ts:35-42 | Paths under /docs, /api/docs, /api/auth, /_next and /favicon pass, whatever the session, method or header. |
| Middleware.ApiCsrfRule | middleware.ts:46-59 | Any other /api path is refused iff its method is not GET, HEAD or OPTIONS and X-Requested-With is not exactly "fetch". Otherwise it passes with no session check. |
| Middleware.UnauthenticatedGoesToLogin | middleware.ts:61-65 | Any other path without a verified session redirects to /auth/login with `next` set to the path. |
| Middleware.OtherAreaRedirects | middleware.ts:68-89 | A verified role on another role's area is always redirected to its own dashboard. |
| Middleware.OwnAreaPasses | middleware.ts:68-91 | A verified role on a path under its own area passes. |
| Middleware.OutsideAreasPass | middleware.ts:91 | Verified requests outside the three role areas pass. |
| Middleware.DashboardInOwnArea | middleware.ts:21-26 | Each dashboard lies in its own role's area and in no other gated prefix. |
| Middleware.SignedInRedirectsSettle | middleware.ts:68-89 | No redirect loop for a verified session: requesting a redirect's target with the same token passes. |
| Middleware.LoginPageRedirectsToItself | middleware.ts:35-42 | As written, a request for /auth/login without a session is redirected to /auth/login. |
| Middleware.MiddlewareWithAuthPages | middleware.ts:35-42 | With /auth added to the public prefixes, every redirect settles, with or without a session. |
| Middleware.SettlesWithAuthPages | middleware.ts:61-89 | The corrected gate lets through the target of any redirect it issues. |
| Middleware.LoginPageReachableWithAuthPages | middleware.ts:35-42 | The corrected gate lets an unauthenticated visitor reach the login page. |
| AuditLabels.FormatAction | src/app/admin/audit/page.tsx:43-48 | The label is as long as the action and contains no "_". Position by position, "_" becomes a space, each word keeps its first character, and the other letters are lower-cased. |
| AuditLabels.LabelKeepsWordCount | src/app/admin/audit/page.tsx:43-48 | For an action without spaces, the label has as many space-separated parts as the action had "_"-separated parts. |
| AuditLabels.LabelRoundTrip | src/app/admin/audit/page.tsx:43-48 | For an action code in capitals and "_", upper-casing the label and restoring "_" gives the code back. |
| AuditLabels.ServiceCreatedLabel | src/app/admin/audit/page.tsx:46 | "SERVICE_CREATED" becomes "Service Created". |
| AuditLabels.SplitPieces | src/app/admin/audit/page.tsx:45 | Splitting yields one more part than there are separators. |
| AuditLabels.RoleBadgeClass | src/app/admin/audit/page.tsx:62-73 | ADMIN, PROVIDER and CUSTOMER map to badge-destructive, badge-primary and badge-accent respectively, each iff. Anything else maps to badge-muted. |
| AuditLabels.ActionBadgeClass | src/app/admin/audit/page.tsx:75-83 | The four classes are chosen by priority, each iff: success for CREATED or APPROVED, then destructive for CANCELLED or REJECTED, then primary for UPDATED or CHANGED, else muted. |
| AuditLabels.CreatedWinsOverCancelled | src/app/admin/audit/page.tsx:76-79 | An action containing both CREATED and CANCELLED gets badge-success. |

## Left out

- Storage is not modelled as state. The rows a route reads are inputs, and every read is taken to succeed. In the source, any read (the profile and service lookups of the booking route, the e-mail lookup of registration, the profile lookup of availability creation, the slot and listing queries) can throw. Nothing catches such an error, so the reply is 500. Only the booking route catches a failed write, so only its outcome is an input (Bookings.CreateBooking). The database unique constraint and its concurrency guarantee against double booking live in the store, so only the mapping of P2002 to 409 is modelled.
- Session tokens (JWT signing and verification), bcrypt hashing, and zod's e-mail and datetime parsing are foreign libraries. They appear as `Option<Session>`, a hash function parameter, an e-mail predicate parameter, and `Option<Instant>` fields.
- Slots.GetSlots: slots are integer milliseconds, not ISO strings. The string sort is taken to agree with numeric order.
- Slots.GetSlots: a non-empty `startAt` that is not a date is not represented. The source passes an invalid Date on to the store.
- AvailabilityRoute.ListAvailability: the default end of range is an input. The source computes it with local-time `setHours(23, 59, 59, 999)`, which depends on the host time zone.
- AvailabilityRoute.ListAvailability: an unparseable `startAt` or `endAt` is not represented.
- Bookings.ListBookings: the store returns rows newest first, and the model keeps the given order without sorting by creation time. The joined `service` rows are not modelled.
- Bookings.CreateBooking: the 201 reply in the source embeds the joined `service` row (bookings/route.ts:67-69). The model's reply holds the booking row only.
- Bookings.CreateBooking: the profile and service reads (bookings/route.ts:35-53) sit outside the try block. If either throws, the reply is an uncaught 500, which the model does not represent. `OtherFailure` stands for an insert that fails after a successful draw. `DrawFailure` stands for a failing BK draw, which is caught, gives 500 and consumes no id.
- Bookings.CreateBooking: a body that is not valid JSON makes `req.json()` throw. The framework then answers 500. The model has no such input, because its body is already decoded. The same holds for AvailabilityRoute.CreateAvailability, Register.RegisterUser and Services.CreateService.
- AvailabilityRoute.CreateAvailability: the `AV` draw and `prisma.availability.create` can throw, and nothing catches the error, so the reply is 500. The model assumes the store succeeds. Its "created iff accepted" therefore holds only when the store does not fail.
- Register.RegisterUser: the one or two id draws and `prisma.user.create` can throw, including on a unique-email race between the lookup and the insert. Nothing catches the error, so the reply is 500. The model assumes the store succeeds, so "created iff valid and not taken" holds only then.
- Register.RegisterUser: the password hash is a fixed function parameter. bcrypt's random per-call salt is not modelled, so equal passwords giving equal hashes in the model says nothing about the stored hashes.
- Register.RegisterUser: zod's `.min(2)` and `.min(8)` count UTF-16 code units. The model's `|s|` counts characters, so a name or password with characters outside the Basic Multilingual Plane is measured shorter than zod measures it.
- Services.CreateService: the `SV` draw and `prisma.service.create` can throw, and nothing catches the error, so the reply is 500. The model assumes the store succeeds, so "created iff admin and valid" holds only then. The name's `.min(2)` counts UTF-16 code units in zod and characters in the model.
- Slots.GetSlots: the model requires that the requested service, when present and active, has a stored duration in [5, 240]. The service routes' validation is what guarantees this in the source. For a non-positive duration the route's loop `for (let t = slotStart; t + step <= slotEnd; t += step)` would not terminate, and the model's termination argument depends on this precondition.
- Slots.GetSlots: the reply's `startAt` is the parsed instant. The source echoes the raw query string (slots/route.ts:84).
- Bookings.CreateBooking: the 400 reply carries zod's flattened error object in the source. The model uses fixed messages for all 400 replies, as do AvailabilityRoute.CreateAvailability, Register.RegisterUser and Services.CreateService.
- Services.ListServices: names are ordered by character code. The database orders by its collation.
- Services.CreateService: schema defaults (`active`, `deletedAt`, `createdAt`) are not shown, so the created row holds only the fields the route sets. A `description` of the wrong JSON type is not represented.
- Services.CreateService: the audit record is the one handed to the audit log. The log swallows write failures, which never change the reply.
- Register.RegisterUser: the created provider profile is represented by its id only, because its approval default is not shown.
- Ids.GenerateId: counters are unbounded naturals. The store's integer width and overflow are not modelled.
- Middleware.Middleware: the source's redirects keep the request's own query string. The model records only the target path and the `next` parameter.
- Middleware.Middleware: the `matcher` that skips `/_next/static` and `/_next/image` is not modelled. Those paths are public in any case.
- AuditLabels.FormatAction: lower-casing is ASCII only. JavaScript's `toLowerCase` also maps non-ASCII letters.
- Booking cancellation and status changes, the login, me, providers and admin routes, the React pages, seeding and the API docs are not part of this model.
- The rate limiter's store is process-local in the source. Each call's `Date.now()` is the `now` parameter.

## Findings

| source | as written | input that shows it | evidently intended | confidence | as-written member | corrected member |
|---|---|---|---|---|---|---|
| middleware.ts:35-42 | "/auth/login" is neither in the public list nor an API path, so without a session it is redirected to the login page itself | GET /auth/login with no token cookie | the sign-in and registration pages under /auth are reachable without a session | medium (applies wherever the gate runs for page requests); not executed | Middleware.LoginPageRedirectsToItself | Middleware.MiddlewareWithAuthPages |
