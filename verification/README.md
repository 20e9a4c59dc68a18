# Attendance engine of the check-in service: a Dafny model

The check-in service registers attendees for capacity-limited events, mints QR tokens, admits attendees
at the door, throttles repeated attempts, rejects impossible travel, sends batches of invitations,
replays idempotent creations and forgets location hashes after a while. All of it works on five tables:
events, registrations, check-ins, tokens and invitations. This project models those handlers and proves
what they promise, at two levels.

- **Serial level.** `Service.Store` is a class over the five tables whose methods are whole handlers. The
  UNIQUE constraints and all other serial invariants are its `Valid()`, which every handler keeps; each
  handler obeys a law and computes one specification function (`R.RegisterTx`, `C.CheckinTx`,
  `Q.MintRouteTx`, ...). The laws are told in the terms of `Charter`: columns of the tables, role names and
  the documented numbers, without the handlers' own gates, queries and constants. They say who succeeds,
  what success leaves in the tables, and how everybody else is answered. `Runs.Run` is any sequence of such
  handlers, and the theorems of `SerialTheorems`, `Outcomes` and `MintedTokens` are about every such sequence.
  `RateLimiter.Limiter` is the in-memory limiter, proved against pruned deques and these against a limiter
  that never forgets.
- **Interleaved level.** `Interleaved` gives registration, check-in and event creation as small programs
  whose steps are the single reads, the row lock, the insert with its commit, the mark and the consume.
  Any number of them run under any schedule, mixed with cancellations, mints and raised capacities.
  `InterleavedTheorems` and `ScanHistory` say what holds under every schedule, `KeyRaces`, `Occupancy` and
  `Redemption` exactly when a promise fails, `Instances` that those failures are reached from the empty
  system, and `Refinement` that a request nobody interrupts is the serial handler.

| file | contents |
|---|---|
| `Seqs.dfy`, `Types.dfy` | queries over append-only tables; the rows |
| `Charter.dfy` | who may do what, over columns, names and numbers: the terms of the laws |
| `RateLimiter.dfy`, `Overtaking.dfy` | the two sliding windows, Retry-After; what overtaking breaks |
| `QrToken.dfy` | printing, parsing, minting and peeking at tokens |
| `Velocity.dfy` | the travel-speed guard |
| `Registrations.dfy`, `Checkins.dfy`, `Invitations.dfy`, `Events.dfy`, `Retention.dfy` | one module per router or job |
| `Service.dfy`, `HandlerLaws.dfy` | the class whose methods are the handlers; the law of each |
| `Runs.dfy`, `Invariants.dfy`, `SerialTheorems.dfy`, `Outcomes.dfy`, `MintedTokens.dfy` | serial runs: erasing attempts, invariants, theorems, exact conditions of success and refusal |
| `Interleaved.dfy`, `InterleavedTheorems.dfy`, `Refinement.dfy` | concurrent requests |
| `Traces.dfy`, `KeyRaces.dfy`, `Occupancy.dfy`, `ScanHistory.dfy`, `Redemption.dfy`, `Instances.dfy` | histories of schedules, exact conditions, reachable failures |

`dafny verify dfyconfig.toml` checks the whole project.

## Assumptions

- A read made after `SELECT ... FOR UPDATE` sees the latest committed rows, as
  `src/routers/registrations.py:229-233` intends. Re-reading and writing `registration.status` in a check-in
  (`src/routers/checkins.py:384-386`), re-reading and writing `used_at` in the consume
  (`src/services/qr_token_service.py:297-303`), a refused check-in insert with its re-fetch, and a
  cancellation are one step each. Every other step of the interleaved model is one committed read or write
  of the database.
- The feed assumes a database that accepts `NULLS LAST` (`src/routers/events.py:301`).
- In the interleaved model a capacity may be raised or lifted, never lowered. Venue coordinates are never
  patched.
- One clock; a check-in's `checkin_at` is the handler's own `now`. The limiter's clock is read before its
  lock is taken (`src/routers/checkins.py:90`), so requests may overtake each other. Where order is needed
  it is only among requests of one attendee and event, and of one IP (`RateLimiter.Orderly`), and
  `SlackGuarantee` says what bounded overtaking leaves of the guarantee.
- `sha256_full` is injective; `hmac_sign` and the 16-character attendee hash are uninterpreted and
  colon-free (`QrToken.Sound`). The speed theorems ask that the distance is a metric (`Velocity.Metric`).
- `verify_token` is reached through `peek_token` only, and consuming is a separate call.
- A row's id is its position in its table. Failed inserts leave no gaps.

## Where the code and its documentation differ

The model follows the code.

- An empty `Idempotency-Key` header on a registration is "no key" for the validation and the replay
  (`src/routers/registrations.py:74-76`, 211) but is stored as `''` (line 288), so UNIQUE(event, key) lets
  one such row in per event and the next attendee who sends it gets the 409 of line 307.
  `DuplicateRefusedIff` is the exact condition, `EmptyKeyTurnsSecondAttendeeAway` an instance. Event
  creation normalises the empty header (`src/routers/events.py:46-56`) and has no such case.
- A registration that loses the insert race to its own key is not answered with the key's row, as the
  replay comment promises (`src/routers/registrations.py:208-210`), but with its attendee's row or, if there
  is none at the re-fetch, with the 409 (`AfterCollision`). Once its lookup has missed it gets the key's row
  exactly if nothing clashes with its insert or the attendee's own row carries the key (`KeyAnswerExact`).
  `ConflictReachable` reaches the 409 for every key that is not empty.
- `single_use` holds between whole check-ins (`RedeemedOnce`), not between peek and consume:
  `SingleUseTwiceReachable` ends with two check-ins on one unbound single-use token. The step that uses a
  string again is exactly an insert by a scan that still holds it (`SingleUseIff`); a spent token stays on one
  check-in for good exactly if no scan that peeked it earlier can still insert (`StaysSingleIff`). A bound
  token is safe under every schedule (`BoundTokenOnce`).
- A waitlisted attendee may check in (`src/routers/checkins.py:384`), and check-in takes no event lock, so
  occupancy may exceed the capacity, by at most the attended rows that were first inserted as waitlisted
  (`CapacityBound`). `OverfillsIff` says exactly which steps cross the capacity, `OverfullReachable` shows one.
- The overtaking above breaks the limiter's own bound: a sixth call gets into a closed minute however
  little it was overtaken (`OvertakingBreaksBound`), and a call may be refused although there is room
  (`OvertakenStampsDiverge`). Five per interval survives overtaking by d seconds exactly for intervals of at
  most 60 - d seconds (`SlackExact`), and the verdicts of a full log exactly for d = 0 (`RefinementExact`).
- The `team_lead_cohort` gate of a group event ignores the event's `group_id`
  (`src/routers/registrations.py:193-201`): it lets through whoever is in any cohort, so it tells the event's
  own cohort from others exactly for people in that cohort or in none (`CohortGateExact`,
  `StrangerRegisters`).
- Events of a school or a group are to be hidden from outsiders (`src/routers/registrations.py:147-149`,
  175-177), but the status is looked at first (lines 130-134): an outsider of a draft, completed or
  cancelled one is answered 409 with its status. It is hidden exactly while it is running
  (`HiddenExactlyWhileRunning`).
- The registration docstring says "open to any bearer-validated user"; the visibility gates follow.
- `mint_token` announces EVENT_MISMATCH for a wrong attendee (`src/services/qr_token_service.py:81-84`);
  the verifier answers ATTENDEE_MISMATCH. The module docstring's token shape has no event table; the
  printed string starts with one.
- `submit_checkin` mentions auto-created walk-in registrations (`src/routers/checkins.py:158-159`); the
  code requires a live registration.
- The invitation model lists `revoked` and `expired` transitions that no code performs.
- Expiry is compared with `int(time)`, which truncates toward zero.

## Model

| member | source | states |
|---|---|---|
| RateLimiter.Limiter.Prune | src/routers/checkins.py:76-79 | the loop leaves exactly the suffix that starts at the first stamp not older than the cutoff |
| RateLimiter.Limiter.RateLimit | src/routers/checkins.py:82-110 | verdict, code, Retry-After and both deque maps are those of the deque specification, for every state |
| RateLimiter.Limiter.constructor | src/routers/checkins.py:65-67 | a fresh worker holds no deque |
| RateLimiter.PrunedIsLive | src/routers/checkins.py:76-79 | on a deque that an orderly history could have left, pruning yields exactly the stamps of the full history still in the window |
| RateLimiter.StepRefines | src/routers/checkins.py:82-110 | one request gets the same verdict from the deques and from the full log, and the two stay related |
| RateLimiter.RunRefines | src/routers/checkins.py:82-110 | the same over every request sequence in which each key sees its stamps in order, from any related pair of states |
| RateLimiter.LimiterRefinesFullLog | src/routers/checkins.py:65-110 | from a fresh worker every verdict equals the reference's, and the deques admit exactly what the log records |
| Overtaking.OvertakenStampsDiverge | src/routers/checkins.py:90-98 | a fresh worker that has seen one young stamp before four older ones refuses a call that the full log admits, for a whole family of stamps |
| Overtaking.OvertakingBreaksBound | src/routers/checkins.py:90-98 | from a fresh worker, five calls, one past the window and one that it overtook are all admitted, and a closed minute holds six, for any size of the overtaking |
| Overtaking.RefinementExact | src/routers/checkins.py:82-110 | over all runs with overtaking up to d the deques answer as the full log does if and only if d is zero |
| Overtaking.SlackExact | src/routers/checkins.py:69-110 | over all runs with overtaking up to d, closed intervals of a given width hold at most five admissions per attendee and event if and only if the width is at most 60 - d |
| RateLimiter.RefusedIff | src/routers/checkins.py:69-110 | after any run in which each key sees its stamps in order the next request is refused if and only if 5 calls of its attendee at its event, or 60 from its address if it has one, were admitted in the last 60 seconds; of two reasons the code names the first |
| RateLimiter.SpacedBoundsWindows | src/routers/checkins.py:69-73 | a history, sorted or not, whose stamps `max` apart are more than a width apart has at most `max` stamps in any closed window of that width |
| RateLimiter.SlackGuarantee | src/routers/checkins.py:69-110 | if no request is overtaken by more than d seconds by one of its own key, then of the requests the deques admit from a fresh worker any closed interval of 60 - d seconds holds at most 5 per attendee and event and 60 per IP, and no deque is longer |
| RateLimiter.WindowGuarantee | src/routers/checkins.py:69-110 | when each key sees its stamps in order, any closed 60-second interval holds at most 5 deque admissions per attendee and event and 60 per IP |
| RateLimiter.RetryAfterInRange | src/routers/checkins.py:95-106 | Retry-After lies in 1..61 and the oldest stamp of the refusing window is out by then (delay-seconds, section 10.2.3 of RFC 9110) |
| RateLimiter.RetryAfterNotTooLong | src/routers/checkins.py:95-97 | at every earlier whole second the attendee window still refuses the same request, whatever was admitted meanwhile |
| RateLimiter.RetryAfterNotTooShort | src/routers/checkins.py:95-97 | at the announced second the attendee window no longer refuses it, if it admitted nothing meanwhile |
| RateLimiter.RetryAfterIpNotTooLong | src/routers/checkins.py:103-106 | a request refused by the IP window is admitted at no earlier whole second |
| RateLimiter.RetryAfterIpNotTooShort | src/routers/checkins.py:103-106 | at the announced second the IP window no longer refuses it, if it admitted nothing meanwhile |
| RateLimiter.RunReaches | src/routers/checkins.py:82-110 | every ordered run ends in a log for which the Retry-After lemmas apply |
| QrToken.ParsePrinted | src/services/qr_token_service.py:99-130 | `int` of a printed integer is that integer |
| QrToken.PrintCanonical | src/services/qr_token_service.py:99-109 | a printed integer is digits without a leading zero, after a minus sign exactly if it is negative |
| QrToken.ParseIntExact | src/services/qr_token_service.py:202-205 | between blanks, `int` reads exactly an optional sign and digits with single underscores between them |
| QrToken.LeadingZero | src/services/qr_token_service.py:183-205 | a leading zero is another spelling of the same number, so parsing is not injective |
| QrToken.ParseRaw | src/services/qr_token_service.py:183-215 | parsing a printed token gives back its fields and its signature, bound or not |
| QrToken.RawInjective | src/services/qr_token_service.py:99-130 | two mints that print the same string are mints of the same fields |
| QrToken.MintOutcome | src/services/qr_token_service.py:93-130 | a mint goes through if and only if the table is known, the life time is 1 to 720 minutes and no row has the string's hash; the string is table, event, nonce, expiry second and attendee hash with their signature, and exactly its row is added, expiring that many minutes after the call |
| QrToken.MintKeepsGenuine | src/services/qr_token_service.py:95-130 | every mint keeps all hashes distinct and every row the image of some minted fields |
| QrToken.ExactAcceptance | src/services/qr_token_service.py:154-254 | `peek_token` says OK for a string if and only if that exact string was minted for this table and event, is not expired, not used up, and matches the attendee if bound |
| QrToken.AcceptedRow | src/services/qr_token_service.py:236-254 | the row behind an accepted string has its hash, its event and table, and is not used up |
| MintedTokens.AcceptedIffMinted | src/services/qr_token_service.py:64-254 | after any run a string is accepted if and only if some mint of the run was answered with exactly this string, for this event, unexpired, this attendee if bound, and no check-in carries it if single-use |
| QrToken.ParseExact | src/services/qr_token_service.py:183-215 | the parser reads fields and signature out of a string if and only if the string spells them: five or six colon-free parts, a known table, two texts that `int` reads, and before the signature the `a=` part if there are six |
| QrToken.SpelledVerdict | src/services/qr_token_service.py:178-254 | the whole verdict on any string that spells a token, minted or forged: event, signature, attendee, expiry, row and mark are judged in this order |
| QrToken.MalformedIff | src/services/qr_token_service.py:178-206 | a string is INVALID_FORMAT if and only if it spells no token |
| QrToken.MintedVerdict | src/services/qr_token_service.py:178-254 | the whole verdict on a minted string, for every event, attendee and time: a wrong event comes before a wrong attendee, that before the expiry, that before the mark |
| QrToken.FreshTokenVerdict | src/services/qr_token_service.py:64-254 | mint then peek: the new string is accepted until the second `now + 60 * ttl`, by its attendee or, unbound, by anyone, refused as expired from the next second on, and to anybody else as a mismatch |
| QrToken.RespelledIsRefused | src/services/qr_token_service.py:183-245 | a non-canonical spelling that rebuilds the signed payload passes every check and is still refused by the hash lookup |
| Velocity.PriorIsLast | src/services/geo_verification.py:120-137 | with one row per event, the row the query finds is the attendee's true predecessor |
| Velocity.PlausibleExact | src/services/geo_verification.py:110-160 | the guard lets a check-in through if and only if it is off, the event has no venue, or the attendee's last check-in elsewhere inside the window has none, took no time since, or is no further than allowed, with 2.2369362921 mph to the m/s |
| Velocity.SpeedWithoutDivision | src/services/geo_verification.py:139-160 | the mph comparison is the multiplied-out distance bound |
| Velocity.LegsBounded | src/services/geo_verification.py:93-160 | each consecutive pair of an attendee's check-ins inside the window obeys the speed bound |
| Velocity.BoundTelescopes | src/services/geo_verification.py:93-160 | first and last venue of any such chain are no further apart than max speed times total time |
| SerialTheorems.SpeedBound | src/routers/checkins.py:232-243 | the telescoped bound in every state a run of the service reaches |
| Registrations.DuplicateRefusedIff | src/routers/registrations.py:290-308 | the final 409 happens exactly for the empty key already stored for somebody else and an attendee without a row |
| Registrations.EmptyKeyTurnsSecondAttendeeAway | src/routers/registrations.py:74-76 | two attendees, both with the empty header: the second is refused, and would not be without the header |
| Registrations.CohortGateExact | src/routers/registrations.py:193-203 | a cohort event lets through exactly the members of any cohort; that agrees with membership of its own cohort exactly for people in that cohort or in none |
| Registrations.StrangerRegisters | src/routers/registrations.py:193-203 | a member of another lead's cohort only is registered |
| Outcomes.RegisterGates | src/routers/registrations.py:115-206 | a registration gets past its gates if and only if the key is well-formed, somebody is named, by himself or an administrator, the event is running and in an administrator's school, and it is open to the caller: one clause per visibility and kind of group; otherwise the first failing one gives status and code |
| Outcomes.HiddenExactlyWhileRunning | src/routers/registrations.py:126-206 | an outsider of a school's or group's event is answered as for a missing event if and only if it is running |
| Outcomes.RegistrationOutcome | src/routers/registrations.py:207-310 | a row is added if and only if the attendee has none and the key is unused; it is a seat if registered plus attended rows are fewer than the capacity, else the number behind the last waiting one; any other call changes nothing and is answered by key, by attendee or refused |
| Outcomes.CheckinSucceedsIff | src/routers/checkins.py:165-401 | a check-in succeeds if and only if identity, limiter, attestation, event, country, speed and method fit, the registration is live and it is the first visit; qr and qr_geo take a redeemable string, geo and qr_geo a place on the globe within the radius (100 m by default, 5000 m at most), manual and nfc neither |
| Outcomes.RefusalExact | src/routers/checkins.py:165-382 | every other check-in is answered for the first thing that is not in order: status and code, the measured distance, or the earlier visit |
| Outcomes.CheckinWrites | src/routers/checkins.py:351-401 | what a success writes, row by row: one check-in, the pair's registration, the presented token if single-use, nothing else; and its answer |
| Outcomes.FenceWidens | src/services/geofence_service.py:82-123 | a radius widened within 5000 m never turns an attendee away who passed, and reports the same distance |
| Outcomes.FenceGathers | src/services/geofence_service.py:82-123 | two attendees who pass the fence of one event are within 10 km of each other |
| Outcomes.CancelledStaysOut | src/routers/registrations.py:349-373 | over every run a cancelled registration stays the attendee's only one, unchanged, and no check-in of that attendee is added |
| Outcomes.AcceptedByInvitee | src/routers/event_invitations.py:261-299 | over every run an accepted invitation was accepted by a request of its invitee in that run that was answered with success |
| Checkins.DecisionLicensed | src/routers/checkins.py:207-350 | an attempt that reaches the insert has a live first registration of the pair, plausible speed, its event's tenant and, if a token was needed, an unused one of this event whose hash it carries |
| Events.GatesExact | src/routers/events.py:108-139 | a creation gets past its gates, under a tenant, if and only if the role may author, the key is well-formed, a school_only draft has a school and a school's role, and the tenant is the group's for a group draft and else the caller's school or personal namespace; otherwise the status is the first failing one's |
| Invitations.BatchLaws | src/routers/event_invitations.py:150-224 | for every batch, repeats included, and every interference: sent + already_existed is the length, one answer per item in order, no earlier row changed, one row per invitee |
| Invitations.SentIsGrowth | src/routers/event_invitations.py:150-212 | the table grows by `sent` rows plus those other writers added |
| Invitations.FreshRows | src/routers/event_invitations.py:165-212 | the answers counted as sent are exactly new rows of their items, pairwise distinct, none older than the call |
| Invitations.ResendSendsNothing | src/routers/event_invitations.py:150-164 | a batch of already invited people sends 0, whatever others do |
| Invitations.ResendSame | src/routers/event_invitations.py:150-224 | sending a batch twice: the second answers the same rows and sends 0 |
| Events.FeedOrdered | src/routers/events.py:258-301 | of two entries the upper one has no later start time, missing ones come last, and equal or missing ones have descending ids |
| Events.OrderDetermines | src/routers/events.py:296-301 | the order is total, so any correctly sorted list of the matches is the feed |
| Events.PagesTile | src/routers/events.py:255-307 | pages at offsets 0, L, 2L, ... concatenate to any list, in that order, of the running events that are public or of the caller's school and of the requested type, and each page's total is its length |
| Retention.PurgesCompose | src/jobs/geofence_retention.py:68-93 | purging at two cutoffs is purging at the later one |
| Retention.PurgeCountsAdd | src/jobs/geofence_retention.py:68-108 | the two reported counts add up to the single one |
| Retention.PurgeConserves | src/jobs/geofence_retention.py:68-108 | the reported rows are exactly those that stop being hashed |
| Service.Store.RegisterForEvent | src/routers/registrations.py:102-310 | enters exactly those who may register, on a seat or in line as counted, or replays; everybody else is refused with status and code and nothing changes; keeps every invariant and every old row |
| Service.Store.CancelRegistration | src/routers/registrations.py:349-373 | succeeds exactly for the attendee or an administrator, with an event in sight and a registration; then the pair's registration is cancelled and no other changes; otherwise 403 or 404 and nothing changes; keeps every invariant |
| Service.Store.SubmitCheckin | src/routers/checkins.py:145-401 | succeeds exactly for the welcome, writing and answering what `CheckinWrites` says; answers the others as `RefusalExact` says and changes nothing; keeps every invariant |
| Service.Store.CommitCheckin | src/routers/checkins.py:351-401 | insert, mark and consume in sequence are `Commit` |
| Service.Store.ConsumeToken | src/services/qr_token_service.py:283-304 | the token ends settled; a settled one and all others stay as they are; nothing but the mark changes |
| Service.Store.MintToken | src/routers/qr_tokens.py:25-71 | an administrator of the event's school mints, for 1 to 720 minutes, exactly the string and the row of the call; the string is accepted exactly for its event, until the second `now + 60 * ttl`, by its attendee if bound, while unspent; the verdict on every other string is unchanged; anybody else gets 403 or 404; keeps every invariant |
| Service.Store.SendInvitation | src/routers/event_invitations.py:152-212 | one turn of the loop, with other writers before the SELECT and before the flush |
| Service.Store.SendInvitations | src/routers/event_invitations.py:110-224 | who cannot reach the event gets 404, who does not manage it 403; else the loop with its counters answers one row per item in order, for every interference, and each one answered as sent is a new row of event, sender, invitee and reason; keeps old rows, and every invariant if the other writers' rows are well-formed |
| Service.Store.RespondToInvitation | src/routers/event_invitations.py:261-299 | succeeds exactly for the invitee of that invitation, else 404 or 403; only its answer and time change; the invitee has an accepted invitation exactly if the answer was yes; keeps every invariant |
| Service.Store.CreateEvent | src/routers/events.py:92-202 | who may create gets the event of the tenant's key, or a new one with tenant, author, key, group and the drafted columns, or 422 for a blank title; the same request with a key sent again answers the same event and adds nothing; anybody else is refused with the status; keeps every invariant |
| Service.Store.PatchEvent | src/routers/events.py:329-412 | exactly who manages an event of the own namespace patches it, else 403 or 404: every requested column takes its value, every other one and every other event stay; after a soft cancellation no registration is added, no check-in succeeds and the feed does not list the event; keeps every invariant |
| Service.Store.PurgeOldGeofenceHashes | src/jobs/geofence_retention.py:57-108 | check-ins older than the given or configured number of days of 86400 seconds lose both location hashes and nothing else changes, none or fewer days switch it off, the count is the number of rows that had one, a second purge finds none; keeps every invariant |
| Runs.FailuresErasable | src/routers/checkins.py:207-401 | deleting every non-success check-in attempt from a run leaves all other answers and all final tables unchanged |
| Runs.CheckinIgnoresHashes | src/services/geo_verification.py:123-149 | a check-in answers alike on tables that differ only in location hashes |
| Runs.PurgesInvisible | src/jobs/geofence_retention.py:68-93 | inserting purges anywhere in a run changes no other answer and no column but the two hashes |
| Runs.CountedOnce | src/jobs/geofence_retention.py:78-93 | over any run a row is counted by purges once if it loses its hashes and never otherwise |
| Invariants.Classify | src/routers/checkins.py:351-393 | what any handler does to the tables is one of ten effects, under that effect's stated conditions |
| Invariants.InvKept | src/models/event_registration.py:50-51 | each effect keeps uniqueness, tenants, cross-table consistency, redemption and the speed history |
| Invariants.InvRun | src/models/event_checkin.py:47 | every state of every run satisfies all of it |
| SerialTheorems.AttendanceConsistent | src/routers/checkins.py:338-386 | attended registrations have a check-in; every check-in has exactly one registration, attended or cancelled |
| SerialTheorems.TenantsAgree | src/routers/event_invitations.py:168-177 | every dependent row carries its event's school, in every reachable state |
| SerialTheorems.StatusClimbs | src/routers/registrations.py:361-373 | over any run a registration keeps its identity, changes status at most twice, and cancelled is final |
| SerialTheorems.RedeemedOnce | src/services/qr_token_service.py:283-304 | a single-use token is marked if and only if exactly one check-in carries its hash, and the mark names that attendee; reusable ones are never marked |
| SerialTheorems.MarkedTokensFrozen | src/services/qr_token_service.py:248-252 | a marked or reusable token row never changes again |
| SerialTheorems.AnsweredStays | src/routers/event_invitations.py:294-299 | an answered invitation is never `sent` again |
| SerialTheorems.InviteOnlySafety | src/routers/registrations.py:156-173 | while an event stays invite-only, the very operation that adds a registration to it is the owner's or an admin's for that attendee, or finds an accepted invitation of the attendee, which is still answered at the end |
| Interleaved.DbKept | src/routers/registrations.py:249-308 | every kind of step keeps capacity, waitlist order, uniqueness and token vouchers |
| Interleaved.ProcKept | src/routers/registrations.py:229-247 | a step of one request does not invalidate what another has learned under its lock |
| Interleaved.LocksKept | src/routers/registrations.py:239-247 | the lock table keeps naming exactly the requests between count and commit |
| Interleaved.ScheduleKeeps | src/routers/registrations.py:207-310 | every state of every schedule satisfies all interleaved invariants |
| InterleavedTheorems.CapacityBound | src/routers/registrations.py:249-268 | under every schedule registered plus attended rows are at most the capacity plus the attended rows first inserted as waitlisted |
| Occupancy.OverfillsIff | src/routers/checkins.py:384-386 | from a state within capacity a step exceeds it if and only if all seats are taken and the step marks a waiting attendee attended or inserts a seat that was counted free |
| Instances.OverfullReachable | src/routers/checkins.py:338-386 | with capacity one: one takes the seat, one waits and checks in, and two occupy the event |
| InterleavedTheorems.OneHolder | src/routers/registrations.py:239-247 | two requests between count and commit of one event are the same request |
| InterleavedTheorems.WaitlistInLine | src/routers/registrations.py:268-280 | waitlist positions of one event are positive and strictly increase in insertion order, under every schedule |
| InterleavedTheorems.KthWaiter | src/routers/registrations.py:268-280 | the k-th waiting attendee has position k or more, despite gaps and reused numbers |
| InterleavedTheorems.OneEventPerKey | src/routers/events.py:181-201 | all answered creations of one tenant and key name the same event, and no other event carries the key |
| InterleavedTheorems.CreationNeverRaises | src/routers/events.py:185-200 | after a collision the re-fetch always finds the other row |
| InterleavedTheorems.ReplayReturnsSameRow | src/routers/registrations.py:211-221 | once a row carries (event, key), a request with that pair that has not looked yet can only end with that row and writes nothing |
| InterleavedTheorems.EveryAnswerFits | src/routers/registrations.py:290-308 | every answered row belongs to the event and to the attendee or the key; a written one to both |
| KeyRaces.KeyAnswerExact | src/routers/registrations.py:282-308 | a keyed request about to insert ends, under every further schedule, with its key's row if and only if nothing clashes with its row then, or its attendee's row then carries the key |
| KeyRaces.AfterCollision | src/routers/registrations.py:294-308 | after a refused insert the request ends in the 409 if and only if its attendee has no row at the re-fetch, else with that row, whatever others do later |
| KeyRaces.RaceEndsInConflict | src/routers/registrations.py:211-308 | from any state with two rivals for one unused key, nine steps end with one written row and one 409 |
| Instances.ConflictReachable | src/routers/registrations.py:211-308 | the same from the empty system, for every truthy key |
| InterleavedTheorems.BoundTokenOnce | src/services/qr_token_service.py:229-236 | under every schedule no two check-ins carry the hash of one attendee-bound token, unless attendee hashes collide |
| Redemption.SingleUseIff | src/routers/checkins.py:338-381 | under every schedule a string is on at most one check-in if and only if at no point, with one check-in on it, the next step is that of a scan that holds it, has found its registration and whose person has not checked in |
| Redemption.StaysSingleIff | src/services/qr_token_service.py:236-304 | from any state a spent single-use token on one check-in stays on one under every further schedule if and only if no scan that peeked it before can still get to its insert |
| ScanHistory.TwiceOverlaps | src/routers/checkins.py:275-393 | if two check-ins carry a single-use string, the two scans that made them were between peek and consume at the same time |
| ScanHistory.AttendedUnderSchedules | src/routers/checkins.py:384-386 | under every schedule every attended registration has its check-in |
| ScanHistory.CheckinsUnderSchedules | src/routers/checkins.py:338-386 | under every schedule a check-in's registration is attended, cancelled or about to be marked by exactly one scan in flight |
| Instances.SingleUseTwiceReachable | src/routers/checkins.py:275-393 | for every unbound single-use ticket a schedule from the empty system ends with two check-ins that carry its hash |
| Refinement.UninterruptedRegistration | src/routers/registrations.py:207-310 | six or more uninterrupted steps leave the serial handler's tables and end in its answer |
| Refinement.UninterruptedCheckin | src/routers/checkins.py:275-401 | the same for a check-in past its gates, five or more steps, token and location included: tables, check-in id or the refusal itself |
| Refinement.UninterruptedCreation | src/routers/events.py:141-201 | the same for an event creation, two or more steps |

## Left out

- Auth-service round trip, service tokens, CSRF middleware, FastAPI wiring and the database connection: an actor record is an input.
- Device attestation and the IP-country check: inputs of a check-in request, as the code has a stub and a no-op there.
- SHA-256, HMAC, nonce generation and the great-circle formula: uninterpreted, under the assumptions above.
- Python's `int()` on non-ASCII digits or blanks, and the TypeError a non-ASCII signature raises in the constant-time compare.
- Field validation, HTML escaping, titles and descriptions, free-text notes, hashed user ids and response shaping; a blank title is an input of a creation.
- The group-ownership check in front of a group event's creation: its answer is an input.
- Statuses that no code writes: `no_show` registrations, `revoked` and `expired` invitations.
- Patching venue coordinates or start and end times, and the end-after-start check on PATCH.
- The listings of registrations, tokens, invitations and eligible groups: each is one filter read off its own branch.
- Crashes between the separate commits of a check-in, isolation anomalies, deadlocks and string collation.
- Requests enter the interleaved model past their read-only gates, the fence included, so a gate that changes while a request is in flight is not modelled; purges and invitations are serial only.
- Cohort ids use the ASCII digits of a user id; the roster's own life cycle and the ownership check at creation are other services' business.
- The limiter's memory is per process; several workers with a limiter each are not modelled, nor is the growth of its maps.
- The database's own queries (SELECT with ORDER BY, the bulk UPDATE) are functions on the tables, not loops.
- Service.Store.SubmitCheckin: the three commits of a check-in are one method; Interleaved takes them apart and Refinement.UninterruptedCheckin ties the two together.
- Service.Store.CreateEvent: the collision after the replay cannot arise without interleaving; it is a step of the Interleaved module.
- SerialTheorems.RedeemedOnce: holds for whole check-ins one after the other; Redemption.SingleUseIff and Redemption.StaysSingleIff are the exact conditions under concurrency.
