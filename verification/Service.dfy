/**
 The handlers as they run: methods that read and update the tables in place, one request at a time.
 The UNIQUE constraints and everything else that serial runs keep are the invariant of the class.
*/
module Service {
  import opened Seqs
  import opened Types
  import Q = QrToken
  import R = Registrations
  import C = Checkins
  import I = Invitations
  import E = Events
  import P = Retention
  import L = HandlerLaws
  import Runs
  import Invariants

  class Store {
    const world: C.World
    var events: seq<Event>
    var regs: seq<Registration>
    var checkins: seq<Checkin>
    var tokens: seq<Token>
    var invites: seq<Invitation>

    function Tables(): Db
      reads this
    {
      Db(events, regs, checkins, tokens, invites)
    }

    /** Unique rows, tenants, cross-table consistency, redemption and the speed history. */
    ghost predicate Valid()
      reads this
    {
      Q.Sound(world.crypto) && Invariants.Inv(world, Tables())
    }

    constructor (w: C.World)
      requires Q.Sound(w.crypto)
      ensures Valid() && Tables() == Runs.EMPTY && world == w
    {
      world := w;
      events, regs, checkins, tokens, invites := [], [], [], [], [];
      Invariants.EmptyOk(w);
    }

    /** Those who may register are seated if there is room and otherwise next in line; old rows stay. */
    method RegisterForEvent(rosters: R.Rosters, rq: R.Request) returns (response: R.Response)
      requires Valid()
      modifies this`regs
      ensures Valid() && old(regs) <= regs
      ensures L.RegisterLaw(rosters, events, invites, old(regs), regs, rq, response)
      ensures (regs, response) == R.RegisterTx(rosters, events, invites, old(regs), rq)
    {
      ghost var was := Tables();
      Invariants.InvStep(world, was, Runs.Register(rosters, rq));
      L.RegisterKeepsLaw(rosters, events, invites, regs, rq);
      response := Enter(rosters, rq);
      assert Tables() == Runs.Apply(world, was, Runs.Register(rosters, rq)).0;
    }

    method Enter(rosters: R.Rosters, rq: R.Request) returns (response: R.Response)
      modifies this`regs
      ensures (regs, response) == R.RegisterTx(rosters, events, invites, old(regs), rq)
    {
      var gate := R.Gates(rosters, events, invites, rq);
      if gate.Stop? {
        return R.Refused(gate.status, gate.code);
      }
      var target, e := gate.target, rq.eventId;
      if Truthy(rq.key) {
        var existing := First(regs, R.WithKey(e, rq.key.value));
        if existing.Some? {
          return R.Row(existing.value);
        }
      }
      var position: Option<nat> := None;
      var status := Registered;
      if events[e].maxCapacity.Some? {
        var active := Count(regs, R.Occupying(e));
        if active >= events[e].maxCapacity.value {
          var currentMax := R.MaxPosition(regs, e);
          position := Some(currentMax + 1);
          status := Waitlisted;
        }
      }
      var registration := Registration(events[e].schoolId, e, target, status, position, rq.key);
      if R.Clashes(regs, registration) {
        var existing := First(regs, R.OfAttendee(e, target));
        if existing.Some? {
          return R.Row(existing.value);
        }
        return R.Refused(409, "duplicate_registration");
      }
      regs := regs + [registration];
      return R.Row(|regs| - 1);
    }

    method CancelRegistration(actor: Actor, eventId: int, attendee: string) returns (response: R.CancelResponse)
      requires Valid()
      modifies this`regs
      ensures Valid() && L.CancelLaw(events, old(regs), regs, actor, eventId, attendee, response)
      ensures (regs, response) == R.CancelTx(events, old(regs), actor, eventId, attendee)
    {
      ghost var was := Tables();
      Invariants.InvStep(world, was, Runs.Cancel(actor, eventId, attendee));
      L.CancelKeepsLaw(events, regs, actor, eventId, attendee);
      response := Withdraw(actor, eventId, attendee);
      assert Tables() == Runs.Apply(world, was, Runs.Cancel(actor, eventId, attendee)).0;
    }

    method Withdraw(actor: Actor, eventId: int, attendee: string) returns (response: R.CancelResponse)
      modifies this`regs
      ensures (regs, response) == R.CancelTx(events, old(regs), actor, eventId, attendee)
    {
      if !SelfOrAdmin(actor, attendee) {
        return R.CancelRefused(403);
      }
      if !R.VisibleEvent(events, actor, eventId) {
        return R.CancelRefused(404);
      }
      var found := First(regs, R.OfAttendee(eventId, attendee));
      if found.None? {
        return R.CancelRefused(404);
      }
      regs := regs[found.value := regs[found.value].(status := Cancelled)];
      return R.CancelOk(found.value);
    }

    method ConsumeToken(i: nat, user: string, now: real)
      requires i < |tokens|
      modifies this`tokens
      ensures L.ConsumeLaw(old(tokens), tokens, i, user, now)
      ensures tokens == C.Consume(old(tokens), i, user, now)
    {
      L.ConsumeKeepsLaw(tokens, i, user, now);
      if !tokens[i].singleUse || tokens[i].usedAt.Some? {
        return;
      }
      var row := tokens[i].(usedAt := Some(now));
      if user != "" {
        row := row.(usedBy := Some(user));
      }
      tokens := tokens[i := row];
    }

    /** It succeeds exactly for those who are welcome, and otherwise changes nothing. */
    method SubmitCheckin(rq: C.Request) returns (response: C.Response)
      requires Valid()
      modifies this`regs, this`checkins, this`tokens
      ensures Valid() && L.CheckinLaw(world, old(Tables()), Tables(), rq, response)
      ensures (Tables(), response) == C.CheckinTx(world, old(Tables()), rq)
    {
      L.SubmitKeepsLaw(world, Tables(), rq);
      response := Admit(rq);
    }

    /** The gates, the token peek and the geofence; then the writes. */
    method Admit(rq: C.Request) returns (response: C.Response)
      modifies this`regs, this`checkins, this`tokens
      ensures (Tables(), response) == C.CheckinTx(world, old(Tables()), rq)
    {
      var w := world;
      var entry := C.Entrance(w, events, checkins, rq);
      if entry.Bounce? {
        return entry.response;
      }
      var target, how, e := entry.target, entry.how, rq.eventId;
      var token := C.TokenPhase(w, tokens, rq, how, target);
      if token.Invalid? {
        return C.Rejected(token.reason);
      }
      var geofence: Option<bool>, distance: Option<real> := None, None;
      var latHash: Option<string>, lonHash: Option<string> := None, None;
      if C.NeedsGeo(how) {
        var fence := C.VerifyDistance(w.velocity, rq.lat, rq.lon, events[e]);
        distance, geofence := fence.distance, Some(fence.passed);
        if !fence.passed {
          return C.GeofenceFailed(fence.distance);
        }
        latHash, lonHash := Some(w.coordHash(rq.lat.value)), Some(w.coordHash(rq.lon.value));
      }
      var registration := First(regs, R.OfAttendee(e, target));
      if registration.None? || regs[registration.value].status == Cancelled {
        return C.Rejected("registration_required");
      }
      var row := Checkin(events[e].schoolId, e, target, rq.now, how,
                         if token.Valid? then Some(token.hash) else None, latHash, lonHash, geofence);
      response := CommitCheckin(row, registration.value, if token.Valid? then Some(token.row) else None, distance);
    }

    /** The second half of the handler: insert, mark the registration, consume the token. */
    method CommitCheckin(row: Checkin, reg: nat, token: Option<nat>, distance: Option<real>)
      returns (response: C.Response)
      requires reg < |regs| && regs[reg].status != Cancelled && (token.Some? ==> token.value < |tokens|)
      modifies this`regs, this`checkins, this`tokens
      ensures (Tables(), response) == C.Commit(old(Tables()), row, reg, token, distance)
    {
      var existing := First(checkins, C.SamePair(row.eventId, row.attendee));
      if existing.Some? {
        return C.Duplicate(existing.value, checkins[existing.value].at);
      }
      checkins := checkins + [row];
      if regs[reg].status != Cancelled {
        regs := regs[reg := regs[reg].(status := Attended)];
      }
      if token.Some? {
        ConsumeToken(token.value, row.attendee, row.at);
      }
      return C.Success(|checkins| - 1, row.geofence, distance, row.at);
    }

    /** The answered string opens the door for its event, time and attendee; no other string's verdict moves. */
    method MintToken(call: Q.MintCall) returns (reply: Q.MintReply)
      requires Valid()
      modifies this`tokens
      ensures Valid() && L.MintLaw(world, old(Tables()), Tables(), call, reply)
      ensures (tokens, reply) == Q.MintRouteTx(world.crypto, events, old(tokens), call)
    {
      ghost var was := Tables();
      L.MintKeepsInv(world, was, call);
      L.MintKeepsLaw(world, was, call);
      reply := Issue(call);
      assert Tables() == was.(tokens := tokens);
    }

    method Issue(call: Q.MintCall) returns (reply: Q.MintReply)
      modifies this`tokens
      ensures (tokens, reply) == Q.MintRouteTx(world.crypto, events, old(tokens), call)
    {
      var crypto := world.crypto;
      if !IsAdmin(call.actor) || !Truthy(call.actor.schoolId) {
        return Q.MintRefused(403);
      }
      if !(0 <= call.eventId < |events|) || events[call.eventId].schoolId != call.actor.schoolId.value {
        return Q.MintRefused(404);
      }
      var rq := Q.MintRequestOf(call);
      if rq.ttlMinutes <= 0 || rq.ttlMinutes > Q.MAX_TTL_MINUTES {
        return Q.Fresh(Q.MintRejected);
      }
      var row := Q.MintRow(crypto, rq);
      var clash := First(tokens, Q.ByHash(row.hash));
      if clash.Some? {
        return Q.Fresh(Q.MintCollision);
      }
      tokens := tokens + [row];
      return Q.Fresh(Q.MintOk(Q.Raw(crypto, Q.MintFields(crypto, rq)), |tokens| - 1));
    }

    /** One turn of the batch loop: SELECT, then INSERT under a savepoint, then SELECT again on a conflict. */
    method SendInvitation(header: I.Header, item: I.Item, env: I.Interference) returns (row: nat, added: bool)
      modifies this`invites
      ensures (invites, row, added) == I.SendOne(old(invites), header, item, env)
    {
      invites := I.Absorb(invites, env.before);
      var existing := First(invites, I.OfInvitee(header.eventId, item.invitee));
      if existing.Some? {
        return existing.value, false;
      }
      invites := I.Absorb(invites, env.between);
      existing := First(invites, I.OfInvitee(header.eventId, item.invitee));
      if existing.Some? {
        return existing.value, false;
      }
      invites := invites + [I.InviteRow(header, item)];
      return |invites| - 1, true;
    }

    /** `env[k]` is what other writers commit while item k is being handled. */
    method SendInvitations(rq: I.SendRequest, env: seq<I.Interference>) returns (response: I.SendResponse)
      requires Valid() && |env| == |rq.items|
      modifies this`invites
      ensures L.SendLaw(events, old(invites), invites, rq, response)
      ensures (forall k :: 0 <= k < |env| ==> L.Decent(events, env[k])) ==> Valid()
      ensures (invites, response) == I.SendTx(events, old(invites), rq, env)
    {
      ghost var was := Tables();
      L.SendKeepsLaw(events, invites, rq, env);
      if forall k :: 0 <= k < |env| ==> L.Decent(events, env[k]) {
        L.SendKeepsInv(world, was, rq, env);
      }
      response := Invite(rq, env);
      assert Tables() == was.(invites := invites);
    }

    method Invite(rq: I.SendRequest, env: seq<I.Interference>) returns (response: I.SendResponse)
      requires |env| == |rq.items|
      modifies this`invites
      ensures (invites, response) == I.SendTx(events, old(invites), rq, env)
    {
      if !(0 <= rq.eventId < |events|) || !I.Reaches(rq.actor, events[rq.eventId]) {
        return I.SendRefused(404);
      }
      if !I.OwnerOrAdmin(rq.actor, events[rq.eventId]) {
        return I.SendRefused(403);
      }
      var inviter := if Truthy(rq.actor.userId) then rq.actor.userId.value else "service";
      var header := I.Header(events[rq.eventId].schoolId, rq.eventId, inviter);
      var batch := I.Batch(0, 0, [], []);
      var k := 0;
      while k < |rq.items|
        invariant k <= |rq.items|
        invariant (invites, batch) == I.SendAll(old(invites), header, rq.items[..k], env[..k])
      {
        I.SendAllStep(old(invites), header, rq.items, env, k);
        var row, added := SendInvitation(header, rq.items[k], env[k]);
        batch := I.Tally(batch, row, added);
        k := k + 1;
      }
      assert rq.items[..k] == rq.items && env[..k] == env;
      return I.SendOk(batch);
    }

    method RespondToInvitation(actor: Actor, eventId: int, id: int, accept: bool, now: real)
      returns (response: I.RespondResponse)
      requires Valid()
      modifies this`invites
      ensures Valid() && L.RespondLaw(old(invites), invites, actor, eventId, id, accept, now, response)
      ensures (invites, response) == I.RespondTx(old(invites), actor, eventId, id, accept, now)
    {
      ghost var was := Tables();
      Invariants.InvStep(world, was, Runs.Respond(actor, eventId, id, accept, now));
      L.RespondKeepsLaw(invites, actor, eventId, id, accept, now);
      response := Answer(actor, eventId, id, accept, now);
      assert Tables() == Runs.Apply(world, was, Runs.Respond(actor, eventId, id, accept, now)).0;
    }

    method Answer(actor: Actor, eventId: int, id: int, accept: bool, now: real) returns (response: I.RespondResponse)
      modifies this`invites
      ensures (invites, response) == I.RespondTx(old(invites), actor, eventId, id, accept, now)
    {
      if !(0 <= id < |invites|) || invites[id].eventId != eventId {
        return I.RespondRefused(404);
      }
      if actor.userId != Some(invites[id].invitee) {
        return I.RespondRefused(403);
      }
      var decision := if accept then Accepted else Declined;
      var row := invites[id].(status := decision);
      row := row.(respondedAt := Some(now));
      invites := invites[id := row];
      return I.RespondOk(id);
    }

    method CreateEvent(rq: E.CreateRequest) returns (response: E.CreateResponse)
      requires Valid()
      modifies this`events
      ensures Valid() && L.CreateLaw(old(events), events, rq, response)
      ensures (events, response) == E.CreateTx(old(events), rq)
    {
      ghost var was := Tables();
      Invariants.InvStep(world, was, Runs.Create(rq));
      L.CreateKeepsLaw(events, rq);
      response := Author(rq);
      assert Tables() == Runs.Apply(world, was, Runs.Create(rq)).0;
    }

    method Author(rq: E.CreateRequest) returns (response: E.CreateResponse)
      modifies this`events
      ensures (events, response) == E.CreateTx(old(events), rq)
    {
      var gate := E.Gates(rq);
      if gate.Stop? {
        return E.CreateRefused(gate.status);
      }
      if E.SafeKey(rq.key).Some? {
        var existing := First(events, E.WithKey(gate.tenant, rq.key.value));
        if existing.Some? {
          return E.Created(existing.value);
        }
      }
      if rq.titleBlank {
        return E.CreateRefused(422);
      }
      events := events + [E.NewEvent(rq, gate.tenant)];
      return E.Created(|events| - 1);
    }

    method PatchEvent(actor: Actor, eventId: int, p: E.Patch) returns (response: E.PatchResponse)
      requires Valid()
      modifies this`events
      ensures Valid() && L.PatchLaw(world, old(Tables()), Tables(), actor, eventId, p, response)
      ensures (events, response) == E.PatchTx(old(events), actor, eventId, p)
    {
      ghost var was := Tables();
      Invariants.InvStep(world, was, Runs.PatchEvent(actor, eventId, p));
      L.PatchKeepsLaw(world, was, actor, eventId, p);
      response := Amend(actor, eventId, p);
      assert Tables() == Runs.Apply(world, was, Runs.PatchEvent(actor, eventId, p)).0;
    }

    method Amend(actor: Actor, eventId: int, p: E.Patch) returns (response: E.PatchResponse)
      modifies this`events
      ensures (events, response) == E.PatchTx(old(events), actor, eventId, p)
    {
      var tenant := E.Tenant(actor);
      if tenant.None? {
        return E.PatchRefused(403);
      }
      if !(0 <= eventId < |events|) || events[eventId].schoolId != tenant.value {
        return E.PatchRefused(404);
      }
      if !I.OwnerOrAdmin(actor, events[eventId]) {
        return E.PatchRefused(403);
      }
      events := events[eventId := E.Patched(events[eventId], p)];
      return E.PatchOk;
    }

    method PurgeOldGeofenceHashes(maxAgeDays: Option<int>, configuredDays: nat, now: real) returns (result: P.Result)
      requires Valid()
      modifies this`checkins
      ensures Valid() && L.PurgeLaw(old(checkins), checkins, maxAgeDays, configuredDays, now, result)
      ensures (checkins, result) == P.PurgeTx(old(checkins), maxAgeDays, configuredDays, now)
    {
      ghost var was := Tables();
      ghost var cutoff := L.PurgeCutoff(checkins, maxAgeDays, configuredDays, now);
      L.PurgeKeepsInv(world, was, cutoff);
      L.PurgeKeepsLaw(checkins, maxAgeDays, configuredDays, now);
      result := Scrub(maxAgeDays, configuredDays, now);
      assert Tables() == was.(checkins := L.Purged(was.checkins, cutoff));
    }

    method Scrub(maxAgeDays: Option<int>, configuredDays: nat, now: real) returns (result: P.Result)
      modifies this`checkins
      ensures (checkins, result) == P.PurgeTx(old(checkins), maxAgeDays, configuredDays, now)
    {
      var days := if maxAgeDays.Some? then maxAgeDays.value else configuredDays;
      if days <= 0 {
        return P.Result(0, None, true);
      }
      var cutoff := now - (P.SECONDS_PER_DAY * days) as real;
      var rows := Count(checkins, P.Stale(cutoff));
      checkins := P.Scrubbed(checkins, cutoff);
      return P.Result(rows, Some(cutoff), false);
    }
  }
}
