/** Exactly when an operation succeeds, what success means and how a refusal is answered, told over the
    columns of the tables and without the handlers' own gates and searches. */
module Outcomes {
  import opened Seqs
  import opened Types
  import opened Charter
  import opened Runs
  import opened Invariants
  import opened SerialTheorems
  import Q = QrToken
  import V = Velocity
  import R = Registrations
  import C = Checkins
  import I = Invitations
  import L = RateLimiter

  // ---------------------------------------------------------------- registering: who may

  /** The request, made for `who`, gets through to the table. */
  ghost predicate MayRegister(rosters: R.Rosters, events: seq<Event>, invites: seq<Invitation>, rq: R.Request,
                              who: string) {
    && (Given(rq.key) ==> KeyText(rq.key.value)) && ActsFor(rq.actor, rq.attendee, who)
    && InSight(events, rq.actor, rq.eventId) && Running(events[rq.eventId])
    && OpenTo(rosters.groupMembers, rosters.cohorts, invites, events[rq.eventId], rq.eventId, rq.actor, who)
  }

  /** What a request that may not register is answered: 404 for whatever the caller is not to know of. */
  ghost function RegisterRefusal(events: seq<Event>, rq: R.Request): R.Response {
    if Given(rq.key) && !KeyText(rq.key.value) then R.Refused(400, "idempotency_key")
    else if !Names(rq.actor, rq.attendee) then R.Refused(400, "attendee_user_id_required")
    else if forall who :: !ActsFor(rq.actor, rq.attendee, who) then R.Refused(403, "permission_denied")
    else if !InSight(events, rq.actor, rq.eventId) then R.Refused(404, "event_not_found")
    else if !Running(events[rq.eventId]) then R.Refused(409, "event_not_open")
    else if events[rq.eventId].visibility == InviteOnly then R.Refused(403, "invitation_required")
    else R.Refused(404, "event_not_found")
  }

  lemma ActsForExact(a: Actor, requested: Option<string>, who: string)
    ensures ActsFor(a, requested, who) <==> Target(requested, a) == Some(who) && SelfOrAdmin(a, who)
    ensures Target(requested, a).None? <==> !Names(a, requested)
  {
  }

  lemma InvitationFound(invites: seq<Invitation>, e: nat, who: string)
    ensures First(invites, R.AcceptedInvite(e, who)).Some? <==> HasAccepted(invites, e, who)
  {
    var door := R.AcceptedInvite(e, who);
    if i :| 0 <= i < |invites| && invites[i].eventId == e && invites[i].invitee == who
            && invites[i].status == Accepted {
      assert door(invites[i]);
    }
  }

  lemma CohortFound(rosters: R.Rosters, who: string)
    ensures R.InSomeCohort(rosters, who) <==> exists lead :: (lead, who) in rosters.cohorts
  {
    if R.InSomeCohort(rosters, who) {
      var pair :| pair in rosters.cohorts && pair.1 == who;
      assert pair == (pair.0, who);
    }
    if lead :| (lead, who) in rosters.cohorts { assert (lead, who).1 == who; }
  }

  lemma VisibilityExact(rosters: R.Rosters, events: seq<Event>, invites: seq<Invitation>, a: Actor, e: nat, who: string)
    requires e < |events|
    ensures R.VisibilityGate(rosters, events, invites, a, e, who)
            == if OpenTo(rosters.groupMembers, rosters.cohorts, invites, events[e], e, a, who) then R.Pass(who)
               else if events[e].visibility == InviteOnly then R.Stop(403, "invitation_required")
               else R.Stop(404, "event_not_found")
  {
    InvitationFound(invites, e, who);
    CohortFound(rosters, who);
  }

  /** The gates let a request through for `who` if and only if it may register for `who`. */
  lemma RegisterGates(rosters: R.Rosters, events: seq<Event>, invites: seq<Invitation>, rq: R.Request, who: string)
    ensures R.Gates(rosters, events, invites, rq) == R.Pass(who) <==> MayRegister(rosters, events, invites, rq, who)
    ensures var g := R.Gates(rosters, events, invites, rq);
            g.Stop? ==> R.Refused(g.status, g.code) == RegisterRefusal(events, rq)
  {
    if Given(rq.key) { R.KeyOkExact(rq.key.value); }
    ActsForExact(rq.actor, rq.attendee, who);
    var target := Target(rq.attendee, rq.actor);
    if target.Some? {
      forall p: string ensures ActsFor(rq.actor, rq.attendee, p) <==> target == Some(p) && SelfOrAdmin(rq.actor, p) {
        ActsForExact(rq.actor, rq.attendee, p);
      }
      if 0 <= rq.eventId < |events| {
        VisibilityExact(rosters, events, invites, rq.actor, rq.eventId, target.value);
      }
    }
  }

  /** An outsider of a school's or group's event is answered as if there were no such event exactly while
      it is running; of a draft, a completed or a cancelled one the 409 tells that it exists. */
  lemma HiddenExactlyWhileRunning(rosters: R.Rosters, events: seq<Event>, invites: seq<Invitation>,
                                  regs: seq<Registration>, rq: R.Request, who: string, missing: int)
    requires (Given(rq.key) ==> KeyText(rq.key.value)) && ActsFor(rq.actor, rq.attendee, who)
    requires 0 <= rq.eventId < |events| && !(0 <= missing < |events|)
    requires events[rq.eventId].visibility == SchoolOnly || events[rq.eventId].visibility == GroupOnly
    requires !OpenTo(rosters.groupMembers, rosters.cohorts, invites, events[rq.eventId], rq.eventId, rq.actor, who)
    ensures R.RegisterTx(rosters, events, invites, regs, rq)
            == R.RegisterTx(rosters, events, invites, regs, rq.(eventId := missing))
            <==> Running(events[rq.eventId])
  {
    if Given(rq.key) { R.KeyOkExact(rq.key.value); }
    ActsForExact(rq.actor, rq.attendee, who);
    VisibilityExact(rosters, events, invites, rq.actor, rq.eventId, who);
  }

  // ---------------------------------------------------------------- registering: what it does

  ghost predicate HasRow(regs: seq<Registration>, e: int, who: string) {
    exists i :: 0 <= i < |regs| && regs[i].eventId == e && regs[i].attendee == who
  }

  ghost predicate KeyUsed(regs: seq<Registration>, e: nat, key: string) {
    exists i :: 0 <= i < |regs| && regs[i].eventId == e && regs[i].key == Some(key)
  }

  ghost predicate SeatFree(events: seq<Event>, regs: seq<Registration>, e: nat)
    requires e < |events|
  {
    events[e].maxCapacity.None? || |Occupants(regs, e)| < events[e].maxCapacity.value
  }

  /** Row r waits for e with number p. */
  predicate WaitsAt(r: Registration, e: nat, p: nat) {
    r.eventId == e && r.status == Waitlisted && r.position == Some(p)
  }

  /** p is the number behind the last one now waiting for e, or 1 on an empty waitlist. */
  ghost predicate NextInLine(regs: seq<Registration>, e: nat, p: nat) {
    && p >= 1
    && (forall i, n: nat :: 0 <= i < |regs| && WaitsAt(regs[i], e, n) ==> n < p)
    && (p == 1 || exists i :: 0 <= i < |regs| && WaitsAt(regs[i], e, p - 1))
  }

  /** The row a successful new registration adds. */
  ghost predicate FittingRow(events: seq<Event>, regs: seq<Registration>, e: nat, who: string, key: Option<string>,
                             row: Registration)
    requires e < |events|
  {
    && row.eventId == e && row.attendee == who && row.key == key && row.schoolId == events[e].schoolId
    && if SeatFree(events, regs, e) then row.status == Registered && row.position.None?
       else row.status == Waitlisted && row.position.Some? && NextInLine(regs, e, row.position.value)
  }

  /** A row is added if and only if the attendee has none yet and the key, even an empty one, is unused; it
      is a seat if one is free and otherwise the next place in line.  No other call changes anything: it is
      answered with the row of its key, or else with the attendee's own row, or else refused. */
  ghost predicate Entered(events: seq<Event>, regs: seq<Registration>, e: nat, who: string, key: Option<string>,
                          regs': seq<Registration>, r: R.Response)
    requires e < |events|
  {
    if !HasRow(regs, e, who) && !(key.Some? && KeyUsed(regs, e, key.value)) then
      && |regs'| == |regs| + 1 && regs'[..|regs|] == regs && r == R.Row(|regs|)
      && FittingRow(events, regs, e, who, key, regs'[|regs|])
    else
      && regs' == regs
      && (r.Row? ==> r.id < |regs| && regs[r.id].eventId == e)
      && if Given(key) && KeyUsed(regs, e, key.value) then r.Row? && regs[r.id].key == key
         else if HasRow(regs, e, who) then r.Row? && regs[r.id].attendee == who
         else r == R.Refused(409, "duplicate_registration")
  }

  lemma MaxIsLast(regs: seq<Registration>, e: nat)
    ensures NextInLine(regs, e, R.MaxPosition(regs, e) + 1)
  {
    var max := R.MaxPosition(regs, e);
    forall i, n: nat | 0 <= i < |regs| && WaitsAt(regs[i], e, n) ensures n < max + 1 {
      assert R.Waiting(e)(regs[i]);
    }
    if max > 0 {
      var i :| 0 <= i < |regs| && R.Waiting(e)(regs[i]) && regs[i].position == Some(max);
      assert WaitsAt(regs[i], e, max);
    }
  }

  lemma NewRowFits(events: seq<Event>, regs: seq<Registration>, e: nat, who: string, key: Option<string>)
    requires e < |events|
    ensures FittingRow(events, regs, e, who, key, R.NewRow(events, regs, e, who, key))
  {
    R.SeatsCounted(regs, e);
    MaxIsLast(regs, e);
  }

  lemma RegistrationOutcome(events: seq<Event>, regs: seq<Registration>, e: nat, who: string, key: Option<string>)
    requires e < |events|
    ensures var (regs', r) := R.Enter(events, regs, e, who, key);
            Entered(events, regs, e, who, key, regs', r)
  {
    NewRowFits(events, regs, e, who, key);
  }

  lemma OwnRow(regs: seq<Registration>, e: nat, who: string)
    requires R.UniqueAttendees(regs)
    ensures var i := First(regs, R.OfAttendee(e, who));
            && (i.Some? <==> HasRow(regs, e, who))
            && (forall j :: 0 <= j < |regs| && regs[j].eventId == e && regs[j].attendee == who ==> i == Some(j))
  {
    var of := R.OfAttendee(e, who);
    forall j | 0 <= j < |regs| && regs[j].eventId == e && regs[j].attendee == who ensures First(regs, of) == Some(j) {
      assert of(regs[j]);
      var i := First(regs, of).value;
      assert of(regs[i]);
    }
  }

  // ---------------------------------------------------------------- checking in: who may

  /** The radius in metres, 100 where none is set. */
  function Radius(event: Event): int {
    if event.radius == None || event.radius == Some(0) then 100 else event.radius.value
  }

  /** Both places are known and on the globe, and the radius is at most 5000 m. */
  predicate Measurable(lat: Option<real>, lon: Option<real>, event: Event) {
    && lat.Some? && lon.Some? && event.lat.Some? && event.lon.Some?
    && -90.0 <= lat.value <= 90.0 && -180.0 <= lon.value <= 180.0
    && -90.0 <= event.lat.value <= 90.0 && -180.0 <= event.lon.value <= 180.0
    && 0 < Radius(event) <= 5000
  }

  function Distance(v: V.Settings, lat: Option<real>, lon: Option<real>, event: Event): real
    requires Measurable(lat, lon, event)
  {
    v.dist(Place(lat.value, lon.value), Place(event.lat.value, event.lon.value))
  }

  /** The attendee is no further from the venue than the radius. */
  predicate AtVenue(v: V.Settings, lat: Option<real>, lon: Option<real>, event: Event) {
    Measurable(lat, lon, event) && Distance(v, lat, lon, event) <= Radius(event) as real
  }

  /** The method asked for, or else the event's. */
  function MethodOf(event: Event, asked: Option<Method>): Method {
    if asked.Some? then asked.value else event.checkinMethod
  }

  /** Identity, limiter, attestation, event, country, speed and method are in order. */
  ghost predicate AtTheDoor(w: C.World, db: Db, rq: C.Request, who: string, how: Method) {
    && ActsFor(rq.actor, rq.attendee, who)
    && rq.limiter.Admitted? && rq.attestation.None? && rq.countryOk
    && 0 <= rq.eventId < |db.events| && Running(db.events[rq.eventId])
    && V.SlowEnough(w.velocity, db.events, db.checkins, who, rq.eventId, rq.now)
    && how == MethodOf(db.events[rq.eventId], rq.how)
    && how != NoMethod && (how == Nfc ==> db.events[rq.eventId].allowNfc)
  }

  ghost predicate LiveRow(regs: seq<Registration>, e: int, who: string) {
    exists i :: 0 <= i < |regs| && regs[i].eventId == e && regs[i].attendee == who && regs[i].status != Cancelled
  }

  /** The string is one that was minted, for this event, unexpired, unmarked, and for this person if bound. */
  ghost predicate Redeemable(w: C.World, db: Db, raw: string, e: int, who: string, now: real) {
    exists i: nat, f: Q.Fields :: Q.Admissible(w.crypto, db.tokens, raw, e, "events", Some(who), now, i, f)
  }

  /** By QR code, alone or with the location, it takes a redeemable string; by location, alone or with a
      QR code, it takes being at the venue; by hand or by NFC neither; and always a live registration. */
  ghost predicate Equipped(w: C.World, db: Db, rq: C.Request, who: string, how: Method)
    requires 0 <= rq.eventId < |db.events|
  {
    && (how == Qr || how == QrGeo ==>
          rq.qrToken.Some? && Redeemable(w, db, rq.qrToken.value, rq.eventId, who, rq.now))
    && (how == Geo || how == QrGeo ==> AtVenue(w.velocity, rq.lat, rq.lon, db.events[rq.eventId]))
    && LiveRow(db.regs, rq.eventId, who)
  }

  ghost predicate FirstVisit(checkins: seq<Checkin>, e: int, who: string) {
    forall j :: 0 <= j < |checkins| ==> checkins[j].eventId != e || checkins[j].attendee != who
  }

  /** Everything a successful check-in of `who` by method `how` needs. */
  ghost predicate Welcome(w: C.World, db: Db, rq: C.Request, who: string, how: Method) {
    AtTheDoor(w, db, rq, who, how) && Equipped(w, db, rq, who, how) && FirstVisit(db.checkins, rq.eventId, who)
  }

  lemma TokenPhaseExact(w: C.World, db: Db, rq: C.Request, how: Method, who: string)
    requires Q.Sound(w.crypto) && Q.Genuine(w.crypto, db.tokens) && rq.eventId >= 0
    ensures C.TokenPhase(w, db.tokens, rq, how, who).Invalid?
            <==> (how == Qr || how == QrGeo)
                 && !(rq.qrToken.Some? && Redeemable(w, db, rq.qrToken.value, rq.eventId, who, rq.now))
  {
    if rq.qrToken.Some? {
      Q.ExactAcceptance(w.crypto, db.tokens, rq.qrToken.value, rq.eventId, "events", Some(who), rq.now);
    }
  }

  lemma FenceExact(v: V.Settings, lat: Option<real>, lon: Option<real>, event: Event)
    ensures C.VerifyDistance(v, lat, lon, event)
            == C.Fence(AtVenue(v, lat, lon, event),
                       if Measurable(lat, lon, event) then Some(Distance(v, lat, lon, event)) else None)
  {
  }

  /** Widening the fence, within the limit, never turns an attendee away. */
  lemma FenceWidens(v: V.Settings, lat: Option<real>, lon: Option<real>, event: Event, wider: int)
    requires event.radius.Some? && 0 < event.radius.value <= wider <= 5000
    requires C.VerifyDistance(v, lat, lon, event).passed
    ensures var f := C.VerifyDistance(v, lat, lon, event.(radius := Some(wider)));
            f.passed && f.distance == C.VerifyDistance(v, lat, lon, event).distance
  {
    FenceExact(v, lat, lon, event.(radius := Some(wider)));
  }

  /** Two attendees who pass the fence of one event are within twice the largest radius of each other. */
  lemma FenceGathers(v: V.Settings, a: Place, b: Place, event: Event)
    requires V.Metric(v.dist)
    requires C.VerifyDistance(v, Some(a.lat), Some(a.lon), event).passed
    requires C.VerifyDistance(v, Some(b.lat), Some(b.lon), event).passed
    ensures v.dist(a, b) <= 10000.0
  {
    var there := Venue(event).value;
    assert v.dist(a, b) <= v.dist(a, there) + v.dist(there, b);
    assert v.dist(there, b) == v.dist(b, there);
  }

  lemma LiveRowFound(regs: seq<Registration>, e: nat, who: string)
    requires R.UniqueAttendees(regs)
    ensures var i := First(regs, R.OfAttendee(e, who));
            i.Some? && regs[i.value].status != Cancelled <==> LiveRow(regs, e, who)
  {
    var of := R.OfAttendee(e, who);
    if i :| 0 <= i < |regs| && regs[i].eventId == e && regs[i].attendee == who && regs[i].status != Cancelled {
      assert of(regs[i]);
      var j := First(regs, of).value;
      assert i == j;
    }
  }

  lemma VisitFound(checkins: seq<Checkin>, e: nat, who: string)
    ensures First(checkins, C.SamePair(e, who)).None? <==> FirstVisit(checkins, e, who)
  {
    var same := C.SamePair(e, who);
    forall j | 0 <= j < |checkins|
      ensures same(checkins[j]) <==> checkins[j].eventId == e && checkins[j].attendee == who
    {
    }
  }

  lemma EntranceExact(w: C.World, db: Db, rq: C.Request, who: string, how: Method)
    ensures C.Entrance(w, db.events, db.checkins, rq) == C.Admit(who, how) <==> AtTheDoor(w, db, rq, who, how)
  {
    ActsForExact(rq.actor, rq.attendee, who);
    if 0 <= rq.eventId < |db.events| {
      V.PlausibleExact(w.velocity, db.events, db.checkins, who, rq.eventId, rq.now);
    }
  }

  /** A check-in gets past its gates if and only if everything it needs, uniqueness aside, is there. */
  lemma DecisionExact(w: C.World, db: Db, rq: C.Request, who: string, how: Method)
    requires Q.Sound(w.crypto) && Q.Genuine(w.crypto, db.tokens) && R.UniqueAttendees(db.regs)
    requires C.Entrance(w, db.events, db.checkins, rq) == C.Admit(who, how)
    ensures C.Decide(w, db, rq).Go? <==> Equipped(w, db, rq, who, how)
    ensures var d := C.Decide(w, db, rq);
            d.Go? ==> d.row.eventId == rq.eventId && d.row.attendee == who
  {
    TokenPhaseExact(w, db, rq, how, who);
    FenceExact(w.velocity, rq.lat, rq.lon, db.events[rq.eventId]);
    LiveRowFound(db.regs, rq.eventId, who);
  }

  lemma AdmittedSucceedsIff(w: C.World, db: Db, rq: C.Request, who: string, how: Method)
    requires Q.Sound(w.crypto) && Q.Genuine(w.crypto, db.tokens) && R.UniqueAttendees(db.regs)
    requires C.Entrance(w, db.events, db.checkins, rq) == C.Admit(who, how)
    ensures C.CheckinTx(w, db, rq).1.Success? <==> Welcome(w, db, rq, who, how)
  {
    EntranceExact(w, db, rq, who, how);
    DecisionExact(w, db, rq, who, how);
    VisitFound(db.checkins, rq.eventId, who);
  }

  /** A check-in succeeds if and only if every one of its conditions holds. */
  lemma CheckinSucceedsIff(w: C.World, db: Db, rq: C.Request)
    requires Inv(w, db) && Q.Sound(w.crypto)
    ensures C.CheckinTx(w, db, rq).1.Success? <==> exists who, how :: Welcome(w, db, rq, who, how)
  {
    var entry := C.Entrance(w, db.events, db.checkins, rq);
    if entry.Admit? {
      AdmittedSucceedsIff(w, db, rq, entry.target, entry.how);
    }
    if who, how :| Welcome(w, db, rq, who, how) {
      EntranceExact(w, db, rq, who, how);
    }
  }

  // ---------------------------------------------------------------- checking in: what it does

  /** What a successful check-in leaves of registration r, and of token t. */
  function RegAfter(r: Registration, e: int, who: string): Registration {
    if r.eventId == e && r.attendee == who then r.(status := Attended) else r
  }

  function TokenAfter(t: Token, hash: Option<string>, who: string, now: real): Token {
    if Some(t.hash) == hash && t.singleUse then t.(usedAt := Some(now), usedBy := Some(who)) else t
  }

  /** The row: the hash of the string if the method asks for one, those of the place if it asks for that. */
  predicate RowOfVisit(w: C.World, events: seq<Event>, rq: C.Request, who: string, how: Method, row: Checkin)
    requires 0 <= rq.eventId < |events|
  {
    && row.schoolId == events[rq.eventId].schoolId && row.eventId == rq.eventId
    && row.attendee == who && row.at == rq.now && row.how == how
    && row.tokenHash == (if (how == Qr || how == QrGeo) && rq.qrToken.Some?
                         then Some(w.crypto.sha256(rq.qrToken.value)) else None)
    && if how == Geo || how == QrGeo then
         && rq.lat.Some? && rq.lon.Some? && row.geofence == Some(true)
         && row.latHash == Some(w.coordHash(rq.lat.value)) && row.lonHash == Some(w.coordHash(rq.lon.value))
       else row.latHash == None && row.lonHash == None && row.geofence == None
  }

  lemma CommitWrites(w: C.World, db: Db, d: C.Decision)
    requires d.Go? && C.Licensed(w, db, d) && First(db.checkins, C.SamePair(d.row.eventId, d.row.attendee)).None?
    requires R.UniqueAttendees(db.regs) && Q.UniqueHashes(db.tokens)
    ensures var (db', row) := (C.Commit(db, d.row, d.reg, d.token, d.distance).0, d.row);
            && db' == db.(checkins := db.checkins + [row], regs := db'.regs, tokens := db'.tokens)
            && |db'.regs| == |db.regs|
            && (forall i :: 0 <= i < |db.regs| ==> db'.regs[i] == RegAfter(db.regs[i], row.eventId, row.attendee))
            && |db'.tokens| == |db.tokens|
            && (forall i :: 0 <= i < |db.tokens| ==>
                  db'.tokens[i] == TokenAfter(db.tokens[i], row.tokenHash, row.attendee, row.at))
  {
    assert R.OfAttendee(d.row.eventId, d.row.attendee)(db.regs[d.reg]);
    if d.token.Some? {
      forall i | 0 <= i < |db.tokens| && i != d.token.value ensures db.tokens[i].hash != db.tokens[d.token.value].hash {
      }
    }
  }

  lemma WelcomeDecides(w: C.World, db: Db, rq: C.Request, who: string, how: Method)
    requires Inv(w, db) && Q.Sound(w.crypto) && Welcome(w, db, rq, who, how)
    ensures var d := C.Decide(w, db, rq);
            && d.Go? && C.Licensed(w, db, d) && First(db.checkins, C.SamePair(rq.eventId, who)).None?
            && RowOfVisit(w, db.events, rq, who, how, d.row)
            && d.distance == if how == Geo || how == QrGeo
                             then Some(Distance(w.velocity, rq.lat, rq.lon, db.events[rq.eventId])) else None
  {
    EntranceExact(w, db, rq, who, how);
    DecisionExact(w, db, rq, who, how);
    VisitFound(db.checkins, rq.eventId, who);
    FenceExact(w.velocity, rq.lat, rq.lon, db.events[rq.eventId]);
    C.DecisionLicensed(w, db, rq);
  }

  /** A success adds exactly this one check-in, marks every registration of the pair and nothing else, and
      marks the token of the presented string if it is single-use and no other token; the answer is the
      new row's id, the fence that was passed and the distance that was measured. */
  ghost predicate VisitWritten(w: C.World, db: Db, rq: C.Request, who: string, how: Method, db': Db, r: C.Response)
    requires AtTheDoor(w, db, rq, who, how) && Equipped(w, db, rq, who, how)
  {
    && db'.events == db.events && db'.invites == db.invites
    && |db'.checkins| == |db.checkins| + 1 && db'.checkins[..|db.checkins|] == db.checkins
    && RowOfVisit(w, db.events, rq, who, how, db'.checkins[|db.checkins|])
    && |db'.regs| == |db.regs|
    && (forall i :: 0 <= i < |db.regs| ==> db'.regs[i] == RegAfter(db.regs[i], rq.eventId, who))
    && |db'.tokens| == |db.tokens|
    && (forall i :: 0 <= i < |db.tokens| ==>
          db'.tokens[i] == TokenAfter(db.tokens[i], db'.checkins[|db.checkins|].tokenHash, who, rq.now))
    && r == if how == Geo || how == QrGeo then
              C.Success(|db.checkins|, Some(true),
                        Some(Distance(w.velocity, rq.lat, rq.lon, db.events[rq.eventId])), rq.now)
            else C.Success(|db.checkins|, None, None, rq.now)
  }

  lemma CheckinWrites(w: C.World, db: Db, rq: C.Request, who: string, how: Method)
    requires Inv(w, db) && Q.Sound(w.crypto) && Welcome(w, db, rq, who, how)
    ensures VisitWritten(w, db, rq, who, how, C.CheckinTx(w, db, rq).0, C.CheckinTx(w, db, rq).1)
  {
    WelcomeDecides(w, db, rq, who, how);
    var d := C.Decide(w, db, rq);
    CommitWrites(w, db, d);
    assert C.CheckinTx(w, db, rq) == C.Commit(db, d.row, d.reg, d.token, d.distance);
  }

  // ---------------------------------------------------------------- checking in: how a refusal is answered

  /** A signed string of this event, however spelled, that is bound to somebody else, as far as the hashes
      tell, is told apart from all other useless strings. */
  ghost predicate TokenTurnedDown(c: Q.Crypto, raw: Option<string>, e: int, who: string, r: C.Response) {
    r == C.Rejected(if exists f :: BoundElsewhere(c, raw, e, who, f) then "attendee_mismatch" else "invalid_token")
  }

  ghost predicate BoundElsewhere(c: Q.Crypto, raw: Option<string>, e: int, who: string, f: Q.Fields) {
    && raw.Some? && Q.SpelledAs(raw.value, f, c.hmac(Q.Payload(f)))
    && f.table == "events" && f.eventId == e && f.fragment.Some? && f.fragment.value != "a=" + c.attendeeHash(who)
  }

  /** Past the door: the string, then the place, then the registration, then the earlier visit. */
  ghost predicate TurnedAwayInside(w: C.World, db: Db, rq: C.Request, who: string, how: Method, r: C.Response)
    requires 0 <= rq.eventId < |db.events|
  {
    var event := db.events[rq.eventId];
    if (how == Qr || how == QrGeo)
       && !(rq.qrToken.Some? && Redeemable(w, db, rq.qrToken.value, rq.eventId, who, rq.now)) then
      TokenTurnedDown(w.crypto, rq.qrToken, rq.eventId, who, r)
    else if (how == Geo || how == QrGeo) && !AtVenue(w.velocity, rq.lat, rq.lon, event) then
      r == C.GeofenceFailed(if Measurable(rq.lat, rq.lon, event)
                            then Some(Distance(w.velocity, rq.lat, rq.lon, event)) else None)
    else if !LiveRow(db.regs, rq.eventId, who) then r == C.Rejected("registration_required")
    else
      && r.Duplicate? && r.id < |db.checkins| && r.at == db.checkins[r.id].at
      && db.checkins[r.id].eventId == rq.eventId && db.checkins[r.id].attendee == who
  }

  /** At the door: the first thing that is not in order decides. */
  ghost predicate TurnedAway(w: C.World, db: Db, rq: C.Request, r: C.Response) {
    if !Names(rq.actor, rq.attendee) then r == C.HttpError(400, "attendee_user_id_required")
    else
      var who := if Given(rq.attendee) then rq.attendee.value else rq.actor.userId.value;
      if !ActsFor(rq.actor, rq.attendee, who) then r == C.HttpError(403, "permission_denied")
      else if rq.limiter.Throttled? then
        r == C.HttpError(429, if rq.limiter.code == L.AttendeeWindow then "rate_limited_attendee"
                              else "rate_limited_ip")
      else if rq.attestation.Some? then r == C.Rejected(rq.attestation.value)
      else if !(0 <= rq.eventId < |db.events|) then r == C.HttpError(404, "event_not_found")
      else
        var event := db.events[rq.eventId];
        var how := MethodOf(event, rq.how);
        if !Running(event) then r == C.Rejected("event_not_active")
        else if !rq.countryOk then r == C.Rejected("ip_country_mismatch")
        else if !V.SlowEnough(w.velocity, db.events, db.checkins, who, rq.eventId, rq.now) then
          r == C.Rejected("velocity_implausible")
        else if how == NoMethod then r == C.HttpError(409, "checkin_disabled")
        else if how == Nfc && !event.allowNfc then r == C.HttpError(409, "nfc_disabled")
        else TurnedAwayInside(w, db, rq, who, how, r)
  }

  lemma MismatchExact(c: Q.Crypto, tokens: seq<Token>, raw: string, e: int, who: string, now: real)
    requires who != ""
    ensures Q.Peek(c, tokens, raw, e, "events", Some(who), now).status == Q.AttendeeMismatch
            <==> exists f :: BoundElsewhere(c, Some(raw), e, who, f)
  {
    if f :| BoundElsewhere(c, Some(raw), e, who, f) {
      Q.SpelledVerdict(c, tokens, raw, f, c.hmac(Q.Payload(f)), e, "events", Some(who), now);
    }
    var p := Q.Parse(raw);
    if p.Some? {
      Q.ParseExact(raw, p.value.fields, p.value.signature);
      Q.SpelledVerdict(c, tokens, raw, p.value.fields, p.value.signature, e, "events", Some(who), now);
      assert Q.Peek(c, tokens, raw, e, "events", Some(who), now).status == Q.AttendeeMismatch ==>
               BoundElsewhere(c, Some(raw), e, who, p.value.fields);
    }
  }

  lemma TokenRefused(w: C.World, db: Db, rq: C.Request, how: Method, who: string)
    requires Q.Sound(w.crypto) && rq.eventId >= 0 && who != ""
    requires C.TokenPhase(w, db.tokens, rq, how, who).Invalid?
    ensures TokenTurnedDown(w.crypto, rq.qrToken, rq.eventId, who,
                            C.Rejected(C.TokenPhase(w, db.tokens, rq, how, who).reason))
  {
    if Given(rq.qrToken) {
      MismatchExact(w.crypto, db.tokens, rq.qrToken.value, rq.eventId, who, rq.now);
    } else {
      forall f ensures !BoundElsewhere(w.crypto, rq.qrToken, rq.eventId, who, f) {
        Q.NothingSpelled(f, w.crypto.hmac(Q.Payload(f)));
      }
    }
  }

  lemma InsideRefusal(w: C.World, db: Db, rq: C.Request, who: string, how: Method)
    requires Q.Sound(w.crypto) && Q.Genuine(w.crypto, db.tokens) && R.UniqueAttendees(db.regs)
    requires C.Entrance(w, db.events, db.checkins, rq) == C.Admit(who, how) && !C.CheckinTx(w, db, rq).1.Success?
    ensures TurnedAwayInside(w, db, rq, who, how, C.CheckinTx(w, db, rq).1)
  {
    TokenPhaseExact(w, db, rq, how, who);
    FenceExact(w.velocity, rq.lat, rq.lon, db.events[rq.eventId]);
    LiveRowFound(db.regs, rq.eventId, who);
    if C.TokenPhase(w, db.tokens, rq, how, who).Invalid? { TokenRefused(w, db, rq, how, who); }
  }

  lemma DoorRefusal(w: C.World, db: Db, rq: C.Request)
    requires C.Entrance(w, db.events, db.checkins, rq).Bounce?
    ensures TurnedAway(w, db, rq, C.Entrance(w, db.events, db.checkins, rq).response)
  {
    var target := Target(rq.attendee, rq.actor);
    ActsForExact(rq.actor, rq.attendee, if target.Some? then target.value else "");
    if target.Some? && 0 <= rq.eventId < |db.events| {
      V.PlausibleExact(w.velocity, db.events, db.checkins, target.value, rq.eventId, rq.now);
    }
  }

  lemma PastTheDoor(w: C.World, db: Db, rq: C.Request, who: string, how: Method, r: C.Response)
    requires AtTheDoor(w, db, rq, who, how) && TurnedAwayInside(w, db, rq, who, how, r)
    ensures TurnedAway(w, db, rq, r)
  {
  }

  lemma RefusalExact(w: C.World, db: Db, rq: C.Request)
    requires Inv(w, db) && Q.Sound(w.crypto) && !C.CheckinTx(w, db, rq).1.Success?
    ensures TurnedAway(w, db, rq, C.CheckinTx(w, db, rq).1)
  {
    var entry := C.Entrance(w, db.events, db.checkins, rq);
    if entry.Admit? {
      InsideRefusal(w, db, rq, entry.target, entry.how);
      EntranceExact(w, db, rq, entry.target, entry.how);
      PastTheDoor(w, db, rq, entry.target, entry.how, C.CheckinTx(w, db, rq).1);
    } else {
      DoorRefusal(w, db, rq);
    }
  }

  // ---------------------------------------------------------------- after a cancellation

  lemma PairCountEffect(w: C.World, db: Db, f: Effect, i: nat)
    requires Legit(w, db, f) && R.UniqueAttendees(db.regs) && i < |db.regs| && db.regs[i].status == Cancelled
    ensures var of := C.SamePair(db.regs[i].eventId, db.regs[i].attendee);
            Count(Do(db, f).checkins, of) == Count(db.checkins, of)
  {
    var of := C.SamePair(db.regs[i].eventId, db.regs[i].attendee);
    if f.AddCheckin? {
      CountAppend(db.checkins, f.d.row, of);
      assert R.OfAttendee(f.d.row.eventId, f.d.row.attendee)(db.regs[f.d.reg]);
    }
    if f.ScrubHashes? { SameSelection(db.checkins, Do(db, f).checkins, of, of); }
  }

  /** Over any run, a cancelled attendee is not let in again: the registration stays cancelled, whatever is
      registered anew, and no further check-in of that attendee appears. */
  lemma {:induction false} CancelledStaysOut(w: C.World, db: Db, ops: seq<Op>, i: nat)
    requires Inv(w, db) && Q.Sound(w.crypto) && i < |db.regs| && db.regs[i].status == Cancelled
    ensures var end := Run(w, db, ops).0;
            var of := C.SamePair(db.regs[i].eventId, db.regs[i].attendee);
            && i < |end.regs| && end.regs[i] == db.regs[i]
            && First(end.regs, R.OfAttendee(db.regs[i].eventId, db.regs[i].attendee)) == Some(i)
            && Count(end.checkins, of) == Count(db.checkins, of)
    decreases |ops|
  {
    var of := C.SamePair(db.regs[i].eventId, db.regs[i].attendee);
    if ops == [] {
      assert R.OfAttendee(db.regs[i].eventId, db.regs[i].attendee)(db.regs[i]);
    } else {
      var db' := Apply(w, db, ops[0]).0;
      StatusClimbs(w, db, [ops[0]], i);
      InvStep(w, db, ops[0]);
      var f := Classify(w, db, ops[0]);
      PairCountEffect(w, db, f, i);
      CancelledStaysOut(w, db', ops[1..], i);
    }
  }

  // ---------------------------------------------------------------- who accepted

  /** The invitee accepted this very invitation. */
  predicate AcceptsAs(op: Op, i: nat, invitee: string) {
    op.Respond? && op.accept && op.id == i && op.actor.userId == Some(invitee)
  }

  lemma AcceptanceStep(w: C.World, db: Db, op: Op, i: nat)
    requires InvitesOk(db.events, db.invites)
    ensures var (db', reply) := Apply(w, db, op);
            i < |db'.invites| && db'.invites[i].status == Accepted ==>
              || (i < |db.invites| && db.invites[i].status == Accepted)
              || (AcceptsAs(op, i, db'.invites[i].invitee) && reply == RespondReply(I.RespondOk(i)))
  {
    if op.Send? { QuietRowsAreSent(db.invites, op.send, db.events); }
  }

  lemma QuietRowsAreSent(invites: seq<Invitation>, rq: I.SendRequest, events: seq<Event>)
    ensures var invites' := I.SendTx(events, invites, rq, Quiet(|rq.items|)).0;
            invites <= invites' && forall i :: |invites| <= i < |invites'| ==> invites'[i].status == Sent
  {
    if 0 <= rq.eventId < |events| {
      var inviter := if Truthy(rq.actor.userId) then rq.actor.userId.value else "service";
      QuietAllSent(invites, I.Header(events[rq.eventId].schoolId, rq.eventId, inviter), rq.items);
    }
  }

  lemma {:induction false} QuietAllSent(invites: seq<Invitation>, h: I.Header, items: seq<I.Item>)
    ensures var invites' := I.SendAll(invites, h, items, Quiet(|items|)).0;
            invites <= invites' && forall i :: |invites| <= i < |invites'| ==> invites'[i].status == Sent
  {
    if items != [] {
      var n := |items| - 1;
      QuietAllSent(invites, h, items[..n]);
      assert Quiet(|items|)[..n] == Quiet(n);
      I.SendOneLaws(I.SendAll(invites, h, items[..n], Quiet(n)).0, h, items[n], I.QUIET);
    }
  }

  /** Nobody accepts for somebody else: every accepted invitation of a run was accepted in that run by a
      request of the invitee that was answered with success. */
  lemma {:induction false} AcceptedByInvitee(w: C.World, db: Db, ops: seq<Op>, i: nat) returns (k: nat)
    requires Inv(w, db) && Q.Sound(w.crypto)
    requires i < |Run(w, db, ops).0.invites| && Run(w, db, ops).0.invites[i].status == Accepted
    requires i < |db.invites| ==> db.invites[i].status != Accepted
    ensures k < |ops| == |Run(w, db, ops).1|
    ensures AcceptsAs(ops[k], i, Run(w, db, ops).0.invites[i].invitee)
    ensures Run(w, db, ops).1[k] == RespondReply(I.RespondOk(i))
    decreases |ops|
  {
    RunLength(w, db, ops);
    var (db', rest) := (Apply(w, db, ops[0]).0, ops[1..]);
    assert [ops[0]] + rest == ops;
    RunCons(w, db, ops[0], rest);
    InvStep(w, db, ops[0]);
    AcceptanceStep(w, db, ops[0], i);
    if i < |db'.invites| && db'.invites[i].status == Accepted {
      InviteeStays(w, db', rest, i);
      k := 0;
    } else {
      var l := AcceptedByInvitee(w, db', rest, i);
      k := l + 1;
    }
  }

  lemma {:induction false} InviteeStays(w: C.World, db: Db, ops: seq<Op>, i: nat)
    requires Inv(w, db) && Q.Sound(w.crypto) && i < |db.invites|
    ensures i < |Run(w, db, ops).0.invites| && Run(w, db, ops).0.invites[i].invitee == db.invites[i].invitee
    decreases |ops|
  {
    if ops != [] {
      var f := Classify(w, db, ops[0]);
      assert i < |Do(db, f).invites| && Do(db, f).invites[i].invitee == db.invites[i].invitee;
      InvStep(w, db, ops[0]);
      InviteeStays(w, Apply(w, db, ops[0]).0, ops[1..], i);
    }
  }
}
