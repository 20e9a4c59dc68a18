/** The check-in handler: gates, two-phase QR, geofence, insert, mark attended, consume. */
module Checkins {
  import opened Seqs
  import opened Types
  import Q = QrToken
  import V = Velocity
  import R = Registrations
  import L = RateLimiter

  /** What the handler takes from its surroundings besides the tables. */
  datatype World = World(crypto: Q.Crypto, velocity: V.Settings, coordHash: real -> string)

  /** The device-attestation stub and the IP-country check are inputs, and so is the limiter's verdict. */
  datatype Request = Request(
    actor: Actor, eventId: int, attendee: Option<string>, qrToken: Option<string>,
    lat: Option<real>, lon: Option<real>, how: Option<Method>, now: real,
    limiter: L.Verdict, attestation: Option<string>, countryOk: bool)

  datatype Response =
    | Success(id: nat, geofence: Option<bool>, distance: Option<real>, at: real)
    | Duplicate(id: nat, at: real)
    | Rejected(reason: string)
    | GeofenceFailed(distance: Option<real>)
    | HttpError(status: int, code: string)

  // ---------------------------------------------------------------- geofence

  const MAX_RADIUS := 5000

  datatype Fence = Fence(passed: bool, distance: Option<real>)

  predicate OnGlobe(p: Place) {
    -90.0 <= p.lat <= 90.0 && -180.0 <= p.lon <= 180.0
  }

  /** `verify_distance` */
  function VerifyDistance(v: V.Settings, lat: Option<real>, lon: Option<real>, event: Event): (f: Fence)
    ensures f.passed ==> lat.Some? && lon.Some? && Venue(event).Some? && f.distance.Some?
  {
    if lat.None? || lon.None? || Venue(event).None? then Fence(false, None)
    else
      var (here, there) := (Place(lat.value, lon.value), Venue(event).value);
      var radius := if event.radius.None? || event.radius.value == 0 then 100 else event.radius.value;
      if !OnGlobe(here) || !OnGlobe(there) || radius <= 0 || radius > MAX_RADIUS then Fence(false, None)
      else
        var d := v.dist(here, there);
        Fence(d <= radius as real, Some(d))
  }

  // ---------------------------------------------------------------- gates

  datatype Entry = Admit(target: string, how: Method) | Bounce(response: Response)

  /** Everything before the QR check; `how` is the declared method or else the event's. */
  function Entrance(w: World, events: seq<Event>, checkins: seq<Checkin>, rq: Request): (g: Entry)
    ensures g.Admit? ==> 0 <= rq.eventId < |events| && g.how != NoMethod && g.target != ""
                         && V.Plausible(w.velocity, events, checkins, g.target, rq.eventId, rq.now)
    ensures g.Bounce? ==> !g.response.Success?
  {
    match Target(rq.attendee, rq.actor)
    case None => Bounce(HttpError(400, "attendee_user_id_required"))
    case Some(target) =>
      if !SelfOrAdmin(rq.actor, target) then Bounce(HttpError(403, "permission_denied"))
      else if rq.limiter.Throttled? then
        Bounce(HttpError(429, if rq.limiter.code.AttendeeWindow? then "rate_limited_attendee" else "rate_limited_ip"))
      else if rq.attestation.Some? then Bounce(Rejected(rq.attestation.value))
      else if !(0 <= rq.eventId < |events|) then Bounce(HttpError(404, "event_not_found"))
      else
        var event := events[rq.eventId];
        if !event.Open() then Bounce(Rejected("event_not_active"))
        else if !rq.countryOk then Bounce(Rejected("ip_country_mismatch"))
        else if !V.Plausible(w.velocity, events, checkins, target, rq.eventId, rq.now) then
          Bounce(Rejected("velocity_implausible"))
        else
          var how := if rq.how.Some? then rq.how.value else event.checkinMethod;
          if how == NoMethod then Bounce(HttpError(409, "checkin_disabled"))
          else if how == Nfc && !event.allowNfc then Bounce(HttpError(409, "nfc_disabled"))
          else Admit(target, how)
  }

  predicate NeedsQr(how: Method) { how == Qr || how == QrGeo }
  predicate NeedsGeo(how: Method) { how == Geo || how == QrGeo }

  datatype TokenCheck = NoToken | Valid(row: nat, hash: string) | Invalid(reason: string)

  /** What the handler answers when the peek fails. */
  function TokenRejection(status: Q.Status): (r: Response)
    ensures r.Rejected?
  {
    Rejected(if status == Q.AttendeeMismatch then "attendee_mismatch" else "invalid_token")
  }

  /** The first phase: look at the token without touching it. */
  function TokenPhase(w: World, tokens: seq<Token>, rq: Request, how: Method, target: string): (t: TokenCheck)
    requires rq.eventId >= 0
    ensures t.Valid? ==> t.row < |tokens|
  {
    if !NeedsQr(how) then NoToken
    else if !Truthy(rq.qrToken) then Invalid("invalid_token")
    else
      var peek := Q.Peek(w.crypto, tokens, rq.qrToken.value, rq.eventId, "events", Some(target), rq.now);
      if peek.status.Ok? then Valid(peek.row.value, w.crypto.sha256(rq.qrToken.value))
      else Invalid(TokenRejection(peek.status).reason)
  }

  function SamePair(e: nat, attendee: string): Checkin -> bool {
    (c: Checkin) => c.eventId == e && c.attendee == attendee
  }

  /** The attempt may insert: the row to insert, the registration to mark and the token to consume. */
  datatype Decision = Go(row: Checkin, reg: nat, token: Option<nat>, distance: Option<real>) | Stop(response: Response)

  function Decide(w: World, db: Db, rq: Request): (d: Decision)
    ensures d.Stop? ==> !d.response.Success?
    ensures d.Go? ==> d.reg < |db.regs| && (d.token.Some? ==> d.token.value < |db.tokens|)
  {
    match Entrance(w, db.events, db.checkins, rq)
    case Bounce(response) => Stop(response)
    case Admit(target, how) =>
      var token := TokenPhase(w, db.tokens, rq, how, target);
      var event := db.events[rq.eventId];
      var fence := VerifyDistance(w.velocity, rq.lat, rq.lon, event);
      var geo := NeedsGeo(how);
      if token.Invalid? then Stop(Rejected(token.reason))
      else if geo && !fence.passed then Stop(GeofenceFailed(fence.distance))
      else
        match First(db.regs, R.OfAttendee(rq.eventId, target))
        case None => Stop(Rejected("registration_required"))
        case Some(i) =>
          if db.regs[i].status == Cancelled then Stop(Rejected("registration_required"))
          else
            Go(Checkin(event.schoolId, rq.eventId, target, rq.now, how,
                       if token.Valid? then Some(token.hash) else None,
                       if geo then Some(w.coordHash(rq.lat.value)) else None,
                       if geo then Some(w.coordHash(rq.lon.value)) else None,
                       if geo then Some(true) else None),
               i, if token.Valid? then Some(token.row) else None, if geo then fence.distance else None)
  }

  /** `consume_token` */
  function Consume(tokens: seq<Token>, i: nat, user: string, now: real): seq<Token>
    requires i < |tokens|
  {
    if !tokens[i].singleUse || tokens[i].usedAt.Some? then tokens
    else tokens[i := tokens[i].(usedAt := Some(now), usedBy := if user != "" then Some(user) else tokens[i].usedBy)]
  }

  /** The writes: insert unless the pair has checked in already, mark attended, consume. */
  function Commit(db: Db, row: Checkin, reg: nat, token: Option<nat>, distance: Option<real>): (Db, Response)
    requires reg < |db.regs| && (token.Some? ==> token.value < |db.tokens|)
  {
    match First(db.checkins, SamePair(row.eventId, row.attendee))
    case Some(i) => (db, Duplicate(i, db.checkins[i].at))
    case None =>
      (db.(checkins := db.checkins + [row],
           regs := db.regs[reg := db.regs[reg].(status := Attended)],
           tokens := if token.Some? then Consume(db.tokens, token.value, row.attendee, row.at) else db.tokens),
       Success(|db.checkins|, row.geofence, distance, row.at))
  }

  /** `submit_checkin`, uninterrupted: three tables change together or none does. */
  function CheckinTx(w: World, db: Db, rq: Request): (Db, Response) {
    match Decide(w, db, rq)
    case Stop(response) => (db, response)
    case Go(row, reg, token, distance) => Commit(db, row, reg, token, distance)
  }

  // ---------------------------------------------------------------- what an admitted attempt carries

  /** The facts every later argument about a successful attempt uses. */
  ghost predicate Licensed(w: World, db: Db, d: Decision)
    requires d.Go?
  {
    && d.row.eventId < |db.events| && d.row.attendee != ""
    && d.row.schoolId == db.events[d.row.eventId].schoolId
    && First(db.regs, R.OfAttendee(d.row.eventId, d.row.attendee)) == Some(d.reg)
    && d.reg < |db.regs| && db.regs[d.reg].status != Cancelled
    && V.Plausible(w.velocity, db.events, db.checkins, d.row.attendee, d.row.eventId, d.row.at)
    && (d.token.None? ==> d.row.tokenHash.None?)
    && (d.token.Some? ==>
          && d.token.value < |db.tokens|
          && var t := db.tokens[d.token.value];
             d.row.tokenHash == Some(t.hash) && t.eventId == d.row.eventId && !(t.singleUse && t.usedAt.Some?))
  }

  lemma DecisionLicensed(w: World, db: Db, rq: Request)
    requires Q.Sound(w.crypto) && Q.Genuine(w.crypto, db.tokens) && Decide(w, db, rq).Go?
    ensures Licensed(w, db, Decide(w, db, rq)) && Decide(w, db, rq).row.at == rq.now
  {
    var entry := Entrance(w, db.events, db.checkins, rq);
    var token := TokenPhase(w, db.tokens, rq, entry.how, entry.target);
    if token.Valid? {
      Q.AcceptedRow(w.crypto, db.tokens, rq.qrToken.value, rq.eventId, "events", Some(entry.target), rq.now);
    }
  }
}
