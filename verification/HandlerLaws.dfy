/** What single handlers promise their callers, apart from how they compute it. */
module HandlerLaws {
  import opened Seqs
  import opened Types
  import opened Charter
  import opened Runs
  import opened Invariants
  import Q = QrToken
  import R = Registrations
  import C = Checkins
  import I = Invitations
  import E = Events
  import P = Retention
  import MT = MintedTokens
  import Outcomes

  // ---------------------------------------------------------------- registering

  /** A request that may register somebody enters or replays; any other changes nothing and is refused. */
  ghost predicate RegisterLaw(rosters: R.Rosters, events: seq<Event>, invites: seq<Invitation>,
                              was: seq<Registration>, now: seq<Registration>, rq: R.Request, r: R.Response) {
    && (forall who :: Outcomes.MayRegister(rosters, events, invites, rq, who) ==>
                        Outcomes.Entered(events, was, rq.eventId, who, rq.key, now, r))
    && ((forall who :: !Outcomes.MayRegister(rosters, events, invites, rq, who)) ==>
          now == was && r == Outcomes.RegisterRefusal(events, rq))
  }

  lemma RegisterKeepsLaw(rosters: R.Rosters, events: seq<Event>, invites: seq<Invitation>, regs: seq<Registration>,
                         rq: R.Request)
    ensures var (regs', r) := R.RegisterTx(rosters, events, invites, regs, rq);
            regs <= regs' && RegisterLaw(rosters, events, invites, regs, regs', rq, r)
  {
    var gate := R.Gates(rosters, events, invites, rq);
    forall who ensures gate == R.Pass(who) <==> Outcomes.MayRegister(rosters, events, invites, rq, who) {
      Outcomes.RegisterGates(rosters, events, invites, rq, who);
    }
    Outcomes.RegisterGates(rosters, events, invites, rq, "");
    if gate.Pass? {
      assert Outcomes.MayRegister(rosters, events, invites, rq, gate.target);
      Outcomes.RegistrationOutcome(events, regs, rq.eventId, gate.target, rq.key);
    }
  }

  // ---------------------------------------------------------------- inviting

  /** What other writers commit keeps the tables' own rules for single rows. */
  ghost predicate Decent(events: seq<Event>, env: I.Interference) {
    && (forall i :: 0 <= i < |env.before| ==> InviteRowOk(events, env.before[i]))
    && (forall i :: 0 <= i < |env.between| ==> InviteRowOk(events, env.between[i]))
  }

  lemma {:induction false} AbsorbKeeps(events: seq<Event>, invites: seq<Invitation>, others: seq<Invitation>)
    requires InvitesOk(events, invites) && forall i :: 0 <= i < |others| ==> InviteRowOk(events, others[i])
    ensures InvitesOk(events, I.Absorb(invites, others))
    decreases |others|
  {
    if others != [] {
      var o := others[0];
      var hit := First(invites, I.OfInvitee(o.eventId, o.invitee));
      if hit.None? {
        assert forall j :: 0 <= j < |invites| ==> !I.OfInvitee(o.eventId, o.invitee)(invites[j]);
        assert I.UniqueInvitees(invites + [o]);
      }
      AbsorbKeeps(events, if hit.Some? then invites else invites + [o], others[1..]);
    }
  }

  lemma SendOneKeeps(events: seq<Event>, invites: seq<Invitation>, h: I.Header, item: I.Item, env: I.Interference)
    requires InvitesOk(events, invites) && Decent(events, env)
    requires h.eventId < |events| && h.schoolId == events[h.eventId].schoolId
    ensures InvitesOk(events, I.SendOne(invites, h, item, env).0)
  {
    I.SendOneLaws(invites, h, item, env);
    AbsorbKeeps(events, invites, env.before);
    AbsorbKeeps(events, I.Absorb(invites, env.before), env.between);
  }

  lemma {:induction false} SendAllKeeps(events: seq<Event>, invites: seq<Invitation>, h: I.Header, items: seq<I.Item>,
                                        env: seq<I.Interference>)
    requires |env| == |items| && InvitesOk(events, invites) && forall k :: 0 <= k < |env| ==> Decent(events, env[k])
    requires h.eventId < |events| && h.schoolId == events[h.eventId].schoolId
    ensures InvitesOk(events, I.SendAll(invites, h, items, env).0)
  {
    if items != [] {
      var n := |items| - 1;
      SendAllKeeps(events, invites, h, items[..n], env[..n]);
      SendOneKeeps(events, I.SendAll(invites, h, items[..n], env[..n]).0, h, items[n], env[n]);
    }
  }

  /** The event is in the sender's school or personal namespace. */
  predicate Reachable(events: seq<Event>, a: Actor, e: int) {
    && 0 <= e < |events|
    && (|| (Given(a.schoolId) && a.schoolId == Some(events[e].schoolId))
        || (Given(a.userId) && events[e].schoolId == "user:" + a.userId.value))
  }

  /** The rows answered as sent are new ones that say who invites whom to what. */
  ghost predicate SentRows(event: Event, was: seq<Invitation>, now: seq<Invitation>, rq: I.SendRequest, b: I.Batch)
    requires rq.eventId >= 0
  {
    && |b.rows| == |b.added| == |rq.items|
    && forall k :: 0 <= k < |rq.items| && b.added[k] ==>
         && |was| <= b.rows[k] < |now|
         && now[b.rows[k]] == Invitation(event.schoolId, rq.eventId,
                                         if Given(rq.actor.userId) then rq.actor.userId.value else "service",
                                         rq.items[k].invitee, Sent, rq.items[k].reason, None)
  }

  /** Only who manages a reachable event sends, and then gets one answer per item. */
  ghost predicate SendLaw(events: seq<Event>, was: seq<Invitation>, now: seq<Invitation>, rq: I.SendRequest,
                          r: I.SendResponse) {
    && was <= now
    && if !Reachable(events, rq.actor, rq.eventId) then r == I.SendRefused(404) && now == was
       else if !Manages(rq.actor, events[rq.eventId]) then r == I.SendRefused(403) && now == was
       else r.SendOk? && I.Answers(now, rq.eventId, rq.items, r.batch)
            && SentRows(events[rq.eventId], was, now, rq, r.batch)
  }

  lemma ManagersMatch(a: Actor, event: Event)
    ensures I.OwnerOrAdmin(a, event) <==> Manages(a, event)
  {
  }

  /** The batch of a request, once it may be sent. */
  function HeaderOf(events: seq<Event>, rq: I.SendRequest): I.Header
    requires 0 <= rq.eventId < |events|
  {
    I.Header(events[rq.eventId].schoolId, rq.eventId,
             if Given(rq.actor.userId) then rq.actor.userId.value else "service")
  }

  lemma SendTxExact(events: seq<Event>, invites: seq<Invitation>, rq: I.SendRequest, env: seq<I.Interference>)
    requires |env| == |rq.items|
    ensures var (invites', r) := I.SendTx(events, invites, rq, env);
            if !Reachable(events, rq.actor, rq.eventId) then invites' == invites && r == I.SendRefused(404)
            else if !Manages(rq.actor, events[rq.eventId]) then invites' == invites && r == I.SendRefused(403)
            else r.SendOk? && (invites', r.batch) == I.SendAll(invites, HeaderOf(events, rq), rq.items, env)
  {
    if 0 <= rq.eventId < |events| { ManagersMatch(rq.actor, events[rq.eventId]); }
  }

  lemma InsertedAreSent(events: seq<Event>, was: seq<Invitation>, now: seq<Invitation>, rq: I.SendRequest, b: I.Batch)
    requires 0 <= rq.eventId < |events| && I.Inserted(was, now, HeaderOf(events, rq), rq.items, b)
    ensures SentRows(events[rq.eventId], was, now, rq, b)
  {
  }

  lemma SendKeepsLaw(events: seq<Event>, invites: seq<Invitation>, rq: I.SendRequest, env: seq<I.Interference>)
    requires |env| == |rq.items|
    ensures var (invites', r) := I.SendTx(events, invites, rq, env);
            SendLaw(events, invites, invites', rq, r)
  {
    SendTxExact(events, invites, rq, env);
    if I.SendTx(events, invites, rq, env).1.SendOk? {
      var h := HeaderOf(events, rq);
      I.BatchLaws(invites, h, rq.items, env);
      I.FreshRows(invites, h, rq.items, env);
      var (invites', b) := I.SendAll(invites, h, rq.items, env);
      InsertedAreSent(events, invites, invites', rq, b);
    }
  }

  lemma SendKeepsInv(w: C.World, db: Db, rq: I.SendRequest, env: seq<I.Interference>)
    requires Inv(w, db) && |env| == |rq.items| && forall k :: 0 <= k < |env| ==> Decent(db.events, env[k])
    ensures Inv(w, db.(invites := I.SendTx(db.events, db.invites, rq, env).0))
  {
    SendTxExact(db.events, db.invites, rq, env);
    if I.SendTx(db.events, db.invites, rq, env).1.SendOk? {
      SendAllKeeps(db.events, db.invites, HeaderOf(db.events, rq), rq.items, env);
    }
  }

  // ---------------------------------------------------------------- cancelling

  function CancelledFor(r: Registration, e: int, who: string): Registration {
    if r.eventId == e && r.attendee == who then r.(status := Cancelled) else r
  }

  /** Success means that the attendee has no live registration for the event any more and nobody else's
      changed; it takes permission, an event in sight and a registration, and no more. */
  ghost predicate CancelLaw(events: seq<Event>, was: seq<Registration>, now: seq<Registration>,
                            actor: Actor, e: int, who: string, r: R.CancelResponse) {
    if !Administers(actor) && actor.userId != Some(who) then r == R.CancelRefused(403) && now == was
    else if !InSight(events, actor, e) || !Outcomes.HasRow(was, e, who) then r == R.CancelRefused(404) && now == was
    else
      && r.CancelOk? && r.id < |was| && was[r.id].eventId == e && was[r.id].attendee == who
      && |now| == |was| && forall i :: 0 <= i < |was| ==> now[i] == CancelledFor(was[i], e, who)
  }

  lemma CancelKeepsLaw(events: seq<Event>, regs: seq<Registration>, actor: Actor, e: int, who: string)
    requires R.UniqueAttendees(regs)
    ensures var (regs', r) := R.CancelTx(events, regs, actor, e, who);
            CancelLaw(events, regs, regs', actor, e, who, r)
  {
    if R.VisibleEvent(events, actor, e) {
      Outcomes.OwnRow(regs, e, who);
    }
  }

  // ---------------------------------------------------------------- checking in

  /** It succeeds exactly for those who are welcome, writing what a visit leaves; everybody else is turned
      away for the first thing that is not in order, and nothing changes. */
  ghost predicate CheckinLaw(w: C.World, was: Db, now: Db, rq: C.Request, r: C.Response) {
    && (forall who, how :: Outcomes.Welcome(w, was, rq, who, how) ==>
                             Outcomes.VisitWritten(w, was, rq, who, how, now, r))
    && ((forall who, how :: !Outcomes.Welcome(w, was, rq, who, how)) ==>
          now == was && Outcomes.TurnedAway(w, was, rq, r))
  }

  lemma SubmitKeepsLaw(w: C.World, db: Db, rq: C.Request)
    requires Inv(w, db) && Q.Sound(w.crypto)
    ensures var (db', r) := C.CheckinTx(w, db, rq);
            Inv(w, db') && CheckinLaw(w, db, db', rq, r)
  {
    Outcomes.CheckinSucceedsIff(w, db, rq);
    var (db', r) := C.CheckinTx(w, db, rq);
    forall who, how | Outcomes.Welcome(w, db, rq, who, how) ensures Outcomes.VisitWritten(w, db, rq, who, how, db', r) {
      Outcomes.CheckinWrites(w, db, rq, who, how);
    }
    if !r.Success? {
      FailedAttemptChangesNothing(w, db, rq);
      Outcomes.RefusalExact(w, db, rq);
    }
    InvStep(w, db, Scan(rq));
    assert db' == Apply(w, db, Scan(rq)).0;
  }

  // ---------------------------------------------------------------- consuming

  /** Row i ends settled; a settled row and every other row stay as they are; nothing but the mark changes. */
  ghost predicate ConsumeLaw(was: seq<Token>, now: seq<Token>, i: nat, user: string, at: real)
    requires i < |was|
  {
    && |now| == |was| && now[i].Settled() && MT.SameToken(was[i], now[i])
    && (forall j :: 0 <= j < |was| && (j != i || was[j].Settled()) ==> now[j] == was[j])
    && (!was[i].Settled() ==> now[i].usedAt == Some(at) && (user != "" ==> now[i].usedBy == Some(user)))
  }

  lemma ConsumeKeepsLaw(tokens: seq<Token>, i: nat, user: string, now: real)
    requires i < |tokens|
    ensures ConsumeLaw(tokens, C.Consume(tokens, i, user, now), i, user, now)
    ensures C.Consume(C.Consume(tokens, i, user, now), i, user, now) == C.Consume(tokens, i, user, now)
  {
  }

  // ---------------------------------------------------------------- minting

  /** No string but `raw` is judged differently. */
  ghost predicate OpensOnly(c: Q.Crypto, was: seq<Token>, now: seq<Token>, raw: string) {
    forall s: string, e: int, table: string, who: Option<string>, t: real ::
      s != raw ==> Q.Peek(c, now, s, e, table, who, t) == Q.Peek(c, was, s, e, table, who, t)
  }

  /** The string of a call: the table, the event, the nonce and the second at which its minutes are over,
      the hash of the attendee if it is for one, and the signature of all that. */
  function TextOf(c: Q.Crypto, call: Q.MintCall): string {
    "events" + ":" + Q.Print(call.eventId) + ":" + call.nonce
    + ":" + Q.Print(Trunc(call.now + (60 * call.ttlMinutes) as real))
    + (if Given(call.attendee) then ":a=" + c.attendeeHash(call.attendee.value) else "")
  }

  function StringOf(c: Q.Crypto, call: Q.MintCall): string {
    TextOf(c, call) + ":" + c.hmac(TextOf(c, call))
  }

  /** The row that is stored for a call. */
  predicate Records(c: Q.Crypto, call: Q.MintCall, row: Token) {
    && call.actor.schoolId == Some(row.schoolId) && row.table == "events" && row.eventId == call.eventId
    && row.hash == c.sha256(StringOf(c, call)) && row.nonce == call.nonce
    && row.expiresAt == call.now + (60 * call.ttlMinutes) as real && row.singleUse == call.singleUse
    && row.usedAt == None && row.usedBy == None
    && row.issuedBy == (if Given(call.actor.userId) then call.actor.userId.value else "service")
  }

  /** An administrator of the event's school mints, for 1 to 720 minutes.  The new string is accepted
      exactly where its call said, until its expiry, and as long as it is not spent; every other string is
      judged as before. */
  ghost predicate MintLaw(w: C.World, was: Db, now: Db, call: Q.MintCall, r: Q.MintReply) {
    var (c, raw) := (w.crypto, StringOf(w.crypto, call));
    if !Administers(call.actor) || !Given(call.actor.schoolId) then now == was && r == Q.MintRefused(403)
    else if !(0 <= call.eventId < |was.events|) || call.actor.schoolId != Some(was.events[call.eventId].schoolId) then
      now == was && r == Q.MintRefused(404)
    else if !(1 <= call.ttlMinutes <= 720) then now == was && r == Q.Fresh(Q.MintRejected)
    else if exists i :: 0 <= i < |was.tokens| && was.tokens[i].hash == c.sha256(raw) then
      now == was && r == Q.Fresh(Q.MintCollision)
    else
      && r == Q.Fresh(Q.MintOk(raw, |was.tokens|)) && now == was.(tokens := now.tokens)
      && |now.tokens| == |was.tokens| + 1 && was.tokens <= now.tokens && Records(c, call, now.tokens[|was.tokens|])
      && OpensOnly(c, was.tokens, now.tokens, raw)
      && forall e: int, who: Option<string>, t: real ::
           Q.Peek(c, now.tokens, raw, e, "events", who, t).status.Ok? <==> MT.Fits(w, now, call, raw, e, who, t)
  }

  lemma OneRowOpensOnly(c: Q.Crypto, tokens: seq<Token>, row: Token, raw: string)
    requires Q.Sound(c) && row.hash == c.sha256(raw)
    ensures OpensOnly(c, tokens, tokens + [row], raw)
  {
    forall s: string, e: int, table: string, who: Option<string>, t: real | s != raw
      ensures Q.Peek(c, tokens + [row], s, e, table, who, t) == Q.Peek(c, tokens, s, e, table, who, t)
    {
      assert c.sha256(s) != c.sha256(raw);
      FirstAppend(tokens, row, Q.ByHash(c.sha256(s)));
      var first := First(tokens, Q.ByHash(c.sha256(s)));
      if first.Some? { assert (tokens + [row])[first.value] == tokens[first.value]; }
    }
  }

  lemma CallOutcome(c: Q.Crypto, tokens: seq<Token>, call: Q.MintCall)
    requires call.eventId >= 0 && call.actor.schoolId.Some?
    ensures var ((tokens', r), raw) := (Q.MintTx(c, tokens, Q.MintRequestOf(call)), StringOf(c, call));
            && raw == Q.Raw(c, Q.MintFields(c, Q.MintRequestOf(call)))
            && if !(1 <= call.ttlMinutes <= 720) then tokens' == tokens && r == Q.MintRejected
               else if exists i :: 0 <= i < |tokens| && tokens[i].hash == c.sha256(raw) then
                 tokens' == tokens && r == Q.MintCollision
               else
                 && r == Q.MintOk(raw, |tokens|) && |tokens'| == |tokens| + 1 && tokens'[..|tokens|] == tokens
                 && Records(c, call, tokens'[|tokens|])
                 && tokens'[|tokens|] == Q.MintRow(c, Q.MintRequestOf(call))
  {
    var rq := Q.MintRequestOf(call);
    assert TextOf(c, call) == Q.SignedText(c, rq);
    Q.MintOutcome(c, tokens, rq);
    Q.RawText(c, rq);
  }

  /** Who may mint, in the route's own order. */
  lemma RouteOutcome(c: Q.Crypto, events: seq<Event>, tokens: seq<Token>, call: Q.MintCall)
    ensures var (tokens', r) := Q.MintRouteTx(c, events, tokens, call);
            if !Administers(call.actor) || !Given(call.actor.schoolId) then tokens' == tokens && r == Q.MintRefused(403)
            else if !(0 <= call.eventId < |events|) || call.actor.schoolId != Some(events[call.eventId].schoolId) then
              tokens' == tokens && r == Q.MintRefused(404)
            else r.Fresh? && (tokens', r.result) == Q.MintTx(c, tokens, Q.MintRequestOf(call))
  {
  }

  lemma MintApplies(w: C.World, db: Db, call: Q.MintCall)
    ensures Apply(w, db, Mint(call)).0 == db.(tokens := Q.MintRouteTx(w.crypto, db.events, db.tokens, call).0)
  {
  }

  lemma MintKeepsInv(w: C.World, db: Db, call: Q.MintCall)
    requires Inv(w, db) && Q.Sound(w.crypto)
    ensures Inv(w, db.(tokens := Q.MintRouteTx(w.crypto, db.events, db.tokens, call).0))
  {
    MintApplies(w, db, call);
    InvStep(w, db, Mint(call));
  }

  lemma MintKeepsLaw(w: C.World, db: Db, call: Q.MintCall)
    requires Inv(w, db) && Q.Sound(w.crypto)
    ensures var (tokens', r) := Q.MintRouteTx(w.crypto, db.events, db.tokens, call);
            MintLaw(w, db, db.(tokens := tokens'), call, r)
  {
    var (tokens', r) := Q.MintRouteTx(w.crypto, db.events, db.tokens, call);
    MintKeepsInv(w, db, call);
    RouteOutcome(w.crypto, db.events, db.tokens, call);
    if r.Fresh? {
      CallOutcome(w.crypto, db.tokens, call);
      if r.result.MintOk? {
        assert tokens' == db.tokens + [Q.MintRow(w.crypto, Q.MintRequestOf(call))];
        MintedRowOpens(w, db, call, db.(tokens := tokens'));
      }
    }
  }

  lemma MintedRowOpens(w: C.World, db: Db, call: Q.MintCall, db': Db)
    requires Inv(w, db') && Q.Sound(w.crypto) && call.eventId >= 0 && call.actor.schoolId.Some?
    requires var rq := Q.MintRequestOf(call);
             && db' == db.(tokens := db.tokens + [Q.MintRow(w.crypto, rq)])
             && StringOf(w.crypto, call) == Q.Raw(w.crypto, Q.MintFields(w.crypto, rq))
    ensures var raw := StringOf(w.crypto, call);
            && OpensOnly(w.crypto, db.tokens, db'.tokens, raw)
            && forall e: int, who: Option<string>, t: real ::
                 Q.Peek(w.crypto, db'.tokens, raw, e, "events", who, t).status.Ok?
                 <==> MT.Fits(w, db', call, raw, e, who, t)
  {
    var (row, raw) := (Q.MintRow(w.crypto, Q.MintRequestOf(call)), StringOf(w.crypto, call));
    OneRowOpensOnly(w.crypto, db.tokens, row, raw);
    forall e: int, who: Option<string>, t: real
      ensures Q.Peek(w.crypto, db'.tokens, raw, e, "events", who, t).status.Ok?
              <==> MT.Fits(w, db', call, raw, e, who, t)
    {
      MT.StoredAcceptedIff(w, db', call, raw, |db.tokens|, e, who, t);
    }
  }

  // ---------------------------------------------------------------- answering an invitation

  /** Only the invitee gets through; the answered row gets the answer and its time and no other changes;
      and the invitee has an accepted invitation to the event exactly if the last answer was yes. */
  ghost predicate RespondLaw(was: seq<Invitation>, now: seq<Invitation>, actor: Actor, e: int, id: int, accept: bool,
                             at: real, r: I.RespondResponse) {
    if !(0 <= id < |was|) || was[id].eventId != e then r == I.RespondRefused(404) && now == was
    else if actor.userId != Some(was[id].invitee) then r == I.RespondRefused(403) && now == was
    else
      && r == I.RespondOk(id) && |now| == |was| && (forall j :: 0 <= j < |was| && j != id ==> now[j] == was[j])
      && now[id] == was[id].(status := if accept then Accepted else Declined, respondedAt := Some(at))
      && (HasAccepted(now, e, was[id].invitee) <==> accept)
  }

  lemma RespondKeepsLaw(invites: seq<Invitation>, actor: Actor, e: int, id: int, accept: bool, at: real)
    requires I.UniqueInvitees(invites)
    ensures var (invites', r) := I.RespondTx(invites, actor, e, id, accept, at);
            RespondLaw(invites, invites', actor, e, id, accept, at, r)
  {
    var (invites', r) := I.RespondTx(invites, actor, e, id, accept, at);
    if r.RespondOk? {
      if accept { assert invites'[id].status == Accepted; }
      if i :| 0 <= i < |invites'| && invites'[i].eventId == e && invites'[i].invitee == invites[id].invitee
              && invites'[i].status == Accepted {
        I.SameInvitee(invites, invites[id].eventId, invites[id].invitee, i, id);
      }
    }
  }

  // ---------------------------------------------------------------- creating an event

  /** The columns of a new event: tenant, author and key of the call, a group only if it is for a group,
      and the rest as drafted. */
  predicate Drafted(row: Event, rq: E.CreateRequest, tenant: string) {
    var (draft, grouped) := (rq.draft, rq.draft.visibility == GroupOnly);
    && row.schoolId == tenant && row.owner == (if Given(rq.actor.userId) then rq.actor.userId.value else "service")
    && row.key == (if Given(rq.key) then rq.key else None)
    && row.groupId == (if grouped then draft.groupId else None)
    && row.groupKind == (if grouped then draft.groupKind else None)
    && row.eventType == draft.eventType && row.lat == draft.lat && row.lon == draft.lon && row.radius == draft.radius
    && row.start == draft.start && row.maxCapacity == draft.maxCapacity && row.checkinMethod == draft.checkinMethod
    && row.status == draft.status && row.visibility == draft.visibility && row.allowNfc == draft.allowNfc
  }

  predicate Bears(row: Event, tenant: string, key: Option<string>) {
    Given(key) && row.schoolId == tenant && row.key == key
  }

  /** A key that the tenant has used answers its event; a blank title is refused; else the draft is added. */
  ghost predicate Authored(was: seq<Event>, now: seq<Event>, rq: E.CreateRequest, tenant: string, r: E.CreateResponse) {
    if exists i :: 0 <= i < |was| && Bears(was[i], tenant, rq.key) then
      now == was && r.Created? && r.id < |was| && Bears(was[r.id], tenant, rq.key)
    else if rq.titleBlank then now == was && r == E.CreateRefused(422)
    else
      && r == E.Created(|was|) && |now| == |was| + 1 && now[..|was|] == was && Drafted(now[|was|], rq, tenant)
  }

  /** Who may create does, once per key: the same request sent again answers the same event and adds nothing. */
  ghost predicate CreateLaw(was: seq<Event>, now: seq<Event>, rq: E.CreateRequest, r: E.CreateResponse) {
    && (forall tenant :: E.MayCreate(rq, tenant) ==> Authored(was, now, rq, tenant, r))
    && ((forall tenant :: !E.MayCreate(rq, tenant)) ==> now == was && r == E.CreateRefused(E.CreateRefusal(rq)))
    && (r.Created? && Given(rq.key) ==> E.CreateTx(now, rq) == (now, r))
  }

  lemma CreationAuthors(events: seq<Event>, rq: E.CreateRequest, tenant: string)
    requires E.Gates(rq) == E.Pass(tenant)
    ensures var (events', r) := E.CreateTx(events, rq);
            Authored(events, events', rq, tenant, r)
  {
    if Given(rq.key) {
      var with := E.WithKey(tenant, rq.key.value);
      assert forall i :: 0 <= i < |events| ==> (with(events[i]) <==> Bears(events[i], tenant, rq.key));
      var hit := First(events, with);
      if hit.Some? { assert Bears(events[hit.value], tenant, rq.key); }
    }
  }

  lemma CreateKeepsLaw(events: seq<Event>, rq: E.CreateRequest)
    ensures var (events', r) := E.CreateTx(events, rq);
            CreateLaw(events, events', rq, r)
  {
    var (events', r) := E.CreateTx(events, rq);
    forall tenant ensures E.Gates(rq) == E.Pass(tenant) <==> E.MayCreate(rq, tenant) {
      E.GatesExact(rq, tenant);
    }
    E.GatesExact(rq, "");
    if E.Gates(rq).Pass? {
      assert E.MayCreate(rq, E.Gates(rq).tenant);
      CreationAuthors(events, rq, E.Gates(rq).tenant);
    }
    if r.Created? && E.SafeKey(rq.key).Some? {
      FirstAppend(events, E.NewEvent(rq, E.Gates(rq).tenant), E.WithKey(E.Gates(rq).tenant, rq.key.value));
    }
  }

  // ---------------------------------------------------------------- patching and soft cancellation

  /** No registration is added to the event, nobody checks in, and the feed does not list it. */
  ghost predicate Closed(w: C.World, db: Db, e: int) {
    && (forall rosters: R.Rosters, rq: R.Request | rq.eventId == e ::
          R.RegisterTx(rosters, db.events, db.invites, db.regs, rq).0 == db.regs)
    && (forall rq: C.Request | rq.eventId == e :: !C.CheckinTx(w, db, rq).1.Success?)
    && (forall school: Option<string>, eventType: Option<string>, i: nat ::
          i in E.Feed(db.events, |db.events|, school, eventType) ==> i != e)
  }

  lemma NotOpenIsClosed(w: C.World, db: Db, e: nat)
    requires e < |db.events| && !db.events[e].Open()
    ensures Closed(w, db, e)
  {
    forall rosters: R.Rosters, rq: R.Request | rq.eventId == e
      ensures R.RegisterTx(rosters, db.events, db.invites, db.regs, rq).0 == db.regs
    {
      assert R.Gates(rosters, db.events, db.invites, rq).Stop?;
    }
    forall rq: C.Request | rq.eventId == e ensures !C.CheckinTx(w, db, rq).1.Success? {
      assert C.Entrance(w, db.events, db.checkins, rq).Bounce?;
    }
  }

  /** A requested value is taken, and what is not requested stays. */
  predicate Takes<T(==)>(requested: Option<T>, was: T, now: T) {
    now == match requested case None => was case Some(value) => value
  }

  predicate Amended(was: Event, now: Event, p: E.Patch) {
    && Takes(p.status, was.status, now.status) && Takes(p.visibility, was.visibility, now.visibility)
    && Takes(p.maxCapacity, was.maxCapacity, now.maxCapacity) && Takes(p.radius, was.radius, now.radius)
    && Takes(p.checkinMethod, was.checkinMethod, now.checkinMethod) && Takes(p.allowNfc, was.allowNfc, now.allowNfc)
    && now.schoolId == was.schoolId && now.owner == was.owner && now.key == was.key
    && now.lat == was.lat && now.lon == was.lon && now.eventType == was.eventType && now.start == was.start
    && now.groupId == was.groupId && now.groupKind == was.groupKind
  }

  /** Only who manages an event of the own namespace patches it; only that event takes the requested
      columns, tenant, owner, key and venue never change, and a soft cancellation closes it to everything. */
  ghost predicate PatchLaw(w: C.World, was: Db, now: Db, actor: Actor, e: int, p: E.Patch, r: E.PatchResponse) {
    if Namespace(actor).None? then r == E.PatchRefused(403) && now == was
    else if !(0 <= e < |was.events|) || Namespace(actor) != Some(was.events[e].schoolId) then
      r == E.PatchRefused(404) && now == was
    else if !Manages(actor, was.events[e]) then r == E.PatchRefused(403) && now == was
    else
      && r == E.PatchOk && now == was.(events := now.events) && |now.events| == |was.events|
      && Amended(was.events[e], now.events[e], p)
      && (forall i :: 0 <= i < |was.events| && i != e ==> now.events[i] == was.events[i])
      && (p == E.CANCEL ==> now.events[e].status == Withdrawn && Closed(w, now, e))
  }

  lemma PatchKeepsLaw(w: C.World, db: Db, actor: Actor, e: int, p: E.Patch)
    ensures var (events', r) := E.PatchTx(db.events, actor, e, p);
            PatchLaw(w, db, db.(events := events'), actor, e, p, r)
  {
    var (events', r) := E.PatchTx(db.events, actor, e, p);
    if 0 <= e < |db.events| { ManagersMatch(actor, db.events[e]); }
    if r.PatchOk? && p == E.CANCEL { NotOpenIsClosed(w, db.(events := events'), e); }
  }

  // ---------------------------------------------------------------- purging

  /** The rows with a location hash from before the cutoff. */
  ghost function OldHashed(rows: seq<Checkin>, cutoff: real): set<int> {
    set i | 0 <= i < |rows| && rows[i].at < cutoff && (rows[i].latHash != None || rows[i].lonHash != None)
  }

  /** The cutoff is so many days of 86400 seconds ago, the requested number or else the configured one, and
      none at all switches the purge off.  Check-ins from before the cutoff lose both location hashes and
      nothing else changes; the reported rows are those that had one; a second purge finds none. */
  ghost predicate PurgeLaw(was: seq<Checkin>, now: seq<Checkin>, requested: Option<int>, configured: nat, at: real,
                           r: P.Result) {
    var days := match requested case None => configured case Some(n) => n;
    if days <= 0 then now == was && r == P.Result(0, None, true)
    else
      var cutoff := at - (86400 * days) as real;
      && |now| == |was|
      && (forall i :: 0 <= i < |was| ==>
            now[i] == if was[i].at < cutoff then was[i].(latHash := None, lonHash := None) else was[i])
      && r == P.Result(|OldHashed(was, cutoff)|, Some(cutoff), false) && OldHashed(now, cutoff) == {}
  }

  lemma StaleCounted(rows: seq<Checkin>, cutoff: real)
    ensures Count(rows, P.Stale(cutoff)) == |OldHashed(rows, cutoff)|
  {
    CountIsSize(rows, P.Stale(cutoff));
    assert Where(rows, P.Stale(cutoff)) == OldHashed(rows, cutoff);
  }

  /** The table after a purge at this cutoff, if there is one. */
  function Purged(rows: seq<Checkin>, cutoff: Option<real>): seq<Checkin> {
    if cutoff.Some? then P.Scrubbed(rows, cutoff.value) else rows
  }

  lemma PurgeCutoff(rows: seq<Checkin>, requested: Option<int>, configured: nat, at: real)
    returns (cutoff: Option<real>)
    ensures P.PurgeTx(rows, requested, configured, at).0 == Purged(rows, cutoff)
  {
    cutoff := P.PurgeTx(rows, requested, configured, at).1.cutoff;
  }

  lemma PurgeKeepsInv(w: C.World, db: Db, cutoff: Option<real>)
    requires Inv(w, db)
    ensures Inv(w, db.(checkins := Purged(db.checkins, cutoff)))
  {
    if cutoff.Some? {
      InvKept(w, db, ScrubHashes(cutoff.value));
    } else {
      assert db.(checkins := db.checkins) == db;
    }
  }

  lemma PurgeKeepsLaw(rows: seq<Checkin>, requested: Option<int>, configured: nat, at: real)
    ensures var (rows', r) := P.PurgeTx(rows, requested, configured, at);
            PurgeLaw(rows, rows', requested, configured, at, r)
  {
    var r := P.PurgeTx(rows, requested, configured, at).1;
    if !r.disabled { StaleCounted(rows, r.cutoff.value); }
  }
}
