/** What every serial run keeps, table by table and across tables. */
module Invariants {
  import opened Seqs
  import opened Types
  import opened Runs
  import Q = QrToken
  import V = Velocity
  import R = Registrations
  import C = Checkins
  import I = Invitations
  import E = Events
  import P = Retention

  // ---------------------------------------------------------------- the invariants

  predicate SameIdentity(a: Event, b: Event) {
    a.schoolId == b.schoolId && a.owner == b.owner && a.key == b.key && a.lat == b.lat && a.lon == b.lon
  }

  /** Events only gain rows, and no handler rewrites tenant, owner, key or venue. */
  ghost predicate EventsGrow(a: seq<Event>, b: seq<Event>) {
    |a| <= |b| && forall i :: 0 <= i < |a| ==> SameIdentity(a[i], b[i])
  }

  /** Registered and waitlisted, then attended, then cancelled: handlers only move up. */
  function StatusRank(s: RegStatus): nat {
    match s
    case Registered => 0
    case Waitlisted => 0
    case Attended => 1
    case Cancelled => 2
  }

  ghost predicate EventsOk(events: seq<Event>) {
    forall i, j :: 0 <= i < j < |events| && events[i].schoolId == events[j].schoolId && events[i].key.Some? ==>
                     events[i].key != events[j].key
  }

  predicate RegRowOk(events: seq<Event>, r: Registration) {
    && r.eventId < |events| && r.schoolId == events[r.eventId].schoolId
    && (r.status == Registered ==> r.position.None?)
    && (r.status == Waitlisted ==> r.position.Some?)
  }

  ghost predicate RegsOk(events: seq<Event>, regs: seq<Registration>) {
    && R.UniqueAttendees(regs) && R.UniqueKeys(regs)
    && forall i :: 0 <= i < |regs| ==> RegRowOk(events, regs[i])
  }

  predicate CheckinRowOk(events: seq<Event>, c: Checkin) {
    c.eventId < |events| && c.schoolId == events[c.eventId].schoolId
  }

  ghost predicate CheckinsOk(events: seq<Event>, checkins: seq<Checkin>) {
    && V.OnePerEvent(checkins)
    && forall i :: 0 <= i < |checkins| ==> CheckinRowOk(events, checkins[i])
  }

  predicate TokenRowOk(events: seq<Event>, t: Token) {
    t.table == "events" && t.eventId < |events| && t.schoolId == events[t.eventId].schoolId
  }

  ghost predicate TokensOk(c: Q.Crypto, events: seq<Event>, tokens: seq<Token>) {
    && Q.Genuine(c, tokens)
    && forall i :: 0 <= i < |tokens| ==> TokenRowOk(events, tokens[i])
  }

  predicate InviteRowOk(events: seq<Event>, i: Invitation) {
    && i.eventId < |events| && i.schoolId == events[i.eventId].schoolId
    && (i.status == Sent <==> i.respondedAt.None?)
  }

  ghost predicate InvitesOk(events: seq<Event>, invites: seq<Invitation>) {
    && I.UniqueInvitees(invites)
    && forall i :: 0 <= i < |invites| ==> InviteRowOk(events, invites[i])
  }

  /** The registration of a check-in: it exists (once, by uniqueness) and is attended or cancelled. */
  predicate Backed(regs: seq<Registration>, c: Checkin) {
    var i := First(regs, R.OfAttendee(c.eventId, c.attendee));
    i.Some? && (regs[i.value].status == Attended || regs[i.value].status == Cancelled)
  }

  predicate AttendedFor(checkins: seq<Checkin>, r: Registration) {
    r.status == Attended ==> First(checkins, C.SamePair(r.eventId, r.attendee)).Some?
  }

  ghost predicate CrossOk(regs: seq<Registration>, checkins: seq<Checkin>) {
    && (forall i :: 0 <= i < |regs| ==> AttendedFor(checkins, regs[i]))
    && (forall j :: 0 <= j < |checkins| ==> Backed(regs, checkins[j]))
  }

  /** A single-use token is marked if and only if exactly one check-in carries its hash, and the mark
      names that check-in's attendee and time; a reusable token is never marked. */
  predicate Redeemed(t: Token, checkins: seq<Checkin>) {
    var (n, j) := (Count(checkins, Carrying(t.hash)), First(checkins, Carrying(t.hash)));
    if !t.singleUse then t.usedAt.None? && t.usedBy.None?
    else if t.usedAt.None? then n == 0 && t.usedBy.None?
    else n == 1 && j.Some? && t.usedBy == Some(checkins[j.value].attendee)
         && t.usedAt == Some(checkins[j.value].at) && t.eventId == checkins[j.value].eventId
  }

  predicate FromTable(tokens: seq<Token>, c: Checkin) {
    c.tokenHash.Some? ==> First(tokens, Q.ByHash(c.tokenHash.value)).Some?
  }

  ghost predicate RedemptionOk(tokens: seq<Token>, checkins: seq<Checkin>) {
    && (forall i :: 0 <= i < |tokens| ==> Redeemed(tokens[i], checkins))
    && (forall j :: 0 <= j < |checkins| ==> FromTable(tokens, checkins[j]))
  }

  ghost predicate Inv(w: C.World, db: Db) {
    && EventsOk(db.events)
    && RegsOk(db.events, db.regs)
    && CheckinsOk(db.events, db.checkins)
    && TokensOk(w.crypto, db.events, db.tokens)
    && InvitesOk(db.events, db.invites)
    && CrossOk(db.regs, db.checkins)
    && RedemptionOk(db.tokens, db.checkins)
    && V.Vetted(w.velocity, db.events, db.checkins)
  }

  // ---------------------------------------------------------------- the effects of handlers

  /** Everything a handler can do to the tables. */
  datatype Effect =
    | NoChange
    | AddReg(reg: Registration)
    | CancelReg(i: nat)
    | AddCheckin(d: C.Decision)
    | AddToken(token: Token)
    | AddInvites(more: seq<Invitation>)
    | AnswerInvite(i: nat, answer: Invitation)
    | AddEvent(event: Event)
    | SetEvent(i: nat, event: Event)
    | ScrubHashes(cutoff: real)

  /** The conditions under which handlers use each effect. */
  ghost predicate Legit(w: C.World, db: Db, f: Effect) {
    match f
    case NoChange => true
    case AddReg(row) => !R.Clashes(db.regs, row) && RegRowOk(db.events, row) && StatusRank(row.status) == 0
    case CancelReg(i) => i < |db.regs|
    case AddCheckin(d) =>
      d.Go? && C.Licensed(w, db, d) && First(db.checkins, C.SamePair(d.row.eventId, d.row.attendee)).None?
    case AddToken(row) =>
      First(db.tokens, Q.ByHash(row.hash)).None? && Q.Minted(w.crypto, row) && TokenRowOk(db.events, row)
      && row.usedAt.None? && row.usedBy.None?
    case AddInvites(more) => db.invites <= more && InvitesOk(db.events, more)
    case AnswerInvite(i, row) =>
      i < |db.invites| && row.status != Sent && row.respondedAt.Some?
      && row == db.invites[i].(status := row.status, respondedAt := row.respondedAt)
    case AddEvent(row) => row.key.Some? ==> First(db.events, E.WithKey(row.schoolId, row.key.value)).None?
    case SetEvent(i, row) => i < |db.events| && SameIdentity(db.events[i], row)
    case ScrubHashes(cutoff) => true
  }

  function Do(db: Db, f: Effect): Db
    requires f.CancelReg? ==> f.i < |db.regs|
    requires f.AnswerInvite? ==> f.i < |db.invites|
    requires f.SetEvent? ==> f.i < |db.events|
    requires f.AddCheckin? ==> f.d.Go? && f.d.reg < |db.regs| && (f.d.token.Some? ==> f.d.token.value < |db.tokens|)
  {
    match f
    case NoChange => db
    case AddReg(row) => db.(regs := db.regs + [row])
    case CancelReg(i) => db.(regs := db.regs[i := db.regs[i].(status := Cancelled)])
    case AddCheckin(d) => C.Commit(db, d.row, d.reg, d.token, d.distance).0
    case AddToken(row) => db.(tokens := db.tokens + [row])
    case AddInvites(more) => db.(invites := more)
    case AnswerInvite(i, row) => db.(invites := db.invites[i := row])
    case AddEvent(row) => db.(events := db.events + [row])
    case SetEvent(i, row) => db.(events := db.events[i := row])
    case ScrubHashes(cutoff) => db.(checkins := P.Scrubbed(db.checkins, cutoff))
  }

  lemma RegisterEffect(w: C.World, db: Db, rosters: R.Rosters, rq: R.Request) returns (f: Effect)
    ensures Legit(w, db, f) && Apply(w, db, Register(rosters, rq)).0 == Do(db, f)
  {
    var gate := R.Gates(rosters, db.events, db.invites, rq);
    f := NoChange;
    if gate.Pass? {
      var row := R.NewRow(db.events, db.regs, rq.eventId, gate.target, rq.key);
      if R.Enter(db.events, db.regs, rq.eventId, gate.target, rq.key).0 != db.regs { f := AddReg(row); }
    }
  }

  lemma CancelEffect(w: C.World, db: Db, actor: Actor, eventId: int, attendee: string) returns (f: Effect)
    ensures Legit(w, db, f) && Apply(w, db, Cancel(actor, eventId, attendee)).0 == Do(db, f)
  {
    var r := R.CancelTx(db.events, db.regs, actor, eventId, attendee).1;
    f := if r.CancelOk? then CancelReg(r.id) else NoChange;
  }

  lemma CheckinEffect(w: C.World, db: Db, rq: C.Request) returns (f: Effect)
    requires Q.Sound(w.crypto) && Q.Genuine(w.crypto, db.tokens)
    ensures Legit(w, db, f) && Apply(w, db, Scan(rq)).0 == Do(db, f)
    ensures f == if C.CheckinTx(w, db, rq).1.Success? then AddCheckin(C.Decide(w, db, rq)) else NoChange
  {
    var d := C.Decide(w, db, rq);
    f := NoChange;
    if d.Go? {
      C.DecisionLicensed(w, db, rq);
      if First(db.checkins, C.SamePair(d.row.eventId, d.row.attendee)).None? { f := AddCheckin(d); }
    }
  }

  lemma MintEffect(w: C.World, db: Db, call: Q.MintCall) returns (f: Effect)
    requires Q.Sound(w.crypto)
    ensures Legit(w, db, f) && Apply(w, db, Mint(call)).0 == Do(db, f)
  {
    var r := Q.MintRouteTx(w.crypto, db.events, db.tokens, call).1;
    f := NoChange;
    if r.Fresh? && r.result.MintOk? {
      Q.MintedRow(w.crypto, Q.MintRequestOf(call));
      f := AddToken(Q.MintRow(w.crypto, Q.MintRequestOf(call)));
    }
  }

  /** Without interference a batch adds only rows of its own event. */
  lemma {:induction false} QuietSend(events: seq<Event>, invites: seq<Invitation>, h: I.Header, items: seq<I.Item>)
    requires InvitesOk(events, invites) && h.eventId < |events| && h.schoolId == events[h.eventId].schoolId
    ensures InvitesOk(events, I.SendAll(invites, h, items, Quiet(|items|)).0)
    ensures invites <= I.SendAll(invites, h, items, Quiet(|items|)).0
  {
    if items != [] {
      var n := |items| - 1;
      QuietSend(events, invites, h, items[..n]);
      assert Quiet(|items|)[..n] == Quiet(n);
      I.SendOneLaws(I.SendAll(invites, h, items[..n], Quiet(n)).0, h, items[n], I.QUIET);
    }
  }

  lemma SendEffect(w: C.World, db: Db, rq: I.SendRequest) returns (f: Effect)
    requires InvitesOk(db.events, db.invites)
    ensures Legit(w, db, f) && Apply(w, db, Send(rq)).0 == Do(db, f)
  {
    var (more, r) := I.SendTx(db.events, db.invites, rq, Quiet(|rq.items|));
    f := NoChange;
    if r.SendOk? {
      var inviter := if Truthy(rq.actor.userId) then rq.actor.userId.value else "service";
      QuietSend(db.events, db.invites, I.Header(db.events[rq.eventId].schoolId, rq.eventId, inviter), rq.items);
      f := AddInvites(more);
    }
  }

  lemma RespondEffect(w: C.World, db: Db, actor: Actor, eventId: int, id: int, accept: bool, now: real)
    returns (f: Effect)
    ensures Legit(w, db, f) && Apply(w, db, Respond(actor, eventId, id, accept, now)).0 == Do(db, f)
  {
    var (invites', r) := I.RespondTx(db.invites, actor, eventId, id, accept, now);
    f := if r.RespondOk? then AnswerInvite(r.id, invites'[r.id]) else NoChange;
  }

  lemma CreateEffect(w: C.World, db: Db, rq: E.CreateRequest) returns (f: Effect)
    ensures Legit(w, db, f) && Apply(w, db, Create(rq)).0 == Do(db, f)
  {
    f := if E.CreateTx(db.events, rq).0 == db.events then NoChange else AddEvent(E.NewEvent(rq, E.Gates(rq).tenant));
  }

  lemma PatchEffect(w: C.World, db: Db, actor: Actor, eventId: int, p: E.Patch) returns (f: Effect)
    ensures Legit(w, db, f) && Apply(w, db, PatchEvent(actor, eventId, p)).0 == Do(db, f)
  {
    var (events', r) := E.PatchTx(db.events, actor, eventId, p);
    f := if r.PatchOk? then SetEvent(eventId, events'[eventId]) else NoChange;
  }

  lemma PurgeEffect(w: C.World, db: Db, days: Option<int>, configured: nat, now: real) returns (f: Effect)
    ensures Legit(w, db, f) && Apply(w, db, Purge(days, configured, now)).0 == Do(db, f)
  {
    var r := P.PurgeTx(db.checkins, days, configured, now).1;
    f := if r.cutoff.Some? then ScrubHashes(r.cutoff.value) else NoChange;
  }

  /** Every handler is one legitimate effect. */
  lemma Classify(w: C.World, db: Db, op: Op) returns (f: Effect)
    requires Q.Sound(w.crypto) && Q.Genuine(w.crypto, db.tokens) && InvitesOk(db.events, db.invites)
    ensures Legit(w, db, f) && Apply(w, db, op).0 == Do(db, f)
  {
    match op
    case Register(rosters, rq) => f := RegisterEffect(w, db, rosters, rq);
    case Cancel(actor, eventId, attendee) => f := CancelEffect(w, db, actor, eventId, attendee);
    case Scan(rq) => f := CheckinEffect(w, db, rq);
    case Mint(call) => f := MintEffect(w, db, call);
    case Send(rq) => f := SendEffect(w, db, rq);
    case Respond(actor, eventId, id, accept, now) => f := RespondEffect(w, db, actor, eventId, id, accept, now);
    case Create(rq) => f := CreateEffect(w, db, rq);
    case PatchEvent(actor, eventId, p) => f := PatchEffect(w, db, actor, eventId, p);
    case Purge(days, configured, now) => f := PurgeEffect(w, db, days, configured, now);
  }

  // ---------------------------------------------------------------- effects, table by table

  lemma EventsKept(w: C.World, db: Db, f: Effect)
    requires EventsOk(db.events) && Legit(w, db, f)
    ensures EventsGrow(db.events, Do(db, f).events) && EventsOk(Do(db, f).events)
  {
    if f.AddEvent? && f.event.key.Some? {
      assert forall i :: 0 <= i < |db.events| ==> !E.WithKey(f.event.schoolId, f.event.key.value)(db.events[i]);
    }
  }

  lemma RegsKept(w: C.World, db: Db, f: Effect)
    requires RegsOk(db.events, db.regs) && Legit(w, db, f)
    ensures RegsOk(db.events, Do(db, f).regs)
  {
    if f.AddReg? {
      var row := f.reg;
      assert forall i :: 0 <= i < |db.regs| ==> !R.OfAttendee(row.eventId, row.attendee)(db.regs[i]);
      assert row.key.Some? ==> forall i :: 0 <= i < |db.regs| ==> !R.WithKey(row.eventId, row.key.value)(db.regs[i]);
    }
  }

  lemma CheckinsKept(w: C.World, db: Db, f: Effect)
    requires CheckinsOk(db.events, db.checkins) && Legit(w, db, f)
    ensures CheckinsOk(db.events, Do(db, f).checkins)
  {
    if f.AddCheckin? {
      var row := f.d.row;
      assert forall i :: 0 <= i < |db.checkins| ==> !C.SamePair(row.eventId, row.attendee)(db.checkins[i]);
    }
  }

  lemma ConsumedStillMinted(w: C.World, db: Db, d: C.Decision, i: nat)
    requires Legit(w, db, AddCheckin(d)) && i < |db.tokens| && Q.Minted(w.crypto, db.tokens[i])
    ensures Q.Minted(w.crypto, Do(db, AddCheckin(d)).tokens[i])
  {
    var g :| Q.RowOf(w.crypto, db.tokens[i], g);
    assert Q.RowOf(w.crypto, Do(db, AddCheckin(d)).tokens[i], g);
  }

  lemma TokensKept(w: C.World, db: Db, f: Effect)
    requires TokensOk(w.crypto, db.events, db.tokens) && Legit(w, db, f)
    ensures TokensOk(w.crypto, db.events, Do(db, f).tokens)
  {
    if f.AddToken? {
      assert forall i :: 0 <= i < |db.tokens| ==> !Q.ByHash(f.token.hash)(db.tokens[i]);
    } else if f.AddCheckin? {
      forall i | 0 <= i < |db.tokens| ensures Q.Minted(w.crypto, Do(db, f).tokens[i]) {
        ConsumedStillMinted(w, db, f.d, i);
      }
    }
  }

  lemma InvitesKept(w: C.World, db: Db, f: Effect)
    requires InvitesOk(db.events, db.invites) && Legit(w, db, f)
    ensures InvitesOk(db.events, Do(db, f).invites)
  {
  }

  lemma RowsFollowEvents(w: C.World, a: seq<Event>, b: seq<Event>, db: Db)
    requires EventsGrow(a, b)
    ensures RegsOk(a, db.regs) ==> RegsOk(b, db.regs)
    ensures CheckinsOk(a, db.checkins) ==> CheckinsOk(b, db.checkins)
    ensures TokensOk(w.crypto, a, db.tokens) ==> TokensOk(w.crypto, b, db.tokens)
    ensures InvitesOk(a, db.invites) ==> InvitesOk(b, db.invites)
  {
  }

  // ---------------------------------------------------------------- effects across tables

  lemma AttendedAfterCheckin(w: C.World, db: Db, d: C.Decision, i: nat)
    requires Legit(w, db, AddCheckin(d)) && i < |db.regs| && AttendedFor(db.checkins, db.regs[i])
    ensures AttendedFor(db.checkins + [d.row], Do(db, AddCheckin(d)).regs[i])
  {
    FirstAppend(db.checkins, d.row, C.SamePair(db.regs[i].eventId, db.regs[i].attendee));
  }

  lemma BackedAfterCheckin(w: C.World, db: Db, d: C.Decision, row: Checkin)
    requires Legit(w, db, AddCheckin(d)) && (Backed(db.regs, row) || row == d.row)
    ensures Backed(Do(db, AddCheckin(d)).regs, row)
  {
    var of := R.OfAttendee(row.eventId, row.attendee);
    SameSelection(db.regs, Do(db, AddCheckin(d)).regs, of, of);
  }

  lemma CrossKeptByCheckin(w: C.World, db: Db, d: C.Decision)
    requires CrossOk(db.regs, db.checkins) && Legit(w, db, AddCheckin(d))
    ensures CrossOk(Do(db, AddCheckin(d)).regs, Do(db, AddCheckin(d)).checkins)
  {
    var db' := Do(db, AddCheckin(d));
    forall i | 0 <= i < |db'.regs| ensures AttendedFor(db'.checkins, db'.regs[i]) {
      AttendedAfterCheckin(w, db, d, i);
    }
    forall j | 0 <= j < |db'.checkins| ensures Backed(db'.regs, db'.checkins[j]) {
      if j < |db.checkins| { assert Backed(db.regs, db.checkins[j]); }
      BackedAfterCheckin(w, db, d, db'.checkins[j]);
    }
  }

  lemma CrossKeptByRegs(w: C.World, db: Db, f: Effect)
    requires CrossOk(db.regs, db.checkins) && Legit(w, db, f) && (f.AddReg? || f.CancelReg?)
    ensures CrossOk(Do(db, f).regs, db.checkins)
  {
    var regs' := Do(db, f).regs;
    forall i | 0 <= i < |regs'| ensures AttendedFor(db.checkins, regs'[i]) {
      if i < |db.regs| { assert AttendedFor(db.checkins, db.regs[i]); }
    }
    forall j | 0 <= j < |db.checkins| ensures Backed(regs', db.checkins[j]) {
      assert Backed(db.regs, db.checkins[j]);
      var of := R.OfAttendee(db.checkins[j].eventId, db.checkins[j].attendee);
      if f.AddReg? { FirstAppend(db.regs, f.reg, of); } else { SameSelection(db.regs, regs', of, of); }
    }
  }

  lemma CrossKeptByPurge(regs: seq<Registration>, checkins: seq<Checkin>, cutoff: real)
    requires CrossOk(regs, checkins)
    ensures CrossOk(regs, P.Scrubbed(checkins, cutoff))
  {
    var checkins' := P.Scrubbed(checkins, cutoff);
    forall i | 0 <= i < |regs| ensures AttendedFor(checkins', regs[i]) {
      assert AttendedFor(checkins, regs[i]);
      var same := C.SamePair(regs[i].eventId, regs[i].attendee);
      SameSelection(checkins, checkins', same, same);
    }
    forall j | 0 <= j < |checkins| ensures Backed(regs, checkins'[j]) {
      assert Backed(regs, checkins[j]);
    }
  }

  lemma CrossKept(w: C.World, db: Db, f: Effect)
    requires CrossOk(db.regs, db.checkins) && Legit(w, db, f)
    ensures CrossOk(Do(db, f).regs, Do(db, f).checkins)
  {
    if f.AddCheckin? { CrossKeptByCheckin(w, db, f.d); }
    if f.AddReg? || f.CancelReg? { CrossKeptByRegs(w, db, f); }
    if f.ScrubHashes? { CrossKeptByPurge(db.regs, db.checkins, f.cutoff); }
  }

  /** A token whose hash the new row does not carry keeps its state; the carried one becomes redeemed. */
  lemma RedeemedAfterCheckin(w: C.World, db: Db, d: C.Decision, i: nat)
    requires Legit(w, db, AddCheckin(d)) && RedemptionOk(db.tokens, db.checkins) && Q.UniqueHashes(db.tokens)
    requires i < |db.tokens|
    ensures var db' := Do(db, AddCheckin(d));
            i < |db'.tokens| && Redeemed(db'.tokens[i], db'.checkins)
  {
    var t := db.tokens[i];
    assert Redeemed(t, db.checkins);
    CountAppend(db.checkins, d.row, Carrying(t.hash));
    FirstAppend(db.checkins, d.row, Carrying(t.hash));
    CountZero(db.checkins, Carrying(t.hash));
    if d.token.Some? && d.token.value != i { assert db.tokens[d.token.value].hash != t.hash; }
  }

  lemma FromTableAfterCheckin(w: C.World, db: Db, d: C.Decision, row: Checkin)
    requires Legit(w, db, AddCheckin(d)) && (FromTable(db.tokens, row) || row == d.row)
    ensures FromTable(Do(db, AddCheckin(d)).tokens, row)
  {
    if row.tokenHash.Some? {
      var hashed := Q.ByHash(row.tokenHash.value);
      SameSelection(db.tokens, Do(db, AddCheckin(d)).tokens, hashed, hashed);
      if row == d.row { assert hashed(db.tokens[d.token.value]); }
    }
  }

  lemma RedemptionKeptByCheckin(w: C.World, db: Db, d: C.Decision)
    requires RedemptionOk(db.tokens, db.checkins) && Q.UniqueHashes(db.tokens) && Legit(w, db, AddCheckin(d))
    ensures RedemptionOk(Do(db, AddCheckin(d)).tokens, Do(db, AddCheckin(d)).checkins)
  {
    var db' := Do(db, AddCheckin(d));
    forall i | 0 <= i < |db'.tokens| ensures Redeemed(db'.tokens[i], db'.checkins) {
      RedeemedAfterCheckin(w, db, d, i);
    }
    forall j | 0 <= j < |db'.checkins| ensures FromTable(db'.tokens, db'.checkins[j]) {
      if j < |db.checkins| { assert FromTable(db.tokens, db.checkins[j]); }
      FromTableAfterCheckin(w, db, d, db'.checkins[j]);
    }
  }

  lemma RedemptionKeptByMint(tokens: seq<Token>, checkins: seq<Checkin>, row: Token)
    requires RedemptionOk(tokens, checkins) && First(tokens, Q.ByHash(row.hash)).None?
    requires row.usedAt.None? && row.usedBy.None?
    ensures RedemptionOk(tokens + [row], checkins)
  {
    forall j | 0 <= j < |checkins| && checkins[j].tokenHash.Some?
      ensures FromTable(tokens + [row], checkins[j]) && !Carrying(row.hash)(checkins[j])
    {
      assert FromTable(tokens, checkins[j]);
      FirstAppend(tokens, row, Q.ByHash(checkins[j].tokenHash.value));
    }
    CountZero(checkins, Carrying(row.hash));
    assert Redeemed(row, checkins);
  }

  lemma RedemptionKeptByPurge(tokens: seq<Token>, checkins: seq<Checkin>, cutoff: real)
    requires RedemptionOk(tokens, checkins)
    ensures RedemptionOk(tokens, P.Scrubbed(checkins, cutoff))
  {
    var checkins' := P.Scrubbed(checkins, cutoff);
    forall i | 0 <= i < |tokens| ensures Redeemed(tokens[i], checkins') {
      assert Redeemed(tokens[i], checkins);
      SameSelection(checkins, checkins', Carrying(tokens[i].hash), Carrying(tokens[i].hash));
    }
    forall j | 0 <= j < |checkins| ensures FromTable(tokens, checkins'[j]) {
      assert FromTable(tokens, checkins[j]);
    }
  }

  lemma RedemptionKept(w: C.World, db: Db, f: Effect)
    requires RedemptionOk(db.tokens, db.checkins) && Q.UniqueHashes(db.tokens) && Legit(w, db, f)
    ensures RedemptionOk(Do(db, f).tokens, Do(db, f).checkins)
  {
    if f.AddCheckin? { RedemptionKeptByCheckin(w, db, f.d); }
    if f.AddToken? { RedemptionKeptByMint(db.tokens, db.checkins, f.token); }
    if f.ScrubHashes? { RedemptionKeptByPurge(db.tokens, db.checkins, f.cutoff); }
  }

  // ---------------------------------------------------------------- the velocity history

  lemma PlausibleAsEventsGrow(v: V.Settings, a: seq<Event>, b: seq<Event>, rows: seq<Checkin>,
                              attendee: string, e: nat, now: real)
    requires EventsGrow(a, b) && e < |a| && forall i :: 0 <= i < |rows| ==> rows[i].eventId < |a|
    ensures V.Plausible(v, a, rows, attendee, e, now) == V.Plausible(v, b, rows, attendee, e, now)
  {
    var prior := V.Prior(rows, attendee, e, now - v.windowSeconds as real);
    assert Venue(a[e]) == Venue(b[e]);
    if prior.Some? { assert Venue(a[rows[prior.value].eventId]) == Venue(b[rows[prior.value].eventId]); }
  }

  lemma VettedAsEventsGrow(v: V.Settings, a: seq<Event>, b: seq<Event>, rows: seq<Checkin>)
    requires EventsGrow(a, b) && V.Vetted(v, a, rows)
    ensures V.Vetted(v, b, rows)
  {
    forall i | 0 <= i < |rows| ensures rows[i].eventId < |a| { assert V.VettedAt(v, a, rows, i); }
    forall j | 0 <= j < |rows| ensures V.VettedAt(v, b, rows, j) {
      assert V.VettedAt(v, a, rows, j);
      PlausibleAsEventsGrow(v, a, b, rows[..j], rows[j].attendee, rows[j].eventId, rows[j].at);
    }
  }

  lemma VettedAfterPurge(v: V.Settings, events: seq<Event>, rows: seq<Checkin>, cutoff: real)
    requires V.Vetted(v, events, rows)
    ensures V.Vetted(v, events, P.Scrubbed(rows, cutoff))
  {
    var rows' := P.Scrubbed(rows, cutoff);
    forall j | 0 <= j < |rows| ensures V.VettedAt(v, events, rows', j) {
      assert V.VettedAt(v, events, rows, j);
      PlausibleIgnoresHashes(v, events, rows[..j], rows'[..j], rows[j].attendee, rows[j].eventId, rows[j].at);
    }
  }

  lemma VettedAfterCheckin(v: V.Settings, events: seq<Event>, rows: seq<Checkin>, row: Checkin)
    requires V.Vetted(v, events, rows) && row.eventId < |events|
    requires V.Plausible(v, events, rows, row.attendee, row.eventId, row.at)
    ensures V.Vetted(v, events, rows + [row])
  {
    forall j | 0 <= j <= |rows| ensures V.VettedAt(v, events, rows + [row], j) {
      assert (rows + [row])[..j] == rows[..j];
      if j < |rows| { assert V.VettedAt(v, events, rows, j); } else { assert rows[..j] == rows; }
    }
  }

  lemma VettedKept(w: C.World, db: Db, f: Effect)
    requires V.Vetted(w.velocity, db.events, db.checkins) && EventsOk(db.events) && Legit(w, db, f)
    ensures V.Vetted(w.velocity, Do(db, f).events, Do(db, f).checkins)
  {
    if f.AddCheckin? { VettedAfterCheckin(w.velocity, db.events, db.checkins, f.d.row); }
    else if f.ScrubHashes? { VettedAfterPurge(w.velocity, db.events, db.checkins, f.cutoff); }
    else if f.AddEvent? || f.SetEvent? {
      EventsKept(w, db, f);
      VettedAsEventsGrow(w.velocity, db.events, Do(db, f).events, db.checkins);
    }
  }

  // ---------------------------------------------------------------- runs

  lemma InvKept(w: C.World, db: Db, f: Effect)
    requires Inv(w, db) && Legit(w, db, f)
    ensures Inv(w, Do(db, f))
  {
    var db' := Do(db, f);
    EventsKept(w, db, f);
    RegsKept(w, db, f);
    CheckinsKept(w, db, f);
    TokensKept(w, db, f);
    InvitesKept(w, db, f);
    RowsFollowEvents(w, db.events, db'.events, db');
    CrossKept(w, db, f);
    RedemptionKept(w, db, f);
    VettedKept(w, db, f);
  }

  lemma EmptyOk(w: C.World)
    ensures Inv(w, EMPTY)
  {
  }

  lemma InvStep(w: C.World, db: Db, op: Op)
    requires Inv(w, db) && Q.Sound(w.crypto)
    ensures Inv(w, Apply(w, db, op).0)
  {
    var f := Classify(w, db, op);
    InvKept(w, db, f);
  }

  /** Every state a serial run reaches satisfies every invariant. */
  lemma {:induction false} InvRun(w: C.World, db: Db, ops: seq<Op>)
    requires Inv(w, db) && Q.Sound(w.crypto)
    ensures Inv(w, Run(w, db, ops).0)
    decreases |ops|
  {
    if ops != [] {
      InvStep(w, db, ops[0]);
      InvRun(w, Apply(w, db, ops[0]).0, ops[1..]);
    }
  }
}
