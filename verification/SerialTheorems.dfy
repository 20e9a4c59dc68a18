/** What holds of every serial run from an empty database. */
module SerialTheorems {
  import opened Seqs
  import opened Types
  import opened Runs
  import opened Invariants
  import Q = QrToken
  import V = Velocity
  import R = Registrations
  import C = Checkins
  import I = Invitations
  import E = Events

  /** The tables after a run of the service that started empty. */
  function After(w: C.World, ops: seq<Op>): Db {
    Run(w, EMPTY, ops).0
  }

  lemma Reached(w: C.World, ops: seq<Op>)
    requires Q.Sound(w.crypto)
    ensures Inv(w, After(w, ops))
  {
    EmptyOk(w);
    InvRun(w, EMPTY, ops);
  }

  // ---------------------------------------------------------------- cross-table consistency

  predicate SamePerson(r: Registration, c: Checkin) {
    r.eventId == c.eventId && r.attendee == c.attendee
  }

  ghost predicate HasCheckin(checkins: seq<Checkin>, r: Registration) {
    exists j :: 0 <= j < |checkins| && SamePerson(r, checkins[j])
  }

  /** An attended or cancelled registration stands behind the check-in. */
  ghost predicate HasRegistration(regs: seq<Registration>, c: Checkin) {
    exists i :: 0 <= i < |regs| && SamePerson(regs[i], c) && StatusRank(regs[i].status) >= 1
  }

  ghost predicate Consistent(db: Db) {
    && (forall i :: 0 <= i < |db.regs| && db.regs[i].status == Attended ==> HasCheckin(db.checkins, db.regs[i]))
    && (forall j :: 0 <= j < |db.checkins| ==> HasRegistration(db.regs, db.checkins[j]))
    && (forall i, k, j | 0 <= i < |db.regs| && 0 <= k < |db.regs| && 0 <= j < |db.checkins| ::
          SamePerson(db.regs[i], db.checkins[j]) && SamePerson(db.regs[k], db.checkins[j]) ==> i == k)
  }

  lemma AttendedHasCheckin(checkins: seq<Checkin>, r: Registration)
    requires AttendedFor(checkins, r) && r.status == Attended
    ensures HasCheckin(checkins, r)
  {
    var j := First(checkins, C.SamePair(r.eventId, r.attendee)).value;
    assert SamePerson(r, checkins[j]);
  }

  lemma CheckinHasRegistration(regs: seq<Registration>, c: Checkin)
    requires Backed(regs, c)
    ensures HasRegistration(regs, c)
  {
    var i := First(regs, R.OfAttendee(c.eventId, c.attendee)).value;
    assert SamePerson(regs[i], c);
  }

  lemma CrossIsConsistent(db: Db)
    requires CrossOk(db.regs, db.checkins) && R.UniqueAttendees(db.regs)
    ensures Consistent(db)
  {
    forall i | 0 <= i < |db.regs| && db.regs[i].status == Attended ensures HasCheckin(db.checkins, db.regs[i]) {
      assert AttendedFor(db.checkins, db.regs[i]);
      AttendedHasCheckin(db.checkins, db.regs[i]);
    }
    forall j | 0 <= j < |db.checkins| ensures HasRegistration(db.regs, db.checkins[j]) {
      assert Backed(db.regs, db.checkins[j]);
      CheckinHasRegistration(db.regs, db.checkins[j]);
    }
    forall i, k, j | 0 <= i < |db.regs| && 0 <= k < |db.regs| && 0 <= j < |db.checkins|
                     && SamePerson(db.regs[i], db.checkins[j]) && SamePerson(db.regs[k], db.checkins[j])
      ensures i == k
    {
      OneRow(db.regs, i, k);
    }
  }

  lemma OneRow(regs: seq<Registration>, i: nat, k: nat)
    requires R.UniqueAttendees(regs) && i < |regs| && k < |regs|
    requires regs[i].eventId == regs[k].eventId && regs[i].attendee == regs[k].attendee
    ensures i == k
  {
  }

  /** An attended registration has its check-in; a check-in has exactly one registration, and that one is
      attended or cancelled. */
  lemma AttendanceConsistent(w: C.World, ops: seq<Op>)
    requires Q.Sound(w.crypto)
    ensures Consistent(After(w, ops))
  {
    Reached(w, ops);
    CrossIsConsistent(After(w, ops));
  }

  predicate OfSchool(events: seq<Event>, e: nat, school: string) {
    e < |events| && events[e].schoolId == school
  }

  /** Every dependent row carries the tenant of its event. */
  lemma TenantsAgree(w: C.World, ops: seq<Op>)
    requires Q.Sound(w.crypto)
    ensures var db := After(w, ops);
            && (forall i :: 0 <= i < |db.regs| ==> OfSchool(db.events, db.regs[i].eventId, db.regs[i].schoolId))
            && (forall i :: 0 <= i < |db.checkins| ==>
                  OfSchool(db.events, db.checkins[i].eventId, db.checkins[i].schoolId))
            && (forall i :: 0 <= i < |db.tokens| ==> OfSchool(db.events, db.tokens[i].eventId, db.tokens[i].schoolId))
            && (forall i :: 0 <= i < |db.invites| ==>
                  OfSchool(db.events, db.invites[i].eventId, db.invites[i].schoolId))
  {
    Reached(w, ops);
  }

  // ---------------------------------------------------------------- registration life cycle

  predicate SameReg(a: Registration, b: Registration) {
    a.(status := b.status) == b
  }

  /** An effect leaves a registration alone or moves its status up. */
  lemma StatusEffect(w: C.World, db: Db, f: Effect, i: nat)
    requires Legit(w, db, f) && CrossOk(db.regs, db.checkins) && i < |db.regs|
    ensures var regs' := Do(db, f).regs;
            i < |regs'| && SameReg(db.regs[i], regs'[i])
            && (regs'[i].status == db.regs[i].status || StatusRank(regs'[i].status) > StatusRank(db.regs[i].status))
  {
    if f.AddCheckin? && f.d.reg == i {
      assert R.OfAttendee(f.d.row.eventId, f.d.row.attendee)(db.regs[i]);
      assert AttendedFor(db.checkins, db.regs[i]);
    }
  }

  lemma StatusStep(w: C.World, db: Db, op: Op, i: nat)
    requires Q.Sound(w.crypto) && Q.Genuine(w.crypto, db.tokens) && InvitesOk(db.events, db.invites)
    requires CrossOk(db.regs, db.checkins) && i < |db.regs|
    ensures var regs' := Apply(w, db, op).0.regs;
            i < |regs'| && SameReg(db.regs[i], regs'[i])
            && (regs'[i].status == db.regs[i].status || StatusRank(regs'[i].status) > StatusRank(db.regs[i].status))
  {
    var f := Classify(w, db, op);
    StatusEffect(w, db, f, i);
  }

  /** How often a run changes the status of registration i. */
  function StatusChanges(w: C.World, db: Db, ops: seq<Op>, i: nat): nat
    decreases |ops|
  {
    if ops == [] then 0
    else
      var db' := Apply(w, db, ops[0]).0;
      Ind(i < |db.regs| && i < |db'.regs| && db'.regs[i].status != db.regs[i].status)
      + StatusChanges(w, db', ops[1..], i)
  }

  /** Over any run a registration keeps its identity and climbs at most from rank to rank, so its status
      changes at most twice and cancelled is final. */
  lemma {:induction false} StatusClimbs(w: C.World, db: Db, ops: seq<Op>, i: nat)
    requires Inv(w, db) && Q.Sound(w.crypto) && i < |db.regs|
    ensures var regs' := Run(w, db, ops).0.regs;
            i < |regs'| && SameReg(db.regs[i], regs'[i])
            && StatusChanges(w, db, ops, i) + StatusRank(db.regs[i].status) <= StatusRank(regs'[i].status) <= 2
            && (db.regs[i].status == Cancelled ==> regs'[i] == db.regs[i])
    decreases |ops|
  {
    if ops != [] {
      StatusStep(w, db, ops[0], i);
      InvStep(w, db, ops[0]);
      StatusClimbs(w, Apply(w, db, ops[0]).0, ops[1..], i);
    }
  }

  // ---------------------------------------------------------------- single-use redemption

  /** In every reachable state a single-use token is marked if and only if exactly one check-in carries
      its hash (never more than one does), and the mark names that check-in's attendee; reusable tokens
      are never marked. */
  lemma RedeemedOnce(w: C.World, ops: seq<Op>, i: nat)
    requires Q.Sound(w.crypto) && i < |After(w, ops).tokens|
    ensures var db := After(w, ops);
            var t := db.tokens[i];
            && (t.singleUse ==>
                  && (t.usedAt.Some? <==> Count(db.checkins, Carrying(t.hash)) == 1)
                  && Count(db.checkins, Carrying(t.hash)) <= 1
                  && forall j :: 0 <= j < |db.checkins| && db.checkins[j].tokenHash == Some(t.hash) ==>
                                   t.usedBy == Some(db.checkins[j].attendee) && t.eventId == db.checkins[j].eventId)
            && (!t.singleUse ==> t.usedAt.None? && t.usedBy.None?)
  {
    var db := After(w, ops);
    var t := db.tokens[i];
    Reached(w, ops);
    assert Redeemed(t, db.checkins);
    if t.singleUse {
      forall j | 0 <= j < |db.checkins| && db.checkins[j].tokenHash == Some(t.hash)
        ensures t.usedBy == Some(db.checkins[j].attendee) && t.eventId == db.checkins[j].eventId
      {
        assert Carrying(t.hash)(db.checkins[j]);
        CountZero(db.checkins, Carrying(t.hash));
        OnlyOne(db.checkins, Carrying(t.hash), j, First(db.checkins, Carrying(t.hash)).value);
      }
    }
  }

  lemma {:induction false} OnlyOne<T>(s: seq<T>, p: T -> bool, i: nat, j: nat)
    requires Count(s, p) <= 1 && i < |s| && j < |s| && p(s[i]) && p(s[j])
    ensures i == j
  {
    var n := |s| - 1;
    if i < n && j < n {
      OnlyOne(s[..n], p, i, j);
    } else if i != j {
      CountZero(s[..n], p);
    }
  }

  lemma SettledUnderEffect(w: C.World, db: Db, f: Effect, i: nat)
    requires Legit(w, db, f) && i < |db.tokens| && db.tokens[i].Settled()
    ensures i < |Do(db, f).tokens| && Do(db, f).tokens[i] == db.tokens[i]
  {
  }

  lemma MarkedTokenStays(w: C.World, db: Db, op: Op, i: nat)
    requires Q.Sound(w.crypto) && Q.Genuine(w.crypto, db.tokens) && InvitesOk(db.events, db.invites)
    requires i < |db.tokens| && db.tokens[i].Settled()
    ensures i < |Apply(w, db, op).0.tokens| && Apply(w, db, op).0.tokens[i] == db.tokens[i]
  {
    var f := Classify(w, db, op);
    SettledUnderEffect(w, db, f, i);
  }

  /** Once marked, and always if reusable, a token row never changes again. */
  lemma {:induction false} MarkedTokensFrozen(w: C.World, db: Db, ops: seq<Op>, i: nat)
    requires Inv(w, db) && Q.Sound(w.crypto) && i < |db.tokens|
    requires db.tokens[i].Settled()
    ensures i < |Run(w, db, ops).0.tokens| && Run(w, db, ops).0.tokens[i] == db.tokens[i]
    decreases |ops|
  {
    if ops != [] {
      MarkedTokenStays(w, db, ops[0], i);
      InvStep(w, db, ops[0]);
      MarkedTokensFrozen(w, Apply(w, db, ops[0]).0, ops[1..], i);
    }
  }

  // ---------------------------------------------------------------- the speed bound over runs

  /** In every reachable state, along any chain of one attendee's consecutive check-ins at strictly
      increasing times with every gap inside the window, the first and last venues are no further apart
      than the maximum speed allows in the total time. */
  lemma SpeedBound(w: C.World, ops: seq<Op>, attendee: string, first: nat, last: nat)
    requires Q.Sound(w.crypto) && w.velocity.enabled && V.Metric(w.velocity.dist)
    requires var trip := V.Journey(After(w, ops).checkins, attendee);
             && V.Increasing(trip) && first <= last < |trip|
             && (forall k :: first <= k <= last ==> V.Located(After(w, ops).events, trip[k]))
             && (forall k, l :: first <= k < last && l == k + 1 ==> V.GapFits(w.velocity, trip[k], trip[l]))
    ensures var trip := V.Journey(After(w, ops).checkins, attendee);
            V.Bounded(w.velocity, After(w, ops).events, trip[first], trip[last])
  {
    Reached(w, ops);
    V.BoundTelescopes(w.velocity, After(w, ops).events, After(w, ops).checkins, attendee, first, last);
  }

  // ---------------------------------------------------------------- invite-only safety

  function Answered(e: nat, invitee: string): Invitation -> bool {
    (i: Invitation) => i.eventId == e && i.invitee == invitee && i.status != Sent && i.respondedAt.Some?
  }

  /** Event e, once it exists, has visibility invite_only at every point of the run. */
  ghost predicate StaysInviteOnly(w: C.World, db: Db, ops: seq<Op>, e: nat)
    decreases |ops|
  {
    && (e < |db.events| ==> db.events[e].visibility == InviteOnly)
    && (ops != [] ==> StaysInviteOnly(w, Apply(w, db, ops[0]).0, ops[1..], e))
  }

  /** The operation registers this attendee for e on behalf of the owner or of an administrator. */
  predicate Privileged(op: Op, event: Event, e: nat, attendee: string) {
    && op.Register? && op.reg.eventId == e && Target(op.reg.attendee, op.reg.actor) == Some(attendee)
    && (IsAdmin(op.reg.actor) || R.Owns(op.reg.actor, event))
  }

  /** An answered invitation is never back to sent, and keeps an answer time. */
  lemma AnsweredStays(w: C.World, db: Db, op: Op, e: nat, invitee: string)
    requires Q.Sound(w.crypto) && Q.Genuine(w.crypto, db.tokens) && InvitesOk(db.events, db.invites)
    requires First(db.invites, Answered(e, invitee)).Some?
    ensures First(Apply(w, db, op).0.invites, Answered(e, invitee)).Some?
  {
    var f := Classify(w, db, op);
    var i := First(db.invites, Answered(e, invitee)).value;
    assert Answered(e, invitee)(Do(db, f).invites[i]);
  }

  lemma {:induction false} AnsweredForever(w: C.World, db: Db, ops: seq<Op>, e: nat, invitee: string)
    requires Inv(w, db) && Q.Sound(w.crypto) && First(db.invites, Answered(e, invitee)).Some?
    ensures First(Run(w, db, ops).0.invites, Answered(e, invitee)).Some?
    decreases |ops|
  {
    if ops != [] {
      AnsweredStays(w, db, ops[0], e, invitee);
      InvStep(w, db, ops[0]);
      AnsweredForever(w, Apply(w, db, ops[0]).0, ops[1..], e, invitee);
    }
  }

  /** Operation k of the run is the one that adds registration i. */
  ghost predicate Adds(w: C.World, db: Db, ops: seq<Op>, k: nat, i: nat) {
    && k < |ops|
    && |Run(w, db, ops[..k]).0.regs| == i && |Run(w, db, ops[..k + 1]).0.regs| == i + 1
  }

  predicate HoldsAccepted(db: Db, e: nat, attendee: string) {
    First(db.invites, R.AcceptedInvite(e, attendee)).Some?
  }

  /** Why this operation, on the tables `at`, may add a registration of an invite-only event: it is
      privileged, or the attendee has accepted an invitation by then and has an answered one at the end. */
  predicate LetIn(at: Db, op: Op, end: Db, e: nat, attendee: string) {
    && e < |at.events|
    && (|| Privileged(op, at.events[e], e, attendee)
        || (HoldsAccepted(at, e, attendee) && First(end.invites, Answered(e, attendee)).Some?))
  }

  lemma OnlyRegisterAdds(w: C.World, db: Db, op: Op)
    requires !op.Register?
    ensures |Apply(w, db, op).0.regs| == |db.regs|
  {
  }

  /** Passing the gates of an invite-only event takes a privilege or an accepted invitation. */
  lemma GateOfInviteOnly(rosters: R.Rosters, db: Db, rq: R.Request)
    requires R.Gates(rosters, db.events, db.invites, rq).Pass? && db.events[rq.eventId].visibility == InviteOnly
    ensures var who := R.Gates(rosters, db.events, db.invites, rq).target;
            Privileged(Register(rosters, rq), db.events[rq.eventId], rq.eventId, who)
            || HoldsAccepted(db, rq.eventId, who)
  {
  }

  /** The row an operation adds to an invite-only event, with its reason. */
  lemma NewRowReason(w: C.World, db: Db, op: Op, e: nat)
    requires e < |db.events| ==> db.events[e].visibility == InviteOnly
    ensures var regs' := Apply(w, db, op).0.regs;
            |db.regs| <= |regs'| <= |db.regs| + 1
            && (|regs'| > |db.regs| && regs'[|db.regs|].eventId == e ==>
                  && e < |db.events|
                  && (|| Privileged(op, db.events[e], e, regs'[|db.regs|].attendee)
                      || HoldsAccepted(db, e, regs'[|db.regs|].attendee)))
  {
    if !op.Register? {
      OnlyRegisterAdds(w, db, op);
    } else if R.Gates(op.rosters, db.events, db.invites, op.reg).Pass? && op.reg.eventId == e {
      GateOfInviteOnly(op.rosters, db, op.reg);
    }
  }

  lemma AcceptedIsAnswered(db: Db, e: nat, attendee: string)
    requires InvitesOk(db.events, db.invites) && HoldsAccepted(db, e, attendee)
    ensures First(db.invites, Answered(e, attendee)).Some?
  {
    var i := First(db.invites, R.AcceptedInvite(e, attendee)).value;
    assert InviteRowOk(db.events, db.invites[i]);
    assert Answered(e, attendee)(db.invites[i]);
  }

  /** The reason for a row, carried to the end of the run. */
  lemma ReasonLasts(w: C.World, db: Db, op: Op, rest: seq<Op>, e: nat, attendee: string)
    requires Inv(w, db) && Q.Sound(w.crypto) && e < |db.events|
    requires Privileged(op, db.events[e], e, attendee) || HoldsAccepted(db, e, attendee)
    ensures LetIn(db, op, Run(w, db, [op] + rest).0, e, attendee)
  {
    if !Privileged(op, db.events[e], e, attendee) {
      AcceptedIsAnswered(db, e, attendee);
      AnsweredForever(w, db, [op] + rest, e, attendee);
    }
  }

  /** The operation adds row i: its reason is on the spot. */
  lemma FirstStepRow(w: C.World, db: Db, op: Op, e: nat, i: nat)
    requires e < |db.events| ==> db.events[e].visibility == InviteOnly
    requires |db.regs| <= i < |Apply(w, db, op).0.regs| && Apply(w, db, op).0.regs[i].eventId == e
    ensures var (regs', who) := (Apply(w, db, op).0.regs, Apply(w, db, op).0.regs[i].attendee);
            && i == |db.regs| && |regs'| == i + 1
            && e < |db.events| && (Privileged(op, db.events[e], e, who) || HoldsAccepted(db, e, who))
  {
    NewRowReason(w, db, op, e);
  }

  lemma AddsFirst(w: C.World, db: Db, op: Op, rest: seq<Op>)
    requires |Apply(w, db, op).0.regs| == |db.regs| + 1
    ensures Run(w, db, ([op] + rest)[..0]).0 == db && Adds(w, db, [op] + rest, 0, |db.regs|)
  {
    assert ([op] + rest)[..1] == [op] && [op][1..] == [];
    assert Run(w, Apply(w, db, op).0, []).0 == Apply(w, db, op).0;
  }

  lemma AddsLater(w: C.World, db: Db, op: Op, rest: seq<Op>, k: nat, i: nat)
    requires Adds(w, Apply(w, db, op).0, rest, k, i)
    ensures Run(w, db, ([op] + rest)[..k + 1]).0 == Run(w, Apply(w, db, op).0, rest[..k]).0
    ensures Adds(w, db, [op] + rest, k + 1, i)
  {
    assert ([op] + rest)[..k + 1] == [op] + rest[..k] && ([op] + rest)[..k + 2] == [op] + rest[..k + 1];
    RunCons(w, db, op, rest[..k]);
    RunCons(w, db, op, rest[..k + 1]);
  }

  /** While an event stays invite-only, each registration a run adds to it is added by an operation of the
      run that was made by the owner or an administrator for that very attendee, or that found an accepted
      invitation of the attendee; in that case the attendee's invitation is still answered at the end. */
  lemma {:induction false} InviteOnlySafety(w: C.World, db: Db, ops: seq<Op>, e: nat, i: nat) returns (k: nat)
    requires Inv(w, db) && Q.Sound(w.crypto) && StaysInviteOnly(w, db, ops, e)
    requires |db.regs| <= i < |Run(w, db, ops).0.regs| && Run(w, db, ops).0.regs[i].eventId == e
    ensures Adds(w, db, ops, k, i)
    ensures LetIn(Run(w, db, ops[..k]).0, ops[k], Run(w, db, ops).0, e, Run(w, db, ops).0.regs[i].attendee)
    decreases |ops|
  {
    var (db', rest) := (Apply(w, db, ops[0]).0, ops[1..]);
    assert [ops[0]] + rest == ops;
    RunCons(w, db, ops[0], rest);
    InvStep(w, db, ops[0]);
    if i < |db'.regs| {
      StatusClimbs(w, db', rest, i);
      FirstStepRow(w, db, ops[0], e, i);
      ReasonLasts(w, db, ops[0], rest, e, db'.regs[i].attendee);
      AddsFirst(w, db, ops[0], rest);
      k := 0;
    } else {
      var l := InviteOnlySafety(w, db', rest, e, i);
      AddsLater(w, db, ops[0], rest, l, i);
      k := l + 1;
    }
  }
}
