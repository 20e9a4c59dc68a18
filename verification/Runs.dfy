/** Serial runs: any sequence of whole handlers, from an empty database. */
module Runs {
  import opened Seqs
  import opened Types
  import Q = QrToken
  import V = Velocity
  import R = Registrations
  import C = Checkins
  import I = Invitations
  import E = Events
  import P = Retention

  datatype Op =
    | Register(rosters: R.Rosters, reg: R.Request)
    | Cancel(actor: Actor, eventId: int, attendee: string)
    | Scan(attempt: C.Request)
    | Mint(call: Q.MintCall)
    | Send(send: I.SendRequest)
    | Respond(actor: Actor, eventId: int, id: int, accept: bool, now: real)
    | Create(create: E.CreateRequest)
    | PatchEvent(actor: Actor, eventId: int, patch: E.Patch)
    | Purge(maxAgeDays: Option<int>, configuredDays: nat, now: real)

  datatype Reply =
    | RegisterReply(registration: R.Response)
    | CancelReply(cancellation: R.CancelResponse)
    | CheckinReply(outcome: C.Response)
    | MintReply(mint: Q.MintReply)
    | SendReply(sent: I.SendResponse)
    | RespondReply(answer: I.RespondResponse)
    | CreateReply(creation: E.CreateResponse)
    | PatchReply(update: E.PatchResponse)
    | PurgeReply(purge: P.Result)

  const EMPTY := Db([], [], [], [], [])

  function Quiet(n: nat): seq<I.Interference> {
    seq(n, _ => I.QUIET)
  }

  function Apply(w: C.World, db: Db, op: Op): (Db, Reply) {
    match op
    case Register(rosters, rq) =>
      var (regs, r) := R.RegisterTx(rosters, db.events, db.invites, db.regs, rq);
      (db.(regs := regs), RegisterReply(r))
    case Cancel(actor, eventId, attendee) =>
      var (regs, r) := R.CancelTx(db.events, db.regs, actor, eventId, attendee);
      (db.(regs := regs), CancelReply(r))
    case Scan(rq) =>
      var (db', r) := C.CheckinTx(w, db, rq);
      (db', CheckinReply(r))
    case Mint(call) =>
      var (tokens, r) := Q.MintRouteTx(w.crypto, db.events, db.tokens, call);
      (db.(tokens := tokens), MintReply(r))
    case Send(rq) =>
      var (invites, r) := I.SendTx(db.events, db.invites, rq, Quiet(|rq.items|));
      (db.(invites := invites), SendReply(r))
    case Respond(actor, eventId, id, accept, now) =>
      var (invites, r) := I.RespondTx(db.invites, actor, eventId, id, accept, now);
      (db.(invites := invites), RespondReply(r))
    case Create(rq) =>
      var (events, r) := E.CreateTx(db.events, rq);
      (db.(events := events), CreateReply(r))
    case PatchEvent(actor, eventId, p) =>
      var (events, r) := E.PatchTx(db.events, actor, eventId, p);
      (db.(events := events), PatchReply(r))
    case Purge(days, configured, now) =>
      var (checkins, r) := P.PurgeTx(db.checkins, days, configured, now);
      (db.(checkins := checkins), PurgeReply(r))
  }

  function Run(w: C.World, db: Db, ops: seq<Op>): (Db, seq<Reply>)
    decreases |ops|
  {
    if ops == [] then (db, [])
    else
      var (db', reply) := Apply(w, db, ops[0]);
      var (end, replies) := Run(w, db', ops[1..]);
      (end, [reply] + replies)
  }

  // ---------------------------------------------------------------- failed attempts are erasable

  predicate FailedAttempt(op: Op, reply: Reply) {
    op.Scan? && reply.CheckinReply? && !reply.outcome.Success?
  }

  /** Every check-in attempt that does not succeed - whatever the reason, a duplicate included - leaves
      all five tables as they were: no row, no status, no token is touched. */
  lemma FailedAttemptChangesNothing(w: C.World, db: Db, rq: C.Request)
    requires !C.CheckinTx(w, db, rq).1.Success?
    ensures C.CheckinTx(w, db, rq).0 == db
  {
  }

  /** The run without its failed attempts. */
  function Successes(w: C.World, db: Db, ops: seq<Op>): seq<Op>
    decreases |ops|
  {
    if ops == [] then []
    else
      var (db', reply) := Apply(w, db, ops[0]);
      (if FailedAttempt(ops[0], reply) then [] else [ops[0]]) + Successes(w, db', ops[1..])
  }

  /** The replies of a run other than those to failed attempts. */
  function OtherReplies(ops: seq<Op>, replies: seq<Reply>): seq<Reply>
    requires |ops| == |replies|
  {
    if ops == [] then []
    else
      (if FailedAttempt(ops[0], replies[0]) then [] else [replies[0]]) + OtherReplies(ops[1..], replies[1..])
  }

  lemma {:induction false} RunLength(w: C.World, db: Db, ops: seq<Op>)
    ensures |Run(w, db, ops).1| == |ops|
    decreases |ops|
  {
    if ops != [] { RunLength(w, Apply(w, db, ops[0]).0, ops[1..]); }
  }

  /** Deleting every failed check-in attempt from a run changes neither the final tables nor any other reply. */
  lemma {:induction false} FailuresErasable(w: C.World, db: Db, ops: seq<Op>)
    ensures |Run(w, db, ops).1| == |ops|
    ensures Run(w, db, Successes(w, db, ops)).0 == Run(w, db, ops).0
    ensures Run(w, db, Successes(w, db, ops)).1 == OtherReplies(ops, Run(w, db, ops).1)
    decreases |ops|
  {
    RunLength(w, db, ops);
    if ops != [] {
      var (db', reply) := Apply(w, db, ops[0]);
      var rest := Successes(w, db', ops[1..]);
      FailuresErasable(w, db', ops[1..]);
      assert Run(w, db, ops).1[1..] == Run(w, db', ops[1..]).1;
      if FailedAttempt(ops[0], reply) {
        FailedAttemptChangesNothing(w, db, ops[0].attempt);
        assert Successes(w, db, ops) == rest;
      } else {
        assert Successes(w, db, ops) == [ops[0]] + rest;
        assert ([ops[0]] + rest)[1..] == rest;
      }
    }
  }

  // ---------------------------------------------------------------- purges are invisible

  predicate SameButHashes(a: Checkin, b: Checkin) {
    P.Scrub(a) == P.Scrub(b)
  }

  ghost predicate Alike(a: Db, b: Db) {
    && a.(checkins := b.checkins) == b
    && |a.checkins| == |b.checkins|
    && forall i :: 0 <= i < |a.checkins| ==> SameButHashes(a.checkins[i], b.checkins[i])
  }

  lemma {:induction false} PriorIgnoresHashes(a: seq<Checkin>, b: seq<Checkin>,
                                              attendee: string, e: nat, since: real)
    requires |a| == |b| && forall i :: 0 <= i < |a| ==> SameButHashes(a[i], b[i])
    ensures V.Prior(a, attendee, e, since) == V.Prior(b, attendee, e, since)
  {
    if a != [] {
      var n := |a| - 1;
      assert forall i :: 0 <= i < n ==> SameButHashes(a[..n][i], b[..n][i]) by {
        assert forall i :: 0 <= i < n ==> SameButHashes(a[i], b[i]);
      }
      PriorIgnoresHashes(a[..n], b[..n], attendee, e, since);
      assert SameButHashes(a[n], b[n]);
      var best := V.Prior(a[..n], attendee, e, since);
      if best.Some? { assert SameButHashes(a[best.value], b[best.value]); }
    }
  }

  lemma PlausibleIgnoresHashes(v: V.Settings, events: seq<Event>, a: seq<Checkin>, b: seq<Checkin>,
                               attendee: string, e: nat, now: real)
    requires |a| == |b| && e < |events| && forall i :: 0 <= i < |a| ==> SameButHashes(a[i], b[i])
    ensures V.Plausible(v, events, a, attendee, e, now) == V.Plausible(v, events, b, attendee, e, now)
  {
    var since := now - v.windowSeconds as real;
    PriorIgnoresHashes(a, b, attendee, e, since);
    var prior := V.Prior(a, attendee, e, since);
    if prior.Some? { assert SameButHashes(a[prior.value], b[prior.value]); }
    assert V.PriorVisit(a, attendee, e, since) == V.PriorVisit(b, attendee, e, since);
  }

  lemma EntranceIgnoresHashes(w: C.World, a: Db, b: Db, rq: C.Request)
    requires Alike(a, b)
    ensures C.Entrance(w, a.events, a.checkins, rq) == C.Entrance(w, b.events, b.checkins, rq)
  {
    var target := Target(rq.attendee, rq.actor);
    if target.Some? && 0 <= rq.eventId < |a.events| {
      PlausibleIgnoresHashes(w.velocity, a.events, a.checkins, b.checkins, target.value, rq.eventId, rq.now);
    }
  }

  lemma CommitIgnoresHashes(a: Db, b: Db, row: Checkin, reg: nat, token: Option<nat>, distance: Option<real>)
    requires Alike(a, b) && reg < |a.regs| && (token.Some? ==> token.value < |a.tokens|)
    ensures C.Commit(a, row, reg, token, distance).1 == C.Commit(b, row, reg, token, distance).1
    ensures Alike(C.Commit(a, row, reg, token, distance).0, C.Commit(b, row, reg, token, distance).0)
  {
    var same := C.SamePair(row.eventId, row.attendee);
    forall i | 0 <= i < |a.checkins| ensures same(a.checkins[i]) == same(b.checkins[i]) {
      assert SameButHashes(a.checkins[i], b.checkins[i]);
    }
    SameSelection(a.checkins, b.checkins, same, same);
    var hit := First(a.checkins, same);
    if hit.Some? { assert SameButHashes(a.checkins[hit.value], b.checkins[hit.value]); }
  }

  lemma CheckinIgnoresHashes(w: C.World, a: Db, b: Db, rq: C.Request)
    requires Alike(a, b)
    ensures C.CheckinTx(w, a, rq).1 == C.CheckinTx(w, b, rq).1
    ensures Alike(C.CheckinTx(w, a, rq).0, C.CheckinTx(w, b, rq).0)
  {
    EntranceIgnoresHashes(w, a, b, rq);
    assert C.Decide(w, a, rq) == C.Decide(w, b, rq);
    var d := C.Decide(w, a, rq);
    if d.Go? { CommitIgnoresHashes(a, b, d.row, d.reg, d.token, d.distance); }
  }

  /** Handlers other than the purge cannot tell scrubbed check-ins from unscrubbed ones. */
  lemma StepIgnoresHashes(w: C.World, a: Db, b: Db, op: Op)
    requires Alike(a, b) && !op.Purge?
    ensures Apply(w, a, op).1 == Apply(w, b, op).1
    ensures Alike(Apply(w, a, op).0, Apply(w, b, op).0)
  {
    if op.Scan? { CheckinIgnoresHashes(w, a, b, op.attempt); }
  }

  lemma PurgeOnlyScrubs(w: C.World, db: Db, op: Op)
    requires op.Purge?
    ensures Alike(Apply(w, db, op).0, db)
  {
  }

  function WithoutPurges(ops: seq<Op>): seq<Op> {
    if ops == [] then [] else (if ops[0].Purge? then [] else [ops[0]]) + WithoutPurges(ops[1..])
  }

  function NonPurgeReplies(replies: seq<Reply>): seq<Reply> {
    if replies == [] then [] else (if replies[0].PurgeReply? then [] else [replies[0]]) + NonPurgeReplies(replies[1..])
  }

  lemma AlikeTransitive(a: Db, b: Db, c: Db)
    requires Alike(a, b) && Alike(b, c)
    ensures Alike(a, c)
  {
    forall i | 0 <= i < |a.checkins| ensures SameButHashes(a.checkins[i], c.checkins[i]) {
      assert SameButHashes(a.checkins[i], b.checkins[i]) && SameButHashes(b.checkins[i], c.checkins[i]);
    }
  }

  lemma RunCons(w: C.World, db: Db, op: Op, rest: seq<Op>)
    ensures var (db', reply) := Apply(w, db, op);
            Run(w, db, [op] + rest) == (Run(w, db', rest).0, [reply] + Run(w, db', rest).1)
  {
    assert ([op] + rest)[1..] == rest;
  }

  lemma PurgeRepliesPurge(w: C.World, db: Db, op: Op, replies: seq<Reply>)
    ensures var reply := Apply(w, db, op).1;
            NonPurgeReplies([reply] + replies) == (if op.Purge? then [] else [reply]) + NonPurgeReplies(replies)
  {
    assert ([Apply(w, db, op).1] + replies)[1..] == replies;
  }

  /** Purges inserted anywhere in a run change no other reply and, in the final tables, nothing but the
      two hash columns. */
  lemma {:induction false} PurgesInvisible(w: C.World, a: Db, b: Db, ops: seq<Op>)
    requires Alike(a, b)
    ensures NonPurgeReplies(Run(w, a, ops).1) == Run(w, b, WithoutPurges(ops)).1
    ensures Alike(Run(w, a, ops).0, Run(w, b, WithoutPurges(ops)).0)
    decreases |ops|
  {
    if ops != [] {
      var (op, tail) := (ops[0], ops[1..]);
      assert ops == [op] + tail;
      var a' := Apply(w, a, op).0;
      RunCons(w, a, op, tail);
      PurgeRepliesPurge(w, a, op, Run(w, a', tail).1);
      if op.Purge? {
        PurgeOnlyScrubs(w, a, op);
        AlikeTransitive(a', a, b);
        PurgesInvisible(w, a', b, tail);
        assert WithoutPurges(ops) == WithoutPurges(tail);
      } else {
        StepIgnoresHashes(w, a, b, op);
        PurgesInvisible(w, a', Apply(w, b, op).0, tail);
        RunCons(w, b, op, WithoutPurges(tail));
        assert WithoutPurges(ops) == [op] + WithoutPurges(tail);
      }
    }
  }

  /** The operation is a purge that counts check-in row i among its scrubbed rows. */
  predicate Counts(w: C.World, db: Db, op: Op, i: nat) {
    var reply := Apply(w, db, op).1;
    reply.PurgeReply? && reply.purge.cutoff.Some? && i < |db.checkins|
    && P.Stale(reply.purge.cutoff.value)(db.checkins[i])
  }

  /** How many purges of a run count it. */
  function TimesCounted(w: C.World, db: Db, ops: seq<Op>, i: nat): nat
    decreases |ops|
  {
    if ops == [] then 0
    else Ind(Counts(w, db, ops[0], i)) + TimesCounted(w, Apply(w, db, ops[0]).0, ops[1..], i)
  }

  lemma HashesOfStep(w: C.World, db: Db, op: Op, i: nat)
    requires i < |db.checkins|
    ensures i < |Apply(w, db, op).0.checkins|
    ensures !op.Purge? ==> Apply(w, db, op).0.checkins[i] == db.checkins[i]
  {
  }

  lemma CountedStep(w: C.World, db: Db, op: Op, i: nat)
    requires i < |db.checkins|
    ensures i < |Apply(w, db, op).0.checkins|
    ensures Ind(Counts(w, db, op, i)) + Ind(Apply(w, db, op).0.checkins[i].Hashed()) == Ind(db.checkins[i].Hashed())
  {
    HashesOfStep(w, db, op, i);
  }

  /** Over any run a row is counted exactly once if it loses its hashes and never otherwise. */
  lemma {:induction false} CountedOnce(w: C.World, db: Db, ops: seq<Op>, i: nat)
    requires i < |db.checkins|
    ensures i < |Run(w, db, ops).0.checkins|
    ensures TimesCounted(w, db, ops, i) + Ind(Run(w, db, ops).0.checkins[i].Hashed()) == Ind(db.checkins[i].Hashed())
    decreases |ops|
  {
    if ops != [] {
      CountedStep(w, db, ops[0], i);
      CountedOnce(w, Apply(w, db, ops[0]).0, ops[1..], i);
    }
  }
}
