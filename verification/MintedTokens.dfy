/** Which strings the door accepts, told by the mint requests of the run and not by the token table. */
module MintedTokens {
  import opened Seqs
  import opened Types
  import opened Charter
  import opened Runs
  import opened Invariants
  import opened SerialTheorems
  import Q = QrToken
  import C = Checkins

  /** The row a mint stored, redeemed or not. */
  predicate SameToken(a: Token, b: Token) {
    a.(usedAt := b.usedAt, usedBy := b.usedBy) == b
  }

  predicate IsMint(op: Op, reply: Reply, raw: string, id: nat) {
    op.Mint? && reply == MintReply(Q.Fresh(Q.MintOk(raw, id)))
  }

  /** Token j was stored by this call, which was answered with this string. */
  predicate StoredBy(c: Q.Crypto, call: Q.MintCall, raw: string, t: Token) {
    && call.eventId >= 0 && call.actor.schoolId.Some?
    && raw == Q.Raw(c, Q.MintFields(c, Q.MintRequestOf(call)))
    && SameToken(Q.MintRow(c, Q.MintRequestOf(call)), t)
  }

  /** An operation keeps every token row but for its mark, and only a mint adds one. */
  lemma TokenStep(w: C.World, db: Db, op: Op)
    requires Q.Sound(w.crypto) && Q.Genuine(w.crypto, db.tokens) && InvitesOk(db.events, db.invites)
    ensures var (db', reply) := Apply(w, db, op);
            && |db.tokens| <= |db'.tokens| <= |db.tokens| + 1
            && (forall j :: 0 <= j < |db.tokens| ==> SameToken(db.tokens[j], db'.tokens[j]))
            && (op.Mint? && reply.mint.Fresh? && reply.mint.result.MintOk? ==> reply.mint.result.id == |db.tokens|)
            && (|db'.tokens| > |db.tokens| <==> op.Mint? && reply.mint.Fresh? && reply.mint.result.MintOk?)
            && (|db'.tokens| > |db.tokens| ==>
                  StoredBy(w.crypto, op.call, reply.mint.result.raw, db'.tokens[|db.tokens|]))
  {
    if !op.Mint? { OtherStep(w, db, op); }
  }

  lemma OtherStep(w: C.World, db: Db, op: Op)
    requires Q.Sound(w.crypto) && Q.Genuine(w.crypto, db.tokens) && InvitesOk(db.events, db.invites) && !op.Mint?
    ensures var db' := Apply(w, db, op).0;
            |db'.tokens| == |db.tokens| && forall j :: 0 <= j < |db.tokens| ==> SameToken(db.tokens[j], db'.tokens[j])
  {
    var f := Classify(w, db, op);
    OnlyMintAdds(w, db, op);
    TokensUnderEffect(w, db, f);
  }

  lemma TokensUnderEffect(w: C.World, db: Db, f: Effect)
    requires Legit(w, db, f)
    ensures var tokens' := Do(db, f).tokens;
            |db.tokens| <= |tokens'| && forall j :: 0 <= j < |db.tokens| ==> SameToken(db.tokens[j], tokens'[j])
  {
  }

  lemma OnlyMintAdds(w: C.World, db: Db, op: Op)
    requires !op.Mint?
    ensures |Apply(w, db, op).0.tokens| == |db.tokens|
  {
  }

  lemma {:induction false} TokenStays(w: C.World, db: Db, ops: seq<Op>, j: nat)
    requires Inv(w, db) && Q.Sound(w.crypto) && j < |db.tokens|
    ensures j < |Run(w, db, ops).0.tokens| && SameToken(db.tokens[j], Run(w, db, ops).0.tokens[j])
    decreases |ops|
  {
    if ops != [] {
      TokenStep(w, db, ops[0]);
      InvStep(w, db, ops[0]);
      TokenStays(w, Apply(w, db, ops[0]).0, ops[1..], j);
    }
  }

  /** A row that appears in a run was stored by a mint of the run. */
  lemma {:induction false} RowHasMint(w: C.World, db: Db, ops: seq<Op>, j: nat) returns (k: nat, raw: string)
    requires Inv(w, db) && Q.Sound(w.crypto) && |db.tokens| <= j < |Run(w, db, ops).0.tokens|
    ensures k < |ops| == |Run(w, db, ops).1| && IsMint(ops[k], Run(w, db, ops).1[k], raw, j)
    ensures StoredBy(w.crypto, ops[k].call, raw, Run(w, db, ops).0.tokens[j])
    decreases |ops|
  {
    RunLength(w, db, ops);
    var ((db', reply), rest) := (Apply(w, db, ops[0]), ops[1..]);
    assert [ops[0]] + rest == ops;
    RunCons(w, db, ops[0], rest);
    TokenStep(w, db, ops[0]);
    InvStep(w, db, ops[0]);
    if j < |db'.tokens| {
      TokenStays(w, db', rest, j);
      k, raw := 0, reply.mint.result.raw;
    } else {
      k, raw := RowHasMint(w, db', rest, j);
      k := k + 1;
    }
  }

  /** And a mint answered in a run has its row at the end. */
  lemma {:induction false} MintHasRow(w: C.World, db: Db, ops: seq<Op>, k: nat, raw: string, j: nat)
    requires Inv(w, db) && Q.Sound(w.crypto) && k < |ops| == |Run(w, db, ops).1|
    requires IsMint(ops[k], Run(w, db, ops).1[k], raw, j)
    ensures j < |Run(w, db, ops).0.tokens| && StoredBy(w.crypto, ops[k].call, raw, Run(w, db, ops).0.tokens[j])
    decreases |ops|
  {
    var (db', rest) := (Apply(w, db, ops[0]).0, ops[1..]);
    assert [ops[0]] + rest == ops;
    RunCons(w, db, ops[0], rest);
    TokenStep(w, db, ops[0]);
    InvStep(w, db, ops[0]);
    if k == 0 {
      TokenStays(w, db', rest, j);
    } else {
      RunLength(w, db', rest);
      MintHasRow(w, db', rest, k - 1, raw, j);
    }
  }

  /** The minted token fits the request: event, expiry second, attendee, and not spent if single-use. */
  predicate Fits(w: C.World, db: Db, call: Q.MintCall, raw: string, e: int, who: Option<string>, now: real)
    requires call.eventId >= 0 && call.actor.schoolId.Some?
  {
    && call.eventId == e && Trunc(now) <= Trunc(call.now + (60 * call.ttlMinutes) as real)
    && (Given(call.attendee) ==>
          Given(who) && w.crypto.attendeeHash(who.value) == w.crypto.attendeeHash(call.attendee.value))
    && (call.singleUse ==> Count(db.checkins, Carrying(w.crypto.sha256(raw))) == 0)
  }

  lemma SpentIffCarried(db: Db, j: nat)
    requires RedemptionOk(db.tokens, db.checkins) && j < |db.tokens|
    ensures var t := db.tokens[j];
            !(t.singleUse && t.usedAt.Some?) <==> (t.singleUse ==> Count(db.checkins, Carrying(t.hash)) == 0)
  {
    assert Redeemed(db.tokens[j], db.checkins);
  }

  /** A stored token is accepted exactly when it fits. */
  lemma StoredAcceptedIff(w: C.World, db: Db, call: Q.MintCall, raw: string, j: nat,
                          e: int, who: Option<string>, now: real)
    requires Q.Sound(w.crypto) && Inv(w, db) && j < |db.tokens| && StoredBy(w.crypto, call, raw, db.tokens[j])
    ensures Q.Peek(w.crypto, db.tokens, raw, e, "events", who, now).status.Ok? <==> Fits(w, db, call, raw, e, who, now)
  {
    var rq := Q.MintRequestOf(call);
    Q.MintedRow(w.crypto, rq);
    assert Q.RowOf(w.crypto, db.tokens[j], Q.MintFields(w.crypto, rq));
    Q.PeekMinted(w.crypto, db.tokens, Q.MintFields(w.crypto, rq), e, "events", who, now, j);
    SpentIffCarried(db, j);
    if Given(call.attendee) && Given(who) {
      Q.SamePrefix(w.crypto.attendeeHash(call.attendee.value), w.crypto.attendeeHash(who.value));
    }
  }

  /** Some mint of the run was answered with this very string, and its token fits the request. */
  ghost predicate MintedAndFits(w: C.World, ops: seq<Op>, raw: string, e: int, who: Option<string>, now: real) {
    exists k, j :: 0 <= k < |ops| == |Run(w, EMPTY, ops).1| && IsMint(ops[k], Run(w, EMPTY, ops).1[k], raw, j)
                   && ops[k].call.eventId >= 0 && ops[k].call.actor.schoolId.Some?
                   && Fits(w, After(w, ops), ops[k].call, raw, e, who, now)
  }

  /** After any run, a string is accepted if and only if some mint of that run was answered with exactly
      this string, for this event, its expiry second is not over, the attendee is the bound one if any,
      and, if it is single-use, no check-in carries its hash. */
  lemma AcceptedIffMinted(w: C.World, ops: seq<Op>, raw: string, e: int, who: Option<string>, now: real)
    requires Q.Sound(w.crypto)
    ensures Q.Peek(w.crypto, After(w, ops).tokens, raw, e, "events", who, now).status.Ok?
            <==> MintedAndFits(w, ops, raw, e, who, now)
  {
    var (db, replies) := Run(w, EMPTY, ops);
    EmptyOk(w);
    Reached(w, ops);
    RunLength(w, EMPTY, ops);
    if Q.Peek(w.crypto, db.tokens, raw, e, "events", who, now).status.Ok? {
      AcceptedHasMint(w, ops, raw, e, who, now);
    }
    if k, j :| 0 <= k < |ops| == |replies| && IsMint(ops[k], replies[k], raw, j)
               && ops[k].call.eventId >= 0 && ops[k].call.actor.schoolId.Some?
               && Fits(w, db, ops[k].call, raw, e, who, now) {
      MintHasRow(w, EMPTY, ops, k, raw, j);
      StoredAcceptedIff(w, db, ops[k].call, raw, j, e, who, now);
    }
  }

  lemma AcceptedHasMint(w: C.World, ops: seq<Op>, raw: string, e: int, who: Option<string>, now: real)
    requires Q.Sound(w.crypto) && Q.Peek(w.crypto, After(w, ops).tokens, raw, e, "events", who, now).status.Ok?
    ensures MintedAndFits(w, ops, raw, e, who, now)
  {
    var db := After(w, ops);
    EmptyOk(w);
    Reached(w, ops);
    var j := Q.Peek(w.crypto, db.tokens, raw, e, "events", who, now).row.value;
    Q.AcceptedRow(w.crypto, db.tokens, raw, e, "events", who, now);
    var k, printed := RowHasMint(w, EMPTY, ops, j);
    assert w.crypto.sha256(printed) == w.crypto.sha256(raw);
    StoredAcceptedIff(w, db, ops[k].call, raw, j, e, who, now);
  }
}
