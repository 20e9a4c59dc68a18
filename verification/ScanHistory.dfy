/**
 Check-ins under every schedule: which scan inserted which row, which registration it marks, and which
 scans held one string at the same time.
 */
module ScanHistory {
  import opened Seqs
  import opened Types
  import opened Interleaved
  import opened InterleavedTheorems
  import opened Traces
  import Q = QrToken
  import R = Registrations
  import C = Checkins
  import V = Velocity

  /** The scan has passed its peek, if its method has one, and has not been turned away since. */
  predicate Past(p: Proc) {
    p.Scan? && (p.spc.Peeked? || p.spc.Cleared? || p.spc.Inserted? || p.spc.Marked? || p.spc.Finished?)
  }

  /** Past the peek, and not yet past the consume. */
  predicate Between(p: Proc) {
    Past(p) && !p.spc.Finished?
  }

  /** The scan has inserted its check-in. */
  predicate CheckedIn(p: Proc) {
    p.Scan? && (p.spc.Inserted? || p.spc.Marked? || p.spc.Finished?)
  }

  predicate SameVisitor(p: Proc, q: Proc)
    requires p.Scan? && q.Scan?
  {
    p.e == q.e && p.who == q.who
  }

  predicate Resolved(status: RegStatus) {
    status == Attended || status == Cancelled
  }

  // ---------------------------------------------------------------- one scan and the tables

  /** The string leads to the token the scan remembers; it is settled once the scan has finished. */
  predicate TokenLinked(c: Q.Crypto, tokens: seq<Token>, p: Proc)
    requires p.Scan?
  {
    Past(p) && p.raw.Some? ==>
      var t := First(tokens, Q.ByHash(c.sha256(p.raw.value)));
      && t.Some?
      && (p.spc.Peeked? ==> p.spc.token == t) && (p.spc.Cleared? ==> p.spc.token == t)
      && (p.spc.Inserted? ==> p.spc.token == t) && (p.spc.Marked? ==> p.spc.token == t)
      && (p.spc.Finished? ==> tokens[t.value].Settled())
  }

  /** The registration the scan remembers is the attendee's; it is attended or cancelled once marked. */
  predicate RegLinked(regs: seq<Registration>, p: Proc)
    requires p.Scan?
  {
    var r := First(regs, R.OfAttendee(p.e, p.who));
    && (p.spc.Cleared? ==> r == Some(p.spc.reg)) && (p.spc.Inserted? ==> r == Some(p.spc.reg))
    && (p.spc.Marked? || p.spc.Finished? ==> r.Some? && Resolved(regs[r.value].status))
  }

  function HashOf(c: Q.Crypto, p: Proc): Option<string>
    requires p.Scan?
  {
    if p.raw.Some? then Some(c.sha256(p.raw.value)) else None
  }

  /** The pair's check-in carries the hash of the scan's string. */
  predicate RowLinked(c: Q.Crypto, checkins: seq<Checkin>, p: Proc)
    requires p.Scan?
  {
    CheckedIn(p) ==>
      var j := First(checkins, C.SamePair(p.e, p.who));
      j.Some? && checkins[j.value].tokenHash == HashOf(c, p)
  }

  predicate Linked(c: Q.Crypto, db: Db, p: Proc) {
    p.Scan? ==> TokenLinked(c, db.tokens, p) && RegLinked(db.regs, p) && RowLinked(c, db.checkins, p)
  }

  // ---------------------------------------------------------------- deltas

  /** Token rows keep hash and kind, and settled ones stay settled. */
  ghost predicate TokensGrow(a: seq<Token>, b: seq<Token>) {
    && |a| <= |b|
    && forall i :: 0 <= i < |a| ==>
         b[i].hash == a[i].hash && b[i].singleUse == a[i].singleUse && (a[i].Settled() ==> b[i].Settled())
  }

  ghost predicate Tame(db: Db, d: Delta) {
    match d
    case SetStatus(i, status) =>
      i < |db.regs| && (status == Cancelled || (status == Attended && db.regs[i].status != Cancelled))
    case SetTokens(tokens) => TokensGrow(db.tokens, tokens)
    case _ => true
  }

  lemma DeltaTame(w: C.World, s: Sys, a: Action)
    requires Q.Sound(w.crypto) && SysOk(w.crypto, s)
    ensures Tame(s.db, DeltaOf(w, s, a))
  {
    DeltaLegit(w, s, a);
  }

  lemma SameTokenFound(a: seq<Token>, b: seq<Token>, hash: string)
    requires TokensGrow(a, b) && First(a, Q.ByHash(hash)).Some?
    ensures First(b, Q.ByHash(hash)) == First(a, Q.ByHash(hash))
  {
    var (p, i) := (Q.ByHash(hash), First(a, Q.ByHash(hash)).value);
    assert p(b[i]);
    forall k | 0 <= k < i ensures !p(b[k]) { assert !p(a[k]); }
  }

  lemma TokenLinkedKept(c: Q.Crypto, a: seq<Token>, b: seq<Token>, p: Proc)
    requires p.Scan? && TokenLinked(c, a, p) && TokensGrow(a, b)
    ensures TokenLinked(c, b, p)
  {
    if Past(p) && p.raw.Some? { SameTokenFound(a, b, c.sha256(p.raw.value)); }
  }

  lemma RegLinkedKept(db: Db, d: Delta, p: Proc)
    requires p.Scan? && RegLinked(db.regs, p) && Tame(db, d)
    ensures RegLinked(Do(db, d).regs, p)
  {
    var of := R.OfAttendee(p.e, p.who);
    if First(db.regs, of).Some? { RegFoundLater(db, d, of); }
  }

  lemma RowLinkedKept(c: Q.Crypto, db: Db, d: Delta, p: Proc)
    requires p.Scan? && RowLinked(c, db.checkins, p)
    ensures RowLinked(c, Do(db, d).checkins, p)
  {
    if d.AppendCheckin? { FirstAppend(db.checkins, d.checkin, C.SamePair(p.e, p.who)); }
  }

  lemma LinkedKept(c: Q.Crypto, db: Db, d: Delta, p: Proc)
    requires Linked(c, db, p) && Tame(db, d)
    ensures Linked(c, Do(db, d), p)
  {
    if p.Scan? {
      assert TokensGrow(db.tokens, Do(db, d).tokens);
      TokenLinkedKept(c, db.tokens, Do(db, d).tokens, p);
      RegLinkedKept(db, d, p);
      RowLinkedKept(c, db, d, p);
    }
  }

  lemma MoveLinksToken(w: C.World, db: Db, p: Proc, now: real)
    requires p.Scan? && TokenLinked(w.crypto, db.tokens, p)
    ensures var (d, q) := ScanMove(w, db, p, now);
            q.Scan? && TokenLinked(w.crypto, Do(db, d).tokens, q)
  {
    if p.spc.Marked? && p.raw.Some? && p.e < |db.events| {
      SameTokenFound(db.tokens, Do(db, ScanMove(w, db, p, now).0).tokens, w.crypto.sha256(p.raw.value));
    }
  }

  lemma MoveLinksReg(w: C.World, db: Db, p: Proc, now: real)
    requires p.Scan? && RegLinked(db.regs, p)
    ensures var (d, q) := ScanMove(w, db, p, now);
            q.Scan? && RegLinked(Do(db, d).regs, q)
  {
    if p.spc.Inserted? && p.e < |db.events| {
      var of := R.OfAttendee(p.e, p.who);
      RegFoundLater(db, ScanMove(w, db, p, now).0, of);
    }
  }

  lemma MoveLinksRow(w: C.World, db: Db, p: Proc, now: real)
    requires p.Scan? && RowLinked(w.crypto, db.checkins, p)
    ensures var (d, q) := ScanMove(w, db, p, now);
            q.Scan? && RowLinked(w.crypto, Do(db, d).checkins, q)
  {
    if p.spc.Cleared? && p.e < |db.events| {
      FirstAppend(db.checkins, ScanRow(w, db, p, now), C.SamePair(p.e, p.who));
    } else {
      OnlyClearedInserts(w, db, p, now);
      assert Do(db, ScanMove(w, db, p, now).0).checkins == db.checkins;
    }
  }

  lemma OnlyClearedInserts(w: C.World, db: Db, p: Proc, now: real)
    requires p.Scan? && (!p.spc.Cleared? || p.e >= |db.events|)
    ensures var (d, q) := ScanMove(w, db, p, now);
            !d.AppendCheckin? && q.Scan? && q == p.(spc := q.spc) && (CheckedIn(q) <==> CheckedIn(p))
  {
  }

  lemma MoveLinks(w: C.World, db: Db, free: bool, p: Proc, now: real)
    requires Linked(w.crypto, db, p)
    ensures var (d, q) := Move(w, db, free, p, now);
            Linked(w.crypto, Do(db, d), q)
  {
    if p.Scan? {
      MoveLinksToken(w, db, p, now);
      MoveLinksReg(w, db, p, now);
      MoveLinksRow(w, db, p, now);
    }
  }

  // ---------------------------------------------------------------- all scans together

  /** No two scans have checked in one person for one event. */
  ghost predicate OneInserter(procs: seq<Proc>) {
    forall a, b :: 0 <= a < b < |procs| && CheckedIn(procs[a]) && CheckedIn(procs[b]) ==>
                     !SameVisitor(procs[a], procs[b])
  }

  predicate Inserter(c: Q.Crypto, p: Proc, row: Checkin) {
    CheckedIn(p) && p.e == row.eventId && p.who == row.attendee && row.tokenHash == HashOf(c, p)
  }

  /** Every check-in was inserted by one of the scans. */
  ghost predicate AllInserted(c: Q.Crypto, checkins: seq<Checkin>, procs: seq<Proc>) {
    forall j :: 0 <= j < |checkins| ==> HasInserter(c, procs, checkins[j])
  }

  ghost predicate HasInserter(c: Q.Crypto, procs: seq<Proc>, row: Checkin) {
    exists a :: 0 <= a < |procs| && Inserter(c, procs[a], row)
  }

  ghost predicate AttendedCheckedIn(regs: seq<Registration>, checkins: seq<Checkin>) {
    forall i :: 0 <= i < |regs| && regs[i].status == Attended ==>
                  First(checkins, C.SamePair(regs[i].eventId, regs[i].attendee)).Some?
  }

  ghost predicate HistoryOk(c: Q.Crypto, s: Sys) {
    && (forall k :: 0 <= k < |s.procs| ==> Linked(c, s.db, s.procs[k]))
    && OneInserter(s.procs) && AllInserted(c, s.db.checkins, s.procs) && AttendedCheckedIn(s.db.regs, s.db.checkins)
  }

  lemma AttendedKept(db: Db, d: Delta)
    requires AttendedCheckedIn(db.regs, db.checkins)
    requires d.SetStatus? && d.status == Attended && d.i < |db.regs| ==>
               First(db.checkins, C.SamePair(db.regs[d.i].eventId, db.regs[d.i].attendee)).Some?
    requires d.SetStatus? ==> Resolved(d.status)
    requires d.AppendReg? ==> d.reg.status != Attended
    ensures AttendedCheckedIn(Do(db, d).regs, Do(db, d).checkins)
  {
    var db' := Do(db, d);
    forall i | 0 <= i < |db'.regs| && db'.regs[i].status == Attended
      ensures First(db'.checkins, C.SamePair(db'.regs[i].eventId, db'.regs[i].attendee)).Some?
    {
      if d.AppendCheckin? { FirstAppend(db.checkins, d.checkin, C.SamePair(db.regs[i].eventId, db.regs[i].attendee)); }
    }
  }

  lemma MarksOwn(w: C.World, db: Db, p: Proc, now: real)
    requires p.Scan? && Linked(w.crypto, db, p)
    ensures var d := ScanMove(w, db, p, now).0;
            d.SetStatus? ==> d.status == Attended && d.i < |db.regs|
                             && First(db.checkins, C.SamePair(db.regs[d.i].eventId, db.regs[d.i].attendee)).Some?
  {
  }

  /** Steps write only final statuses, and new registrations are not attended. */
  lemma StatusesMild(w: C.World, s: Sys, a: Action)
    requires Q.Sound(w.crypto) && SysOk(w.crypto, s)
    ensures var d := DeltaOf(w, s, a);
            (d.SetStatus? ==> Resolved(d.status)) && (d.AppendReg? ==> d.reg.status != Attended)
  {
    DeltaLegit(w, s, a);
  }

  lemma MarkedHasCheckin(w: C.World, s: Sys, a: Action)
    requires HistoryOk(w.crypto, s)
    ensures var d := DeltaOf(w, s, a);
            d.SetStatus? && d.status == Attended && d.i < |s.db.regs| ==>
              First(s.db.checkins, C.SamePair(s.db.regs[d.i].eventId, s.db.regs[d.i].attendee)).Some?
  {
    if a.Step? && a.pid < |s.procs| && s.procs[a.pid].Scan? {
      assert Linked(w.crypto, s.db, s.procs[a.pid]);
      MarksOwn(w, s.db, s.procs[a.pid], a.now);
    }
  }

  lemma AttendedNext(w: C.World, s: Sys, a: Action)
    requires Q.Sound(w.crypto) && SysOk(w.crypto, s) && HistoryOk(w.crypto, s)
    ensures AttendedCheckedIn(Next(w, s, a).db.regs, Next(w, s, a).db.checkins)
  {
    StatusesMild(w, s, a);
    MarkedHasCheckin(w, s, a);
    NextDoes(w, s, a);
    AttendedKept(s.db, DeltaOf(w, s, a));
  }

  lemma LinkedNext(w: C.World, s: Sys, a: Action, k: nat)
    requires Q.Sound(w.crypto) && SysOk(w.crypto, s) && HistoryOk(w.crypto, s) && k < |Next(w, s, a).procs|
    ensures Linked(w.crypto, Next(w, s, a).db, Next(w, s, a).procs[k])
  {
    DeltaTame(w, s, a);
    NextDoes(w, s, a);
    if k < |s.procs| {
      assert Linked(w.crypto, s.db, s.procs[k]);
      OnlyStepped(w, s, a, k);
      if a.Step? && a.pid == k {
        MoveLinks(w, s.db, s.procs[k].Reg? && s.procs[k].e !in s.locks, s.procs[k], a.now);
      } else {
        LinkedKept(w.crypto, s.db, DeltaOf(w, s, a), s.procs[k]);
      }
    }
  }

  /** A scan that has checked in is one that had before, or the one that inserts in this step; it stays in. */
  lemma InsertsNext(w: C.World, s: Sys, a: Action, k: nat)
    requires k < |Next(w, s, a).procs| && CheckedIn(Next(w, s, a).procs[k])
    ensures k < |s.procs| && s.procs[k].Scan? && SameVisitor(s.procs[k], Next(w, s, a).procs[k])
    ensures CheckedIn(s.procs[k])
            || (a.Step? && a.pid == k && First(s.db.checkins, C.SamePair(s.procs[k].e, s.procs[k].who)).None?)
  {
    if k < |s.procs| { OnlyStepped(w, s, a, k); }
  }

  lemma OneInserterNext(w: C.World, s: Sys, a: Action)
    requires HistoryOk(w.crypto, s)
    ensures OneInserter(Next(w, s, a).procs)
  {
    var procs' := Next(w, s, a).procs;
    forall i, j | 0 <= i < j < |procs'| && CheckedIn(procs'[i]) && CheckedIn(procs'[j])
      ensures !SameVisitor(procs'[i], procs'[j])
    {
      InsertsNext(w, s, a, i);
      InsertsNext(w, s, a, j);
      assert Linked(w.crypto, s.db, s.procs[i]) && Linked(w.crypto, s.db, s.procs[j]);
    }
  }

  lemma InserterStays(w: C.World, s: Sys, a: Action, k: nat, row: Checkin)
    requires k < |s.procs| && Inserter(w.crypto, s.procs[k], row)
    ensures k < |Next(w, s, a).procs| && Inserter(w.crypto, Next(w, s, a).procs[k], row)
  {
    OnlyStepped(w, s, a, k);
  }

  lemma NewRowInserted(w: C.World, s: Sys, a: Action)
    requires DeltaOf(w, s, a).AppendCheckin?
    ensures HasInserter(w.crypto, Next(w, s, a).procs, DeltaOf(w, s, a).checkin)
  {
    assert Inserter(w.crypto, Next(w, s, a).procs[a.pid], DeltaOf(w, s, a).checkin);
  }

  lemma OldRowInserted(w: C.World, s: Sys, a: Action, row: Checkin)
    requires HasInserter(w.crypto, s.procs, row)
    ensures HasInserter(w.crypto, Next(w, s, a).procs, row)
  {
    var k :| 0 <= k < |s.procs| && Inserter(w.crypto, s.procs[k], row);
    InserterStays(w, s, a, k, row);
  }

  lemma AllInsertedNext(w: C.World, s: Sys, a: Action)
    requires AllInserted(w.crypto, s.db.checkins, s.procs)
    ensures AllInserted(w.crypto, Next(w, s, a).db.checkins, Next(w, s, a).procs)
  {
    var (procs', d) := (Next(w, s, a).procs, DeltaOf(w, s, a));
    NextDoes(w, s, a);
    forall j | 0 <= j < |Do(s.db, d).checkins| ensures HasInserter(w.crypto, procs', Do(s.db, d).checkins[j]) {
      if j < |s.db.checkins| {
        OldRowInserted(w, s, a, s.db.checkins[j]);
      } else {
        NewRowInserted(w, s, a);
      }
    }
  }

  lemma HistoryNext(w: C.World, s: Sys, a: Action)
    requires Q.Sound(w.crypto) && SysOk(w.crypto, s) && HistoryOk(w.crypto, s)
    ensures HistoryOk(w.crypto, Next(w, s, a))
  {
    forall k | 0 <= k < |Next(w, s, a).procs| ensures Linked(w.crypto, Next(w, s, a).db, Next(w, s, a).procs[k]) {
      LinkedNext(w, s, a, k);
    }
    OneInserterNext(w, s, a);
    AllInsertedNext(w, s, a);
    AttendedNext(w, s, a);
  }

  lemma {:induction false} HistoryKept(w: C.World, s: Sys, acts: seq<Action>)
    requires Q.Sound(w.crypto) && SysOk(w.crypto, s) && HistoryOk(w.crypto, s)
    ensures HistoryOk(w.crypto, Schedule(w, s, acts))
    decreases |acts|
  {
    if acts != [] {
      HistoryNext(w, s, acts[0]);
      NextKeeps(w, s, acts[0]);
      HistoryKept(w, Next(w, s, acts[0]), acts[1..]);
    }
  }

  lemma HistoryReached(w: C.World, acts: seq<Action>)
    requires Q.Sound(w.crypto)
    ensures HistoryOk(w.crypto, After(w, acts)) && SysOk(w.crypto, After(w, acts))
  {
    Reached(w, []);
    HistoryKept(w, IDLE, acts);
    Reached(w, acts);
  }

  // ---------------------------------------------------------------- attendance under every schedule

  /** The scan has inserted this check-in and is about to mark registration i. */
  predicate AboutToMark(p: Proc, row: Checkin, i: nat) {
    p.Scan? && p.spc.Inserted? && p.spc.reg == i && p.e == row.eventId && p.who == row.attendee
  }

  ghost predicate OnlyMarker(procs: seq<Proc>, k: nat, row: Checkin, i: nat) {
    && k < |procs| && AboutToMark(procs[k], row, i)
    && forall l :: 0 <= l < |procs| && AboutToMark(procs[l], row, i) ==> l == k
  }

  /** Under every schedule an attended registration has its check-in. */
  lemma AttendedUnderSchedules(w: C.World, acts: seq<Action>)
    requires Q.Sound(w.crypto)
    ensures AttendedCheckedIn(After(w, acts).db.regs, After(w, acts).db.checkins)
  {
    HistoryReached(w, acts);
  }

  /** Under every schedule the registration of a check-in exists and is attended or cancelled, unless
      exactly one scan in flight is about to mark it. */
  lemma CheckinsUnderSchedules(w: C.World, acts: seq<Action>, j: nat) returns (i: nat, k: nat)
    requires Q.Sound(w.crypto) && j < |After(w, acts).db.checkins|
    ensures var (s, row) := (After(w, acts), After(w, acts).db.checkins[j]);
            && i < |s.db.regs| && s.db.regs[i].eventId == row.eventId && s.db.regs[i].attendee == row.attendee
            && (Resolved(s.db.regs[i].status) || OnlyMarker(s.procs, k, row, i))
  {
    var (s, row) := (After(w, acts), After(w, acts).db.checkins[j]);
    HistoryReached(w, acts);
    assert HasInserter(w.crypto, s.procs, row);
    k :| 0 <= k < |s.procs| && Inserter(w.crypto, s.procs[k], row);
    assert Linked(w.crypto, s.db, s.procs[k]);
    i := First(s.db.regs, R.OfAttendee(row.eventId, row.attendee)).value;
  }

  // ---------------------------------------------------------------- who held a string when

  /** At some point of the schedule both scans were past their peek and neither was past its consume. */
  ghost predicate Overlapped(w: C.World, acts: seq<Action>, a: nat, b: nat) {
    exists n :: 0 <= n <= |acts| && BothBetween(After(w, acts[..n]), a, b)
  }

  predicate BothBetween(s: Sys, a: nat, b: nat) {
    a < |s.procs| && b < |s.procs| && Between(s.procs[a]) && Between(s.procs[b])
  }

  predicate SingleUse(c: Q.Crypto, tokens: seq<Token>, raw: string) {
    var t := First(tokens, Q.ByHash(c.sha256(raw)));
    t.Some? && tokens[t.value].singleUse
  }

  lemma OverlapLasts(w: C.World, acts: seq<Action>, x: Action, a: nat, b: nat)
    requires Overlapped(w, acts, a, b)
    ensures Overlapped(w, acts + [x], a, b)
  {
    var n :| 0 <= n <= |acts| && BothBetween(After(w, acts[..n]), a, b);
    assert (acts + [x])[..n] == acts[..n];
  }

  /** When a scan passes its peek, any other scan that has passed it with the same single-use string has
      not consumed it. */
  lemma PeekMeets(w: C.World, s: Sys, x: Action, a: nat, b: nat, raw: string)
    requires HistoryOk(w.crypto, s) && a != b && a < |s.procs| && b < |s.procs|
    requires Past(s.procs[a]) && s.procs[a].raw == Some(raw) && s.procs[b].Scan? && s.procs[b].raw == Some(raw)
    requires !Past(s.procs[b]) && Past(Next(w, s, x).procs[b]) && SingleUse(w.crypto, s.db.tokens, raw)
    ensures BothBetween(Next(w, s, x), a, b)
  {
    assert Linked(w.crypto, s.db, s.procs[a]);
    OnlyStepped(w, s, x, a);
    OnlyStepped(w, s, x, b);
  }

  predicate PastWith(s: Sys, a: nat, raw: string) {
    a < |s.procs| && Past(s.procs[a]) && s.procs[a].raw == Some(raw)
  }

  /** Being past the peek is new only for the scan that steps; the string never changes. */
  lemma PastBefore(w: C.World, s: Sys, x: Action, a: nat, raw: string)
    requires PastWith(Next(w, s, x), a, raw)
    ensures a < |s.procs| && s.procs[a].Scan? && s.procs[a].raw == Some(raw)
    ensures !PastWith(s, a, raw) ==> x.Step? && x.pid == a
  {
    if a < |s.procs| { OnlyStepped(w, s, x, a); }
  }

  lemma KindStays(w: C.World, s: Sys, x: Action, a: nat, raw: string)
    requires Q.Sound(w.crypto) && SysOk(w.crypto, s) && HistoryOk(w.crypto, s) && PastWith(s, a, raw)
    requires SingleUse(w.crypto, Next(w, s, x).db.tokens, raw)
    ensures SingleUse(w.crypto, s.db.tokens, raw)
  {
    assert Linked(w.crypto, s.db, s.procs[a]);
    DeltaTame(w, s, x);
    NextDoes(w, s, x);
    SameTokenFound(s.db.tokens, Next(w, s, x).db.tokens, w.crypto.sha256(raw));
  }

  /** Two scans past their peek with one single-use string have overlapped. */
  lemma {:induction false} PastPairOverlapped(w: C.World, acts: seq<Action>, a: nat, b: nat, raw: string)
    requires Q.Sound(w.crypto) && a != b
    requires PastWith(After(w, acts), a, raw) && PastWith(After(w, acts), b, raw)
    requires SingleUse(w.crypto, After(w, acts).db.tokens, raw)
    ensures Overlapped(w, acts, a, b)
    decreases |acts|
  {
    if acts != [] {
      var (before, x) := (acts[..|acts| - 1], acts[|acts| - 1]);
      assert acts == before + [x];
      var s := After(w, before);
      AfterSnoc(w, before, x);
      HistoryReached(w, before);
      PastBefore(w, s, x, a, raw);
      PastBefore(w, s, x, b, raw);
      if PastWith(s, a, raw) && PastWith(s, b, raw) {
        KindStays(w, s, x, a, raw);
        PastPairOverlapped(w, before, a, b, raw);
        OverlapLasts(w, before, x, a, b);
      } else {
        if PastWith(s, a, raw) { KindStays(w, s, x, a, raw); PeekMeets(w, s, x, a, b, raw); }
        else { KindStays(w, s, x, b, raw); PeekMeets(w, s, x, b, a, raw); }
        assert acts[..|acts|] == acts;
      }
    }
  }

  // ---------------------------------------------------------------- two check-ins with one string

  predicate CheckedInWith(s: Sys, a: nat, raw: string) {
    a < |s.procs| && CheckedIn(s.procs[a]) && s.procs[a].raw == Some(raw)
  }

  lemma {:induction false} TwoOf<T>(s: seq<T>, p: T -> bool) returns (i: nat, j: nat)
    requires Count(s, p) >= 2
    ensures i < j < |s| && p(s[i]) && p(s[j])
  {
    var n := |s| - 1;
    if p(s[n]) {
      CountZero(s[..n], p);
      var k :| 0 <= k < n && p(s[..n][k]);
      i, j := k, n;
    } else {
      i, j := TwoOf(s[..n], p);
    }
  }

  lemma InserterOf(w: C.World, s: Sys, j: nat, raw: string) returns (a: nat)
    requires Q.Sound(w.crypto) && HistoryOk(w.crypto, s) && j < |s.db.checkins|
    requires s.db.checkins[j].tokenHash == Some(w.crypto.sha256(raw))
    ensures CheckedInWith(s, a, raw)
    ensures s.procs[a].e == s.db.checkins[j].eventId && s.procs[a].who == s.db.checkins[j].attendee
  {
    assert HasInserter(w.crypto, s.procs, s.db.checkins[j]);
    a :| 0 <= a < |s.procs| && Inserter(w.crypto, s.procs[a], s.db.checkins[j]);
  }

  /** If two check-ins carry a single-use token's string, then two scans that made them held it at the same
      time: both past the peek, neither past the consume. */
  lemma TwiceOverlaps(w: C.World, acts: seq<Action>, raw: string) returns (a: nat, b: nat)
    requires Q.Sound(w.crypto) && SingleUse(w.crypto, After(w, acts).db.tokens, raw)
    requires Count(After(w, acts).db.checkins, Carrying(w.crypto.sha256(raw))) >= 2
    ensures a != b && CheckedInWith(After(w, acts), a, raw) && CheckedInWith(After(w, acts), b, raw)
    ensures Overlapped(w, acts, a, b)
  {
    var s := After(w, acts);
    HistoryReached(w, acts);
    var i, j := TwoOf(s.db.checkins, Carrying(w.crypto.sha256(raw)));
    a := InserterOf(w, s, i, raw);
    b := InserterOf(w, s, j, raw);
    PastPairOverlapped(w, acts, a, b, raw);
  }
}
