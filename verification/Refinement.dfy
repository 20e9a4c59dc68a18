/**
 A request of the interleaved model that runs without interruption does to the tables exactly what the
 serial handler does, and ends in the handler's answer.
 */
module Refinement {
  import opened Seqs
  import opened Types
  import opened Interleaved
  import Q = QrToken
  import R = Registrations
  import C = Checkins
  import E = Events

  function Repeat(a: Action, n: nat): seq<Action> {
    if n == 0 then [] else [a] + Repeat(a, n - 1)
  }

  /** n steps of one request running by itself. */
  function Solo(w: C.World, db: Db, p: Proc, now: real, n: nat): (Db, Proc)
    decreases n
  {
    if n == 0 then (db, p)
    else
      var (d, q) := Move(w, db, true, p, now);
      Solo(w, Do(db, d), q, now, n - 1)
  }

  /** The event's row lock is free unless the request is past taking it. */
  predicate Alone(s: Sys, pid: nat) {
    && pid < |s.procs|
    && (s.procs[pid].Reg? && (s.procs[pid].rpc.Begin? || s.procs[pid].rpc.Missed?) ==> s.procs[pid].e !in s.locks)
  }

  lemma SoloStep(w: C.World, db: Db, p: Proc, now: real, n: nat)
    requires n > 0
    ensures Solo(w, db, p, now, n)
            == Solo(w, Do(db, Move(w, db, true, p, now).0), Move(w, db, true, p, now).1, now, n - 1)
  {
  }

  lemma StepAlone(w: C.World, s: Sys, pid: nat, now: real)
    requires Alone(s, pid)
    ensures var (s', r) := (Next(w, s, Step(pid, now)), Move(w, s.db, true, s.procs[pid], now));
            Alone(s', pid) && s'.db == Do(s.db, r.0) && s'.procs[pid] == r.1
  {
    MoveKeepsKind(w, s.db, true, s.procs[pid], now);
  }

  lemma RepeatUnfolds(w: C.World, s: Sys, a: Action, n: nat)
    requires n > 0
    ensures Schedule(w, s, Repeat(a, n)) == Schedule(w, Next(w, s, a), Repeat(a, n - 1))
  {
    assert Repeat(a, n)[1..] == Repeat(a, n - 1);
  }

  lemma {:induction false} SoloSchedule(w: C.World, s: Sys, pid: nat, now: real, n: nat)
    requires Alone(s, pid)
    ensures var s' := Schedule(w, s, Repeat(Step(pid, now), n));
            pid < |s'.procs| && (s'.db, s'.procs[pid]) == Solo(w, s.db, s.procs[pid], now, n)
    decreases n
  {
    if n > 0 {
      StepAlone(w, s, pid, now);
      RepeatUnfolds(w, s, Step(pid, now), n);
      SoloStep(w, s.db, s.procs[pid], now, n);
      SoloSchedule(w, Next(w, s, Step(pid, now)), pid, now, n - 1);
    }
  }

  ghost predicate SameOthers(a: seq<Proc>, b: seq<Proc>, pid: nat) {
    |a| == |b| && forall k :: 0 <= k < |a| && k != pid ==> b[k] == a[k]
  }

  lemma SameOthersTransitive(a: seq<Proc>, b: seq<Proc>, c: seq<Proc>, pid: nat)
    requires SameOthers(a, b, pid) && SameOthers(b, c, pid)
    ensures SameOthers(a, c, pid)
  {
  }

  lemma StepTouchesOne(w: C.World, s: Sys, pid: nat, now: real)
    ensures SameOthers(s.procs, Next(w, s, Step(pid, now)).procs, pid)
  {
  }

  lemma {:induction false} OthersUntouched(w: C.World, s: Sys, pid: nat, now: real, n: nat)
    ensures SameOthers(s.procs, Schedule(w, s, Repeat(Step(pid, now), n)).procs, pid)
    decreases n
  {
    if n > 0 {
      var s1 := Next(w, s, Step(pid, now));
      RepeatUnfolds(w, s, Step(pid, now), n);
      StepTouchesOne(w, s, pid, now);
      OthersUntouched(w, s1, pid, now, n - 1);
      SameOthersTransitive(s.procs, s1.procs, Schedule(w, s1, Repeat(Step(pid, now), n - 1)).procs, pid);
    }
  }

  predicate Over(p: Proc) {
    match p
    case Reg(_, _, _, pc) => pc.Done? || pc.Failed?
    case Scan(_, _, _, _, _, pc) => pc.Finished? || pc.TurnedAway?
    case New(_, pc) => pc.Answered? || pc.Raised?
  }

  lemma {:induction false} StaysOver(w: C.World, db: Db, p: Proc, now: real, n: nat)
    requires Over(p)
    ensures Solo(w, db, p, now, n) == (db, p)
    decreases n
  {
    if n > 0 { StaysOver(w, db, p, now, n - 1); }
  }

  // ---------------------------------------------------------------- registration

  /** The state a finished registration leaves and the pc it ends in, against the handler's tables and answer. */
  predicate RegAnswers(db: Db, end: (Db, Proc), serial: (seq<Registration>, R.Response)) {
    && end.0 == db.(regs := serial.0) && end.1.Reg?
    && match end.1.rpc
       case Done(row, _) => serial.1 == R.Row(row)
       case Failed => serial.1 == R.Refused(409, "duplicate_registration")
       case _ => false
  }

  /** From the lock to the decision: the row about to be inserted is the serial handler's. */
  lemma DecideAlone(w: C.World, db: Db, p: Proc, now: real, n: nat) returns (q: Proc, m: nat)
    requires p.Reg? && p.e < |db.events| && p.rpc == Locked(db.events[p.e].maxCapacity) && n >= 4
    ensures q.Reg? && q == p.(rpc := q.rpc) && q.rpc.Ready? && m >= 2
    ensures Solo(w, db, p, now, n) == Solo(w, db, q, now, m)
    ensures ReadyRow(db, q) == R.NewRow(db.events, db.regs, p.e, p.who, p.key)
  {
    SoloStep(w, db, p, now, n);
    q, m := RegMove(db, true, p).1, n - 1;
    if q.rpc.SawFull? {
      SoloStep(w, db, q, now, m);
      q, m := RegMove(db, true, q).1, m - 1;
    }
  }

  /** The last two steps: insert and commit, or re-fetch after a refused insert. */
  lemma CommitAlone(w: C.World, db: Db, p: Proc, now: real, n: nat)
    requires p.Reg? && p.rpc.Ready? && p.e < |db.events| && n >= 2
    ensures var row := ReadyRow(db, p);
            var mine := First(db.regs, R.OfAttendee(p.e, p.who));
            Solo(w, db, p, now, n) == if !R.Clashes(db.regs, row) then
                                        (db.(regs := db.regs + [row]), p.(rpc := Done(|db.regs|, true)))
                                      else (db, p.(rpc := if mine.Some? then Done(mine.value, false) else Failed))
  {
    var (d, q) := RegMove(db, true, p);
    SoloStep(w, db, p, now, n);
    if q.rpc.Done? {
      StaysOver(w, Do(db, d), q, now, n - 1);
    } else {
      SoloStep(w, db, q, now, n - 1);
      StaysOver(w, db, RegMove(db, true, q).1, now, n - 2);
    }
  }

  lemma SoloIsEnter(w: C.World, db: Db, e: nat, who: string, key: Option<string>, now: real, n: nat)
    requires e < |db.events| && n >= 6
    ensures RegAnswers(db, Solo(w, db, Reg(e, who, key, Begin), now, n), R.Enter(db.events, db.regs, e, who, key))
  {
    var p := Reg(e, who, key, Begin);
    SoloStep(w, db, p, now, n);
    var p1 := RegMove(db, true, p).1;
    if p1.rpc.Done? {
      StaysOver(w, db, p1, now, n - 1);
    } else {
      SoloStep(w, db, p1, now, n - 1);
      var q, m := DecideAlone(w, db, p.(rpc := Locked(db.events[e].maxCapacity)), now, n - 2);
      CommitAlone(w, db, q, now, m);
    }
  }

  /** A registration past its gates, scheduled without interruption, is the serial handler. */
  lemma UninterruptedRegistration(w: C.World, s: Sys, pid: nat, rosters: R.Rosters, rq: R.Request, now: real, n: nat)
    requires Alone(s, pid) && R.Gates(rosters, s.db.events, s.db.invites, rq).Pass? && n >= 6
    requires s.procs[pid] == Reg(rq.eventId, R.Gates(rosters, s.db.events, s.db.invites, rq).target, rq.key, Begin)
    ensures var s' := Schedule(w, s, Repeat(Step(pid, now), n));
            && pid < |s'.procs|
            && RegAnswers(s.db, (s'.db, s'.procs[pid]), R.RegisterTx(rosters, s.db.events, s.db.invites, s.db.regs, rq))
  {
    SoloSchedule(w, s, pid, now, n);
    SoloIsEnter(w, s.db, rq.eventId, s.procs[pid].who, rq.key, now, n);
  }

  // ---------------------------------------------------------------- check-in

  /** A check-in past its gates: the method, and the token string and the location if the method needs them. */
  function ScanOf(w: C.World, rq: C.Request, entry: C.Entry): (p: Proc)
    requires entry.Admit? && rq.eventId >= 0
    ensures p.Scan?
  {
    Scan(rq.eventId, entry.target, entry.how, if C.NeedsQr(entry.how) then rq.qrToken else None,
         if C.NeedsGeo(entry.how) && rq.lat.Some? && rq.lon.Some?
         then Some((w.coordHash(rq.lat.value), w.coordHash(rq.lon.value))) else None,
         Entering)
  }

  /** The tables and the answer: the id of the new check-in, or the refusal itself. */
  predicate ScanAnswers(end: (Db, Proc), serial: (Db, C.Response)) {
    && end.0 == serial.0 && end.1.Scan?
    && match end.1.spc
       case Finished(row) => serial.1.Success? && serial.1.id == row
       case TurnedAway(answer) => serial.1 == answer
       case _ => false
  }

  lemma MarkAlone(w: C.World, db: Db, p: Proc, now: real, n: nat)
    requires p.Scan? && p.spc.Inserted? && p.e < |db.events| && n >= 2
    requires p.spc.reg < |db.regs| && db.regs[p.spc.reg].status != Cancelled
    requires p.spc.token.Some? ==> p.spc.token.value < |db.tokens|
    ensures Solo(w, db, p, now, n)
            == (db.(regs := db.regs[p.spc.reg := db.regs[p.spc.reg].(status := Attended)],
                    tokens := if p.spc.token.Some? then C.Consume(db.tokens, p.spc.token.value, p.who, now)
                              else db.tokens),
                p.(spc := Finished(p.spc.row)))
  {
    SoloStep(w, db, p, now, n);
    var (d, q) := ScanMove(w, db, p, now);
    SoloStep(w, Do(db, d), q, now, n - 1);
    var (d2, q2) := ScanMove(w, Do(db, d), q, now);
    StaysOver(w, Do(Do(db, d), d2), q2, now, n - 2);
  }

  /** Insert, mark and consume, one after the other, are the serial commit. */
  lemma CommitScanAlone(w: C.World, db: Db, p: Proc, now: real, n: nat, distance: Option<real>)
    requires p.Scan? && p.spc.Cleared? && p.e < |db.events| && n >= 3
    requires p.spc.reg < |db.regs| && db.regs[p.spc.reg].status != Cancelled
    requires p.spc.token.Some? ==> p.spc.token.value < |db.tokens|
    ensures ScanAnswers(Solo(w, db, p, now, n), C.Commit(db, ScanRow(w, db, p, now), p.spc.reg, p.spc.token, distance))
  {
    SoloStep(w, db, p, now, n);
    var (d, q) := ScanMove(w, db, p, now);
    if q.spc.TurnedAway? {
      StaysOver(w, db, q, now, n - 1);
    } else {
      MarkAlone(w, Do(db, d), q, now, n - 1);
    }
  }

  /** A token string was sent if one is needed, and the fence has passed if there is one. */
  predicate PastGates(w: C.World, db: Db, rq: C.Request, how: Method)
    requires 0 <= rq.eventId < |db.events|
  {
    && (C.NeedsQr(how) ==> Truthy(rq.qrToken))
    && (C.NeedsGeo(how) ==> C.VerifyDistance(w.velocity, rq.lat, rq.lon, db.events[rq.eventId]).passed)
  }

  /** The request stands behind its peek with the token the handler found. */
  predicate BehindPeek(w: C.World, db: Db, rq: C.Request, entry: C.Entry, p: Proc)
    requires entry.Admit? && rq.eventId >= 0
  {
    var t := C.TokenPhase(w, db.tokens, rq, entry.how, entry.target);
    !t.Invalid? && p == ScanOf(w, rq, entry).(spc := Peeked(if t.Valid? then Some(t.row) else None))
  }

  /** The handler's decision, told by the request. */
  lemma DecideAgrees(w: C.World, db: Db, rq: C.Request, entry: C.Entry, p: Proc)
    requires entry == C.Entrance(w, db.events, db.checkins, rq) && entry.Admit? && PastGates(w, db, rq, entry.how)
    requires BehindPeek(w, db, rq, entry, p)
    ensures p.Scan? && p.spc.Peeked? && p.e == rq.eventId < |db.events| && p.who == entry.target
    ensures var (reg, d) := (First(db.regs, R.OfAttendee(p.e, p.who)), C.Decide(w, db, rq));
            if reg.Some? && db.regs[reg.value].status != Cancelled
            then d.Go? && d == C.Go(ScanRow(w, db, p, rq.now), reg.value, p.spc.token, d.distance)
            else d == C.Stop(C.Rejected("registration_required"))
  {
  }

  lemma PeekedMove(w: C.World, db: Db, p: Proc, now: real)
    requires p.Scan? && p.spc.Peeked? && p.e < |db.events|
    ensures var reg := First(db.regs, R.OfAttendee(p.e, p.who));
            Move(w, db, true, p, now)
            == (Nothing, if reg.Some? && db.regs[reg.value].status != Cancelled
                         then p.(spc := Cleared(p.spc.token, reg.value))
                         else p.(spc := TurnedAway(C.Rejected("registration_required"))))
  {
  }

  /** From the peek on: the registration and then the writes. */
  lemma FromPeeked(w: C.World, db: Db, rq: C.Request, d: C.Decision, p: Proc, n: nat)
    requires p.Scan? && p.spc.Peeked? && p.e < |db.events| && n >= 4
    requires p.spc.token.Some? ==> p.spc.token.value < |db.tokens|
    requires var reg := First(db.regs, R.OfAttendee(p.e, p.who));
             if reg.Some? && db.regs[reg.value].status != Cancelled
             then d.Go? && d == C.Go(ScanRow(w, db, p, rq.now), reg.value, p.spc.token, d.distance)
             else d == C.Stop(C.Rejected("registration_required"))
    ensures ScanAnswers(Solo(w, db, p, rq.now, n),
                        if d.Go? then C.Commit(db, d.row, d.reg, d.token, d.distance) else (db, d.response))
  {
    SoloStep(w, db, p, rq.now, n);
    PeekedMove(w, db, p, rq.now);
    if d.Go? {
      CommitScanAlone(w, db, p.(spc := Cleared(p.spc.token, d.reg)), rq.now, n - 1, d.distance);
    } else {
      StaysOver(w, db, p.(spc := TurnedAway(d.response)), rq.now, n - 1);
    }
  }

  /** A check-in past its gates, run alone, is the serial handler. */
  lemma SoloIsCheckin(w: C.World, db: Db, rq: C.Request, n: nat)
    requires C.Entrance(w, db.events, db.checkins, rq).Admit? && n >= 5
    requires PastGates(w, db, rq, C.Entrance(w, db.events, db.checkins, rq).how)
    ensures var p := ScanOf(w, rq, C.Entrance(w, db.events, db.checkins, rq));
            ScanAnswers(Solo(w, db, p, rq.now, n), C.CheckinTx(w, db, rq))
  {
    var entry := C.Entrance(w, db.events, db.checkins, rq);
    var p := ScanOf(w, rq, entry);
    SoloStep(w, db, p, rq.now, n);
    var q := ScanMove(w, db, p, rq.now).1;
    if q.spc.TurnedAway? {
      StaysOver(w, db, q, rq.now, n - 1);
    } else {
      DecideAgrees(w, db, rq, entry, q);
      FromPeeked(w, db, rq, C.Decide(w, db, rq), q, n - 1);
    }
  }

  lemma UninterruptedCheckin(w: C.World, s: Sys, pid: nat, rq: C.Request, n: nat)
    requires Alone(s, pid) && C.Entrance(w, s.db.events, s.db.checkins, rq).Admit? && n >= 5
    requires PastGates(w, s.db, rq, C.Entrance(w, s.db.events, s.db.checkins, rq).how)
    requires s.procs[pid] == ScanOf(w, rq, C.Entrance(w, s.db.events, s.db.checkins, rq))
    ensures var s' := Schedule(w, s, Repeat(Step(pid, rq.now), n));
            pid < |s'.procs| && ScanAnswers((s'.db, s'.procs[pid]), C.CheckinTx(w, s.db, rq))
  {
    SoloSchedule(w, s, pid, rq.now, n);
    SoloIsCheckin(w, s.db, rq, n);
  }

  // ---------------------------------------------------------------- creation

  predicate NewAnswers(db: Db, end: (Db, Proc), serial: (seq<Event>, E.CreateResponse)) {
    && end.0 == db.(events := serial.0) && end.1.New?
    && end.1.npc.Answered? && serial.1 == E.Created(end.1.npc.id)
  }

  /** What a creation past its gates leaves and answers: the event of its key, or else the new one. */
  function Placed(events: seq<Event>, draft: Event): (seq<Event>, E.CreateResponse) {
    var hit := if draft.key.Some? then First(events, E.WithKey(draft.schoolId, draft.key.value)) else None;
    if hit.Some? then (events, E.Created(hit.value)) else (events + [draft], E.Created(|events|))
  }

  lemma SoloIsPlaced(w: C.World, db: Db, draft: Event, now: real, n: nat)
    requires n >= 2
    ensures NewAnswers(db, Solo(w, db, New(draft, Asking), now, n), Placed(db.events, draft))
  {
    var p := New(draft, Asking);
    SoloStep(w, db, p, now, n);
    var p1 := NewMove(db, p).1;
    if p1.npc.Answered? {
      StaysOver(w, db, p1, now, n - 1);
    } else {
      SoloStep(w, db, p1, now, n - 1);
      var (d2, p2) := NewMove(db, p1);
      StaysOver(w, Do(db, d2), p2, now, n - 2);
    }
  }

  lemma CreationPlaces(events: seq<Event>, rq: E.CreateRequest)
    requires E.Gates(rq).Pass? && !rq.titleBlank
    ensures E.CreateTx(events, rq) == Placed(events, E.NewEvent(rq, E.Gates(rq).tenant))
  {
  }

  lemma UninterruptedCreation(w: C.World, s: Sys, pid: nat, rq: E.CreateRequest, now: real, n: nat)
    requires Alone(s, pid) && E.Gates(rq).Pass? && !rq.titleBlank && n >= 2
    requires s.procs[pid] == New(E.NewEvent(rq, E.Gates(rq).tenant), Asking)
    ensures var s' := Schedule(w, s, Repeat(Step(pid, now), n));
            && pid < |s'.procs|
            && NewAnswers(s.db, (s'.db, s'.procs[pid]), E.CreateTx(s.db.events, rq))
  {
    SoloSchedule(w, s, pid, now, n);
    SoloIsPlaced(w, s.db, s.procs[pid].draft, now, n);
    CreationPlaces(s.db.events, rq);
  }
}
