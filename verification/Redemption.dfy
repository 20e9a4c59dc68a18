/** Exactly when a token is used a second time, and when a spent one is safe for good. */
module Redemption {
  import opened Seqs
  import opened Types
  import opened Interleaved
  import opened InterleavedTheorems
  import opened Traces
  import opened ScanHistory
  import Refinement
  import Q = QrToken
  import R = Registrations
  import C = Checkins

  /** How many check-ins carry the string's hash. */
  function Uses(w: C.World, s: Sys, raw: string): nat {
    Count(s.db.checkins, Carrying(w.crypto.sha256(raw)))
  }

  // ---------------------------------------------------------------- the step that uses it again

  predicate Visited(db: Db, p: Proc)
    requires p.Scan?
  {
    First(db.checkins, C.SamePair(p.e, p.who)).Some?
  }

  /** The scan holds the string, has found its registration, and nothing forbids its insert. */
  predicate CanInsert(s: Sys, pid: nat, raw: string) {
    && pid < |s.procs| && s.procs[pid].Scan? && s.procs[pid].raw == Some(raw) && s.procs[pid].spc.Cleared?
    && s.procs[pid].e < |s.db.events| && !Visited(s.db, s.procs[pid])
  }

  predicate InsertsWith(s: Sys, a: Action, raw: string) {
    a.Step? && CanInsert(s, a.pid, raw)
  }

  lemma ScanUses(w: C.World, db: Db, p: Proc, now: real, raw: string)
    requires Q.Sound(w.crypto) && p.Scan?
    ensures var d := ScanMove(w, db, p, now).0;
            && (d.AppendCheckin? <==> p.spc.Cleared? && p.e < |db.events| && !Visited(db, p))
            && (d.AppendCheckin? ==> (Carrying(w.crypto.sha256(raw))(d.checkin) <==> p.raw == Some(raw)))
  {
  }

  /** Every step counts one more use exactly if it inserts with the string. */
  lemma UsesStep(w: C.World, s: Sys, a: Action, raw: string)
    requires Q.Sound(w.crypto)
    ensures Uses(w, Next(w, s, a), raw) == Uses(w, s, raw) + Ind(InsertsWith(s, a, raw))
  {
    NextDoes(w, s, a);
    var d := DeltaOf(w, s, a);
    if a.Step? && a.pid < |s.procs| && s.procs[a.pid].Scan? { ScanUses(w, s.db, s.procs[a.pid], a.now, raw); }
    if d.AppendCheckin? { CountAppend(s.db.checkins, d.checkin, Carrying(w.crypto.sha256(raw))); }
  }

  /** After the first n actions the string is on one check-in, and the next one inserts with it. */
  predicate UsedAgain(w: C.World, acts: seq<Action>, n: nat, raw: string) {
    n < |acts| && Uses(w, After(w, acts[..n]), raw) == 1 && InsertsWith(After(w, acts[..n]), acts[n], raw)
  }

  /** Under any schedule a string is on at most one check-in if and only if at no point, with the string on
      one check-in already, the next step is that of a scan which holds it, has found its registration and
      whose person has not checked in. */
  lemma {:induction false} SingleUseIff(w: C.World, acts: seq<Action>, raw: string)
    requires Q.Sound(w.crypto)
    ensures Uses(w, After(w, acts), raw) <= 1 <==> !exists n: nat :: UsedAgain(w, acts, n, raw)
    decreases |acts|
  {
    if acts != [] {
      var (before, x) := (acts[..|acts| - 1], acts[|acts| - 1]);
      assert acts == before + [x];
      UsesAfter(w, before, x, raw);
      SingleUseIff(w, before, raw);
      if n: nat :| UsedAgain(w, before, n, raw) { AgainInPrefix(w, before, x, n, raw); }
      if n: nat :| UsedAgain(w, before + [x], n, raw) && n < |before| { AgainInPrefix(w, before, x, n, raw); }
      AgainAtEnd(w, before, x, raw);
    }
  }

  lemma UsesAfter(w: C.World, before: seq<Action>, x: Action, raw: string)
    requires Q.Sound(w.crypto)
    ensures Uses(w, After(w, before + [x]), raw)
            == Uses(w, After(w, before), raw) + Ind(InsertsWith(After(w, before), x, raw))
  {
    AfterSnoc(w, before, x);
    UsesStep(w, After(w, before), x, raw);
  }

  lemma AgainInPrefix(w: C.World, before: seq<Action>, x: Action, n: nat, raw: string)
    requires n < |before|
    ensures UsedAgain(w, before + [x], n, raw) <==> UsedAgain(w, before, n, raw)
  {
    assert (before + [x])[..n] == before[..n] && (before + [x])[n] == before[n];
  }

  lemma AgainAtEnd(w: C.World, before: seq<Action>, x: Action, raw: string)
    ensures UsedAgain(w, before + [x], |before|, raw)
            <==> Uses(w, After(w, before), raw) == 1 && InsertsWith(After(w, before), x, raw)
  {
    assert (before + [x])[..|before|] == before && (before + [x])[|before|] == x;
  }

  // ---------------------------------------------------------------- a spent token

  /** The token of the string is single-use and marked. */
  predicate Spent(w: C.World, s: Sys, raw: string) {
    var t := First(s.db.tokens, Q.ByHash(w.crypto.sha256(raw)));
    t.Some? && s.db.tokens[t.value].singleUse && s.db.tokens[t.value].usedAt.Some?
  }

  /** The person's registration is cancelled, which is final. */
  predicate Barred(db: Db, e: nat, who: string) {
    var i := First(db.regs, R.OfAttendee(e, who));
    i.Some? && db.regs[i.value].status == Cancelled
  }

  /** The scan peeked the string before it was spent and may still get to its insert. */
  predicate Armed(s: Sys, pid: nat, raw: string) {
    || CanInsert(s, pid, raw)
    || (&& pid < |s.procs| && s.procs[pid].Scan? && s.procs[pid].raw == Some(raw) && s.procs[pid].spc.Peeked?
        && !Visited(s.db, s.procs[pid]) && !Barred(s.db, s.procs[pid].e, s.procs[pid].who))
  }

  ghost predicate Disarmed(s: Sys, raw: string) {
    forall pid :: 0 <= pid < |s.procs| ==> !Armed(s, pid, raw)
  }

  lemma VisitedStays(db: Db, d: Delta, p: Proc)
    requires p.Scan? && Visited(db, p)
    ensures Visited(Do(db, d), p)
  {
    if d.AppendCheckin? { FirstAppend(db.checkins, d.checkin, C.SamePair(p.e, p.who)); }
  }

  lemma BarredStays(db: Db, d: Delta, e: nat, who: string)
    requires Tame(db, d) && Barred(db, e, who)
    ensures Barred(Do(db, d), e, who)
  {
    RegFoundLater(db, d, R.OfAttendee(e, who));
  }

  lemma SpentStays(w: C.World, s: Sys, a: Action, raw: string)
    requires Q.Sound(w.crypto) && SysOk(w.crypto, s) && Spent(w, s, raw)
    ensures Spent(w, Next(w, s, a), raw)
  {
    DeltaTame(w, s, a);
    NextDoes(w, s, a);
    assert TokensGrow(s.db.tokens, Next(w, s, a).db.tokens);
    SameTokenFound(s.db.tokens, Next(w, s, a).db.tokens, w.crypto.sha256(raw));
  }

  /** A scan's own step does not arm it once the string is spent. */
  lemma StepStaysDisarmed(w: C.World, s: Sys, pid: nat, now: real, raw: string)
    requires SysOk(w.crypto, s) && Spent(w, s, raw) && pid < |s.procs| && !Armed(s, pid, raw)
    ensures !Armed(Next(w, s, Step(pid, now)), pid, raw)
  {
    var p := s.procs[pid];
    assert ProcOk(w.crypto, s.db, p);
    NextDoes(w, s, Step(pid, now));
    MoveKeepsKind(w, s.db, p.Reg? && p.e !in s.locks, p, now);
    if p.Scan? && p.raw == Some(raw) {
      SpentMove(w, s.db, p, now, raw);
      if Visited(s.db, p) { VisitedStays(s.db, ScanMove(w, s.db, p, now).0, p); }
    }
  }

  /** A scan that stands at its peek is turned away by the spent string, and one whose person is cancelled
      by its registration; a scan moves to its insert only from between the two. */
  lemma SpentMove(w: C.World, db: Db, p: Proc, now: real, raw: string)
    requires p.Scan? && p.e < |db.events| && p.raw == Some(raw)
    requires var t := First(db.tokens, Q.ByHash(w.crypto.sha256(raw)));
             t.Some? && db.tokens[t.value].singleUse && db.tokens[t.value].usedAt.Some?
    ensures var q := ScanMove(w, db, p, now).1;
            q.Scan? && !q.spc.Peeked? && (q.spc.Cleared? ==> p.spc.Peeked? && !Barred(db, p.e, p.who))
  {
  }

  lemma OtherStaysDisarmed(w: C.World, s: Sys, a: Action, k: nat, raw: string)
    requires Q.Sound(w.crypto) && SysOk(w.crypto, s) && k < |s.procs| && !Armed(s, k, raw) && !(a.Step? && a.pid == k)
    ensures k < |Next(w, s, a).procs| && !Armed(Next(w, s, a), k, raw)
  {
    var p := s.procs[k];
    assert ProcOk(w.crypto, s.db, p);
    OnlyStepped(w, s, a, k);
    DeltaTame(w, s, a);
    NextDoes(w, s, a);
    if p.Scan? {
      if Visited(s.db, p) { VisitedStays(s.db, DeltaOf(w, s, a), p); }
      if Barred(s.db, p.e, p.who) { BarredStays(s.db, DeltaOf(w, s, a), p.e, p.who); }
    }
  }

  lemma DisarmedNext(w: C.World, s: Sys, a: Action, raw: string)
    requires Q.Sound(w.crypto) && SysOk(w.crypto, s) && Spent(w, s, raw) && Disarmed(s, raw)
    ensures Disarmed(Next(w, s, a), raw)
  {
    forall k | 0 <= k < |Next(w, s, a).procs| ensures !Armed(Next(w, s, a), k, raw) {
      if k < |s.procs| {
        if a.Step? && a.pid == k { StepStaysDisarmed(w, s, k, a.now, raw); }
        else { OtherStaysDisarmed(w, s, a, k, raw); }
      }
    }
  }

  lemma DisarmedUses(w: C.World, s: Sys, a: Action, raw: string)
    requires Q.Sound(w.crypto) && Disarmed(s, raw)
    ensures Uses(w, Next(w, s, a), raw) == Uses(w, s, raw)
  {
    UsesStep(w, s, a, raw);
    if a.Step? && a.pid < |s.procs| { assert !Armed(s, a.pid, raw); }
  }

  lemma {:induction false} DisarmedForever(w: C.World, s: Sys, acts: seq<Action>, raw: string)
    requires Q.Sound(w.crypto) && SysOk(w.crypto, s) && Spent(w, s, raw) && Disarmed(s, raw)
    ensures Uses(w, Schedule(w, s, acts), raw) == Uses(w, s, raw)
    decreases |acts|
  {
    if acts != [] {
      DisarmedUses(w, s, acts[0], raw);
      NextKeeps(w, s, acts[0]);
      SpentStays(w, s, acts[0], raw);
      DisarmedNext(w, s, acts[0], raw);
      DisarmedForever(w, Next(w, s, acts[0]), acts[1..], raw);
    }
  }

  // ---------------------------------------------------------------- an armed scan gets through

  /** How many steps the holder of a lock needs to give it back. */
  function Left(p: Proc): nat {
    if !p.Reg? then 0
    else match p.rpc case Locked(_) => 3 case SawFull => 2 case Ready(_) => 1 case _ => 0
  }

  /** s' has the same scan pid, and in the tables it looks at nothing that stops it has appeared. */
  ghost predicate StillOpen(c: Q.Crypto, s: Sys, s': Sys, pid: nat)
    requires pid < |s.procs| && s.procs[pid].Scan?
  {
    && SysOk(c, s') && |s.procs| <= |s'.procs| && s'.procs[pid] == s.procs[pid]
    && s'.db.checkins == s.db.checkins
    && (Barred(s'.db, s.procs[pid].e, s.procs[pid].who) ==> Barred(s.db, s.procs[pid].e, s.procs[pid].who))
  }

  lemma RegStepBarsNobody(db: Db, free: bool, p: Proc, e: nat, who: string)
    requires p.Reg? && !Barred(db, e, who)
    ensures var d := RegMove(db, free, p).0;
            !Barred(Do(db, d), e, who) && Do(db, d).checkins == db.checkins
  {
    var d := RegMove(db, free, p).0;
    if d.AppendReg? { FirstAppend(db.regs, d.reg, R.OfAttendee(e, who)); }
  }

  lemma HolderStep(w: C.World, s: Sys, h: nat, pid: nat, now: real)
    requires Q.Sound(w.crypto) && SysOk(w.crypto, s) && h < |s.procs| && Holding(s.procs[h])
    requires pid < |s.procs| && s.procs[pid].Scan? && !Barred(s.db, s.procs[pid].e, s.procs[pid].who)
    ensures var s' := Next(w, s, Step(h, now));
            && StillOpen(w.crypto, s, s', pid)
            && (if Holding(s'.procs[h]) then Left(s'.procs[h]) < Left(s.procs[h]) && s'.locks == s.locks
                                             && s'.procs[h].e == s.procs[h].e
                else s.procs[h].e !in s'.locks)
  {
    assert ProcOk(w.crypto, s.db, s.procs[h]);
    NextKeeps(w, s, Step(h, now));
    OnlyStepped(w, s, Step(h, now), pid);
    RegStepBarsNobody(s.db, s.procs[h].e !in s.locks, s.procs[h], s.procs[pid].e, s.procs[pid].who);
  }

  /** Whoever holds the lock of the scan's event can give it back without harm to the scan. */
  lemma {:induction false} FreeLock(w: C.World, s: Sys, pid: nat, h: nat, now: real) returns (acts: seq<Action>)
    requires Q.Sound(w.crypto) && SysOk(w.crypto, s)
    requires pid < |s.procs| && s.procs[pid].Scan? && !Barred(s.db, s.procs[pid].e, s.procs[pid].who)
    requires h < |s.procs| && Holding(s.procs[h]) && s.procs[h].e == s.procs[pid].e
    ensures var s' := Schedule(w, s, acts);
            StillOpen(w.crypto, s, s', pid) && s.procs[pid].e !in s'.locks
    decreases Left(s.procs[h])
  {
    var s1 := Next(w, s, Step(h, now));
    HolderStep(w, s, h, pid, now);
    OnlyStepped(w, s, Step(h, now), h);
    var rest := [];
    if Holding(s1.procs[h]) { rest := FreeLock(w, s1, pid, h, now); }
    acts := [Step(h, now)] + rest;
    assert acts[1..] == rest;
  }

  lemma LockFreed(w: C.World, s: Sys, pid: nat, now: real) returns (acts: seq<Action>)
    requires Q.Sound(w.crypto) && SysOk(w.crypto, s)
    requires pid < |s.procs| && s.procs[pid].Scan? && !Barred(s.db, s.procs[pid].e, s.procs[pid].who)
    ensures var s' := Schedule(w, s, acts);
            StillOpen(w.crypto, s, s', pid) && s.procs[pid].e !in s'.locks
  {
    if s.procs[pid].e in s.locks {
      acts := FreeLock(w, s, pid, s.locks[s.procs[pid].e], now);
    } else {
      acts := [];
    }
  }

  /** The person has a live registration. */
  predicate Live(db: Db, e: nat, who: string) {
    var i := First(db.regs, R.OfAttendee(e, who));
    i.Some? && db.regs[i.value].status != Cancelled
  }

  lemma NewRowLive(db: Db, e: nat, who: string)
    requires e < |db.events| && First(db.regs, R.OfAttendee(e, who)).None?
    ensures Live(db.(regs := db.regs + [R.NewRow(db.events, db.regs, e, who, None)]), e, who)
    ensures R.Enter(db.events, db.regs, e, who, None).0 == db.regs + [R.NewRow(db.events, db.regs, e, who, None)]
  {
    FirstAppend(db.regs, R.NewRow(db.events, db.regs, e, who, None), R.OfAttendee(e, who));
  }

  /** With the lock free, the person can be registered without harm to the scan. */
  lemma Registers(w: C.World, s: Sys, pid: nat, now: real) returns (acts: seq<Action>)
    requires Q.Sound(w.crypto) && SysOk(w.crypto, s) && pid < |s.procs| && s.procs[pid].Scan?
    requires s.procs[pid].e !in s.locks && First(s.db.regs, R.OfAttendee(s.procs[pid].e, s.procs[pid].who)).None?
    ensures var s' := Schedule(w, s, acts);
            SysOk(w.crypto, s') && pid < |s'.procs| && s'.procs[pid] == s.procs[pid]
            && s'.db.checkins == s.db.checkins && Live(s'.db, s.procs[pid].e, s.procs[pid].who)
  {
    var (p, q) := (s.procs[pid], Reg(s.procs[pid].e, s.procs[pid].who, None, Begin));
    assert ProcOk(w.crypto, s.db, p);
    var (s1, steps) := (s.(procs := s.procs + [q]), Refinement.Repeat(Step(|s.procs|, now), 6));
    acts := [Spawn(q)] + steps;
    assert acts[1..] == steps && Next(w, s, Spawn(q)) == s1;
    Refinement.SoloSchedule(w, s1, |s.procs|, now, 6);
    Refinement.SoloIsEnter(w, s.db, p.e, p.who, None, now, 6);
    Refinement.OthersUntouched(w, s1, |s.procs|, now, 6);
    NewRowLive(s.db, p.e, p.who);
    ScheduleKeeps(w, s, acts);
  }

  /** A scan past its peek whose person is registered and has not checked in inserts in two steps. */
  lemma TwoStepsInsert(w: C.World, s: Sys, pid: nat, now: real, raw: string) returns (acts: seq<Action>)
    requires Q.Sound(w.crypto) && pid < |s.procs| && s.procs[pid].Scan? && s.procs[pid].e < |s.db.events|
    requires s.procs[pid].spc.Peeked? && s.procs[pid].raw == Some(raw) && !Visited(s.db, s.procs[pid])
    requires Live(s.db, s.procs[pid].e, s.procs[pid].who)
    ensures Uses(w, Schedule(w, s, acts), raw) == Uses(w, s, raw) + 1
  {
    var (x, s1) := (Step(pid, now), Next(w, s, Step(pid, now)));
    acts := [x] + [x];
    UsesStep(w, s, x, raw);
    assert CanInsert(s1, pid, raw);
    UsesStep(w, s1, x, raw);
    assert acts[1..] == [x] && [x][1..] == [];
    assert Schedule(w, Next(w, s1, x), []) == Next(w, s1, x);
  }

  /** There is a schedule in which an armed scan inserts. */
  lemma ArmedFires(w: C.World, s: Sys, pid: nat, now: real, raw: string) returns (acts: seq<Action>)
    requires Q.Sound(w.crypto) && SysOk(w.crypto, s) && Armed(s, pid, raw)
    ensures Uses(w, Schedule(w, s, acts), raw) == Uses(w, s, raw) + 1
  {
    var p := s.procs[pid];
    assert ProcOk(w.crypto, s.db, p);
    if CanInsert(s, pid, raw) {
      UsesStep(w, s, Step(pid, now), raw);
      acts := [Step(pid, now)];
      assert acts[1..] == [] && Schedule(w, Next(w, s, Step(pid, now)), []) == Next(w, s, Step(pid, now));
    } else {
      acts := PeekedFires(w, s, pid, now, raw);
    }
  }

  lemma PeekedFires(w: C.World, s: Sys, pid: nat, now: real, raw: string) returns (acts: seq<Action>)
    requires Q.Sound(w.crypto) && SysOk(w.crypto, s) && pid < |s.procs| && s.procs[pid].Scan?
    requires s.procs[pid].raw == Some(raw) && s.procs[pid].spc.Peeked? && !Visited(s.db, s.procs[pid])
    requires !Barred(s.db, s.procs[pid].e, s.procs[pid].who)
    ensures Uses(w, Schedule(w, s, acts), raw) == Uses(w, s, raw) + 1
  {
    var free := LockFreed(w, s, pid, now);
    var s1 := Schedule(w, s, free);
    assert ProcOk(w.crypto, s1.db, s1.procs[pid]);
    var joined := [];
    if First(s1.db.regs, R.OfAttendee(s.procs[pid].e, s.procs[pid].who)).None? { joined := Registers(w, s1, pid, now); }
    var s2 := Schedule(w, s1, joined);
    assert SysOk(w.crypto, s2) && ProcOk(w.crypto, s2.db, s2.procs[pid]);
    var last := TwoStepsInsert(w, s2, pid, now, raw);
    acts := free + joined + last;
    ScheduleConcat(w, s, free, joined);
    ScheduleConcat(w, s, free + joined, last);
  }

  ghost predicate SingleForGood(w: C.World, s: Sys, raw: string) {
    forall acts :: Uses(w, Schedule(w, s, acts), raw) <= 1
  }

  /** A spent single-use token that is on one check-in stays on one under every further schedule if and only
      if no scan that peeked its string before is still able to insert: one that has its registration and
      whose person has not checked in, or one that has yet to look for it and whose person has not checked
      in and is not cancelled. */
  lemma StaysSingleIff(w: C.World, s: Sys, raw: string)
    requires Q.Sound(w.crypto) && SysOk(w.crypto, s) && Spent(w, s, raw) && Uses(w, s, raw) == 1
    ensures SingleForGood(w, s, raw) <==> Disarmed(s, raw)
  {
    if Disarmed(s, raw) {
      forall acts ensures Uses(w, Schedule(w, s, acts), raw) <= 1 { DisarmedForever(w, s, acts, raw); }
    } else {
      var pid :| 0 <= pid < |s.procs| && Armed(s, pid, raw);
      var acts := ArmedFires(w, s, pid, 0.0, raw);
      assert Uses(w, Schedule(w, s, acts), raw) == 2;
    }
  }
}
