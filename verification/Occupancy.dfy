/** Exactly which steps take an event above its capacity. */
module Occupancy {
  import opened Seqs
  import opened Types
  import opened Charter
  import opened Interleaved
  import opened InterleavedTheorems
  import opened Traces
  import Q = QrToken
  import R = Registrations
  import C = Checkins

  ghost predicate Overfull(db: Db, e: nat)
    requires e < |db.events|
  {
    db.events[e].maxCapacity.Some? && |Occupants(db.regs, e)| > db.events[e].maxCapacity.value
  }

  ghost predicate JustFull(db: Db, e: nat)
    requires e < |db.events|
  {
    db.events[e].maxCapacity.Some? && |Occupants(db.regs, e)| == db.events[e].maxCapacity.value
  }

  /** The step marks a waiting attendee of e as attended. */
  predicate MarksWaiter(s: Sys, a: Action, e: nat) {
    && a.Step? && a.pid < |s.procs|
    && var p := s.procs[a.pid];
       p.Scan? && p.spc.Inserted? && p.e < |s.db.events| && p.spc.reg < |s.db.regs|
       && R.Waiting(e)(s.db.regs[p.spc.reg])
  }

  /** The step inserts a registration for e that was given a seat when the seats were counted. */
  predicate InsertsSeat(s: Sys, a: Action, e: nat) {
    && a.Step? && a.pid < |s.procs|
    && var p := s.procs[a.pid];
       p.Reg? && p.e == e < |s.db.events| && p.rpc == Ready(None) && !R.Clashes(s.db.regs, ReadyRow(s.db, p))
  }

  /** How the number of seats taken changes with the tables. */
  function Gain(db: Db, d: Delta, e: nat): int {
    match d
    case AppendReg(row) => Ind(R.Occupying(e)(row))
    case SetStatus(i, status) =>
      if i < |db.regs| then Ind(R.Occupying(e)(db.regs[i].(status := status))) - Ind(R.Occupying(e)(db.regs[i])) else 0
    case _ => 0
  }

  lemma GainCounts(db: Db, d: Delta, e: nat)
    ensures Count(Do(db, d).regs, R.Occupying(e)) == Count(db.regs, R.Occupying(e)) + Gain(db, d, e)
  {
    match d
    case AppendReg(row) => CountAppend(db.regs, row, R.Occupying(e));
    case SetStatus(i, status) =>
      if i < |db.regs| { CountUpdate(db.regs, i, db.regs[i].(status := status), R.Occupying(e)); }
    case _ =>
  }

  lemma RegGain(db: Db, free: bool, p: Proc, e: nat)
    requires p.Reg? && p.e < |db.events|
    ensures Gain(db, RegMove(db, free, p).0, e) <= 1
    ensures Gain(db, RegMove(db, free, p).0, e) == 1
            <==> p.e == e && p.rpc == Ready(None) && !R.Clashes(db.regs, ReadyRow(db, p))
  {
  }

  lemma ScanGain(w: C.World, db: Db, p: Proc, now: real, e: nat)
    requires p.Scan? && p.e < |db.events|
    ensures Gain(db, ScanMove(w, db, p, now).0, e) <= 1
    ensures Gain(db, ScanMove(w, db, p, now).0, e) == 1
            <==> p.spc.Inserted? && p.spc.reg < |db.regs| && R.Waiting(e)(db.regs[p.spc.reg])
  {
  }

  lemma GainExact(w: C.World, s: Sys, a: Action, e: nat)
    requires Q.Sound(w.crypto) && SysOk(w.crypto, s)
    ensures Gain(s.db, DeltaOf(w, s, a), e) <= 1
    ensures Gain(s.db, DeltaOf(w, s, a), e) == 1 <==> MarksWaiter(s, a, e) || InsertsSeat(s, a, e)
  {
    if a.Step? && a.pid < |s.procs| {
      var p := s.procs[a.pid];
      assert ProcOk(w.crypto, s.db, p);
      if p.Reg? { RegGain(s.db, p.e !in s.locks, p, e); }
      if p.Scan? { ScanGain(w, s.db, p, a.now, e); }
    }
  }

  /** From a state in which e is not above its capacity, a step takes it above if and only if its seats
      are all taken and the step marks one of its waiting attendees as attended, or inserts a seat that
      was counted free under the lock. */
  lemma OverfillsIff(w: C.World, s: Sys, a: Action, e: nat)
    requires Q.Sound(w.crypto) && SysOk(w.crypto, s) && e < |s.db.events| && !Overfull(s.db, e)
    ensures e < |Next(w, s, a).db.events|
    ensures Overfull(Next(w, s, a).db, e) <==> JustFull(s.db, e) && (MarksWaiter(s, a, e) || InsertsSeat(s, a, e))
  {
    NextDoes(w, s, a);
    DeltaLegit(w, s, a);
    CapacityLater(w.crypto, s.db, DeltaOf(w, s, a), e);
    GainCounts(s.db, DeltaOf(w, s, a), e);
    R.SeatsCounted(s.db.regs, e);
    R.SeatsCounted(Next(w, s, a).db.regs, e);
    GainExact(w, s, a, e);
  }

  /** A capacity stays, or it is raised by a step that moves nobody. */
  lemma CapacityLater(c: Q.Crypto, db: Db, d: Delta, e: nat)
    requires Legit(c, db, d) && e < |db.events|
    ensures e < |Do(db, d).events|
    ensures || Do(db, d).events[e].maxCapacity == db.events[e].maxCapacity
            || (Raises(db.events[e].maxCapacity, Do(db, d).events[e].maxCapacity) && Gain(db, d, e) == 0)
  {
  }
}
