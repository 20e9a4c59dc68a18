/** Schedules read backwards: prefixes, last steps, and what a step does to the tables. */
module Traces {
  import opened Seqs
  import opened Types
  import opened Interleaved
  import opened InterleavedTheorems
  import Q = QrToken
  import R = Registrations
  import C = Checkins

  lemma {:induction false} ScheduleConcat(w: C.World, s: Sys, a: seq<Action>, b: seq<Action>)
    ensures Schedule(w, s, a + b) == Schedule(w, Schedule(w, s, a), b)
    decreases |a|
  {
    if a == [] {
      assert a + b == b;
    } else {
      assert (a + b)[0] == a[0] && (a + b)[1..] == a[1..] + b;
      ScheduleConcat(w, Next(w, s, a[0]), a[1..], b);
    }
  }

  lemma AfterSnoc(w: C.World, acts: seq<Action>, a: Action)
    ensures After(w, acts + [a]) == Next(w, After(w, acts), a)
  {
    ScheduleConcat(w, IDLE, acts, [a]);
    assert [a][1..] == [];
    assert Schedule(w, Next(w, After(w, acts), a), []) == Next(w, After(w, acts), a);
  }

  /** What the action does to the tables. */
  function DeltaOf(w: C.World, s: Sys, a: Action): Delta {
    match a
    case Spawn(proc) => Nothing
    case Step(pid, now) =>
      if pid >= |s.procs| then Nothing
      else Move(w, s.db, s.procs[pid].Reg? && s.procs[pid].e !in s.locks, s.procs[pid], now).0
    case Cancel(e, who) =>
      (match First(s.db.regs, R.OfAttendee(e, who)) case None => Nothing case Some(i) => SetStatus(i, Cancelled))
    case Mint(rq) => SetTokens(Q.MintTx(w.crypto, s.db.tokens, rq).0)
    case RaiseCapacity(e, capacity) =>
      if e < |s.db.events| && Raises(s.db.events[e].maxCapacity, capacity) then SetCapacity(e, capacity) else Nothing
  }

  lemma NextDoes(w: C.World, s: Sys, a: Action)
    ensures Next(w, s, a).db == Do(s.db, DeltaOf(w, s, a))
  {
  }

  lemma DeltaLegit(w: C.World, s: Sys, a: Action)
    requires Q.Sound(w.crypto) && SysOk(w.crypto, s)
    ensures Legit(w.crypto, s.db, DeltaOf(w, s, a))
  {
    if a.Step? && a.pid < |s.procs| {
      var p := s.procs[a.pid];
      assert ProcOk(w.crypto, s.db, p);
      MoveOk(w, s.db, p.Reg? && p.e !in s.locks, p, a.now);
    }
  }

  /** An action moves at most the request it names. */
  lemma OnlyStepped(w: C.World, s: Sys, a: Action, k: nat)
    requires k < |s.procs|
    ensures |s.procs| <= |Next(w, s, a).procs|
    ensures !(a.Step? && a.pid == k) ==> Next(w, s, a).procs[k] == s.procs[k]
  {
  }
}
