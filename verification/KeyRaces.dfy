/** What a keyed registration is answered with when others race for its key. */
module KeyRaces {
  import opened Seqs
  import opened Types
  import opened Interleaved
  import opened InterleavedTheorems
  import opened Traces
  import Q = QrToken
  import R = Registrations
  import C = Checkins

  // ---------------------------------------------------------------- the request after its lookup

  /** Request pid, which acts for `who` and carries `key`. */
  predicate IsReg(s: Sys, pid: nat, e: nat, who: string, key: Option<string>) {
    pid < |s.procs| && s.procs[pid].Reg? && s.procs[pid] == Reg(e, who, key, s.procs[pid].rpc)
  }

  predicate OwnRow(regs: seq<Registration>, row: nat, e: nat, who: string) {
    row < |regs| && regs[row].eventId == e && regs[row].attendee == who
  }

  /** Its lookup missed, so any row it is answered with is its attendee's. */
  predicate Missing(s: Sys, pid: nat, e: nat, who: string, key: Option<string>) {
    && IsReg(s, pid, e, who, key) && !s.procs[pid].rpc.Begin?
    && (s.procs[pid].rpc.Done? ==> OwnRow(s.db.regs, s.procs[pid].rpc.row, e, who))
  }

  lemma OwnRowStays(c: Q.Crypto, db: Db, d: Delta, row: nat, e: nat, who: string)
    requires Legit(c, db, d) && OwnRow(db.regs, row, e, who)
    ensures OwnRow(Do(db, d).regs, row, e, who)
  {
  }

  lemma MissingNext(w: C.World, s: Sys, a: Action, pid: nat, e: nat, who: string, key: Option<string>)
    requires Q.Sound(w.crypto) && SysOk(w.crypto, s) && Missing(s, pid, e, who, key)
    ensures Missing(Next(w, s, a), pid, e, who, key)
  {
    OnlyStepped(w, s, a, pid);
    NextDoes(w, s, a);
    DeltaLegit(w, s, a);
    if s.procs[pid].rpc.Done? { OwnRowStays(w.crypto, s.db, DeltaOf(w, s, a), s.procs[pid].rpc.row, e, who); }
  }

  lemma {:induction false} MissingForever(w: C.World, s: Sys, acts: seq<Action>, pid: nat, e: nat, who: string,
                                           key: Option<string>)
    requires Q.Sound(w.crypto) && SysOk(w.crypto, s) && Missing(s, pid, e, who, key)
    ensures Missing(Schedule(w, s, acts), pid, e, who, key)
    decreases |acts|
  {
    if acts != [] {
      MissingNext(w, s, acts[0], pid, e, who, key);
      NextKeeps(w, s, acts[0]);
      MissingForever(w, Next(w, s, acts[0]), acts[1..], pid, e, who, key);
    }
  }

  /** The request has been answered with a row that carries its key. */
  predicate GotKeyRow(s: Sys, pid: nat)
    requires pid < |s.procs| && s.procs[pid].Reg?
  {
    var p := s.procs[pid];
    p.rpc.Done? && p.rpc.row < |s.db.regs| && s.db.regs[p.rpc.row].eventId == p.e && s.db.regs[p.rpc.row].key == p.key
  }

  ghost predicate OwnRowHasKey(regs: seq<Registration>, e: nat, who: string, key: Option<string>) {
    exists i: nat :: OwnRow(regs, i, e, who) && regs[i].key == key
  }

  /** At the end: a request whose lookup missed has the key's row exactly if it wrote it or its attendee's
      row carries the key. */
  lemma MissedAnswer(w: C.World, s: Sys, pid: nat, e: nat, who: string, key: Option<string>)
    requires SysOk(w.crypto, s) && Missing(s, pid, e, who, key) && Truthy(key)
    requires s.procs[pid].rpc.Done? || s.procs[pid].rpc.Failed?
    ensures GotKeyRow(s, pid)
            <==> (s.procs[pid].rpc.Done? && s.procs[pid].rpc.wrote) || OwnRowHasKey(s.db.regs, e, who, key)
  {
    var (p, regs) := (s.procs[pid], s.db.regs);
    assert ProcOk(w.crypto, s.db, p);
    if i: nat :| OwnRow(regs, i, e, who) && regs[i].key == key {
      if p.rpc.Failed? {
        assert R.WithKey(e, key.value)(regs[i]);
        ForeignExcludes(regs, e, who, key.value, i);
      }
    }
  }

  lemma ForeignExcludes(regs: seq<Registration>, e: nat, who: string, key: string, i: nat)
    requires R.UniqueKeys(regs) && ForeignKey(regs, e, who, key) && i < |regs| && R.WithKey(e, key)(regs[i])
    ensures regs[i].attendee != who
  {
    var j := First(regs, R.WithKey(e, key)).value;
    assert R.WithKey(e, key)(regs[j]);
  }

  predicate Ended(s: Sys, pid: nat) {
    pid < |s.procs| && s.procs[pid].Reg? && (s.procs[pid].rpc.Done? || s.procs[pid].rpc.Failed?)
  }

  lemma {:induction false} EndedStays(w: C.World, s: Sys, acts: seq<Action>, pid: nat)
    requires Ended(s, pid)
    ensures pid < |Schedule(w, s, acts).procs| && Schedule(w, s, acts).procs[pid] == s.procs[pid]
    decreases |acts|
  {
    if acts != [] {
      OnlyStepped(w, s, acts[0], pid);
      EndedStays(w, Next(w, s, acts[0]), acts[1..], pid);
    }
  }

  lemma {:induction false} OwnRowForever(w: C.World, s: Sys, acts: seq<Action>, row: nat, e: nat, who: string,
                                         key: Option<string>)
    requires Q.Sound(w.crypto) && SysOk(w.crypto, s) && OwnRow(s.db.regs, row, e, who)
    ensures var regs' := Schedule(w, s, acts).db.regs;
            OwnRow(regs', row, e, who) && regs'[row].key == s.db.regs[row].key
    decreases |acts|
  {
    if acts != [] {
      DeltaLegit(w, s, acts[0]);
      NextDoes(w, s, acts[0]);
      NextKeeps(w, s, acts[0]);
      OwnRowStays(w.crypto, s.db, DeltaOf(w, s, acts[0]), row, e, who);
      OwnRowForever(w, Next(w, s, acts[0]), acts[1..], row, e, who, key);
    }
  }

  lemma {:induction false} KeyForever(w: C.World, s: Sys, acts: seq<Action>, row: nat, e: nat, key: string)
    requires Q.Sound(w.crypto) && SysOk(w.crypto, s) && row < |s.db.regs| && R.WithKey(e, key)(s.db.regs[row])
    ensures var regs' := Schedule(w, s, acts).db.regs;
            row < |regs'| && R.WithKey(e, key)(regs'[row]) && regs'[row].attendee == s.db.regs[row].attendee
    decreases |acts|
  {
    OwnRowForever(w, s, acts, row, e, s.db.regs[row].attendee, Some(key));
  }

  /** A row that carries the key and is not the attendee's keeps the attendee from ever getting it. */
  lemma TakenForGood(w: C.World, s: Sys, acts: seq<Action>, e: nat, who: string, key: string)
    requires Q.Sound(w.crypto) && SysOk(w.crypto, s) && First(s.db.regs, R.WithKey(e, key)).Some?
    requires OwnRowHasKey(Schedule(w, s, acts).db.regs, e, who, Some(key))
    ensures OwnRowHasKey(s.db.regs, e, who, Some(key))
  {
    var (j, end) := (First(s.db.regs, R.WithKey(e, key)).value, Schedule(w, s, acts));
    assert R.WithKey(e, key)(s.db.regs[j]);
    KeyForever(w, s, acts, j, e, key);
    ScheduleKeeps(w, s, acts);
    var i: nat :| OwnRow(end.db.regs, i, e, who) && end.db.regs[i].key == Some(key);
    SameKeyRow(end.db.regs, i, j);
    assert OwnRow(s.db.regs, j, e, who);
  }

  lemma SameKeyRow(regs: seq<Registration>, i: nat, j: nat)
    requires R.UniqueKeys(regs) && i < |regs| && j < |regs|
    requires regs[i].eventId == regs[j].eventId && regs[i].key.Some? && regs[i].key == regs[j].key
    ensures i == j
  {
  }

  lemma OwnKeyLasts(w: C.World, s: Sys, acts: seq<Action>, e: nat, who: string, key: Option<string>)
    requires Q.Sound(w.crypto) && SysOk(w.crypto, s) && OwnRowHasKey(s.db.regs, e, who, key)
    ensures OwnRowHasKey(Schedule(w, s, acts).db.regs, e, who, key)
  {
    var i: nat :| OwnRow(s.db.regs, i, e, who) && s.db.regs[i].key == key;
    OwnRowForever(w, s, acts, i, e, who, key);
  }

  /** An attendee's row without the key stays the only one and without it. */
  lemma KeylessForGood(w: C.World, s: Sys, acts: seq<Action>, e: nat, who: string, key: Option<string>, row: nat)
    requires Q.Sound(w.crypto) && SysOk(w.crypto, s) && OwnRow(s.db.regs, row, e, who)
    requires OwnRowHasKey(Schedule(w, s, acts).db.regs, e, who, key)
    ensures OwnRowHasKey(s.db.regs, e, who, key)
  {
    var end := Schedule(w, s, acts);
    OwnRowForever(w, s, acts, row, e, who, key);
    ScheduleKeeps(w, s, acts);
    var i: nat :| OwnRow(end.db.regs, i, e, who) && end.db.regs[i].key == key;
    SameOwnRow(end.db.regs, i, row, e, who);
  }

  lemma SameOwnRow(regs: seq<Registration>, i: nat, j: nat, e: nat, who: string)
    requires R.UniqueAttendees(regs) && OwnRow(regs, i, e, who) && OwnRow(regs, j, e, who)
    ensures i == j
  {
  }

  /** A clash is a row of the attendee or a row with the key; either way the attendee's row will carry the
      key later only if it does now. */
  lemma ClashDecides(w: C.World, s: Sys, acts: seq<Action>, e: nat, who: string, key: string)
    requires Q.Sound(w.crypto) && SysOk(w.crypto, s)
    requires First(s.db.regs, R.OfAttendee(e, who)).Some? || First(s.db.regs, R.WithKey(e, key)).Some?
    requires OwnRowHasKey(Schedule(w, s, acts).db.regs, e, who, Some(key))
    ensures OwnRowHasKey(s.db.regs, e, who, Some(key))
  {
    if First(s.db.regs, R.WithKey(e, key)).Some? {
      TakenForGood(w, s, acts, e, who, key);
    } else {
      var row := First(s.db.regs, R.OfAttendee(e, who)).value;
      KeylessForGood(w, s, acts, e, who, Some(key), row);
    }
  }

  /** Exactly when a keyed request that has missed its lookup gets the row of its key, told by the tables it
      finds at its insert: if nothing clashes, or if what clashes is its own attendee's row and that row
      carries the key.  Whatever is scheduled afterwards, until it is answered or refused. */
  lemma KeyAnswerExact(w: C.World, s: Sys, pid: nat, now: real, acts: seq<Action>)
    requires Q.Sound(w.crypto) && SysOk(w.crypto, s)
    requires pid < |s.procs| && s.procs[pid].Reg? && s.procs[pid].rpc.Ready? && Truthy(s.procs[pid].key)
    requires Ended(Schedule(w, Next(w, s, Step(pid, now)), acts), pid)
    ensures var (p, end) := (s.procs[pid], Schedule(w, Next(w, s, Step(pid, now)), acts));
            p.e < |s.db.events|
            && (GotKeyRow(end, pid)
                <==> !R.Clashes(s.db.regs, ReadyRow(s.db, p)) || OwnRowHasKey(s.db.regs, p.e, p.who, p.key))
  {
    var (p, s1) := (s.procs[pid], Next(w, s, Step(pid, now)));
    assert ProcOk(w.crypto, s.db, p);
    NextKeeps(w, s, Step(pid, now));
    ScheduleKeeps(w, s1, acts);
    if !R.Clashes(s.db.regs, ReadyRow(s.db, p)) {
      EndedStays(w, s1, acts, pid);
      OwnRowForever(w, s1, acts, |s.db.regs|, p.e, p.who, p.key);
    } else {
      CollisionAnswer(w, s1, pid, acts, p);
    }
  }

  lemma CollisionAnswer(w: C.World, s: Sys, pid: nat, acts: seq<Action>, p: Proc)
    requires Q.Sound(w.crypto) && SysOk(w.crypto, s) && p.Reg? && Truthy(p.key)
    requires pid < |s.procs| && s.procs[pid] == p.(rpc := Conflict) && Ended(Schedule(w, s, acts), pid)
    ensures GotKeyRow(Schedule(w, s, acts), pid) <==> OwnRowHasKey(s.db.regs, p.e, p.who, p.key)
  {
    var end := Schedule(w, s, acts);
    assert ProcOk(w.crypto, s.db, s.procs[pid]);
    ScheduleKeeps(w, s, acts);
    MissingForever(w, s, acts, pid, p.e, p.who, p.key);
    MissedAnswer(w, end, pid, p.e, p.who, p.key);
    if OwnRowHasKey(s.db.regs, p.e, p.who, p.key) { OwnKeyLasts(w, s, acts, p.e, p.who, p.key); }
    if GotKeyRow(end, pid) {
      assert OwnRow(end.db.regs, end.procs[pid].rpc.row, p.e, p.who);
      ClashDecides(w, s, acts, p.e, p.who, p.key.value);
    }
  }

  // ---------------------------------------------------------------- after a collision

  /** After a refused insert, the request ends in the 409 if and only if its attendee has no row at the
      re-fetch; otherwise it ends with the attendee's row.  What others do afterwards changes nothing. */
  lemma AfterCollision(w: C.World, s: Sys, pid: nat, now: real, acts: seq<Action>)
    requires SysOk(w.crypto, s) && pid < |s.procs| && s.procs[pid].Reg? && s.procs[pid].rpc.Conflict?
    ensures var (p, end) := (s.procs[pid], Schedule(w, Next(w, s, Step(pid, now)), acts));
            && Ended(end, pid)
            && (end.procs[pid].rpc.Failed? <==> !exists i: nat :: OwnRow(s.db.regs, i, p.e, p.who))
            && (end.procs[pid].rpc.Done? ==>
                  OwnRow(s.db.regs, end.procs[pid].rpc.row, p.e, p.who) && !end.procs[pid].rpc.wrote)
  {
    var (p, s1) := (s.procs[pid], Next(w, s, Step(pid, now)));
    assert ProcOk(w.crypto, s.db, p);
    var own := First(s.db.regs, R.OfAttendee(p.e, p.who));
    if i: nat :| OwnRow(s.db.regs, i, p.e, p.who) { assert R.OfAttendee(p.e, p.who)(s.db.regs[i]); }
    if own.Some? { assert OwnRow(s.db.regs, own.value, p.e, p.who); }
    EndedStays(w, s1, acts, pid);
  }

  // ---------------------------------------------------------------- the race that ends in the 409

  /** s with requests a and b at these points, these registrations and these locks. */
  function Pair(s: Sys, a: nat, b: nat, p: Proc, q: Proc, regs: seq<Registration>, locks: map<nat, nat>): Sys
    requires a < |s.procs| && b < |s.procs|
  {
    Sys(s.db.(regs := regs), s.procs[a := p][b := q], locks)
  }

  lemma StepA(w: C.World, s: Sys, a: nat, b: nat, p: Proc, q: Proc, regs: seq<Registration>,
              locks: map<nat, nat>, now: real)
    requires a < |s.procs| && b < |s.procs| && a != b && p.Reg?
    ensures var db := s.db.(regs := regs);
            var (d, p') := RegMove(db, p.e !in locks, p);
            p'.Reg? && (d.Nothing? || d.AppendReg?)
            && Next(w, Pair(s, a, b, p, q, regs, locks), Step(a, now))
               == Pair(s, a, b, p', q, Do(db, d).regs, Relock(locks, a, p, p'))
  {
    var s0 := Pair(s, a, b, p, q, regs, locks);
    var (d, p') := RegMove(s0.db, p.e !in locks, p);
    MoveKeepsKind(w, s0.db, p.e !in locks, p, now);
    assert s0.procs[a := p'] == s.procs[a := p'][b := q];
  }

  lemma StepB(w: C.World, s: Sys, a: nat, b: nat, p: Proc, q: Proc, regs: seq<Registration>,
              locks: map<nat, nat>, now: real)
    requires a < |s.procs| && b < |s.procs| && a != b && q.Reg?
    ensures var db := s.db.(regs := regs);
            var (d, q') := RegMove(db, q.e !in locks, q);
            q'.Reg? && (d.Nothing? || d.AppendReg?)
            && Next(w, Pair(s, a, b, p, q, regs, locks), Step(b, now))
               == Pair(s, a, b, p, q', Do(db, d).regs, Relock(locks, b, q, q'))
  {
    var s0 := Pair(s, a, b, p, q, regs, locks);
    var (d, q') := RegMove(s0.db, q.e !in locks, q);
    MoveKeepsKind(w, s0.db, q.e !in locks, q, now);
    assert s0.procs[b := q'] == s.procs[a := p][b := q'];
  }

  /** Both look up; a locks, counts and inserts; b locks, counts, collides and re-fetches. */
  function RaceSchedule(a: nat, b: nat, now: real): seq<Action> {
    var (x, y) := (Step(a, now), Step(b, now));
    [x, y] + [x, x, x] + ([y, y] + [y, y])
  }

  /** Two people, neither of them registered, about to look up one unused key for an uncapped event. */
  predicate Rivals(s: Sys, a: nat, b: nat, e: nat, ann: string, bob: string, key: Option<string>) {
    && a < |s.procs| && b < |s.procs| && a != b && ann != bob && Truthy(key)
    && s.procs[a] == Reg(e, ann, key, Begin) && s.procs[b] == Reg(e, bob, key, Begin)
    && e < |s.db.events| && s.db.events[e].maxCapacity.None? && e !in s.locks
    && First(s.db.regs, R.WithKey(e, key.value)).None?
    && First(s.db.regs, R.OfAttendee(e, ann)).None? && First(s.db.regs, R.OfAttendee(e, bob)).None?
  }

  lemma BothMiss(w: C.World, s: Sys, a: nat, b: nat, e: nat, ann: string, bob: string, key: Option<string>, now: real)
    requires Rivals(s, a, b, e, ann, bob, key)
    ensures Schedule(w, s, [Step(a, now), Step(b, now)])
            == Pair(s, a, b, Reg(e, ann, key, Missed), Reg(e, bob, key, Missed), s.db.regs, s.locks)
  {
    var (p, q) := (s.procs[a], s.procs[b]);
    assert Pair(s, a, b, p, q, s.db.regs, s.locks) == s;
    StepA(w, s, a, b, p, q, s.db.regs, s.locks, now);
    StepB(w, s, a, b, p.(rpc := Missed), q, s.db.regs, s.locks, now);
    Two(w, s, Step(a, now), Step(b, now));
  }

  lemma Two(w: C.World, s: Sys, x: Action, y: Action)
    ensures Schedule(w, s, [x, y]) == Next(w, Next(w, s, x), y)
  {
    assert [x, y][1..] == [y] && [y][1..] == [];
    assert Schedule(w, Next(w, Next(w, s, x), y), []) == Next(w, Next(w, s, x), y);
  }

  lemma Three(w: C.World, s: Sys, x: Action)
    ensures Schedule(w, s, [x, x, x]) == Next(w, Next(w, Next(w, s, x), x), x)
  {
    assert [x, x, x][1..] == [x, x];
    Two(w, Next(w, s, x), x, x);
  }

  lemma FirstWrites(w: C.World, s: Sys, a: nat, b: nat, e: nat, ann: string, bob: string,
                    key: Option<string>, now: real)
    requires Rivals(s, a, b, e, ann, bob, key)
    ensures var s1 := Pair(s, a, b, Reg(e, ann, key, Missed), Reg(e, bob, key, Missed), s.db.regs, s.locks);
            var row := Registration(s.db.events[e].schoolId, e, ann, Registered, None, key);
            Schedule(w, s1, [Step(a, now), Step(a, now), Step(a, now)])
            == Pair(s, a, b, Reg(e, ann, key, Done(|s.db.regs|, true)), Reg(e, bob, key, Missed),
                    s.db.regs + [row], s.locks)
  {
    var (p, q) := (Reg(e, ann, key, Missed), Reg(e, bob, key, Missed));
    StepA(w, s, a, b, p, q, s.db.regs, s.locks, now);
    StepA(w, s, a, b, p.(rpc := Locked(None)), q, s.db.regs, s.locks[e := a], now);
    StepA(w, s, a, b, p.(rpc := Ready(None)), q, s.db.regs, s.locks[e := a], now);
    assert s.locks[e := a] - {e} == s.locks;
    Three(w, Pair(s, a, b, p, q, s.db.regs, s.locks), Step(a, now));
  }

  lemma SecondCounts(w: C.World, s: Sys, a: nat, b: nat, p: Proc, q: Proc, regs: seq<Registration>, now: real)
    requires a < |s.procs| && b < |s.procs| && a != b && q.Reg? && q.rpc.Missed? && q.e < |s.db.events|
    requires s.db.events[q.e].maxCapacity.None? && q.e !in s.locks
    ensures Schedule(w, Pair(s, a, b, p, q, regs, s.locks), [Step(b, now), Step(b, now)])
            == Pair(s, a, b, p, q.(rpc := Ready(None)), regs, s.locks[q.e := b])
  {
    StepB(w, s, a, b, p, q, regs, s.locks, now);
    StepB(w, s, a, b, p, q.(rpc := Locked(None)), regs, s.locks[q.e := b], now);
    Two(w, Pair(s, a, b, p, q, regs, s.locks), Step(b, now), Step(b, now));
  }

  lemma SecondFails(w: C.World, s: Sys, a: nat, b: nat, p: Proc, q: Proc, regs: seq<Registration>, now: real)
    requires a < |s.procs| && b < |s.procs| && a != b && q.Reg? && q.rpc == Ready(None) && q.e < |s.db.events|
    requires q.e !in s.locks && q.key.Some? && First(regs, R.WithKey(q.e, q.key.value)).Some?
    requires First(regs, R.OfAttendee(q.e, q.who)).None?
    ensures Schedule(w, Pair(s, a, b, p, q, regs, s.locks[q.e := b]), [Step(b, now), Step(b, now)])
            == Pair(s, a, b, p, q.(rpc := Failed), regs, s.locks)
  {
    StepB(w, s, a, b, p, q, regs, s.locks[q.e := b], now);
    assert s.locks[q.e := b] - {q.e} == s.locks;
    StepB(w, s, a, b, p, q.(rpc := Conflict), regs, s.locks, now);
    Two(w, Pair(s, a, b, p, q, regs, s.locks[q.e := b]), Step(b, now), Step(b, now));
  }

  lemma SecondCollides(w: C.World, s: Sys, a: nat, b: nat, e: nat, ann: string, bob: string,
                       key: Option<string>, now: real)
    requires Rivals(s, a, b, e, ann, bob, key)
    ensures var row := Registration(s.db.events[e].schoolId, e, ann, Registered, None, key);
            var (p, regs) := (Reg(e, ann, key, Done(|s.db.regs|, true)), s.db.regs + [row]);
            Schedule(w, Pair(s, a, b, p, Reg(e, bob, key, Missed), regs, s.locks),
                     [Step(b, now), Step(b, now)] + [Step(b, now), Step(b, now)])
            == Pair(s, a, b, p, Reg(e, bob, key, Failed), regs, s.locks)
  {
    var row := Registration(s.db.events[e].schoolId, e, ann, Registered, None, key);
    var (p, q, regs) := (Reg(e, ann, key, Done(|s.db.regs|, true)), Reg(e, bob, key, Missed), s.db.regs + [row]);
    FirstAppend(s.db.regs, row, R.OfAttendee(e, bob));
    FirstAppend(s.db.regs, row, R.WithKey(e, key.value));
    SecondCounts(w, s, a, b, p, q, regs, now);
    SecondFails(w, s, a, b, p, q.(rpc := Ready(None)), regs, now);
    ScheduleConcat(w, Pair(s, a, b, p, q, regs, s.locks), [Step(b, now), Step(b, now)], [Step(b, now), Step(b, now)]);
  }

  /** For every truthy key: the loser of the race is refused with the 409 although the key has a row by
      then, which the replay would have answered with. */
  lemma RaceEndsInConflict(w: C.World, s: Sys, a: nat, b: nat, e: nat, ann: string, bob: string,
                           key: Option<string>, now: real)
    requires Rivals(s, a, b, e, ann, bob, key)
    ensures var end := Schedule(w, s, RaceSchedule(a, b, now));
            && a < |end.procs| && b < |end.procs|
            && end.procs[a] == Reg(e, ann, key, Done(|s.db.regs|, true)) && end.procs[b] == Reg(e, bob, key, Failed)
            && |end.procs| == |s.procs| && |end.db.regs| == |s.db.regs| + 1
            && end.db.regs[|s.db.regs|].key == key && end.db.regs[|s.db.regs|].attendee == ann
  {
    BothMiss(w, s, a, b, e, ann, bob, key, now);
    FirstWrites(w, s, a, b, e, ann, bob, key, now);
    SecondCollides(w, s, a, b, e, ann, bob, key, now);
    var (x, y) := (Step(a, now), Step(b, now));
    ScheduleConcat(w, s, [x, y], [x, x, x]);
    ScheduleConcat(w, s, [x, y] + [x, x, x], [y, y] + [y, y]);
  }
}
