/** Schedules from the empty system that reach the states the exact conditions speak of. */
module Instances {
  import opened Seqs
  import opened Types
  import opened Charter
  import opened Interleaved
  import opened InterleavedTheorems
  import opened Traces
  import opened Refinement
  import Q = QrToken
  import R = Registrations
  import C = Checkins
  import KeyRaces
  import Occupancy
  import ScanHistory

  // ---------------------------------------------------------------- building schedules

  lemma Spawns(w: C.World, acts: seq<Action>, p: Proc) returns (more: seq<Action>)
    requires Starting(After(w, acts).db.events, p)
    ensures After(w, more) == After(w, acts).(procs := After(w, acts).procs + [p])
  {
    more := acts + [Spawn(p)];
    AfterSnoc(w, acts, Spawn(p));
  }

  /** One event, and nothing else. */
  lemma Opens(w: C.World, draft: Event, now: real) returns (acts: seq<Action>)
    requires draft.key.None?
    ensures After(w, acts) == Sys(Db([draft], [], [], [], []), [New(draft, Answered(0))], map[])
  {
    acts := Spawns(w, [], New(draft, Asking));
    AfterSnoc(w, acts, Step(0, now));
    AfterSnoc(w, acts + [Step(0, now)], Step(0, now));
    acts := acts + [Step(0, now)] + [Step(0, now)];
  }

  ghost predicate Calm(s: Sys) {
    forall k :: 0 <= k < |s.procs| ==> !Holding(s.procs[k])
  }

  lemma CalmUnlocked(c: Q.Crypto, s: Sys)
    requires SysOk(c, s) && Calm(s)
    ensures s.locks == map[]
  {
    assert forall e :: e !in s.locks;
  }

  /** A new request that runs alone to its end leaves the system calm. */
  lemma RunsAlone(w: C.World, acts: seq<Action>, p: Proc, now: real, n: nat) returns (more: seq<Action>)
    requires Q.Sound(w.crypto) && Calm(After(w, acts)) && Starting(After(w, acts).db.events, p)
    requires Over(Solo(w, After(w, acts).db, p, now, n).1)
    ensures Calm(After(w, more)) && After(w, more).db == Solo(w, After(w, acts).db, p, now, n).0
  {
    var s := After(w, acts);
    Reached(w, acts);
    CalmUnlocked(w.crypto, s);
    var spawned := Spawns(w, acts, p);
    var pid := |s.procs|;
    more := spawned + Repeat(Step(pid, now), n);
    ScheduleConcat(w, IDLE, spawned, Repeat(Step(pid, now), n));
    SoloSchedule(w, After(w, spawned), pid, now, n);
    var end := After(w, more);
    OthersUntouched(w, After(w, spawned), pid, now, n);
    forall k | 0 <= k < |end.procs| ensures !Holding(end.procs[k]) {
      if k != pid { assert end.procs[k] == s.procs[k]; }
    }
  }

  /** Somebody registers for event 0 without a key. */
  lemma Joins(w: C.World, acts: seq<Action>, who: string, now: real) returns (more: seq<Action>)
    requires Q.Sound(w.crypto) && Calm(After(w, acts)) && After(w, acts).db.events != []
    requires First(After(w, acts).db.regs, R.OfAttendee(0, who)).None?
    ensures var db := After(w, acts).db;
            Calm(After(w, more))
            && After(w, more).db == db.(regs := db.regs + [R.NewRow(db.events, db.regs, 0, who, None)])
  {
    var db := After(w, acts).db;
    SoloIsEnter(w, db, 0, who, None, now, 6);
    more := RunsAlone(w, acts, Reg(0, who, None, Begin), now, 6);
  }

  // ---------------------------------------------------------------- the 409

  /** For every truthy key and any two people there is a schedule in which one of them is refused with the
      409 while the other one's row carries that key. */
  lemma ConflictReachable(w: C.World, draft: Event, ann: string, bob: string, key: Option<string>, now: real)
    returns (acts: seq<Action>)
    requires draft.key.None? && draft.maxCapacity.None? && ann != bob && Truthy(key)
    ensures var s := After(w, acts);
            && |s.procs| == 3 && s.procs[2] == Reg(0, bob, key, Failed) && s.procs[1] == Reg(0, ann, key, Done(0, true))
            && |s.db.regs| == 1 && s.db.regs[0].key == key && s.db.regs[0].attendee == ann
  {
    var stage := Opens(w, draft, now);
    var one := Spawns(w, stage, Reg(0, ann, key, Begin));
    var two := Spawns(w, one, Reg(0, bob, key, Begin));
    var s := After(w, two);
    KeyRaces.RaceEndsInConflict(w, s, 1, 2, 0, ann, bob, key, now);
    acts := two + KeyRaces.RaceSchedule(1, 2, now);
    ScheduleConcat(w, IDLE, two, KeyRaces.RaceSchedule(1, 2, now));
  }

  // ---------------------------------------------------------------- above capacity

  /** A check-in by hand: insert and mark. */
  lemma ScansByHand(w: C.World, acts: seq<Action>, who: string, i: nat, now: real) returns (more: seq<Action>)
    requires Q.Sound(w.crypto) && Calm(After(w, acts)) && After(w, acts).db.events != []
    requires var db := After(w, acts).db;
             First(db.regs, R.OfAttendee(0, who)) == Some(i) && db.regs[i].status != Cancelled && db.checkins == []
    ensures var db := After(w, acts).db;
            Calm(After(w, more)) && After(w, more).db.events == db.events
            && After(w, more).db.regs == db.regs[i := db.regs[i].(status := Attended)]
  {
    var db := After(w, acts).db;
    var p := Scan(0, who, Manual, None, None, Entering);
    SoloStep(w, db, p, now, 5);
    SoloStep(w, db, p.(spc := Peeked(None)), now, 4);
    CommitScanAlone(w, db, p.(spc := Cleared(None, i)), now, 3, None);
    more := RunsAlone(w, acts, p, now, 5);
  }

  /** The two rows of an event with one seat: one seated, one waiting. */
  function SeatRow(draft: Event, who: string): Registration {
    Registration(draft.schoolId, 0, who, Registered, None, None)
  }

  function WaitRow(draft: Event, who: string): Registration {
    Registration(draft.schoolId, 0, who, Waitlisted, Some(1), None)
  }

  lemma FirstIsSeated(draft: Event, ann: string)
    requires draft.maxCapacity == Some(1)
    ensures [] + [R.NewRow([draft], [], 0, ann, None)] == [SeatRow(draft, ann)]
  {
  }

  lemma SecondWaits(draft: Event, ann: string, bob: string)
    requires draft.maxCapacity == Some(1) && ann != bob
    ensures [SeatRow(draft, ann)] + [R.NewRow([draft], [SeatRow(draft, ann)], 0, bob, None)]
            == [SeatRow(draft, ann), WaitRow(draft, bob)]
    ensures First([SeatRow(draft, ann)], R.OfAttendee(0, bob)).None?
    ensures First([SeatRow(draft, ann), WaitRow(draft, bob)], R.OfAttendee(0, bob)) == Some(1)
  {
    var seat := SeatRow(draft, ann);
    assert [] + [seat] == [seat];
    CountAppend([], seat, R.Occupying(0));
    assert R.MaxPosition([seat], 0) == 0;
    FirstAppend([seat], WaitRow(draft, bob), R.OfAttendee(0, bob));
    assert [seat] + [WaitRow(draft, bob)] == [seat, WaitRow(draft, bob)];
  }

  lemma TwoOnOneSeat(draft: Event, ann: string, bob: string)
    ensures var regs := [SeatRow(draft, ann), WaitRow(draft, bob)];
            |Occupants(regs[1 := regs[1].(status := Attended)], 0)| == 2
  {
    var (seat, late) := (SeatRow(draft, ann), WaitRow(draft, bob).(status := Attended));
    assert [SeatRow(draft, ann), WaitRow(draft, bob)][1 := late] == [seat, late];
    CountPair(seat, late, R.Occupying(0));
    R.SeatsCounted([seat, late], 0);
  }

  /** An event with one seat, taken by ann, with bob waiting. */
  lemma FullHouse(w: C.World, draft: Event, ann: string, bob: string, now: real) returns (acts: seq<Action>)
    requires Q.Sound(w.crypto) && draft.key.None? && draft.maxCapacity == Some(1) && ann != bob
    ensures Calm(After(w, acts))
    ensures After(w, acts).db == Db([draft], [SeatRow(draft, ann), WaitRow(draft, bob)], [], [], [])
  {
    var stage := Opens(w, draft, now);
    var one := Joins(w, stage, ann, now);
    FirstIsSeated(draft, ann);
    SecondWaits(draft, ann, bob);
    acts := Joins(w, one, bob, now);
  }

  /** Capacity one: ann takes the seat, bob waits, bob checks in, and two people occupy the event. */
  lemma OverfullReachable(w: C.World, draft: Event, ann: string, bob: string, now: real) returns (acts: seq<Action>)
    requires Q.Sound(w.crypto) && draft.key.None? && draft.maxCapacity == Some(1) && ann != bob
    ensures After(w, acts).db.events == [draft] && Occupancy.Overfull(After(w, acts).db, 0)
  {
    var full := FullHouse(w, draft, ann, bob, now);
    SecondWaits(draft, ann, bob);
    acts := ScansByHand(w, full, bob, 1, now);
    TwoOnOneSeat(draft, ann, bob);
  }

  // ---------------------------------------------------------------- a single-use token used twice

  lemma TruncMonotone(a: real, b: real)
    requires a <= b
    ensures Trunc(a) <= Trunc(b)
  {
  }

  /** An unbound single-use token for event 0, fresh. */
  predicate Ticket(rq: Q.MintRequest) {
    rq.table == "events" && rq.eventId == 0 && 1 <= rq.ttlMinutes <= 720 && rq.singleUse && !Truthy(rq.attendee)
  }

  function RawOf(w: C.World, rq: Q.MintRequest): string {
    Q.Raw(w.crypto, Q.MintFields(w.crypto, rq))
  }

  lemma TicketAccepted(w: C.World, rq: Q.MintRequest, who: string)
    requires Q.Sound(w.crypto) && Ticket(rq)
    ensures Q.MintTx(w.crypto, [], rq).0 == [Q.MintRow(w.crypto, rq)]
    ensures Q.Peek(w.crypto, [Q.MintRow(w.crypto, rq)], RawOf(w, rq), 0, "events", Some(who), rq.now).status.Ok?
  {
    assert [] + [Q.MintRow(w.crypto, rq)] == [Q.MintRow(w.crypto, rq)];
    TruncMonotone(rq.now, rq.now + (60 * rq.ttlMinutes) as real);
    Q.FreshTokenVerdict(w.crypto, [], rq, Some(who), rq.now);
  }

  /** An event, the ticket, and two registered people. */
  lemma DoorScene(w: C.World, draft: Event, rq: Q.MintRequest, ann: string, bob: string) returns (acts: seq<Action>)
    requires Q.Sound(w.crypto) && draft.key.None? && draft.maxCapacity.None? && ann != bob && Ticket(rq)
    ensures var db := After(w, acts).db;
            && db.events == [draft] && db.checkins == [] && db.tokens == [Q.MintRow(w.crypto, rq)]
            && First(db.regs, R.OfAttendee(0, ann)) == Some(0) && First(db.regs, R.OfAttendee(0, bob)) == Some(1)
            && db.regs[0].status == Registered == db.regs[1].status
  {
    var stage := Opens(w, draft, rq.now);
    AfterSnoc(w, stage, Mint(rq));
    TicketAccepted(w, rq, ann);
    var minted := stage + [Mint(rq)];
    var one := Joins(w, minted, ann, rq.now);
    var r0 := R.NewRow([draft], [], 0, ann, None);
    assert After(w, one).db.regs == [] + [r0] == [r0];
    acts := Joins(w, one, bob, rq.now);
    var r1 := R.NewRow([draft], [r0], 0, bob, None);
    assert After(w, acts).db.regs == [r0] + [r1] == [r0, r1];
    assert R.OfAttendee(0, ann)([r0, r1][0]) && R.OfAttendee(0, bob)([r0, r1][1]) && !R.OfAttendee(0, bob)([r0, r1][0]);
  }

  /** For every unbound single-use ticket and any two people there is a schedule from the empty system at
      whose end two check-ins carry the ticket's hash. */
  lemma SingleUseTwiceReachable(w: C.World, draft: Event, rq: Q.MintRequest, ann: string, bob: string)
    returns (acts: seq<Action>)
    requires Q.Sound(w.crypto) && draft.key.None? && draft.maxCapacity.None? && ann != bob && Ticket(rq)
    ensures var db := After(w, acts).db;
            && ScanHistory.SingleUse(w.crypto, db.tokens, RawOf(w, rq)) && db.tokens == [Q.MintRow(w.crypto, rq)]
            && |db.checkins| == 2 && db.checkins[0].attendee == ann && db.checkins[1].attendee == bob
            && db.checkins[0].tokenHash == Some(db.tokens[0].hash) == db.checkins[1].tokenHash
  {
    var door, a, b := TwoAtTheDoor(w, draft, rq, ann, bob);
    UnboundTokenTwice(w, After(w, door), a, b, rq.now);
    acts := BothThrice(w, door, a, b, rq.now);
    TicketFound(w, rq);
  }

  /** Two scans with the one ticket, about to peek. */
  lemma TwoAtTheDoor(w: C.World, draft: Event, rq: Q.MintRequest, ann: string, bob: string)
    returns (acts: seq<Action>, a: nat, b: nat)
    requires Q.Sound(w.crypto) && draft.key.None? && draft.maxCapacity.None? && ann != bob && Ticket(rq)
    ensures SharedString(w, After(w, acts), a, b, rq.now)
    ensures var (p, q) := (After(w, acts).procs[a], After(w, acts).procs[b]);
            p.who == ann && q.who == bob && p.raw == Some(RawOf(w, rq))
    ensures After(w, acts).db.checkins == [] && After(w, acts).db.tokens == [Q.MintRow(w.crypto, rq)]
  {
    var scene := DoorScene(w, draft, rq, ann, bob);
    var raw := RawOf(w, rq);
    var one := Spawns(w, scene, Scan(0, ann, Qr, Some(raw), None, Entering));
    acts := Spawns(w, one, Scan(0, bob, Qr, Some(raw), None, Entering));
    a, b := |After(w, scene).procs|, |After(w, one).procs|;
    SceneShares(w, After(w, acts), a, b, draft, rq, ann, bob);
  }

  lemma TicketFound(w: C.World, rq: Q.MintRequest)
    requires Ticket(rq)
    ensures ScanHistory.SingleUse(w.crypto, [Q.MintRow(w.crypto, rq)], RawOf(w, rq))
    ensures Q.MintRow(w.crypto, rq).hash == w.crypto.sha256(RawOf(w, rq))
  {
    assert Q.ByHash(w.crypto.sha256(RawOf(w, rq)))([Q.MintRow(w.crypto, rq)][0]);
  }

  lemma SceneShares(w: C.World, s: Sys, a: nat, b: nat, draft: Event, rq: Q.MintRequest, ann: string, bob: string)
    requires Q.Sound(w.crypto) && Ticket(rq) && ann != bob && a < |s.procs| && b < |s.procs|
    requires s.procs[a] == Scan(0, ann, Qr, Some(RawOf(w, rq)), None, Entering)
    requires s.procs[b] == Scan(0, bob, Qr, Some(RawOf(w, rq)), None, Entering)
    requires s.db.events == [draft] && s.db.checkins == [] && s.db.tokens == [Q.MintRow(w.crypto, rq)]
    requires First(s.db.regs, R.OfAttendee(0, ann)) == Some(0) && First(s.db.regs, R.OfAttendee(0, bob)) == Some(1)
    requires s.db.regs[0].status == Registered == s.db.regs[1].status
    ensures SharedString(w, s, a, b, rq.now)
  {
    TicketAccepted(w, rq, ann);
    TicketAccepted(w, rq, bob);
  }

  lemma BothThrice(w: C.World, acts: seq<Action>, a: nat, b: nat, now: real) returns (more: seq<Action>)
    ensures var s := After(w, acts);
            After(w, more) == Both(w, Both(w, Both(w, s, a, b, now), a, b, now), a, b, now)
  {
    more := BothOnce(w, acts, a, b, now);
    more := BothOnce(w, more, a, b, now);
    more := BothOnce(w, more, a, b, now);
  }

  lemma BothOnce(w: C.World, acts: seq<Action>, a: nat, b: nat, now: real) returns (more: seq<Action>)
    ensures After(w, more) == Both(w, After(w, acts), a, b, now)
  {
    AfterSnoc(w, acts, Step(a, now));
    AfterSnoc(w, acts + [Step(a, now)], Step(b, now));
    more := acts + [Step(a, now)] + [Step(b, now)];
  }
}
