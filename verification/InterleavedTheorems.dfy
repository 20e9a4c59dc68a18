/** What holds under every schedule of any number of concurrent requests. */
module InterleavedTheorems {
  import opened Seqs
  import opened Types
  import opened Charter
  import opened Interleaved
  import Q = QrToken
  import R = Registrations
  import C = Checkins
  import E = Events

  /** The system after a schedule that started from nothing. */
  function After(w: C.World, acts: seq<Action>): Sys {
    Schedule(w, IDLE, acts)
  }

  lemma Reached(w: C.World, acts: seq<Action>)
    requires Q.Sound(w.crypto)
    ensures SysOk(w.crypto, After(w, acts))
  {
    ScheduleKeeps(w, IDLE, acts);
  }

  // ---------------------------------------------------------------- capacity

  lemma SeatsAndLateComers(db: Db, e: nat)
    requires forall i :: 0 <= i < |db.regs| ==> RowShape(db.events, db.regs[i])
    ensures Count(db.regs, R.Occupying(e)) == Count(db.regs, Seated(e)) + Count(db.regs, LateComer(e))
  {
    forall i | 0 <= i < |db.regs|
      ensures R.Occupying(e)(db.regs[i]) <==> Seated(e)(db.regs[i]) || LateComer(e)(db.regs[i])
    {
      assert RowShape(db.events, db.regs[i]);
    }
    CountSplit(db.regs, R.Occupying(e), Seated(e), LateComer(e));
  }

  lemma LateCounted(regs: seq<Registration>, e: nat)
    ensures Count(regs, LateComer(e)) == |LateComers(regs, e)|
  {
    CountIsSize(regs, LateComer(e));
    assert Where(regs, LateComer(e)) == LateComers(regs, e);
  }

  /** In every reachable state a capped event has no more registered or attended rows than its capacity
      plus the attended rows that were first inserted as waitlisted. */
  lemma CapacityBound(w: C.World, acts: seq<Action>, e: nat)
    requires Q.Sound(w.crypto)
    ensures var db := After(w, acts).db;
            e < |db.events| && db.events[e].maxCapacity.Some? ==>
              && Count(db.regs, Seated(e)) <= db.events[e].maxCapacity.value
              && |Occupants(db.regs, e)| <= db.events[e].maxCapacity.value + |LateComers(db.regs, e)|
  {
    var db := After(w, acts).db;
    Reached(w, acts);
    if e < |db.events| {
      assert Fits(db, e);
      SeatsAndLateComers(db, e);
      R.SeatsCounted(db.regs, e);
      LateCounted(db.regs, e);
    }
  }

  /** Between count and commit an event has exactly one request: two holders are the same request. */
  lemma OneHolder(w: C.World, acts: seq<Action>, i: nat, j: nat)
    requires Q.Sound(w.crypto)
    ensures var procs := After(w, acts).procs;
            i < |procs| && j < |procs| && Holding(procs[i]) && Holding(procs[j]) && procs[i].e == procs[j].e ==> i == j
  {
    Reached(w, acts);
  }

  // ---------------------------------------------------------------- waitlist

  /** Among the currently waitlisted rows of an event, positions are positive and strictly increase in
      insertion order, hence are pairwise distinct. */
  lemma WaitlistInLine(w: C.World, acts: seq<Action>)
    requires Q.Sound(w.crypto)
    ensures var regs := After(w, acts).db.regs;
            && (forall i :: 0 <= i < |regs| && regs[i].status == Waitlisted ==>
                  regs[i].position.Some? && regs[i].position.value >= 1)
            && (forall i, j | 0 <= i < j < |regs| && regs[i].status == Waitlisted && regs[j].status == Waitlisted ::
                  regs[i].eventId == regs[j].eventId ==> regs[i].position.value < regs[j].position.value)
  {
    Reached(w, acts);
    var db := After(w, acts).db;
    forall i | 0 <= i < |db.regs| && db.regs[i].status == Waitlisted
      ensures db.regs[i].position.Some? && db.regs[i].position.value >= 1
    {
      assert RowShape(db.events, db.regs[i]);
    }
  }

  lemma {:induction false} WaitersBelow(regs: seq<Registration>, e: nat, n: nat)
    requires InLine(regs) && AllBelow(regs, e, n) && n >= 1
    requires forall i :: 0 <= i < |regs| && regs[i].status == Waitlisted ==>
                           regs[i].position.Some? && regs[i].position.value >= 1
    ensures Count(regs, R.Waiting(e)) < n
  {
    if regs != [] {
      var k := |regs| - 1;
      var last := regs[k];
      if R.Waiting(e)(last) {
        forall i | 0 <= i < k && R.Waiting(e)(regs[..k][i]) ensures regs[i].position.value < last.position.value {
          assert regs[..k][i] == regs[i];
        }
        WaitersBelow(regs[..k], e, last.position.value);
      } else {
        WaitersBelow(regs[..k], e, n);
      }
    }
  }

  /** Despite gaps and reused numbers, the k-th waiting attendee of an event has position k or more. */
  lemma KthWaiter(w: C.World, acts: seq<Action>, e: nat, i: nat)
    requires Q.Sound(w.crypto) && i < |After(w, acts).db.regs| && R.Waiting(e)(After(w, acts).db.regs[i])
    ensures var regs := After(w, acts).db.regs;
            regs[i].position.Some? && Count(regs[..i + 1], R.Waiting(e)) <= regs[i].position.value
  {
    var regs := After(w, acts).db.regs;
    Reached(w, acts);
    WaitlistInLine(w, acts);
    forall j | 0 <= j < i && R.Waiting(e)(regs[..i][j]) ensures regs[j].position.value < regs[i].position.value {
      assert regs[..i][j] == regs[j];
    }
    WaitersBelow(regs[..i], e, regs[i].position.value);
    assert regs[..i + 1] == regs[..i] + [regs[i]];
    CountAppend(regs[..i], regs[i], R.Waiting(e));
  }

  // ---------------------------------------------------------------- idempotency keys

  /** Creation: all answers to one (tenant, key) name one event, and no other event carries that key. */
  lemma OneEventPerKey(w: C.World, acts: seq<Action>, i: nat, j: nat)
    requires Q.Sound(w.crypto)
    requires i < |After(w, acts).procs| && j < |After(w, acts).procs|
    requires var (p, q) := (After(w, acts).procs[i], After(w, acts).procs[j]);
             && p.New? && q.New? && p.npc.Answered? && q.npc.Answered?
             && p.draft.key.Some? && p.draft.key == q.draft.key && p.draft.schoolId == q.draft.schoolId
    ensures After(w, acts).procs[i].npc == After(w, acts).procs[j].npc
    ensures var (p, events) := (After(w, acts).procs[i], After(w, acts).db.events);
            forall k :: 0 <= k < |events| && events[k].schoolId == p.draft.schoolId && events[k].key == p.draft.key ==>
                          k == p.npc.id
  {
    var s := After(w, acts);
    Reached(w, acts);
    assert ProcOk(w.crypto, s.db, s.procs[i]) && ProcOk(w.crypto, s.db, s.procs[j]);
    KeyFindsOne(s.db.events, s.procs[i].npc.id, s.procs[j].npc.id);
    forall k | 0 <= k < |s.db.events| && s.db.events[k].schoolId == s.procs[i].draft.schoolId
               && s.db.events[k].key == s.procs[i].draft.key
      ensures k == s.procs[i].npc.id
    {
      KeyFindsOne(s.db.events, k, s.procs[i].npc.id);
    }
  }

  lemma KeyFindsOne(events: seq<Event>, i: nat, j: nat)
    requires UniqueEventKeys(events) && i < |events| && j < |events|
    requires events[i].schoolId == events[j].schoolId && events[i].key.Some? && events[i].key == events[j].key
    ensures i == j
  {
  }

  /** Creation never ends in the re-raised conflict: after a collision the other row is always found. */
  lemma CreationNeverRaises(w: C.World, acts: seq<Action>, i: nat)
    requires Q.Sound(w.crypto) && i < |After(w, acts).procs| && After(w, acts).procs[i].New?
    ensures !After(w, acts).procs[i].npc.Raised?
  {
    Reached(w, acts);
    assert ProcOk(w.crypto, After(w, acts).db, After(w, acts).procs[i]);
  }

  /** Row i carries the key of request pid, which has not looked yet or has been answered with it. */
  ghost predicate Replaying(s: Sys, pid: nat, i: nat) {
    && pid < |s.procs| && s.procs[pid].Reg? && i < |s.db.regs|
    && Truthy(s.procs[pid].key) && R.WithKey(s.procs[pid].e, s.procs[pid].key.value)(s.db.regs[i])
    && (s.procs[pid].rpc.Begin? || s.procs[pid].rpc == Done(i, false))
  }

  lemma ReplayLookup(c: Q.Crypto, s: Sys, pid: nat, i: nat)
    requires SysOk(c, s) && Replaying(s, pid, i)
    ensures First(s.db.regs, R.WithKey(s.procs[pid].e, s.procs[pid].key.value)) == Some(i)
  {
    var with := R.WithKey(s.procs[pid].e, s.procs[pid].key.value);
    var j := First(s.db.regs, with).value;
    assert with(s.db.regs[i]) && with(s.db.regs[j]);
  }

  /** No step ever changes which event and key a registration carries. */
  lemma KeyRowStays(c: Q.Crypto, db: Db, d: Delta, e: nat, key: string, i: nat)
    requires Legit(c, db, d) && i < |db.regs| && R.WithKey(e, key)(db.regs[i])
    ensures i < |Do(db, d).regs| && R.WithKey(e, key)(Do(db, d).regs[i])
  {
  }

  lemma ReplayingStays(w: C.World, s: Sys, pid: nat, i: nat, a: Action)
    requires Q.Sound(w.crypto) && SysOk(w.crypto, s) && Replaying(s, pid, i)
    ensures Replaying(Next(w, s, a), pid, i)
    ensures a.Step? && a.pid == pid ==> Next(w, s, a).db == s.db
  {
    var (e, key) := (s.procs[pid].e, s.procs[pid].key.value);
    if a.Step? && a.pid == pid {
      ReplayLookup(w.crypto, s, pid, i);
    } else if a.Step? && a.pid < |s.procs| {
      var p := s.procs[a.pid];
      assert ProcOk(w.crypto, s.db, p);
      MoveOk(w, s.db, p.Reg? && p.e !in s.locks, p, a.now);
      KeyRowStays(w.crypto, s.db, Move(w, s.db, p.Reg? && p.e !in s.locks, p, a.now).0, e, key, i);
    }
  }

  /** Registration: once a row carries (event, key), every request with that pair that has not yet done
      its key lookup can only end with that very row, under any schedule, and writes nothing. */
  lemma {:induction false} ReplayReturnsSameRow(w: C.World, s: Sys, pid: nat, i: nat, acts: seq<Action>)
    requires Q.Sound(w.crypto) && SysOk(w.crypto, s) && Replaying(s, pid, i)
    ensures Replaying(Schedule(w, s, acts), pid, i)
    decreases |acts|
  {
    if acts != [] {
      ReplayingStays(w, s, pid, i, acts[0]);
      NextKeeps(w, s, acts[0]);
      ReplayReturnsSameRow(w, Next(w, s, acts[0]), pid, i, acts[1..]);
    }
  }

  /** A request that loses the insert race is answered with its own attendee's row or with the row of its
      key; an inserting one with a row that is both. */
  lemma EveryAnswerFits(w: C.World, acts: seq<Action>, pid: nat)
    requires Q.Sound(w.crypto) && pid < |After(w, acts).procs|
    ensures var (s, p) := (After(w, acts), After(w, acts).procs[pid]);
            p.Reg? && p.rpc.Done? ==>
              && p.rpc.row < |s.db.regs| && s.db.regs[p.rpc.row].eventId == p.e
              && (s.db.regs[p.rpc.row].attendee == p.who || (Truthy(p.key) && s.db.regs[p.rpc.row].key == p.key))
              && (p.rpc.wrote ==> s.db.regs[p.rpc.row].attendee == p.who && s.db.regs[p.rpc.row].key == p.key)
  {
    Reached(w, acts);
    assert ProcOk(w.crypto, After(w, acts).db, After(w, acts).procs[pid]);
  }

  // ---------------------------------------------------------------- tokens

  /** Attendee-bound tokens: assuming the two attendees' hashes do not collide, no two check-ins carry the
      hash of one bound token, under every interleaving of peek, insert and consume. */
  lemma BoundTokenOnce(w: C.World, acts: seq<Action>, f: Q.Fields, i: nat, j: nat)
    requires Q.Sound(w.crypto) && Q.Mintable(f) && f.fragment.Some?
    requires var checkins := After(w, acts).db.checkins;
             && i < |checkins| && j < |checkins|
             && checkins[i].tokenHash == Some(w.crypto.sha256(Q.Raw(w.crypto, f))) == checkins[j].tokenHash
             && (w.crypto.attendeeHash(checkins[i].attendee) == w.crypto.attendeeHash(checkins[j].attendee) ==>
                   checkins[i].attendee == checkins[j].attendee)
    ensures i == j
  {
    var checkins := After(w, acts).db.checkins;
    Reached(w, acts);
    assert CheckinVouched(w.crypto, checkins[i]) && CheckinVouched(w.crypto, checkins[j]);
    assert Vouched(w.crypto, Q.Raw(w.crypto, f), checkins[i].eventId, checkins[i].attendee);
    assert Vouched(w.crypto, Q.Raw(w.crypto, f), checkins[j].eventId, checkins[j].attendee);
    Q.SamePrefix(w.crypto.attendeeHash(checkins[i].attendee), w.crypto.attendeeHash(checkins[j].attendee));
  }

  /** Two scans of different attendees at the door of event e with one string that passes the peek for
      both.  Unless their hashes collide the token is unbound; it may well be single-use, not yet marked. */
  ghost predicate SharedString(w: C.World, s: Sys, a: nat, b: nat, now: real) {
    && a < |s.procs| && b < |s.procs| && ScanReady(w, s.db, s.procs[a], now) && ScanReady(w, s.db, s.procs[b], now)
    && s.procs[a].e == s.procs[b].e && s.procs[a].raw == s.procs[b].raw && s.procs[a].who != s.procs[b].who
  }

  /** About to peek, with everything in place for a check-in. */
  predicate ScanReady(w: C.World, db: Db, p: Proc, now: real) {
    && p.Scan? && p.spc.Entering? && p.e < |db.events| && p.raw.Some?
    && Q.Peek(w.crypto, db.tokens, p.raw.value, p.e, "events", Some(p.who), now).status.Ok?
    && First(db.checkins, C.SamePair(p.e, p.who)).None?
    && var reg := First(db.regs, R.OfAttendee(p.e, p.who));
       reg.Some? && db.regs[reg.value].status != Cancelled
  }

  /** One step of a, then one of b. */
  function Both(w: C.World, s: Sys, a: nat, b: nat, now: real): Sys {
    Next(w, Next(w, s, Step(a, now)), Step(b, now))
  }

  lemma BothMove(w: C.World, s: Sys, a: nat, b: nat, now: real)
    requires a < |s.procs| && b < |s.procs| && a != b && s.procs[a].Scan? && s.procs[b].Scan?
    ensures var (d, p) := ScanMove(w, s.db, s.procs[a], now);
            var (d', q) := ScanMove(w, Do(s.db, d), s.procs[b], now);
            var s' := Both(w, s, a, b, now);
            |s'.procs| == |s.procs| && s'.procs[a] == p && s'.procs[b] == q && s'.db == Do(Do(s.db, d), d')
  {
  }

  /** Peeking and finding the registration change no table. */
  lemma DoorToDesk(w: C.World, s: Sys, a: nat, b: nat, now: real)
    requires SharedString(w, s, a, b, now)
    ensures var (p, q, s') := (s.procs[a], s.procs[b], Both(w, Both(w, s, a, b, now), a, b, now));
            && s'.db == s.db && |s'.procs| == |s.procs|
            && s'.procs[a].Scan? && s'.procs[a].spc.Cleared? && s'.procs[a] == p.(spc := s'.procs[a].spc)
            && s'.procs[b].Scan? && s'.procs[b].spc.Cleared? && s'.procs[b] == q.(spc := s'.procs[b].spc)
  {
    BothMove(w, s, a, b, now);
    BothMove(w, Both(w, s, a, b, now), a, b, now);
  }

  lemma InsertBoth(w: C.World, s: Sys, a: nat, b: nat, now: real)
    requires a < |s.procs| && b < |s.procs| && s.procs[a].Scan? && s.procs[b].Scan?
    requires s.procs[a].spc.Cleared? && s.procs[b].spc.Cleared? && s.procs[a].who != s.procs[b].who
    requires s.procs[a].e == s.procs[b].e < |s.db.events| && s.procs[a].raw == s.procs[b].raw && s.procs[a].raw.Some?
    requires First(s.db.checkins, C.SamePair(s.procs[a].e, s.procs[a].who)).None?
    requires First(s.db.checkins, C.SamePair(s.procs[b].e, s.procs[b].who)).None?
    ensures TwoRows(w, s, Both(w, s, a, b, now), a, b)
  {
    var (p, q) := (s.procs[a], s.procs[b]);
    BothMove(w, s, a, b, now);
    FirstAppend(s.db.checkins, ScanMove(w, s.db, p, now).0.checkin, C.SamePair(q.e, q.who));
  }

  /** The two scans added one row each, and both rows carry the hash of the shared string. */
  ghost predicate TwoRows(w: C.World, s: Sys, s': Sys, a: nat, b: nat)
    requires a < |s.procs| && b < |s.procs| && s.procs[a].Scan? && s.procs[b].Scan? && s.procs[a].raw.Some?
  {
    var (rows, n) := (s'.db.checkins, |s.db.checkins|);
    var hash := Some(w.crypto.sha256(s.procs[a].raw.value));
    && s'.db == s.db.(checkins := rows) && |rows| == n + 2
    && rows[n].tokenHash == hash && rows[n].attendee == s.procs[a].who
    && rows[n + 1].tokenHash == hash && rows[n + 1].attendee == s.procs[b].who
  }

  /** The binding above is needed: a string that passes the peek for two people, as that of an unbound and
      unmarked token does, is on two check-ins after six alternating steps. */
  lemma UnboundTokenTwice(w: C.World, s: Sys, a: nat, b: nat, now: real)
    requires SharedString(w, s, a, b, now)
    ensures TwoRows(w, s, Both(w, Both(w, Both(w, s, a, b, now), a, b, now), a, b, now), a, b)
  {
    DoorToDesk(w, s, a, b, now);
    InsertBoth(w, Both(w, Both(w, s, a, b, now), a, b, now), a, b, now);
  }
}
