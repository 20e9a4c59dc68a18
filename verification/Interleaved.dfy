/**
 Any number of requests in flight.  Each request is a small program whose steps are the single reads,
 the lock, the insert with its commit, the mark and the consume of its handler; a schedule picks who
 moves next.  Requests enter past their read-only gates, which only adds behaviours.
 */
module Interleaved {
  import opened Seqs
  import opened Types
  import Q = QrToken
  import V = Velocity
  import R = Registrations
  import C = Checkins
  import E = Events

  // ---------------------------------------------------------------- programs

  /** `register_for_event` after the gates. */
  datatype RegPc =
    | Begin                                // about to look for the key
    | Missed                               // no row for the key; about to lock the event row
    | Locked(capacity: Option<nat>)        // holds the lock; about to count
    | SawFull                              // holds the lock; about to read the last waitlist position
    | Ready(position: Option<nat>)         // holds the lock; about to insert and commit
    | Conflict                             // insert refused, lock released; about to re-fetch
    | Done(row: nat, wrote: bool)
    | Failed

  /** `submit_checkin` after the gates. */
  datatype ScanPc =
    | Entering                             // about to peek at the token, if the method needs one
    | Peeked(token: Option<nat>)           // about to look for the registration
    | Cleared(token: Option<nat>, reg: nat) // about to insert and commit
    | Inserted(token: Option<nat>, reg: nat, row: nat) // about to re-read and mark the registration
    | Marked(token: Option<nat>, row: nat) // about to consume the token
    | Finished(row: nat)
    | TurnedAway(answer: C.Response)

  /** `create_event` after the gates. */
  datatype NewPc =
    | Asking                               // about to look for the key
    | Absent                               // about to insert and commit
    | Collided                             // insert refused; about to re-fetch
    | Answered(id: nat)
    | Raised

  datatype Proc =
    | Reg(e: nat, who: string, key: Option<string>, rpc: RegPc)
    | Scan(e: nat, who: string, how: Method, raw: Option<string>, place: Option<(string, string)>, spc: ScanPc)
    | New(draft: Event, npc: NewPc)

  predicate Holding(p: Proc) {
    p.Reg? && (p.rpc.Locked? || p.rpc.SawFull? || p.rpc.Ready?)
  }

  predicate Starting(events: seq<Event>, p: Proc) {
    match p
    case Reg(e, _, _, pc) => e < |events| && pc.Begin?
    case Scan(e, _, how, raw, place, pc) =>
      && e < |events| && pc.Entering?
      && (raw.Some? <==> how == Qr || how == QrGeo) && (place.Some? <==> how == Geo || how == QrGeo)
    case New(draft, pc) => pc.Asking? && draft.key != Some("")
  }

  /** What one step does to the tables. */
  datatype Delta =
    | Nothing
    | AppendReg(reg: Registration)
    | SetStatus(i: nat, status: RegStatus)
    | AppendCheckin(checkin: Checkin)
    | SetTokens(tokens: seq<Token>)
    | AppendEvent(event: Event)
    | SetCapacity(e: nat, capacity: Option<nat>)

  function Do(db: Db, d: Delta): Db {
    match d
    case Nothing => db
    case AppendReg(row) => db.(regs := db.regs + [row])
    case SetStatus(i, status) => if i < |db.regs| then db.(regs := db.regs[i := db.regs[i].(status := status)]) else db
    case AppendCheckin(row) => db.(checkins := db.checkins + [row])
    case SetTokens(tokens) => db.(tokens := tokens)
    case AppendEvent(row) => db.(events := db.events + [row])
    case SetCapacity(e, capacity) =>
      if e < |db.events| then db.(events := db.events[e := db.events[e].(maxCapacity := capacity)]) else db
  }

  function ReadyRow(db: Db, p: Proc): Registration
    requires p.Reg? && p.rpc.Ready? && p.e < |db.events|
  {
    Registration(db.events[p.e].schoolId, p.e, p.who, if p.rpc.position.Some? then Waitlisted else Registered,
                 p.rpc.position, p.key)
  }

  /** One step of a registration; `free` says whether the event's row lock can be taken. */
  function RegMove(db: Db, free: bool, p: Proc): (Delta, Proc)
    requires p.Reg?
  {
    if p.e >= |db.events| then (Nothing, p)
    else
      match p.rpc
      case Begin =>
        var replay := if Truthy(p.key) then First(db.regs, R.WithKey(p.e, p.key.value)) else None;
        (Nothing, p.(rpc := if replay.Some? then Done(replay.value, false) else Missed))
      case Missed => (Nothing, if free then p.(rpc := Locked(db.events[p.e].maxCapacity)) else p)
      case Locked(capacity) =>
        (Nothing, p.(rpc := if capacity.Some? && Count(db.regs, R.Occupying(p.e)) >= capacity.value
                            then SawFull else Ready(None)))
      case SawFull => (Nothing, p.(rpc := Ready(Some(R.MaxPosition(db.regs, p.e) + 1))))
      case Ready(position) =>
        if R.Clashes(db.regs, ReadyRow(db, p)) then (Nothing, p.(rpc := Conflict))
        else (AppendReg(ReadyRow(db, p)), p.(rpc := Done(|db.regs|, true)))
      case Conflict =>
        var existing := First(db.regs, R.OfAttendee(p.e, p.who));
        (Nothing, p.(rpc := if existing.Some? then Done(existing.value, false) else Failed))
      case Done(_, _) => (Nothing, p)
      case Failed => (Nothing, p)
  }

  /** The row of a check-in; `place` are the hashes of the submitted coordinates, once the fence has passed. */
  function ScanRow(w: C.World, db: Db, p: Proc, now: real): Checkin
    requires p.Scan? && p.e < |db.events|
  {
    Checkin(db.events[p.e].schoolId, p.e, p.who, now, p.how,
            if p.raw.Some? then Some(w.crypto.sha256(p.raw.value)) else None,
            if p.place.Some? then Some(p.place.value.0) else None,
            if p.place.Some? then Some(p.place.value.1) else None,
            if p.place.Some? then Some(true) else None)
  }

  function ScanMove(w: C.World, db: Db, p: Proc, now: real): (Delta, Proc)
    requires p.Scan?
  {
    if p.e >= |db.events| then (Nothing, p)
    else
      match p.spc
      case Entering =>
        if p.raw.None? then (Nothing, p.(spc := Peeked(None)))
        else
          var peek := Q.Peek(w.crypto, db.tokens, p.raw.value, p.e, "events", Some(p.who), now);
          (Nothing, p.(spc := if peek.status.Ok? then Peeked(peek.row) else TurnedAway(C.TokenRejection(peek.status))))
      case Peeked(token) =>
        var reg := First(db.regs, R.OfAttendee(p.e, p.who));
        (Nothing, p.(spc := if reg.Some? && db.regs[reg.value].status != Cancelled then Cleared(token, reg.value)
                            else TurnedAway(C.Rejected("registration_required"))))
      case Cleared(token, reg) =>
        var existing := First(db.checkins, C.SamePair(p.e, p.who));
        if existing.Some? then
          (Nothing, p.(spc := TurnedAway(C.Duplicate(existing.value, db.checkins[existing.value].at))))
        else
          (AppendCheckin(ScanRow(w, db, p, now)),
           p.(spc := Inserted(token, reg, |db.checkins|)))
      case Inserted(token, reg, row) =>
        (if reg < |db.regs| && db.regs[reg].status != Cancelled then SetStatus(reg, Attended) else Nothing,
         p.(spc := Marked(token, row)))
      case Marked(token, row) =>
        (if token.Some? && token.value < |db.tokens|
         then SetTokens(C.Consume(db.tokens, token.value, p.who, now)) else Nothing,
         p.(spc := Finished(row)))
      case Finished(_) => (Nothing, p)
      case TurnedAway(_) => (Nothing, p)
  }

  function NewMove(db: Db, p: Proc): (Delta, Proc)
    requires p.New?
  {
    var existing := if p.draft.key.Some? then First(db.events, E.WithKey(p.draft.schoolId, p.draft.key.value))
                    else None;
    match p.npc
    case Asking => (Nothing, p.(npc := if existing.Some? then Answered(existing.value) else Absent))
    case Absent =>
      if existing.Some? then (Nothing, p.(npc := Collided))
      else (AppendEvent(p.draft), p.(npc := Answered(|db.events|)))
    case Collided => (Nothing, p.(npc := if existing.Some? then Answered(existing.value) else Raised))
    case Answered(_) => (Nothing, p)
    case Raised => (Nothing, p)
  }

  function Move(w: C.World, db: Db, free: bool, p: Proc, now: real): (Delta, Proc) {
    match p
    case Reg(_, _, _, _) => RegMove(db, free, p)
    case Scan(_, _, _, _, _, _) => ScanMove(w, db, p, now)
    case New(_, _) => NewMove(db, p)
  }

  // ---------------------------------------------------------------- schedules

  /** `locks[e]` is the request holding the row lock of event e. */
  datatype Sys = Sys(db: Db, procs: seq<Proc>, locks: map<nat, nat>)

  datatype Action =
    | Spawn(proc: Proc)
    | Step(pid: nat, now: real)
    | Cancel(e: nat, who: string)
    | Mint(rq: Q.MintRequest)
    | RaiseCapacity(event: nat, capacity: Option<nat>)

  const IDLE := Sys(Db([], [], [], [], []), [], map[])

  function Relock(locks: map<nat, nat>, pid: nat, p: Proc, q: Proc): map<nat, nat>
    requires Holding(p) || Holding(q) ==> p.Reg? && q.Reg?
  {
    if Holding(q) && !Holding(p) then locks[q.e := pid]
    else if Holding(p) && !Holding(q) then locks - {p.e}
    else locks
  }

  lemma MoveKeepsKind(w: C.World, db: Db, free: bool, p: Proc, now: real)
    ensures var q := Move(w, db, free, p, now).1;
            (p.Reg? <==> q.Reg?) && (p.Scan? <==> q.Scan?)
            && (p.Reg? ==> q == p.(rpc := q.rpc)) && (p.Scan? ==> q == p.(spc := q.spc))
            && (p.New? ==> q == p.(npc := q.npc))
  {
  }

  /** Capacity is never lowered: lifting the cap or a larger one. */
  predicate Raises(was: Option<nat>, now: Option<nat>) {
    now.None? || (was.Some? && was.value <= now.value)
  }

  function Next(w: C.World, s: Sys, a: Action): Sys {
    match a
    case Spawn(proc) => if Starting(s.db.events, proc) then s.(procs := s.procs + [proc]) else s
    case Step(pid, now) =>
      if pid >= |s.procs| then s
      else
        var p := s.procs[pid];
        var (d, q) := Move(w, s.db, p.Reg? && p.e !in s.locks, p, now);
        MoveKeepsKind(w, s.db, p.Reg? && p.e !in s.locks, p, now);
        Sys(Do(s.db, d), s.procs[pid := q], Relock(s.locks, pid, p, q))
    case Cancel(e, who) =>
      (match First(s.db.regs, R.OfAttendee(e, who))
       case None => s
       case Some(i) => s.(db := Do(s.db, SetStatus(i, Cancelled))))
    case Mint(rq) => s.(db := Do(s.db, SetTokens(Q.MintTx(w.crypto, s.db.tokens, rq).0)))
    case RaiseCapacity(e, capacity) =>
      if e < |s.db.events| && Raises(s.db.events[e].maxCapacity, capacity)
      then s.(db := Do(s.db, SetCapacity(e, capacity))) else s
  }

  function Schedule(w: C.World, s: Sys, acts: seq<Action>): Sys
    decreases |acts|
  {
    if acts == [] then s else Schedule(w, Next(w, s, acts[0]), acts[1..])
  }

  // ---------------------------------------------------------------- invariants

  /** Rows that took a seat by registering; they never were waitlisted. */
  function Seated(e: nat): Registration -> bool {
    (r: Registration) => r.eventId == e && (r.status == Registered || r.status == Attended) && r.position.None?
  }

  /** Attended rows that were first inserted as waitlisted. */
  function LateComer(e: nat): Registration -> bool {
    (r: Registration) => r.eventId == e && r.status == Attended && r.position.Some?
  }

  predicate RowShape(events: seq<Event>, r: Registration) {
    && r.eventId < |events|
    && (r.status == Registered ==> r.position.None?)
    && (r.status == Waitlisted ==> r.position.Some? && r.position.value >= 1)
  }

  predicate Fits(db: Db, e: nat)
    requires e < |db.events|
  {
    db.events[e].maxCapacity.Some? ==> Count(db.regs, Seated(e)) <= db.events[e].maxCapacity.value
  }

  predicate RoomLeft(db: Db, e: nat)
    requires e < |db.events|
  {
    db.events[e].maxCapacity.Some? ==> Count(db.regs, Seated(e)) < db.events[e].maxCapacity.value
  }

  ghost predicate AllBelow(regs: seq<Registration>, e: nat, n: nat) {
    forall i :: 0 <= i < |regs| && R.Waiting(e)(regs[i]) && regs[i].position.Some? ==> regs[i].position.value < n
  }

  /** Waitlist positions increase in insertion order. */
  ghost predicate InLine(regs: seq<Registration>) {
    forall i, j :: 0 <= i < j < |regs| && regs[i].eventId == regs[j].eventId
                   && regs[i].status == Waitlisted && regs[j].status == Waitlisted
                   && regs[i].position.Some? && regs[j].position.Some? ==>
                     regs[i].position.value < regs[j].position.value
  }

  /** If this string was printed for some fields, they are of this event and, if bound, of this person. */
  ghost predicate Vouched(c: Q.Crypto, raw: string, e: nat, who: string) {
    forall f :: Q.Mintable(f) && raw == Q.Raw(c, f) ==>
                  f.table == "events" && f.eventId == e && Q.BoundTo(c, f.fragment, Some(who))
  }

  ghost predicate CheckinVouched(c: Q.Crypto, row: Checkin) {
    forall raw :: row.tokenHash == Some(c.sha256(raw)) ==> Vouched(c, raw, row.eventId, row.attendee)
  }

  ghost predicate UniqueEventKeys(events: seq<Event>) {
    forall i, j :: 0 <= i < j < |events| && events[i].schoolId == events[j].schoolId && events[i].key.Some? ==>
                     events[i].key != events[j].key
  }

  ghost predicate DbOk(c: Q.Crypto, db: Db) {
    && R.UniqueAttendees(db.regs) && R.UniqueKeys(db.regs) && InLine(db.regs)
    && (forall i :: 0 <= i < |db.regs| ==> RowShape(db.events, db.regs[i]))
    && (forall e :: 0 <= e < |db.events| ==> Fits(db, e))
    && V.OnePerEvent(db.checkins)
    && (forall j :: 0 <= j < |db.checkins| ==> CheckinVouched(c, db.checkins[j]))
    && UniqueEventKeys(db.events)
  }

  /** The capacity read under the lock is still a lower bound of the current one. */
  predicate CapacityKnown(event: Event, capacity: Option<nat>) {
    event.maxCapacity.Some? ==> capacity.Some? && capacity.value <= event.maxCapacity.value
  }

  predicate Answers(r: Registration, p: Proc, wrote: bool)
    requires p.Reg?
  {
    && r.eventId == p.e
    && (r.attendee == p.who || (Truthy(p.key) && r.key == p.key))
    && (wrote ==> r.attendee == p.who && r.key == p.key)
  }

  /** The key is taken by somebody else's row. */
  predicate ForeignKey(regs: seq<Registration>, e: nat, who: string, key: string) {
    var i := First(regs, R.WithKey(e, key));
    i.Some? && regs[i.value].attendee != who
  }

  ghost predicate RegOk(db: Db, p: Proc)
    requires p.Reg?
  {
    && p.e < |db.events|
    && match p.rpc
       case Locked(capacity) => CapacityKnown(db.events[p.e], capacity)
       case Ready(position) =>
         if position.None? then RoomLeft(db, p.e) else position.value >= 1 && AllBelow(db.regs, p.e, position.value)
       case Conflict => R.Clashes(db.regs, Registration("", p.e, p.who, Registered, None, p.key))
       case Done(row, wrote) => row < |db.regs| && Answers(db.regs[row], p, wrote)
       case Failed => p.key.Some? && ForeignKey(db.regs, p.e, p.who, p.key.value)
       case _ => true
  }

  ghost predicate ScanOk(c: Q.Crypto, db: Db, p: Proc)
    requires p.Scan?
  {
    && p.e < |db.events|
    && (!p.spc.Entering? && !p.spc.TurnedAway? && p.raw.Some? ==> Vouched(c, p.raw.value, p.e, p.who))
  }

  ghost predicate NewOk(db: Db, p: Proc)
    requires p.New?
  {
    match p.npc
    case Collided => p.draft.key.Some? && First(db.events, E.WithKey(p.draft.schoolId, p.draft.key.value)).Some?
    case Answered(id) =>
      id < |db.events| && (p.draft.key.Some? ==> E.WithKey(p.draft.schoolId, p.draft.key.value)(db.events[id]))
    case Raised => false
    case _ => true
  }

  ghost predicate ProcOk(c: Q.Crypto, db: Db, p: Proc) {
    match p
    case Reg(_, _, _, _) => RegOk(db, p)
    case Scan(_, _, _, _, _, _) => ScanOk(c, db, p)
    case New(_, _) => NewOk(db, p)
  }

  /** The lock table names exactly the holders, so an event has at most one. */
  ghost predicate LocksOk(procs: seq<Proc>, locks: map<nat, nat>) {
    && (forall pid :: 0 <= pid < |procs| && Holding(procs[pid]) ==> procs[pid].e in locks && locks[procs[pid].e] == pid)
    && (forall e :: e in locks ==> locks[e] < |procs| && Holding(procs[locks[e]]) && procs[locks[e]].e == e)
  }

  ghost predicate SysOk(c: Q.Crypto, s: Sys) {
    && DbOk(c, s.db)
    && LocksOk(s.procs, s.locks)
    && forall pid :: 0 <= pid < |s.procs| ==> ProcOk(c, s.db, s.procs[pid])
  }

  // ---------------------------------------------------------------- deltas keep the tables

  /** When steps use each delta. */
  ghost predicate Legit(c: Q.Crypto, db: Db, d: Delta) {
    match d
    case Nothing => true
    case AppendReg(row) =>
      && !R.Clashes(db.regs, row) && row.eventId < |db.events|
      && (|| (row.status == Registered && row.position.None? && RoomLeft(db, row.eventId))
          || (row.status == Waitlisted && row.position.Some? && row.position.value >= 1
              && AllBelow(db.regs, row.eventId, row.position.value)))
    case SetStatus(i, status) =>
      i < |db.regs| && (status == Cancelled || (status == Attended && db.regs[i].status != Cancelled))
    case AppendCheckin(row) => First(db.checkins, C.SamePair(row.eventId, row.attendee)).None? && CheckinVouched(c, row)
    case SetTokens(tokens) => true
    case AppendEvent(row) => (row.key.Some? ==> First(db.events, E.WithKey(row.schoolId, row.key.value)).None?)
    case SetCapacity(e, capacity) => e < |db.events| && Raises(db.events[e].maxCapacity, capacity)
  }

  /** Setting a status never seats anybody. */
  lemma SeatsOnlyShrink(db: Db, i: nat, status: RegStatus, e: nat)
    requires i < |db.regs| && RowShape(db.events, db.regs[i])
    requires status == Cancelled || (status == Attended && db.regs[i].status != Cancelled)
    ensures Count(Do(db, SetStatus(i, status)).regs, Seated(e)) <= Count(db.regs, Seated(e))
  {
    CountUpdate(db.regs, i, db.regs[i].(status := status), Seated(e));
  }

  lemma SeatsAfterAppend(db: Db, row: Registration, e: nat)
    ensures Count(db.regs + [row], Seated(e)) == Count(db.regs, Seated(e)) + Ind(Seated(e)(row))
  {
    CountAppend(db.regs, row, Seated(e));
  }

  lemma FitsKept(c: Q.Crypto, db: Db, d: Delta, e: nat)
    requires DbOk(c, db) && Legit(c, db, d) && e < |Do(db, d).events|
    ensures Fits(Do(db, d), e)
  {
    match d
    case AppendReg(row) => SeatsAfterAppend(db, row, e); assert Fits(db, e);
    case SetStatus(i, status) => SeatsOnlyShrink(db, i, status, e); assert Fits(db, e);
    case AppendEvent(row) =>
      if e < |db.events| { assert Fits(db, e); } else { NobodySeated(db, e); }
    case _ => assert Fits(db, e);
  }

  lemma NobodySeated(db: Db, e: nat)
    requires e >= |db.events| && forall i :: 0 <= i < |db.regs| ==> RowShape(db.events, db.regs[i])
    ensures Count(db.regs, Seated(e)) == 0
  {
    CountZero(db.regs, Seated(e));
  }

  lemma RegAppendKept(c: Q.Crypto, db: Db, row: Registration)
    requires DbOk(c, db) && Legit(c, db, AppendReg(row))
    ensures R.UniqueAttendees(db.regs + [row]) && R.UniqueKeys(db.regs + [row]) && InLine(db.regs + [row])
  {
    assert forall i :: 0 <= i < |db.regs| ==> !R.OfAttendee(row.eventId, row.attendee)(db.regs[i]);
    assert row.key.Some? ==> forall i :: 0 <= i < |db.regs| ==> !R.WithKey(row.eventId, row.key.value)(db.regs[i]);
    forall i | 0 <= i < |db.regs| && db.regs[i].eventId == row.eventId && db.regs[i].status == Waitlisted
               && row.status == Waitlisted
      ensures db.regs[i].position.value < row.position.value
    {
      assert R.Waiting(row.eventId)(db.regs[i]) && RowShape(db.events, db.regs[i]);
    }
  }

  lemma StatusKept(regs: seq<Registration>, i: nat, status: RegStatus)
    requires R.UniqueAttendees(regs) && R.UniqueKeys(regs) && InLine(regs) && i < |regs| && status != Waitlisted
    ensures var regs' := regs[i := regs[i].(status := status)];
            R.UniqueAttendees(regs') && R.UniqueKeys(regs') && InLine(regs')
  {
  }

  lemma RegsTableKept(c: Q.Crypto, db: Db, d: Delta)
    requires DbOk(c, db) && Legit(c, db, d)
    ensures var regs' := Do(db, d).regs;
            R.UniqueAttendees(regs') && R.UniqueKeys(regs') && InLine(regs')
            && forall i :: 0 <= i < |regs'| ==> RowShape(Do(db, d).events, regs'[i])
  {
    if d.AppendReg? { RegAppendKept(c, db, d.reg); }
    if d.SetStatus? { StatusKept(db.regs, d.i, d.status); }
  }

  lemma OtherTablesKept(c: Q.Crypto, db: Db, d: Delta)
    requires DbOk(c, db) && Legit(c, db, d)
    ensures var db' := Do(db, d);
            V.OnePerEvent(db'.checkins) && UniqueEventKeys(db'.events)
            && forall j :: 0 <= j < |db'.checkins| ==> CheckinVouched(c, db'.checkins[j])
  {
    if d.AppendCheckin? {
      assert forall j :: 0 <= j < |db.checkins| ==> !C.SamePair(d.checkin.eventId, d.checkin.attendee)(db.checkins[j]);
    }
    if d.AppendEvent? && d.event.key.Some? {
      assert forall i :: 0 <= i < |db.events| ==> !E.WithKey(d.event.schoolId, d.event.key.value)(db.events[i]);
    }
  }

  lemma DbKept(c: Q.Crypto, db: Db, d: Delta)
    requires DbOk(c, db) && Legit(c, db, d)
    ensures DbOk(c, Do(db, d))
  {
    RegsTableKept(c, db, d);
    OtherTablesKept(c, db, d);
    forall e | 0 <= e < |Do(db, d).events| ensures Fits(Do(db, d), e) {
      FitsKept(c, db, d, e);
    }
  }

  // ---------------------------------------------------------------- deltas keep the other requests

  /** The step of one request does not disturb another; a row is appended to an event only by the holder
      of its lock. */
  ghost predicate Undisturbed(d: Delta, p: Proc) {
    d.AppendReg? && Holding(p) ==> d.reg.eventId != p.e
  }

  lemma RoomKept(c: Q.Crypto, db: Db, d: Delta, e: nat)
    requires DbOk(c, db) && Legit(c, db, d) && e < |db.events| && RoomLeft(db, e)
    requires d.AppendReg? ==> d.reg.eventId != e
    ensures RoomLeft(Do(db, d), e)
  {
    match d
    case AppendReg(row) => SeatsAfterAppend(db, row, e);
    case SetStatus(i, status) => SeatsOnlyShrink(db, i, status, e);
    case _ =>
  }

  /** A query that does not look at the status finds the same first row after any delta. */
  lemma RegFoundLater(db: Db, d: Delta, p: Registration -> bool)
    requires First(db.regs, p).Some?
    requires forall r: Registration, status: RegStatus :: p(r) == p(r.(status := status))
    ensures First(Do(db, d).regs, p) == First(db.regs, p)
  {
    if d.AppendReg? {
      FirstAppend(db.regs, d.reg, p);
    } else if d.SetStatus? && d.i < |db.regs| {
      assert p(db.regs[d.i]) == p(db.regs[d.i].(status := d.status));
      SameSelection(db.regs, Do(db, d).regs, p, p);
    }
  }

  lemma RegKept(c: Q.Crypto, db: Db, d: Delta, p: Proc)
    requires DbOk(c, db) && Legit(c, db, d) && p.Reg? && RegOk(db, p) && Undisturbed(d, p)
    ensures RegOk(Do(db, d), p)
  {
    match p.rpc
    case Ready(position) =>
      if position.None? { RoomKept(c, db, d, p.e); }
    case Conflict =>
      if First(db.regs, R.OfAttendee(p.e, p.who)).Some? { RegFoundLater(db, d, R.OfAttendee(p.e, p.who)); }
      else { RegFoundLater(db, d, R.WithKey(p.e, p.key.value)); }
    case Failed => RegFoundLater(db, d, R.WithKey(p.e, p.key.value));
    case _ =>
  }

  lemma NewKept(c: Q.Crypto, db: Db, d: Delta, p: Proc)
    requires Legit(c, db, d) && p.New? && NewOk(db, p)
    ensures NewOk(Do(db, d), p)
  {
    if p.npc.Collided? {
      var with := E.WithKey(p.draft.schoolId, p.draft.key.value);
      var i := First(db.events, with).value;
      assert with(Do(db, d).events[i]);
    }
  }

  lemma ProcKept(c: Q.Crypto, db: Db, d: Delta, p: Proc)
    requires DbOk(c, db) && Legit(c, db, d) && ProcOk(c, db, p) && Undisturbed(d, p)
    ensures ProcOk(c, Do(db, d), p)
  {
    if p.Reg? { RegKept(c, db, d, p); }
    if p.New? { NewKept(c, db, d, p); }
  }

  // ---------------------------------------------------------------- the moving request

  /** A count below the capacity read under the lock leaves room. */
  lemma CountedRoom(db: Db, e: nat, capacity: nat)
    requires e < |db.events| && CapacityKnown(db.events[e], Some(capacity))
    requires Count(db.regs, R.Occupying(e)) < capacity
    ensures RoomLeft(db, e)
  {
    CountMono(db.regs, Seated(e), R.Occupying(e));
  }

  lemma RegMoveOk(c: Q.Crypto, db: Db, free: bool, p: Proc)
    requires DbOk(c, db) && p.Reg? && RegOk(db, p)
    ensures var (d, q) := RegMove(db, free, p);
            Legit(c, db, d) && RegOk(Do(db, d), q) && (d.AppendReg? ==> Holding(p) && d.reg.eventId == p.e)
  {
    match p.rpc
    case Locked(capacity) =>
      if capacity.Some? && Count(db.regs, R.Occupying(p.e)) < capacity.value { CountedRoom(db, p.e, capacity.value); }
    case Ready(position) =>
      if R.Clashes(db.regs, ReadyRow(db, p)) {
        assert R.Clashes(db.regs, Registration("", p.e, p.who, Registered, None, p.key));
      }
    case _ =>
  }

  /** Passing the peek vouches for the string: the parser's event and attendee match decide. */
  lemma PeekVouches(c: Q.Crypto, tokens: seq<Token>, raw: string, e: nat, who: string, now: real)
    requires Q.Sound(c) && Q.Peek(c, tokens, raw, e, "events", Some(who), now).status.Ok?
    ensures Vouched(c, raw, e, who)
  {
    forall f | Q.Mintable(f) && raw == Q.Raw(c, f)
      ensures f.table == "events" && f.eventId == e && Q.BoundTo(c, f.fragment, Some(who))
    {
      Q.ParseRaw(c, f);
    }
  }

  lemma ScanMoveOk(w: C.World, db: Db, p: Proc, now: real)
    requires Q.Sound(w.crypto) && DbOk(w.crypto, db) && p.Scan? && ScanOk(w.crypto, db, p)
    ensures var (d, q) := ScanMove(w, db, p, now);
            Legit(w.crypto, db, d) && ScanOk(w.crypto, Do(db, d), q) && !d.AppendReg?
  {
    if p.spc.Entering? && p.raw.Some?
       && Q.Peek(w.crypto, db.tokens, p.raw.value, p.e, "events", Some(p.who), now).status.Ok? {
      PeekVouches(w.crypto, db.tokens, p.raw.value, p.e, p.who, now);
    }
  }

  lemma NewMoveOk(c: Q.Crypto, db: Db, p: Proc)
    requires DbOk(c, db) && p.New? && NewOk(db, p)
    ensures var (d, q) := NewMove(db, p);
            Legit(c, db, d) && NewOk(Do(db, d), q) && !d.AppendReg?
  {
  }

  lemma MoveOk(w: C.World, db: Db, free: bool, p: Proc, now: real)
    requires Q.Sound(w.crypto) && DbOk(w.crypto, db) && ProcOk(w.crypto, db, p)
    ensures var (d, q) := Move(w, db, free, p, now);
            Legit(w.crypto, db, d) && ProcOk(w.crypto, Do(db, d), q)
            && (d.AppendReg? ==> Holding(p) && d.reg.eventId == p.e)
  {
    match p
    case Reg(_, _, _, _) => RegMoveOk(w.crypto, db, free, p);
    case Scan(_, _, _, _, _, _) => ScanMoveOk(w, db, p, now);
    case New(_, _) => NewMoveOk(w.crypto, db, p);
  }

  lemma LocksKept(w: C.World, s: Sys, pid: nat, now: real)
    requires LocksOk(s.procs, s.locks) && pid < |s.procs|
    ensures LocksOk(Next(w, s, Step(pid, now)).procs, Next(w, s, Step(pid, now)).locks)
  {
    var p := s.procs[pid];
    var free := p.Reg? && p.e !in s.locks;
    var q := Move(w, s.db, free, p, now).1;
    MoveKeepsKind(w, s.db, free, p, now);
    if Holding(q) && !Holding(p) { assert p.rpc.Missed? && free; }
  }

  /** One step of one request keeps everything. */
  lemma StepKeeps(w: C.World, s: Sys, pid: nat, now: real)
    requires Q.Sound(w.crypto) && SysOk(w.crypto, s) && pid < |s.procs|
    ensures SysOk(w.crypto, Next(w, s, Step(pid, now)))
  {
    var p := s.procs[pid];
    var (d, q) := Move(w, s.db, p.Reg? && p.e !in s.locks, p, now);
    assert ProcOk(w.crypto, s.db, p);
    MoveOk(w, s.db, p.Reg? && p.e !in s.locks, p, now);
    LocksKept(w, s, pid, now);
    DbKept(w.crypto, s.db, d);
    forall k | 0 <= k < |s.procs| && k != pid ensures ProcOk(w.crypto, Do(s.db, d), s.procs[k]) {
      assert ProcOk(w.crypto, s.db, s.procs[k]);
      ProcKept(w.crypto, s.db, d, s.procs[k]);
    }
  }

  lemma OutsideKeeps(w: C.World, s: Sys, d: Delta)
    requires SysOk(w.crypto, s) && Legit(w.crypto, s.db, d) && !d.AppendReg?
    ensures SysOk(w.crypto, s.(db := Do(s.db, d)))
  {
    DbKept(w.crypto, s.db, d);
    forall k | 0 <= k < |s.procs| ensures ProcOk(w.crypto, Do(s.db, d), s.procs[k]) {
      assert ProcOk(w.crypto, s.db, s.procs[k]);
      ProcKept(w.crypto, s.db, d, s.procs[k]);
    }
  }

  lemma NextKeeps(w: C.World, s: Sys, a: Action)
    requires Q.Sound(w.crypto) && SysOk(w.crypto, s)
    ensures SysOk(w.crypto, Next(w, s, a))
  {
    match a
    case Spawn(proc) =>
    case Step(pid, now) => if pid < |s.procs| { StepKeeps(w, s, pid, now); }
    case Cancel(e, who) =>
      var i := First(s.db.regs, R.OfAttendee(e, who));
      if i.Some? { OutsideKeeps(w, s, SetStatus(i.value, Cancelled)); }
    case Mint(rq) => OutsideKeeps(w, s, SetTokens(Q.MintTx(w.crypto, s.db.tokens, rq).0));
    case RaiseCapacity(e, capacity) =>
      if e < |s.db.events| && Raises(s.db.events[e].maxCapacity, capacity) {
        OutsideKeeps(w, s, SetCapacity(e, capacity)); }
  }

  /** Every state any schedule reaches satisfies every invariant. */
  lemma {:induction false} ScheduleKeeps(w: C.World, s: Sys, acts: seq<Action>)
    requires Q.Sound(w.crypto) && SysOk(w.crypto, s)
    ensures SysOk(w.crypto, Schedule(w, s, acts))
    decreases |acts|
  {
    if acts != [] {
      NextKeeps(w, s, acts[0]);
      ScheduleKeeps(w, Next(w, s, acts[0]), acts[1..]);
    }
  }
}
