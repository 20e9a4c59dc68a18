/** The RSVP router: gates, key replay, capacity and waitlist, duplicate handling, cancellation. */
module Registrations {
  import opened Seqs
  import opened Types
  import opened Charter

  /** Group rosters kept by other services: active (group, user) pairs, and accepted (team lead, user) pairs. */
  datatype Rosters = Rosters(groupMembers: set<(int, string)>, cohorts: set<(string, string)>)

  /** The user is in somebody's cohort. */
  predicate InSomeCohort(rosters: Rosters, who: string) {
    exists pair :: pair in rosters.cohorts && pair.1 == who
  }

  datatype Request = Request(actor: Actor, eventId: int, attendee: Option<string>, key: Option<string>)

  datatype Response = Row(id: nat) | Refused(status: int, code: string)

  predicate KeyChar(ch: char) {
    'A' <= ch <= 'Z' || 'a' <= ch <= 'z' || '0' <= ch <= '9' || ch in "_-:."
  }

  /** What `$` leaves for the pattern: it also tolerates one final line feed. */
  function KeyCore(key: string): string {
    if key != "" && key[|key| - 1] == '\n' then key[..|key| - 1] else key
  }

  /** `_IDEM_RE`: 8 to 128 characters */
  predicate KeyOk(key: string) {
    8 <= |KeyCore(key)| <= 128 && forall i :: 0 <= i < |KeyCore(key)| ==> KeyChar(KeyCore(key)[i])
  }

  lemma KeyCharExact(ch: char)
    ensures KeyChar(ch) <==> KeyLetter(ch)
  {
    assert "_-:."[0] == '_' && "_-:."[1] == '-' && "_-:."[2] == ':' && "_-:."[3] == '.';
  }

  lemma KeyOkExact(key: string)
    ensures KeyOk(key) <==> KeyText(key)
  {
    var core := KeyCore(key);
    forall i | 0 <= i < |core| ensures core[i] == key[i] && (KeyChar(core[i]) <==> KeyLetter(key[i])) {
      KeyCharExact(key[i]);
    }
    if KeyText(key) {
      var n: nat :| 8 <= n <= 128 && KeyBody(key, n);
      assert KeyLetter(key[n - 1]) && n == |core|;
    }
    if KeyOk(key) {
      assert KeyBody(key, |core|);
    }
  }

  // ---------------------------------------------------------------- queries

  function OfAttendee(e: nat, attendee: string): Registration -> bool {
    (r: Registration) => r.eventId == e && r.attendee == attendee
  }

  function WithKey(e: nat, key: string): Registration -> bool {
    (r: Registration) => r.eventId == e && r.key == Some(key)
  }

  /** Rows that count against the capacity of e. */
  function Occupying(e: nat): Registration -> bool {
    (r: Registration) => r.eventId == e && (r.status == Registered || r.status == Attended)
  }

  function Waiting(e: nat): Registration -> bool {
    (r: Registration) => r.eventId == e && r.status == Waitlisted
  }

  /** `MAX(waitlist_position)` over the waitlisted rows of e, or 0. */
  function MaxPosition(regs: seq<Registration>, e: nat): (max: nat)
    ensures forall i :: 0 <= i < |regs| && Waiting(e)(regs[i]) && regs[i].position.Some? ==>
                          regs[i].position.value <= max
    ensures max == 0 || exists i :: 0 <= i < |regs| && Waiting(e)(regs[i]) && regs[i].position == Some(max)
  {
    if regs == [] then 0
    else
      var n := |regs| - 1;
      var max := MaxPosition(regs[..n], e);
      assert forall i :: 0 <= i < n ==> regs[i] == regs[..n][i];
      if Waiting(e)(regs[n]) && regs[n].position.Some? && regs[n].position.value > max
      then regs[n].position.value else max
  }

  lemma SeatsCounted(regs: seq<Registration>, e: nat)
    ensures Count(regs, Occupying(e)) == |Occupants(regs, e)|
  {
    CountIsSize(regs, Occupying(e));
    assert Where(regs, Occupying(e)) == Occupants(regs, e);
  }

  predicate Full(events: seq<Event>, regs: seq<Registration>, e: nat)
    requires e < |events|
  {
    events[e].maxCapacity.Some? && Count(regs, Occupying(e)) >= events[e].maxCapacity.value
  }

  // ---------------------------------------------------------------- registering

  /** The row the handler inserts, given the tables as seen under the lock. */
  function NewRow(events: seq<Event>, regs: seq<Registration>, e: nat, attendee: string, key: Option<string>)
    : Registration
    requires e < |events|
  {
    if Full(events, regs, e) then
      Registration(events[e].schoolId, e, attendee, Waitlisted, Some(MaxPosition(regs, e) + 1), key)
    else
      Registration(events[e].schoolId, e, attendee, Registered, None, key)
  }

  /** UNIQUE(event, attendee) or UNIQUE(event, key) forbids the insert; NULL keys never clash. */
  predicate Clashes(regs: seq<Registration>, row: Registration) {
    || First(regs, OfAttendee(row.eventId, row.attendee)).Some?
    || (row.key.Some? && First(regs, WithKey(row.eventId, row.key.value)).Some?)
  }

  datatype Gate = Pass(target: string) | Stop(status: int, code: string)

  predicate VisibleEvent(events: seq<Event>, actor: Actor, eventId: int) {
    && 0 <= eventId < |events|
    && (IsAdmin(actor) && Truthy(actor.schoolId) ==> events[eventId].schoolId == actor.schoolId.value)
  }

  predicate Owns(actor: Actor, event: Event) {
    Truthy(actor.userId) && actor.userId.value == event.owner
  }

  function AcceptedInvite(e: nat, invitee: string): Invitation -> bool {
    (i: Invitation) => i.eventId == e && i.invitee == invitee && i.status == Accepted
  }

  /** The visibility tiers; owners and admins pass all of them. */
  function VisibilityGate(rosters: Rosters, events: seq<Event>, invites: seq<Invitation>,
                          actor: Actor, e: nat, target: string): Gate
    requires e < |events|
  {
    var event := events[e];
    if Owns(actor, event) || IsAdmin(actor) then Pass(target)
    else
      match event.visibility
      case Public => Pass(target)
      case Unlisted => Pass(target)
      case SchoolOnly =>
        if Truthy(actor.schoolId) && actor.schoolId.value == event.schoolId then Pass(target)
        else Stop(404, "event_not_found")
      case InviteOnly =>
        if First(invites, AcceptedInvite(e, target)).Some? then Pass(target) else Stop(403, "invitation_required")
      case GroupOnly =>
        if event.groupKind == Some(SchoolAdminGroup) && event.groupId.Some?
           && (event.groupId.value, target) in rosters.groupMembers then Pass(target)
        else if event.groupKind == Some(TeamLeadCohort) && InSomeCohort(rosters, target) then Pass(target)
        else Stop(404, "event_not_found")
  }

  /** Everything checked before the key replay. */
  function Gates(rosters: Rosters, events: seq<Event>, invites: seq<Invitation>, rq: Request): (g: Gate)
    ensures g.Pass? ==> 0 <= rq.eventId < |events| && Target(rq.attendee, rq.actor) == Some(g.target)
  {
    if Truthy(rq.key) && !KeyOk(rq.key.value) then Stop(400, "idempotency_key")
    else
      match Target(rq.attendee, rq.actor)
      case None => Stop(400, "attendee_user_id_required")
      case Some(target) =>
        if !SelfOrAdmin(rq.actor, target) then Stop(403, "permission_denied")
        else if !VisibleEvent(events, rq.actor, rq.eventId) then Stop(404, "event_not_found")
        else if !events[rq.eventId].Open() then Stop(409, "event_not_open")
        else VisibilityGate(rosters, events, invites, rq.actor, rq.eventId, target)
  }

  /** Replay, capacity, insert and duplicate handling, as one atomic step. */
  function Enter(events: seq<Event>, regs: seq<Registration>, e: nat, target: string, key: Option<string>)
    : (r: (seq<Registration>, Response))
    requires e < |events|
  {
    var replay := if Truthy(key) then First(regs, WithKey(e, key.value)) else None;
    var row := NewRow(events, regs, e, target, key);
    if replay.Some? then (regs, Row(replay.value))
    else if !Clashes(regs, row) then (regs + [row], Row(|regs|))
    else
      match First(regs, OfAttendee(e, target))
      case Some(i) => (regs, Row(i))
      case None => (regs, Refused(409, "duplicate_registration"))
  }

  /** `register_for_event`, uninterrupted. */
  function RegisterTx(rosters: Rosters, events: seq<Event>, invites: seq<Invitation>, regs: seq<Registration>,
                      rq: Request): (seq<Registration>, Response)
  {
    match Gates(rosters, events, invites, rq)
    case Stop(status, code) => (regs, Refused(status, code))
    case Pass(target) => Enter(events, regs, rq.eventId, target, rq.key)
  }

  // ---------------------------------------------------------------- cancelling

  datatype CancelResponse = CancelOk(id: nat) | CancelRefused(status: int)

  /** `cancel_registration` */
  function CancelTx(events: seq<Event>, regs: seq<Registration>, actor: Actor, eventId: int, attendee: string)
    : (seq<Registration>, CancelResponse)
  {
    if !SelfOrAdmin(actor, attendee) then (regs, CancelRefused(403))
    else if !VisibleEvent(events, actor, eventId) then (regs, CancelRefused(404))
    else
      match First(regs, OfAttendee(eventId, attendee))
      case None => (regs, CancelRefused(404))
      case Some(i) => (regs[i := regs[i].(status := Cancelled)], CancelOk(i))
  }

  // ---------------------------------------------------------------- idempotency keys

  ghost predicate UniqueAttendees(regs: seq<Registration>) {
    forall i, j :: 0 <= i < j < |regs| ==> regs[i].eventId != regs[j].eventId || regs[i].attendee != regs[j].attendee
  }

  ghost predicate UniqueKeys(regs: seq<Registration>) {
    forall i, j :: 0 <= i < j < |regs| && regs[i].eventId == regs[j].eventId && regs[i].key.Some? ==>
                     regs[i].key != regs[j].key
  }

  /** Exactly when the final 409 happens.  An empty Idempotency-Key header passes for "no key" in the
      validation and in the replay, yet is stored as the empty string, so UNIQUE(event, key) admits a
      single such row per event and turns every other attendee who sends the empty header away. */
  lemma DuplicateRefusedIff(events: seq<Event>, regs: seq<Registration>, e: nat, target: string, key: Option<string>)
    requires e < |events|
    ensures Enter(events, regs, e, target, key).1 == Refused(409, "duplicate_registration")
            <==> key == Some("") && First(regs, WithKey(e, "")).Some? && First(regs, OfAttendee(e, target)).None?
  {
  }

  /** The smallest instance: two attendees of one open, uncapped event, both with the empty header. */
  lemma EmptyKeyTurnsSecondAttendeeAway(events: seq<Event>, e: nat, ann: string, bob: string)
    requires e < |events| && events[e].maxCapacity.None? && ann != bob
    ensures var (one, first) := Enter(events, [], e, ann, Some(""));
            first == Row(0) && Enter(events, one, e, bob, Some("")) == (one, Refused(409, "duplicate_registration"))
            && Enter(events, one, e, bob, None).1 == Row(1)
  {
    var (one, first) := Enter(events, [], e, ann, Some(""));
    assert one == [Registration(events[e].schoolId, e, ann, Registered, None, Some(""))];
    assert WithKey(e, "")(one[0]) && !OfAttendee(e, bob)(one[0]);
  }

  // ---------------------------------------------------------------- cohorts

  /** The digits of a user id, read as a number: the group_id a team lead's own cohort has. */
  function DigitsOf(id: string): string {
    if id == "" then "" else (if '0' <= id[0] <= '9' then [id[0]] else "") + DigitsOf(id[1..])
  }

  function Number(digits: string): nat
    requires forall i :: 0 <= i < |digits| ==> '0' <= digits[i] <= '9'
  {
    if digits == "" then 0
    else Number(digits[..|digits| - 1]) * 10 + (digits[|digits| - 1] as int - '0' as int)
  }

  lemma {:induction false} OnlyDigits(id: string)
    ensures forall i :: 0 <= i < |DigitsOf(id)| ==> '0' <= DigitsOf(id)[i] <= '9'
  {
    if id != "" { OnlyDigits(id[1..]); }
  }

  function CohortId(lead: string): Option<int> {
    OnlyDigits(lead);
    if DigitsOf(lead) == "" then None else Some(Number(DigitsOf(lead)))
  }

  /** The user is in the cohort that the event is bound to. */
  predicate InCohortOf(rosters: Rosters, event: Event, who: string) {
    event.groupId.Some? && exists pair :: pair in rosters.cohorts && pair.1 == who && CohortId(pair.0) == event.groupId
  }

  /** Whom the gate of a cohort event lets through: anyone in any cohort.  It tells members of the event's
      own cohort from others exactly when the person is in that cohort or in none. */
  lemma CohortGateExact(rosters: Rosters, events: seq<Event>, invites: seq<Invitation>, actor: Actor,
                        e: nat, who: string)
    requires e < |events| && !Owns(actor, events[e]) && !IsAdmin(actor)
    requires events[e].visibility == GroupOnly && events[e].groupKind == Some(TeamLeadCohort)
    ensures var passes := VisibilityGate(rosters, events, invites, actor, e, who).Pass?;
            && (passes <==> InSomeCohort(rosters, who))
            && ((passes <==> InCohortOf(rosters, events[e], who))
                <==> (InCohortOf(rosters, events[e], who) || !InSomeCohort(rosters, who)))
  {
  }

  /** A member of another lead's cohort, and of no other, registers for the event. */
  lemma StrangerRegisters(events: seq<Event>, lead: string, who: string, e: nat)
    requires e < |events| && events[e].Open() && who != "" && events[e].owner != who
    requires events[e].visibility == GroupOnly && events[e].groupKind == Some(TeamLeadCohort)
    requires events[e].groupId.Some? && CohortId(lead) != events[e].groupId
    ensures var rosters := Rosters({}, {(lead, who)});
            var (regs', r) :=
              RegisterTx(rosters, events, [], [], Request(Actor(Some(who), "fan", None), e, None, None));
            !InCohortOf(rosters, events[e], who) && r == Row(0) && |regs'| == 1 && regs'[0].attendee == who
  {
    var rosters := Rosters({}, {(lead, who)});
    assert (lead, who) in rosters.cohorts;
  }
}
