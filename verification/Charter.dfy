/**
 What callers are entitled to, said over the columns of the tables and in the numbers and names of the
 documentation.  Nothing here uses a query, a constant or a predicate of the handlers: the laws of the
 handlers are stated in these terms.
*/
module Charter {
  import opened Seqs
  import opened Types

  // ---------------------------------------------------------------- people

  predicate Given(s: Option<string>) {
    s != None && s != Some("")
  }

  /** The platform's and the schools' administrators, and internal services. */
  predicate Administers(a: Actor) {
    a.role in {
      "admin", "super_admin", "nilbx_admin", "service",
      "platform_admin", "platform_ops", "platform_system_admin", "platform_support_admin",
      "school_admin", "college_school_nil_admin", "hs_school_nil_admin", "compliance_officer"
    }
  }

  /** Somebody is named, by the request or as its sender. */
  predicate Names(a: Actor, requested: Option<string>) {
    Given(requested) || Given(a.userId)
  }

  /** `who` is the person asked for, or else the sender; only administrators may act for others. */
  predicate ActsFor(a: Actor, requested: Option<string>, who: string) {
    && who != "" && Some(who) == (if Given(requested) then requested else a.userId)
    && (a.userId == Some(who) || Administers(a))
  }

  // ---------------------------------------------------------------- events

  predicate Running(event: Event) {
    event.status == Published || event.status == Active
  }

  /** The event exists; administrators of a school reach no other school's. */
  predicate InSight(events: seq<Event>, a: Actor, e: int) {
    0 <= e < |events| && (Administers(a) && Given(a.schoolId) ==> a.schoolId == Some(events[e].schoolId))
  }

  predicate Owned(a: Actor, event: Event) {
    Given(a.userId) && a.userId == Some(event.owner)
  }

  ghost predicate HasAccepted(invites: seq<Invitation>, e: nat, who: string) {
    exists i :: 0 <= i < |invites| && invites[i].eventId == e && invites[i].invitee == who
                && invites[i].status == Accepted
  }

  /** Event e takes registrations of `who` sent by `a`: one clause per visibility and kind of group. */
  ghost predicate OpenTo(members: set<(int, string)>, cohorts: set<(string, string)>, invites: seq<Invitation>,
                         event: Event, e: nat, a: Actor, who: string) {
    || Administers(a) || Owned(a, event)
    || event.visibility == Public || event.visibility == Unlisted
    || (event.visibility == SchoolOnly && Given(a.schoolId) && a.schoolId == Some(event.schoolId))
    || (event.visibility == InviteOnly && HasAccepted(invites, e, who))
    || (event.visibility == GroupOnly && event.groupKind == Some(SchoolAdminGroup)
        && event.groupId.Some? && (event.groupId.value, who) in members)
    || (event.visibility == GroupOnly && event.groupKind == Some(TeamLeadCohort)
        && exists lead :: (lead, who) in cohorts)
  }

  /** The first n characters are letters, digits or one of `_-:.`, and at most a line feed follows. */
  predicate KeyBody(key: string, n: nat) {
    && n <= |key| <= n + 1 && (forall i :: 0 <= i < n ==> KeyLetter(key[i]))
    && (n < |key| ==> key[n] == '\n')
  }

  /** A well-formed idempotency key: 8 to 128 characters and perhaps a line feed. */
  ghost predicate KeyText(key: string) {
    exists n: nat :: 8 <= n <= 128 && KeyBody(key, n)
  }

  predicate KeyLetter(ch: char) {
    'a' <= ch <= 'z' || 'A' <= ch <= 'Z' || '0' <= ch <= '9' || ch == '_' || ch == '-' || ch == ':' || ch == '.'
  }

  // ---------------------------------------------------------------- seats

  /** The rows that take a seat of event e. */
  ghost function Occupants(regs: seq<Registration>, e: int): set<int> {
    set i | 0 <= i < |regs| && regs[i].eventId == e && (regs[i].status == Registered || regs[i].status == Attended)
  }

  /** Those of them that were first inserted as waitlisted: they carry a position. */
  ghost function LateComers(regs: seq<Registration>, e: int): set<int> {
    set i | 0 <= i < |regs| && regs[i].eventId == e && regs[i].status == Attended && regs[i].position != None
  }

  // ---------------------------------------------------------------- who manages an event

  /** Owners, and administrators of the event's school or with the service role. */
  predicate Manages(a: Actor, event: Event) {
    || a.userId == Some(event.owner)
    || (Administers(a) && Given(a.schoolId) && a.schoolId == Some(event.schoolId))
    || a.role == "service"
  }

  /** The namespace of the actor's own events: the school, or else a personal one. */
  function Namespace(a: Actor): Option<string> {
    if Given(a.schoolId) then a.schoolId
    else if Given(a.userId) then Some("user:" + a.userId.value)
    else None
  }

  /** Who may author events at all: anybody with a working role, fans and guardians excluded. */
  predicate Authors(a: Actor) {
    || Administers(a) || BoundToSchool(a)
    || a.role in {"creator", "student_creator", "brand", "agency", "lawyer"}
  }

  /** The roles that stand for a school. */
  predicate BoundToSchool(a: Actor) {
    a.role in {
      "school_admin", "college_school_nil_admin", "hs_school_nil_admin", "compliance_officer",
      "coach", "college_coach", "hs_coach", "team_lead", "college_team_lead", "hs_team_lead", "chapter_president",
      "governing_body_admin", "conference_admin", "nfhs_admin", "state_association_admin", "district_admin",
      "college_governing_body", "college_conference", "hs_nfhs", "hs_state_association", "hs_state_district"
    }
  }

  // ---------------------------------------------------------------- the discovery feed

  /** Running, and public or of the caller's own school; of the requested type if one is. */
  predicate OnFeed(event: Event, school: Option<string>, eventType: Option<string>) {
    && (event.status == Published || event.status == Active)
    && (event.visibility == Public
        || (event.visibility == SchoolOnly && Given(school) && school == Some(event.schoolId)))
    && (Given(eventType) ==> eventType == Some(event.eventType))
  }

  /** What is said of two entries, i above j: start times do not decrease, a missing one comes last, and
      of equal or missing ones the younger row comes first. */
  predicate Above(events: seq<Event>, i: nat, j: nat)
    requires i < |events| && j < |events|
  {
    && (events[j].start.Some? ==> events[i].start.Some? && events[i].start.value <= events[j].start.value)
    && (events[i].start == events[j].start ==> i > j)
  }
}
