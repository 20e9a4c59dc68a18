/** The rows of the check-in database.  Tables only grow; a row's id is its position in its table. */
module Types {
  import opened Seqs

  datatype EventStatus = Draft | Published | Active | Completed | Withdrawn
  datatype Visibility = Public | SchoolOnly | Unlisted | InviteOnly | GroupOnly
  datatype GroupKind = SchoolAdminGroup | TeamLeadCohort
  datatype Method = Manual | Qr | Geo | QrGeo | Nfc | NoMethod

  datatype Event = Event(
    schoolId: string, owner: string, eventType: string,
    lat: Option<real>, lon: Option<real>, radius: Option<int>,
    start: Option<int>, maxCapacity: Option<nat>, checkinMethod: Method, status: EventStatus,
    visibility: Visibility, allowNfc: bool, groupId: Option<int>, groupKind: Option<GroupKind>,
    key: Option<string>)
  {
    /** `event.status in {"published", "active"}` */
    predicate Open() { status == Published || status == Active }
  }

  /** `position` is the waitlist position: set when a row is inserted as waitlisted, never cleared. */
  datatype RegStatus = Registered | Waitlisted | Cancelled | Attended
  datatype Registration = Registration(
    schoolId: string, eventId: nat, attendee: string, status: RegStatus, position: Option<nat>, key: Option<string>)

  datatype Checkin = Checkin(
    schoolId: string, eventId: nat, attendee: string, at: real, how: Method,
    tokenHash: Option<string>, latHash: Option<string>, lonHash: Option<string>, geofence: Option<bool>)
  {
    predicate Hashed() { latHash.Some? || lonHash.Some? }
  }

  datatype Token = Token(
    schoolId: string, table: string, eventId: nat, hash: string, nonce: string, expiresAt: real,
    singleUse: bool, usedAt: Option<real>, usedBy: Option<string>, issuedBy: string)
  {
    /** Nothing marks it any more: reusable, or marked already. */
    predicate Settled() { usedAt.Some? || !singleUse }
  }

  /** The check-ins made with the string of this hash. */
  function Carrying(hash: string): Checkin -> bool {
    (c: Checkin) => c.tokenHash == Some(hash)
  }

  datatype InviteStatus = Sent | Accepted | Declined
  datatype Invitation = Invitation(
    schoolId: string, eventId: nat, inviter: string, invitee: string, status: InviteStatus,
    reason: Option<string>, respondedAt: Option<real>)

  datatype Db = Db(
    events: seq<Event>, regs: seq<Registration>, checkins: seq<Checkin>, tokens: seq<Token>, invites: seq<Invitation>)

  datatype Actor = Actor(userId: Option<string>, role: string, schoolId: Option<string>)

  const ADMIN_ROLES := {
    "admin", "platform_admin", "platform_ops", "platform_system_admin", "platform_support_admin",
    "super_admin", "nilbx_admin", "service", "school_admin", "college_school_nil_admin",
    "hs_school_nil_admin", "compliance_officer"
  }

  predicate IsAdmin(a: Actor) {
    a.role in ADMIN_ROLES
  }

  /** `assert_self_or_admin` */
  predicate SelfOrAdmin(a: Actor, target: string) {
    IsAdmin(a) || a.userId == Some(target)
  }

  /** `payload.attendee_user_id or actor.user_id`: the person acted for, if there is one. */
  function Target(requested: Option<string>, a: Actor): (t: Option<string>)
    ensures t.Some? ==> t.value != ""
  {
    if Truthy(requested) then requested else if Truthy(a.userId) then a.userId else None
  }

  datatype Place = Place(lat: real, lon: real)

  function Venue(e: Event): Option<Place> {
    if e.lat.Some? && e.lon.Some? then Some(Place(e.lat.value, e.lon.value)) else None
  }
}
