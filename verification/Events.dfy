/** The events router: idempotent creation, patching, soft cancellation, and the discovery feed. */
module Events {
  import opened Seqs
  import opened Types
  import opened Charter
  import R = Registrations
  import I = Invitations

  // ---------------------------------------------------------------- creation

  const SCHOOL_BOUND_ROLES := {
    "school_admin", "college_school_nil_admin", "hs_school_nil_admin", "compliance_officer", "coach",
    "college_coach", "hs_coach", "college_team_lead", "hs_team_lead", "team_lead", "chapter_president",
    "governing_body_admin", "conference_admin", "nfhs_admin", "state_association_admin", "district_admin",
    "college_governing_body", "college_conference", "hs_nfhs", "hs_state_association", "hs_state_district"
  }

  const FREE_AUTHOR_ROLES := {"creator", "student_creator", "brand", "agency", "lawyer"}

  /** `role in EVENT_CREATOR_ROLES`, which excludes fans and guardians. */
  predicate IsAuthor(a: Actor) {
    IsAdmin(a) || a.role in SCHOOL_BOUND_ROLES || a.role in FREE_AUTHOR_ROLES
  }

  /** `draft` carries the body's fields; its tenant, owner and key are overwritten.  `groupTenant` is the
      answer of the group-ownership check for a group_only event. */
  datatype CreateRequest = CreateRequest(
    actor: Actor, draft: Event, titleBlank: bool, groupTenant: Option<string>, key: Option<string>)

  datatype CreateResponse = Created(id: nat) | CreateRefused(status: int)

  /** `resolve_event_tenant` */
  function Tenant(actor: Actor): Option<string> {
    if Truthy(actor.schoolId) then actor.schoolId
    else if Truthy(actor.userId) then Some("user:" + actor.userId.value)
    else None
  }

  function WithKey(tenant: string, key: string): Event -> bool {
    (e: Event) => e.schoolId == tenant && e.key == Some(key)
  }

  /** `_validate_idem_key`: here an empty header does become "no key". */
  function SafeKey(key: Option<string>): Option<string> {
    if Truthy(key) then key else None
  }

  datatype CreateGate = Pass(tenant: string) | Stop(status: int)

  function Gates(rq: CreateRequest): CreateGate {
    match Tenant(rq.actor)
    case None => Stop(403)
    case Some(tenant) =>
      if !IsAuthor(rq.actor) then Stop(403)
      else if Truthy(rq.key) && !R.KeyOk(rq.key.value) then Stop(400)
      else if rq.draft.visibility == SchoolOnly
              && !(Truthy(rq.actor.schoolId) && rq.actor.role in SCHOOL_BOUND_ROLES) then Stop(403)
      else if rq.draft.visibility == GroupOnly then
        if rq.draft.groupId.None? || rq.draft.groupKind.None? then Stop(422)
        else if rq.groupTenant.None? then Stop(403)
        else Pass(rq.groupTenant.value)
      else Pass(tenant)
  }

  function NewEvent(rq: CreateRequest, tenant: string): Event {
    var grouped := rq.draft.visibility == GroupOnly;
    rq.draft.(schoolId := tenant,
              owner := if Truthy(rq.actor.userId) then rq.actor.userId.value else "service",
              groupId := if grouped then rq.draft.groupId else None,
              groupKind := if grouped then rq.draft.groupKind else None,
              key := SafeKey(rq.key))
  }

  /** `create_event`, uninterrupted: the UNIQUE(tenant, key) conflict cannot arise after the replay. */
  function CreateTx(events: seq<Event>, rq: CreateRequest): (seq<Event>, CreateResponse) {
    match Gates(rq)
    case Stop(status) => (events, CreateRefused(status))
    case Pass(tenant) =>
      var replay := if SafeKey(rq.key).Some? then First(events, WithKey(tenant, rq.key.value)) else None;
      if replay.Some? then (events, Created(replay.value))
      else if rq.titleBlank then (events, CreateRefused(422))
      else (events + [NewEvent(rq, tenant)], Created(|events|))
  }

  /** The tenant under whose name the request creates its event. */
  ghost predicate MayCreate(rq: CreateRequest, tenant: string) {
    && Authors(rq.actor) && Namespace(rq.actor).Some? && (Given(rq.key) ==> KeyText(rq.key.value))
    && (rq.draft.visibility == SchoolOnly ==> Given(rq.actor.schoolId) && BoundToSchool(rq.actor))
    && if rq.draft.visibility == GroupOnly then
         rq.draft.groupId != None && rq.draft.groupKind != None && rq.groupTenant == Some(tenant)
       else Namespace(rq.actor) == Some(tenant)
  }

  ghost function CreateRefusal(rq: CreateRequest): int {
    if Namespace(rq.actor).None? || !Authors(rq.actor) then 403
    else if Given(rq.key) && !KeyText(rq.key.value) then 400
    else if rq.draft.visibility == GroupOnly && (rq.draft.groupId == None || rq.draft.groupKind == None) then 422
    else 403
  }

  lemma AuthorRoles(a: Actor)
    ensures IsAuthor(a) <==> Authors(a)
    ensures a.role in SCHOOL_BOUND_ROLES <==> BoundToSchool(a)
  {
  }

  lemma GatesExact(rq: CreateRequest, tenant: string)
    ensures Gates(rq) == Pass(tenant) <==> MayCreate(rq, tenant)
    ensures Gates(rq).Stop? ==> Gates(rq).status == CreateRefusal(rq)
  {
    AuthorRoles(rq.actor);
    if rq.key.Some? { R.KeyOkExact(rq.key.value); }
  }

  // ---------------------------------------------------------------- patching and soft cancellation

  /** The patchable columns that other handlers read; None leaves a column alone. */
  datatype Patch = Patch(
    status: Option<EventStatus>, visibility: Option<Visibility>, maxCapacity: Option<Option<nat>>,
    checkinMethod: Option<Method>, allowNfc: Option<bool>, radius: Option<Option<int>>)

  const CANCEL := Patch(Some(Withdrawn), None, None, None, None, None)

  function Or<T>(o: Option<T>, d: T): T {
    if o.Some? then o.value else d
  }

  function Patched(e: Event, p: Patch): Event {
    e.(status := Or(p.status, e.status), visibility := Or(p.visibility, e.visibility),
       maxCapacity := Or(p.maxCapacity, e.maxCapacity), checkinMethod := Or(p.checkinMethod, e.checkinMethod),
       allowNfc := Or(p.allowNfc, e.allowNfc), radius := Or(p.radius, e.radius))
  }

  datatype PatchResponse = PatchOk | PatchRefused(status: int)

  /** `update_event`; `delete_event` is the patch CANCEL. */
  function PatchTx(events: seq<Event>, actor: Actor, eventId: int, p: Patch): (seq<Event>, PatchResponse) {
    match Tenant(actor)
    case None => (events, PatchRefused(403))
    case Some(tenant) =>
      if !(0 <= eventId < |events|) || events[eventId].schoolId != tenant then (events, PatchRefused(404))
      else if !I.OwnerOrAdmin(actor, events[eventId]) then (events, PatchRefused(403))
      else (events[eventId := Patched(events[eventId], p)], PatchOk)
  }

  // ---------------------------------------------------------------- discovery

  /** The WHERE clause of the feed. */
  predicate Listed(e: Event, school: Option<string>, eventType: Option<string>) {
    && e.Open()
    && (e.visibility == Public || (e.visibility == SchoolOnly && Truthy(school) && e.schoolId == school.value))
    && (Truthy(eventType) ==> e.eventType == eventType.value)
  }

  /** `ORDER BY start_time ASC NULLS LAST, id DESC` */
  predicate Before(events: seq<Event>, i: nat, j: nat)
    requires i < |events| && j < |events|
  {
    match (events[i].start, events[j].start)
    case (Some(a), Some(b)) => a < b || (a == b && i > j)
    case (Some(a), None) => true
    case (None, Some(b)) => false
    case (None, None) => i > j
  }

  ghost predicate Ids(events: seq<Event>, ids: seq<nat>) {
    forall k :: 0 <= k < |ids| ==> ids[k] < |events|
  }

  ghost predicate Ordered(events: seq<Event>, ids: seq<nat>)
    requires Ids(events, ids)
  {
    forall k, l :: 0 <= k < l < |ids| ==> Above(events, ids[k], ids[l])
  }

  /** Insert an id at its place in an ordered list. */
  function Place(events: seq<Event>, ids: seq<nat>, i: nat): (r: seq<nat>)
    requires Ids(events, ids) && i < |events|
    ensures Ids(events, r) && |r| == |ids| + 1
    ensures forall x :: x in r <==> x == i || x in ids
  {
    if ids == [] then [i]
    else if Before(events, i, ids[0]) then [i] + ids
    else [ids[0]] + Place(events, ids[1..], i)
  }

  /** The ids of the first n rows that match, in feed order. */
  function Feed(events: seq<Event>, n: nat, school: Option<string>, eventType: Option<string>): (ids: seq<nat>)
    requires n <= |events|
    ensures Ids(events, ids)
    ensures forall i: nat :: i in ids <==> i < n && OnFeed(events[i], school, eventType)
  {
    if n == 0 then []
    else
      var ids := Feed(events, n - 1, school, eventType);
      if Listed(events[n - 1], school, eventType) then Place(events, ids, n - 1) else ids
  }

  datatype Page = Page(events: seq<nat>, total: nat)

  function Min(a: nat, b: nat): nat {
    if a < b then a else b
  }

  function Slice(ids: seq<nat>, offset: nat, limit: nat): seq<nat> {
    ids[Min(offset, |ids|)..Min(offset + limit, |ids|)]
  }

  function Matches(school: Option<string>, eventType: Option<string>): Event -> bool {
    (e: Event) => Listed(e, school, eventType)
  }

  /** `discover_events`: `total` counts the filter, the page slices the ordered matches. */
  function Discover(events: seq<Event>, school: Option<string>, eventType: Option<string>,
                    limit: nat, offset: nat): Page {
    Page(Slice(Feed(events, |events|, school, eventType), offset, limit), Count(events, Matches(school, eventType)))
  }

  lemma BeforeIsAbove(events: seq<Event>, i: nat, j: nat)
    requires i < |events| && j < |events|
    ensures Before(events, i, j) <==> Above(events, i, j)
  {
  }

  lemma AboveTotal(events: seq<Event>, i: nat, j: nat)
    requires i < |events| && j < |events| && i != j
    ensures Above(events, i, j) <==> !Above(events, j, i)
  {
  }

  lemma AboveTransitive(events: seq<Event>, i: nat, j: nat, k: nat)
    requires i < |events| && j < |events| && k < |events| && Above(events, i, j) && Above(events, j, k)
    ensures Above(events, i, k)
  {
  }

  lemma {:induction false} PlaceKeepsOrder(events: seq<Event>, ids: seq<nat>, i: nat)
    requires Ids(events, ids) && i < |events| && i !in ids && Ordered(events, ids)
    ensures Ordered(events, Place(events, ids, i))
  {
    if ids != [] {
      BeforeIsAbove(events, i, ids[0]);
      if Before(events, i, ids[0]) {
        forall l | 0 <= l < |ids| ensures Above(events, i, ids[l]) {
          if l > 0 { AboveTransitive(events, i, ids[0], ids[l]); }
        }
      } else {
        AboveTotal(events, i, ids[0]);
        assert Ordered(events, ids[1..]);
        PlaceKeepsOrder(events, ids[1..], i);
        var rest := Place(events, ids[1..], i);
        forall l | 0 <= l < |rest| ensures Above(events, ids[0], rest[l]) {
          assert rest[l] in rest;
          if rest[l] != i {
            var m :| 0 <= m < |ids[1..]| && ids[1..][m] == rest[l];
            assert ids[m + 1] == rest[l];
          }
        }
      }
    }
  }

  lemma FeedUnfolds(events: seq<Event>, n: nat, school: Option<string>, eventType: Option<string>)
    requires 0 < n <= |events|
    ensures var ids := Feed(events, n - 1, school, eventType);
            Feed(events, n, school, eventType)
            == if OnFeed(events[n - 1], school, eventType) then Place(events, ids, n - 1) else ids
  {
  }

  lemma MatchesSnoc(events: seq<Event>, n: nat, school: Option<string>, eventType: Option<string>)
    requires 0 < n <= |events|
    ensures Count(events[..n], Matches(school, eventType))
            == Count(events[..n - 1], Matches(school, eventType)) + Ind(OnFeed(events[n - 1], school, eventType))
  {
    assert events[..n][..n - 1] == events[..n - 1];
  }

  /** By start time with missing ones last, the younger row first among equals: the feed is strictly
      ordered, so it lists every event that is on it exactly once. */
  lemma {:induction false} FeedOrdered(events: seq<Event>, n: nat, school: Option<string>, eventType: Option<string>)
    requires n <= |events|
    ensures Ordered(events, Feed(events, n, school, eventType))
    ensures |Feed(events, n, school, eventType)| == Count(events[..n], Matches(school, eventType))
  {
    if n > 0 {
      FeedOrdered(events, n - 1, school, eventType);
      FeedUnfolds(events, n, school, eventType);
      MatchesSnoc(events, n, school, eventType);
      var ids := Feed(events, n - 1, school, eventType);
      if OnFeed(events[n - 1], school, eventType) { PlaceKeepsOrder(events, ids, n - 1); }
    }
  }

  /** The feed does not depend on how the database sorts: two strictly ordered lists of the same ids are equal. */
  lemma {:induction false} OrderDetermines(events: seq<Event>, a: seq<nat>, b: seq<nat>)
    requires Ids(events, a) && Ids(events, b) && Ordered(events, a) && Ordered(events, b)
    requires forall i: nat :: i in a <==> i in b
    ensures a == b
  {
    if a == [] {
      assert forall l :: 0 <= l < |b| ==> b[l] in b;
    } else {
      assert a[0] in a;
      assert b != [] && b[0] in b;
      var k :| 0 <= k < |b| && b[k] == a[0];
      var l :| 0 <= l < |a| && a[l] == b[0];
      if k > 0 && l > 0 { AboveTotal(events, a[0], b[0]); }
      assert a[0] == b[0];
      forall i: nat ensures i in a[1..] <==> i in b[1..] {
        TailMembers(events, a, i);
        TailMembers(events, b, i);
      }
      OrderDetermines(events, a[1..], b[1..]);
      assert a == [a[0]] + a[1..] && b == [b[0]] + b[1..];
    }
  }

  lemma TailMembers(events: seq<Event>, a: seq<nat>, i: nat)
    requires a != [] && Ids(events, a) && Ordered(events, a)
    ensures i in a[1..] <==> i in a && i != a[0]
  {
    if i in a && i != a[0] {
      var k :| 0 <= k < |a| && a[k] == i;
      assert a[1..][k - 1] == i;
    }
    if i in a[1..] {
      var k :| 0 <= k < |a[1..]| && a[1..][k] == i;
      assert Above(events, a[0], a[k + 1]);
    }
  }

  /** The pages at offsets 0, L, 2L, ..., concatenated. */
  function Pages(events: seq<Event>, school: Option<string>, eventType: Option<string>,
                 limit: nat, count: nat): seq<nat> {
    if count == 0 then []
    else Pages(events, school, eventType, limit, count - 1)
         + Discover(events, school, eventType, limit, (count - 1) * limit).events
  }

  lemma SliceExtends(ids: seq<nat>, offset: nat, limit: nat, end: nat)
    requires end == offset + limit
    ensures ids[..Min(offset, |ids|)] + Slice(ids, offset, limit) == ids[..Min(end, |ids|)]
  {
  }

  lemma NextOffset(limit: nat, count: nat)
    requires count > 0
    ensures count * limit == (count - 1) * limit + limit
  {
  }

  lemma {:induction false} PagesArePrefix(events: seq<Event>, school: Option<string>, eventType: Option<string>,
                                          limit: nat, count: nat)
    ensures var feed := Feed(events, |events|, school, eventType);
            Pages(events, school, eventType, limit, count) == feed[..Min(count * limit, |feed|)]
  {
    if count > 0 {
      PagesArePrefix(events, school, eventType, limit, count - 1);
      NextOffset(limit, count);
      var (feed, offset) := (Feed(events, |events|, school, eventType), (count - 1) * limit);
      SliceExtends(feed, offset, limit, count * limit);
    }
  }

  /** Enough pages tile the whole result: the concatenation has exactly `total` entries, they are all the
      matching events, each once, in feed order - and any ordered list of the matching events is that. */
  lemma PagesTile(events: seq<Event>, school: Option<string>, eventType: Option<string>, limit: nat, count: nat,
                  anyOrder: seq<nat>)
    requires Ids(events, anyOrder) && Ordered(events, anyOrder)
    requires forall i: nat :: i in anyOrder <==> i < |events| && OnFeed(events[i], school, eventType)
    requires count * limit >= |anyOrder|
    ensures Pages(events, school, eventType, limit, count) == anyOrder
    ensures forall offset :: Discover(events, school, eventType, limit, offset).total == |anyOrder|
  {
    var feed := Feed(events, |events|, school, eventType);
    FeedOrdered(events, |events|, school, eventType);
    assert events[..|events|] == events;
    OrderDetermines(events, feed, anyOrder);
    assert |feed| == Count(events, Matches(school, eventType));
    PagesArePrefix(events, school, eventType, limit, count);
  }
}
