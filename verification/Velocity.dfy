/** The travel-speed guard and what it implies for a chain of check-ins. */
module Velocity {
  import opened Seqs
  import opened Types

  /** `dist` stands for the great-circle distance in metres. */
  datatype Settings = Settings(enabled: bool, windowSeconds: int, maxMph: real, dist: (Place, Place) -> real)

  const MPS_TO_MPH := 2.2369362921

  ghost predicate Metric(dist: (Place, Place) -> real) {
    && (forall p :: dist(p, p) == 0.0)
    && (forall p, q :: dist(p, q) >= 0.0 && dist(p, q) == dist(q, p))
    && (forall p, q, r :: dist(p, r) <= dist(p, q) + dist(q, r))
  }

  /** The filter of the prior-check-in query. */
  predicate Elsewhere(row: Checkin, attendee: string, eventId: nat, since: real) {
    row.attendee == attendee && row.eventId != eventId && row.at >= since
  }

  /** The most recent matching check-in; of equally recent ones the later row. */
  function Prior(rows: seq<Checkin>, attendee: string, eventId: nat, since: real): (r: Option<nat>)
    ensures r.Some? ==> r.value < |rows| && Elsewhere(rows[r.value], attendee, eventId, since)
                        && forall j :: 0 <= j < |rows| && Elsewhere(rows[j], attendee, eventId, since) ==>
                                         || rows[j].at < rows[r.value].at
                                         || (rows[j].at == rows[r.value].at && j <= r.value)
    ensures r.None? ==> forall j :: 0 <= j < |rows| ==> !Elsewhere(rows[j], attendee, eventId, since)
  {
    if rows == [] then None
    else
      var n := |rows| - 1;
      var best := Prior(rows[..n], attendee, eventId, since);
      assert forall j :: 0 <= j < n ==> rows[j] == rows[..n][j];
      if !Elsewhere(rows[n], attendee, eventId, since) then best
      else if best.Some? && rows[best.value].at > rows[n].at then best
      else Some(n)
  }

  /** The implied speed between two venues is allowed; no elapsed time implies no speed. */
  predicate SpeedOk(v: Settings, from: Place, to: Place, elapsed: real) {
    elapsed <= 0.0 || (v.dist(from, to) / elapsed) * MPS_TO_MPH <= v.maxMph
  }

  /** Where and when the prior check-in was. */
  function PriorVisit(rows: seq<Checkin>, attendee: string, eventId: nat, since: real): Option<(nat, real)> {
    match Prior(rows, attendee, eventId, since)
    case None => None
    case Some(i) => Some((rows[i].eventId, rows[i].at))
  }

  /** `velocity_check(...)[0]` */
  predicate Plausible(v: Settings, events: seq<Event>, rows: seq<Checkin>, attendee: string, eventId: nat, now: real)
    requires eventId < |events|
  {
    Judge(v, events, PriorVisit(rows, attendee, eventId, now - v.windowSeconds as real), eventId, now)
  }

  predicate Judge(v: Settings, events: seq<Event>, prior: Option<(nat, real)>, eventId: nat, now: real)
    requires eventId < |events|
  {
    || !v.enabled || Venue(events[eventId]).None? || prior.None?
    || Reachable(v, events, prior.value.0, Venue(events[eventId]).value, now - prior.value.1)
  }

  /** A prior check-in without a venue proves nothing. */
  predicate Reachable(v: Settings, events: seq<Event>, from: nat, to: Place, elapsed: real) {
    from >= |events| || Venue(events[from]).None? || SpeedOk(v, Venue(events[from]).value, to, elapsed)
  }

  // ---------------------------------------------------------------- whom the guard lets through

  /** Row j is the last check-in of `who` at another event, not older than `since`. */
  ghost predicate LastElsewhere(rows: seq<Checkin>, who: string, e: int, since: real, j: nat) {
    && j < |rows| && rows[j].attendee == who && rows[j].eventId != e && rows[j].at >= since
    && forall k :: 0 <= k < |rows| && rows[k].attendee == who && rows[k].eventId != e && rows[k].at >= since ==>
                     rows[k].at < rows[j].at || (rows[k].at == rows[j].at && k <= j)
  }

  predicate HasVenue(events: seq<Event>, e: int) {
    0 <= e < |events| && events[e].lat.Some? && events[e].lon.Some?
  }

  function VenueOf(events: seq<Event>, e: int): Place
    requires HasVenue(events, e)
  {
    Place(events[e].lat.value, events[e].lon.value)
  }

  /** In miles per hour the way from an earlier check-in is no faster than allowed; without a venue or
      without elapsed time it cannot be judged. */
  predicate Unhurried(v: Settings, events: seq<Event>, earlier: Checkin, e: int, now: real)
    requires HasVenue(events, e)
  {
    HasVenue(events, earlier.eventId) && earlier.at < now ==>
      v.dist(VenueOf(events, earlier.eventId), VenueOf(events, e)) * 2.2369362921 <= v.maxMph * (now - earlier.at)
  }

  /** The guard is off, or the event has no venue, or the last check-in elsewhere allows this one. */
  ghost predicate SlowEnough(v: Settings, events: seq<Event>, rows: seq<Checkin>, who: string, e: int, now: real) {
    v.enabled && HasVenue(events, e) ==>
      forall j: nat :: LastElsewhere(rows, who, e, now - v.windowSeconds as real, j) ==>
                         Unhurried(v, events, rows[j], e, now)
  }

  lemma PriorIsLastElsewhere(rows: seq<Checkin>, who: string, e: nat, since: real, j: nat)
    ensures LastElsewhere(rows, who, e, since, j) <==> Prior(rows, who, e, since) == Some(j)
  {
    var r := Prior(rows, who, e, since);
    if LastElsewhere(rows, who, e, since, j) {
      assert Elsewhere(rows[j], who, e, since);
      assert r.Some? && Elsewhere(rows[r.value], who, e, since);
    }
  }

  lemma ReachableExact(v: Settings, events: seq<Event>, earlier: Checkin, e: nat, now: real)
    requires HasVenue(events, e)
    ensures Reachable(v, events, earlier.eventId, VenueOf(events, e), now - earlier.at)
            <==> Unhurried(v, events, earlier, e, now)
  {
    if HasVenue(events, earlier.eventId) && earlier.at < now {
      SpeedWithoutDivision(v.dist(VenueOf(events, earlier.eventId), VenueOf(events, e)), now - earlier.at, v.maxMph);
    }
  }

  /** The guard lets a check-in through if and only if the attendee was slow enough. */
  lemma PlausibleExact(v: Settings, events: seq<Event>, rows: seq<Checkin>, who: string, e: nat, now: real)
    requires e < |events|
    ensures Plausible(v, events, rows, who, e, now) <==> SlowEnough(v, events, rows, who, e, now)
  {
    if v.enabled && HasVenue(events, e) {
      var since := now - v.windowSeconds as real;
      var r := Prior(rows, who, e, since);
      forall j: nat ensures LastElsewhere(rows, who, e, since, j) <==> r == Some(j) {
        PriorIsLastElsewhere(rows, who, e, since, j);
      }
      if r.Some? { ReachableExact(v, events, rows[r.value], e, now); }
    }
  }

  // ---------------------------------------------------------------- histories

  /** UNIQUE(event, attendee) on check-ins. */
  ghost predicate OnePerEvent(rows: seq<Checkin>) {
    forall i, j :: 0 <= i < j < |rows| ==> rows[i].eventId != rows[j].eventId || rows[i].attendee != rows[j].attendee
  }

  predicate VettedAt(v: Settings, events: seq<Event>, rows: seq<Checkin>, j: nat)
    requires j < |rows|
  {
    && rows[j].eventId < |events|
    && Plausible(v, events, rows[..j], rows[j].attendee, rows[j].eventId, rows[j].at)
  }

  /** Every row passed the guard against the rows before it. */
  ghost predicate Vetted(v: Settings, events: seq<Event>, rows: seq<Checkin>) {
    forall j :: 0 <= j < |rows| ==> VettedAt(v, events, rows, j)
  }

  /** The check-ins of one attendee, in table order. */
  function Journey(rows: seq<Checkin>, attendee: string): seq<Checkin> {
    if rows == [] then []
    else
      var n := |rows| - 1;
      Journey(rows[..n], attendee) + (if rows[n].attendee == attendee then [rows[n]] else [])
  }

  lemma {:induction false} JourneyMembers(rows: seq<Checkin>, attendee: string)
    ensures forall k :: 0 <= k < |Journey(rows, attendee)| ==> Journey(rows, attendee)[k] in rows
    ensures forall i :: 0 <= i < |rows| && rows[i].attendee == attendee ==> rows[i] in Journey(rows, attendee)
    ensures forall k :: 0 <= k < |Journey(rows, attendee)| ==> Journey(rows, attendee)[k].attendee == attendee
  {
    if rows != [] {
      JourneyMembers(rows[..|rows| - 1], attendee);
      assert rows == rows[..|rows| - 1] + [rows[|rows| - 1]];
    }
  }

  ghost predicate Increasing(rows: seq<Checkin>) {
    forall i, j :: 0 <= i < j < |rows| ==> rows[i].at < rows[j].at
  }

  predicate Located(events: seq<Event>, row: Checkin) {
    row.eventId < |events| && Venue(events[row.eventId]).Some?
  }

  function At(events: seq<Event>, row: Checkin): Place
    requires Located(events, row)
  {
    Venue(events[row.eventId]).value
  }

  /** The speed bound between two check-ins, without division. */
  predicate Bounded(v: Settings, events: seq<Event>, a: Checkin, b: Checkin)
    requires Located(events, a) && Located(events, b)
  {
    v.dist(At(events, a), At(events, b)) * 2.2369362921 <= v.maxMph * (b.at - a.at)
  }

  lemma SpeedWithoutDivision(distance: real, elapsed: real, max: real)
    requires elapsed > 0.0
    ensures (distance / elapsed) * MPS_TO_MPH <= max <==> distance * 2.2369362921 <= max * elapsed
  {
    var q := distance / elapsed;
    assert q * elapsed == distance;
    if q * MPS_TO_MPH <= max {
      assert (q * MPS_TO_MPH) * elapsed <= max * elapsed;
      assert (q * MPS_TO_MPH) * elapsed == distance * MPS_TO_MPH;
    } else {
      assert (q * MPS_TO_MPH) * elapsed > max * elapsed;
      assert (q * MPS_TO_MPH) * elapsed == distance * MPS_TO_MPH;
    }
  }

  /** The row the guard looks at is the attendee's last check-in: all earlier ones are at other events. */
  lemma PriorIsLast(rows: seq<Checkin>, attendee: string, eventId: nat, since: real)
    requires var trip := Journey(rows, attendee);
             trip != [] && Increasing(trip) && trip[|trip| - 1].at >= since
             && forall i :: 0 <= i < |rows| && rows[i].attendee == attendee ==> rows[i].eventId != eventId
    ensures var r := Prior(rows, attendee, eventId, since);
            r.Some? && rows[r.value] == Journey(rows, attendee)[|Journey(rows, attendee)| - 1]
  {
    var trip := Journey(rows, attendee);
    var last := trip[|trip| - 1];
    JourneyMembers(rows, attendee);
    assert last in rows;
    var i :| 0 <= i < |rows| && rows[i] == last;
    assert Elsewhere(rows[i], attendee, eventId, since);
    var r := Prior(rows, attendee, eventId, since);
    assert rows[r.value] in trip;
    var k :| 0 <= k < |trip| && trip[k] == rows[r.value];
    assert k == |trip| - 1;
  }

  /** The gap between two check-ins fits the guard's window. */
  predicate GapFits(v: Settings, a: Checkin, b: Checkin) {
    b.at - v.windowSeconds as real <= a.at
  }

  /** The leg that ends at a freshly accepted check-in. */
  lemma LastLeg(v: Settings, events: seq<Event>, before: seq<Checkin>, row: Checkin, prior: Checkin)
    requires v.enabled && Located(events, row) && Located(events, prior)
    requires Plausible(v, events, before, row.attendee, row.eventId, row.at)
    requires var r := Prior(before, row.attendee, row.eventId, row.at - v.windowSeconds as real);
             r.Some? && before[r.value] == prior
    requires prior.at < row.at
    ensures Bounded(v, events, prior, row)
  {
    SpeedWithoutDivision(v.dist(At(events, prior), At(events, row)), row.at - prior.at, v.maxMph);
  }

  lemma VettedPrefix(v: Settings, events: seq<Event>, rows: seq<Checkin>, n: nat)
    requires Vetted(v, events, rows) && n <= |rows|
    ensures Vetted(v, events, rows[..n])
  {
    forall j | 0 <= j < n ensures VettedAt(v, events, rows[..n], j) {
      assert VettedAt(v, events, rows, j);
      assert rows[..n][..j] == rows[..j];
    }
  }

  /** Row n is check-in b, and the prior row that the guard looked at when it let b pass is a. */
  ghost predicate Judged(v: Settings, events: seq<Event>, rows: seq<Checkin>, n: nat, a: Checkin, b: Checkin) {
    && n < |rows| && VettedAt(v, events, rows, n) && rows[n] == b && a.at < b.at
    && var r := Prior(rows[..n], b.attendee, b.eventId, b.at - v.windowSeconds as real);
       r.Some? && rows[..n][r.value] == a
  }

  lemma IncreasingPrefix(rows: seq<Checkin>, prefix: seq<Checkin>)
    requires Increasing(rows) && prefix <= rows
    ensures Increasing(prefix)
  {
    forall i, j | 0 <= i < j < |prefix| ensures prefix[i].at < prefix[j].at {
      assert rows[i] == prefix[i] && rows[j] == prefix[j];
    }
  }

  lemma LastLegJudged(v: Settings, events: seq<Event>, rows: seq<Checkin>, attendee: string)
    requires rows != [] && rows[|rows| - 1].attendee == attendee && VettedAt(v, events, rows, |rows| - 1)
    requires OnePerEvent(rows)
    requires Increasing(Journey(rows, attendee)) && Journey(rows[..|rows| - 1], attendee) != []
    requires var before := Journey(rows[..|rows| - 1], attendee); GapFits(v, before[|before| - 1], rows[|rows| - 1])
    ensures var before := Journey(rows[..|rows| - 1], attendee);
            Judged(v, events, rows, |rows| - 1, before[|before| - 1], rows[|rows| - 1])
  {
    var n := |rows| - 1;
    var trip, before := Journey(rows, attendee), Journey(rows[..n], attendee);
    assert trip == before + [rows[n]];
    assert trip[|before| - 1] == before[|before| - 1] && trip[|before|] == rows[n];
    IncreasingPrefix(trip, before);
    PriorIsLast(rows[..n], attendee, rows[n].eventId, rows[n].at - v.windowSeconds as real);
  }

  /** Of two consecutive check-ins of one attendee whose gap fits the window, the first is the prior row
      that the guard looked at when it let the second pass. */
  lemma {:induction false} LegJudged(v: Settings, events: seq<Event>, rows: seq<Checkin>, attendee: string, k: nat)
    returns (n: nat)
    requires Vetted(v, events, rows) && OnePerEvent(rows)
    requires Increasing(Journey(rows, attendee)) && k + 1 < |Journey(rows, attendee)|
    requires GapFits(v, Journey(rows, attendee)[k], Journey(rows, attendee)[k + 1])
    ensures Judged(v, events, rows, n, Journey(rows, attendee)[k], Journey(rows, attendee)[k + 1])
  {
    n := |rows| - 1;
    var trip, before := Journey(rows, attendee), Journey(rows[..n], attendee);
    assert before <= trip;
    if k + 1 < |before| {
      VettedPrefix(v, events, rows, n);
      var m := LegJudged(v, events, rows[..n], attendee, k);
      assert rows[..n][..m] == rows[..m];
      assert VettedAt(v, events, rows, m);
      n := m;
    } else {
      assert trip[k + 1] == rows[n] && trip[k] == before[|before| - 1];
      assert VettedAt(v, events, rows, n);
      LastLegJudged(v, events, rows, attendee);
    }
  }

  /** Consecutive check-ins of one attendee obey the speed bound whenever the gap fits the window. */
  lemma LegsBounded(v: Settings, events: seq<Event>, rows: seq<Checkin>, attendee: string, k: nat)
    requires v.enabled && Vetted(v, events, rows) && OnePerEvent(rows)
    requires Increasing(Journey(rows, attendee)) && k + 1 < |Journey(rows, attendee)|
    requires var trip := Journey(rows, attendee);
             Located(events, trip[k]) && Located(events, trip[k + 1]) && GapFits(v, trip[k], trip[k + 1])
    ensures Bounded(v, events, Journey(rows, attendee)[k], Journey(rows, attendee)[k + 1])
  {
    var n := LegJudged(v, events, rows, attendee, k);
    LastLeg(v, events, rows[..n], Journey(rows, attendee)[k + 1], Journey(rows, attendee)[k]);
  }

  /** Bounded legs add up. */
  lemma {:induction false} Telescope(v: Settings, events: seq<Event>, trip: seq<Checkin>, first: nat, last: nat)
    requires Metric(v.dist) && first <= last < |trip|
    requires forall k :: first <= k <= last ==> Located(events, trip[k])
    requires forall k, l :: first <= k < last && l == k + 1 ==> Bounded(v, events, trip[k], trip[l])
    ensures Bounded(v, events, trip[first], trip[last])
    decreases last
  {
    if first < last {
      Telescope(v, events, trip, first, last - 1);
      assert Bounded(v, events, trip[last - 1], trip[last]);
      Chain(v, events, trip[first], trip[last - 1], trip[last]);
    } else {
      Nowhere(v, events, trip[first]);
    }
  }

  lemma Nowhere(v: Settings, events: seq<Event>, a: Checkin)
    requires Metric(v.dist) && Located(events, a)
    ensures Bounded(v, events, a, a)
  {
  }

  /** The bound telescopes: over any chain of an attendee's consecutive check-ins whose gaps fit the
      window, the straight-line distance between the first and the last venue is at most the maximum
      speed times the total time. */
  lemma BoundTelescopes(v: Settings, events: seq<Event>, rows: seq<Checkin>, attendee: string, first: nat, last: nat)
    requires v.enabled && Metric(v.dist) && Vetted(v, events, rows) && OnePerEvent(rows)
    requires Increasing(Journey(rows, attendee)) && first <= last < |Journey(rows, attendee)|
    requires forall k :: first <= k <= last ==> Located(events, Journey(rows, attendee)[k])
    requires forall k, l :: first <= k < last && l == k + 1 ==>
                              GapFits(v, Journey(rows, attendee)[k], Journey(rows, attendee)[l])
    ensures Bounded(v, events, Journey(rows, attendee)[first], Journey(rows, attendee)[last])
  {
    var trip := Journey(rows, attendee);
    forall k, l | first <= k < last && l == k + 1 ensures Bounded(v, events, trip[k], trip[l]) {
      assert GapFits(v, trip[k], trip[l]);
      LegsBounded(v, events, rows, attendee, k);
    }
    Telescope(v, events, trip, first, last);
  }

  lemma Chain(v: Settings, events: seq<Event>, a: Checkin, b: Checkin, c: Checkin)
    requires Metric(v.dist) && Located(events, a) && Located(events, b) && Located(events, c)
    requires Bounded(v, events, a, b) && Bounded(v, events, b, c)
    ensures Bounded(v, events, a, c)
  {
    var (p, q, r) := (At(events, a), At(events, b), At(events, c));
    assert v.dist(p, r) * 2.2369362921 <= (v.dist(p, q) + v.dist(q, r)) * 2.2369362921;
    assert v.maxMph * (c.at - a.at) == v.maxMph * (b.at - a.at) + v.maxMph * (c.at - b.at);
  }
}
