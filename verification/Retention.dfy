/** The retention job: null out location hashes of old check-ins. */
module Retention {
  import opened Seqs
  import opened Types

  const SECONDS_PER_DAY := 86400

  /** The WHERE clause of the bulk update. */
  function Stale(cutoff: real): Checkin -> bool {
    (c: Checkin) => c.at < cutoff && c.Hashed()
  }

  function Scrub(c: Checkin): Checkin {
    c.(latHash := None, lonHash := None)
  }

  /** The bulk update itself. */
  function Scrubbed(rows: seq<Checkin>, cutoff: real): (r: seq<Checkin>)
    ensures |r| == |rows|
    ensures forall i :: 0 <= i < |rows| ==> r[i] == if Stale(cutoff)(rows[i]) then Scrub(rows[i]) else rows[i]
  {
    seq(|rows|, i requires 0 <= i < |rows| => if Stale(cutoff)(rows[i]) then Scrub(rows[i]) else rows[i])
  }

  datatype Result = Result(rowsScrubbed: nat, cutoff: Option<real>, disabled: bool)

  /** `purge_old_geofence_hashes`: an explicit age wins over the configured one; 0 or less disables. */
  function PurgeTx(rows: seq<Checkin>, maxAgeDays: Option<int>, configuredDays: nat, now: real)
    : (seq<Checkin>, Result)
  {
    var days := if maxAgeDays.Some? then maxAgeDays.value else configuredDays;
    if days <= 0 then (rows, Result(0, None, true))
    else
      var cutoff := now - (SECONDS_PER_DAY * days) as real;
      (Scrubbed(rows, cutoff), Result(Count(rows, Stale(cutoff)), Some(cutoff), false))
  }

  function StillHashed(): Checkin -> bool {
    (c: Checkin) => c.Hashed()
  }

  function Max(a: real, b: real): real {
    if a >= b then a else b
  }

  /** Purging at two cutoffs, in either order, is purging once at the later one... */
  lemma PurgesCompose(rows: seq<Checkin>, c1: real, c2: real)
    ensures Scrubbed(Scrubbed(rows, c1), c2) == Scrubbed(rows, Max(c1, c2))
  {
  }

  /** ... and the two row counts add up to the single one. */
  lemma {:induction false} PurgeCountsAdd(rows: seq<Checkin>, c1: real, c2: real)
    ensures Count(rows, Stale(c1)) + Count(Scrubbed(rows, c1), Stale(c2)) == Count(rows, Stale(Max(c1, c2)))
  {
    if rows != [] {
      var n := |rows| - 1;
      PurgeCountsAdd(rows[..n], c1, c2);
      assert Scrubbed(rows, c1)[..n] == Scrubbed(rows[..n], c1);
    }
  }

  /** Conservation: the rows a purge reports are exactly the rows that stop being hashed. */
  lemma {:induction false} PurgeConserves(rows: seq<Checkin>, cutoff: real)
    ensures Count(rows, Stale(cutoff)) + Count(Scrubbed(rows, cutoff), StillHashed()) == Count(rows, StillHashed())
  {
    if rows != [] {
      var n := |rows| - 1;
      PurgeConserves(rows[..n], cutoff);
      assert Scrubbed(rows, cutoff)[..n] == Scrubbed(rows[..n], cutoff);
    }
  }
}
