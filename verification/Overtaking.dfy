/**
 What goes wrong in the limiter when a request is overtaken between reading the clock and taking the
 lock.  Everything here happens to one attendee of one event, without an IP, on a fresh worker.
 */
module Overtaking {
  import opened Seqs
  import opened RateLimiter

  function Call(k: Key, t: real): Request {
    Request(t, k.0, k.1, None)
  }

  /** Calls with the given stamps, in the order in which they take the lock. */
  function Calls(k: Key, stamps: seq<real>): seq<Request> {
    if stamps == [] then [] else Calls(k, stamps[..|stamps| - 1]) + [Call(k, stamps[|stamps| - 1])]
  }

  function Holding(k: Key, dq: seq<real>): Deques {
    Deques(map[k := dq], map[])
  }

  lemma {:induction false} CallStamps(k: Key, stamps: seq<real>)
    ensures |Calls(k, stamps)| == |stamps| && AttendeeStamps(Calls(k, stamps), k) == stamps
  {
    if stamps != [] {
      var n := |stamps| - 1;
      CallStamps(k, stamps[..n]);
      AttendeeAppend(Calls(k, stamps[..n]), Call(k, stamps[n]), k);
    }
  }

  // ---------------------------------------------------------------- runs that are admitted

  lemma {:induction false} DequeRunSnoc(st: Deques, rqs: seq<Request>, rq: Request)
    ensures DequeRun(st, rqs + [rq]).0 == DequeNext(DequeRun(st, rqs).0, rq)
    decreases |rqs|
  {
    if rqs == [] {
      assert [] + [rq] == [rq] && [rq][1..] == [];
      assert DequeRun(DequeNext(st, rq), []).0 == DequeNext(st, rq);
    } else {
      DequeRunSnoc(DequeNext(st, rqs[0]), rqs[1..], rq);
      assert (rqs + [rq])[1..] == rqs[1..] + [rq];
    }
  }

  lemma Associate<T>(a: seq<T>, b: seq<T>, c: seq<T>)
    ensures a + (b + c) == (a + b) + c
  {
  }

  lemma {:induction false} AdmissionsSnoc(st: Deques, rqs: seq<Request>, rq: Request)
    requires DequeCode(DequeRun(st, rqs).0, rq).Admit?
    ensures Admissions(st, rqs + [rq]) == Admissions(st, rqs) + [rq]
    decreases |rqs|
  {
    if rqs == [] {
      assert [] + [rq] == [rq] && [rq][1..] == [];
      assert Admissions(DequeNext(st, rq), []) == [];
    } else {
      AdmissionsSnoc(DequeNext(st, rqs[0]), rqs[1..], rq);
      assert (rqs + [rq])[1..] == rqs[1..] + [rq] && (rqs + [rq])[0] == rqs[0];
      var first := if DequeCode(st, rqs[0]).Admit? then [rqs[0]] else [];
      Associate(first, Admissions(DequeNext(st, rqs[0]), rqs[1..]), [rq]);
    }
  }

  lemma {:induction false} LogRunSnoc(log: seq<Request>, rqs: seq<Request>, rq: Request)
    ensures LogRun(log, rqs + [rq]).0 == LogNext(LogRun(log, rqs).0, rq)
    decreases |rqs|
  {
    if rqs == [] {
      assert [] + [rq] == [rq] && [rq][1..] == [];
      assert LogRun(LogNext(log, rq), []).0 == LogNext(log, rq);
    } else {
      LogRunSnoc(LogNext(log, rqs[0]), rqs[1..], rq);
      assert (rqs + [rq])[1..] == rqs[1..] + [rq];
    }
  }

  lemma {:induction false} DequeVerdictLast(st: Deques, rqs: seq<Request>, rq: Request)
    ensures var vs := DequeRun(st, rqs + [rq]).1;
            |vs| == |rqs| + 1 && vs[|rqs|] == DequeVerdict(DequeRun(st, rqs).0, rq)
    decreases |rqs|
  {
    if rqs == [] {
      assert [] + [rq] == [rq] && [rq][1..] == [];
    } else {
      DequeVerdictLast(DequeNext(st, rqs[0]), rqs[1..], rq);
      assert (rqs + [rq])[1..] == rqs[1..] + [rq];
    }
  }

  lemma {:induction false} LogVerdictLast(log: seq<Request>, rqs: seq<Request>, rq: Request)
    ensures var vs := LogRun(log, rqs + [rq]).1;
            |vs| == |rqs| + 1 && vs[|rqs|] == LogVerdict(LogRun(log, rqs).0, rq)
    decreases |rqs|
  {
    if rqs == [] {
      assert [] + [rq] == [rq] && [rq][1..] == [];
    } else {
      LogVerdictLast(LogNext(log, rqs[0]), rqs[1..], rq);
      assert (rqs + [rq])[1..] == rqs[1..] + [rq];
    }
  }

  /** The fresh worker admits all these calls and then holds `dq`. */
  ghost predicate Admits(k: Key, stamps: seq<real>, dq: seq<real>) {
    && DequeRun(FRESH, Calls(k, stamps)).0 == Holding(k, dq)
    && Admissions(FRESH, Calls(k, stamps)) == Calls(k, stamps)
  }

  lemma FirstAdmitted(k: Key, t: real)
    ensures Admits(k, [t], [t])
  {
    assert [t][..0] == [] && Calls(k, []) == [];
    assert Calls(k, [t]) == [] + [Call(k, t)];
    DequeRunSnoc(FRESH, [], Call(k, t));
    AdmissionsSnoc(FRESH, [], Call(k, t));
    assert AttendeeDeque(FRESH, Call(k, t)) == [] && [] + [t] == [t];
    assert FRESH.attendeeEvent[k := [t]] == map[k := [t]];
  }

  lemma CallNext(k: Key, dq: seq<real>, t: real)
    requires |Pruned(dq, t - WINDOW)| < ATTENDEE_EVENT_MAX
    ensures DequeCode(Holding(k, dq), Call(k, t)).Admit?
    ensures DequeNext(Holding(k, dq), Call(k, t)) == Holding(k, Pruned(dq, t - WINDOW) + [t])
  {
    Overwrite(map[], k, dq, Pruned(dq, t - WINDOW) + [t]);
  }

  lemma CallsSnoc(k: Key, stamps: seq<real>, t: real, stamps': seq<real>)
    requires stamps' == stamps + [t]
    ensures Calls(k, stamps') == Calls(k, stamps) + [Call(k, t)]
  {
    assert stamps'[..|stamps|] == stamps;
  }

  lemma OneMoreAdmitted(k: Key, stamps: seq<real>, dq: seq<real>, t: real, stamps': seq<real>, dq': seq<real>)
    requires Admits(k, stamps, dq) && |Pruned(dq, t - WINDOW)| < ATTENDEE_EVENT_MAX
    requires stamps' == stamps + [t] && dq' == Pruned(dq, t - WINDOW) + [t]
    ensures Admits(k, stamps', dq')
  {
    CallsSnoc(k, stamps, t, stamps');
    CallNext(k, dq, t);
    DequeRunSnoc(FRESH, Calls(k, stamps), Call(k, t));
    AdmissionsSnoc(FRESH, Calls(k, stamps), Call(k, t));
  }

  /** Up to five calls no more than a window after the first one are all admitted and all held. */
  lemma {:induction false} CallsAdmitted(k: Key, stamps: seq<real>, n: nat)
    requires 1 <= n <= |stamps| <= ATTENDEE_EVENT_MAX
    requires forall i :: 0 <= i < |stamps| ==> stamps[0] >= stamps[i] - WINDOW
    ensures Admits(k, stamps[..n], stamps[..n])
  {
    if n == 1 {
      assert stamps[..1] == [stamps[0]];
      FirstAdmitted(k, stamps[0]);
    } else {
      CallsAdmitted(k, stamps, n - 1);
      assert Pruned(stamps[..n - 1], stamps[n - 1] - WINDOW) == stamps[..n - 1];
      OneMoreAdmitted(k, stamps[..n - 1], stamps[..n - 1], stamps[n - 1], stamps[..n], stamps[..n]);
    }
  }

  // ---------------------------------------------------------------- refused although there is room

  lemma {:induction false} LiveLength(s: seq<real>, cutoff: real)
    ensures |Live(s, cutoff)| <= |s|
  {
    if s != [] { LiveLength(s[..|s| - 1], cutoff); }
  }

  lemma {:induction false} LiveTail(s: seq<real>, cutoff: real)
    requires s != [] && forall i :: 1 <= i < |s| ==> s[i] < cutoff
    ensures |Live(s, cutoff)| <= 1
  {
    if |s| > 1 { LiveTail(s[..|s| - 1], cutoff); } else { LiveLength(s, cutoff); }
  }

  ghost predicate Recorded(k: Key, stamps: seq<real>) {
    LogRun([], Calls(k, stamps)).0 == Calls(k, stamps)
  }

  lemma NothingRecorded(k: Key, stamps: seq<real>)
    requires stamps == []
    ensures Recorded(k, stamps)
  {
  }

  lemma CallRecorded(k: Key, done: seq<real>, t: real, stamps: seq<real>)
    requires |done| < ATTENDEE_EVENT_MAX && stamps == done + [t] && Recorded(k, done)
    ensures Recorded(k, stamps)
  {
    CallsSnoc(k, done, t, stamps);
    LogRunSnoc([], Calls(k, done), Call(k, t));
    LogAdmits(k, done, t);
  }

  /** The reference limiter records any five calls of a key. */
  lemma {:induction false} CallsRecorded(k: Key, stamps: seq<real>, n: nat)
    requires n <= |stamps| <= ATTENDEE_EVENT_MAX
    ensures Recorded(k, stamps[..n])
  {
    if n > 0 {
      CallsRecorded(k, stamps, n - 1);
      CallRecorded(k, stamps[..n - 1], stamps[n - 1], stamps[..n]);
    } else {
      NothingRecorded(k, stamps[..n]);
    }
  }

  lemma LogAdmits(k: Key, done: seq<real>, t: real)
    requires |done| < ATTENDEE_EVENT_MAX
    ensures LogCode(Calls(k, done), Call(k, t)).Admit?
  {
    CallStamps(k, done);
    LiveLength(done, t - WINDOW);
  }

  lemma FullOfOvertaken(k: Key, stamps: seq<real>, now: real)
    requires |stamps| == ATTENDEE_EVENT_MAX && stamps[0] >= now - WINDOW
    requires forall i :: 1 <= i < |stamps| ==> stamps[i] < now - WINDOW
    ensures DequeCode(Holding(k, stamps), Call(k, now)) == AttendeeWindow
    ensures LogCode(Calls(k, stamps), Call(k, now)) == Admit
  {
    CallStamps(k, stamps);
    LiveTail(stamps, now - WINDOW);
  }

  /** One young stamp in front of four older ones (10 before 5, 5, 5, 5) shields them from pruning: when
      they are out of the window but it is not (at 66), the deque refuses a call that the log admits. */
  lemma OvertakenStampsDiverge(k: Key, stamps: seq<real>, now: real)
    requires |stamps| == 5 && stamps[0] >= now - 60.0
    requires forall i :: 1 <= i < |stamps| ==> stamps[i] < now - 60.0
    ensures DequeCode(DequeRun(FRESH, Calls(k, stamps)).0, Call(k, now)) == AttendeeWindow
    ensures LogCode(LogRun([], Calls(k, stamps)).0, Call(k, now)) == Admit
  {
    CallsAdmitted(k, stamps, |stamps|);
    CallsRecorded(k, stamps, |stamps|);
    assert stamps[..|stamps|] == stamps;
    FullOfOvertaken(k, stamps, now);
  }

  lemma VerdictsDiffer(k: Key, stamps: seq<real>, now: real)
    requires |stamps| == 5 && stamps[0] >= now - 60.0
    requires forall i :: 1 <= i < |stamps| ==> stamps[i] < now - 60.0
    ensures DequeRun(FRESH, Calls(k, stamps + [now])).1 != LogRun([], Calls(k, stamps + [now])).1
  {
    var (rqs, rq) := (Calls(k, stamps), Call(k, now));
    CallsSnoc(k, stamps, now, stamps + [now]);
    OvertakenStampsDiverge(k, stamps, now);
    DequeVerdictLast(FRESH, rqs, rq);
    LogVerdictLast([], rqs, rq);
  }

  /** The stamps of the divergence, with d the size of the overtaking: d, four times 0, and 60 + d. */
  lemma DivergingStamps(d: real) returns (stamps: seq<real>, now: real)
    requires d > 0.0
    ensures |stamps| == 5 && stamps[0] >= now - 60.0 && forall i :: 1 <= i < |stamps| ==> stamps[i] < now - 60.0
    ensures forall i, j :: 0 <= i < j < |stamps + [now]| ==> (stamps + [now])[i] <= (stamps + [now])[j] + d
  {
    stamps, now := [d, 0.0, 0.0, 0.0, 0.0], 60.0 + d;
  }

  lemma DivergingRun(k: Key, d: real) returns (rqs: seq<Request>)
    requires d > 0.0
    ensures Orderly(d, rqs) && DequeRun(FRESH, rqs).1 != LogRun([], rqs).1
  {
    var stamps, now := DivergingStamps(d);
    rqs := Calls(k, stamps + [now]);
    VerdictsDiffer(k, stamps, now);
    CallsOrderly(k, stamps + [now], d);
  }

  ghost predicate RefinesWithin(d: real) {
    forall rqs :: Orderly(d, rqs) ==> DequeRun(FRESH, rqs).1 == LogRun([], rqs).1
  }

  /** The refinement of the full log holds for every run with overtaking up to d if and only if d is zero. */
  lemma RefinementExact(d: real)
    requires d >= 0.0
    ensures RefinesWithin(d) <==> d == 0.0
  {
    if d == 0.0 {
      forall rqs | Orderly(d, rqs) ensures DequeRun(FRESH, rqs).1 == LogRun([], rqs).1 {
        LimiterRefinesFullLog(rqs);
      }
    } else {
      var rqs := DivergingRun(("", 0), d);
    }
  }

  // ---------------------------------------------------------------- admitted although there is none

  function Same(x: real, n: nat): seq<real> {
    seq(n, _ => x)
  }

  lemma InWindowSnoc(s: seq<real>, t: real, lo: real, width: real)
    ensures InWindow(s + [t], lo, width) == InWindow(s, lo, width) + Ind(lo <= t <= lo + width)
  {
    assert (s + [t])[..|s|] == s;
  }

  lemma {:induction false} SameInWindow(x: real, n: nat, width: real)
    requires width >= 0.0
    ensures InWindow(Same(x, n), x, width) == n
  {
    if n > 0 {
      SameInWindow(x, n - 1, width);
      InWindowSnoc(Same(x, n - 1), x, x, width);
      assert Same(x, n) == Same(x, n - 1) + [x];
    }
  }

  /** Five calls at x fill the window, one after x + 60 empties the deque, and one that it overtook, from
      no earlier than x, is admitted as well. */
  lemma SevenAdmitted(k: Key, x: real, after: real, overtaken: real)
    requires x <= overtaken <= after && x + 60.0 < after
    ensures var calls := Calls(k, Same(x, 5) + [after] + [overtaken]);
            Admissions(FRESH, calls) == calls && Orderly(after - overtaken, calls)
  {
    var five := Same(x, 5);
    CallsAdmitted(k, five, 5);
    assert five[..5] == five;
    AllPruned(five, after - WINDOW);
    OneMoreAdmitted(k, five, five, after, five + [after], [after]);
    assert Pruned([after], overtaken - WINDOW) == [after];
    OneMoreAdmitted(k, five + [after], [after], overtaken, five + [after] + [overtaken], [after] + [overtaken]);
    CallsOrderly(k, five + [after] + [overtaken], after - overtaken);
  }

  lemma SevenInWindow(k: Key, x: real, after: real, overtaken: real, width: real)
    requires x <= overtaken <= x + width
    ensures var stamps := AttendeeStamps(Calls(k, Same(x, 5) + [after] + [overtaken]), k);
            InWindow(stamps, x, width) == 6 + Ind(x <= after <= x + width)
  {
    var five := Same(x, 5);
    CallStamps(k, five + [after] + [overtaken]);
    SameInWindow(x, 5, width);
    InWindowSnoc(five, after, x, width);
    InWindowSnoc(five + [after], overtaken, x, width);
  }

  /** The guarantee itself breaks, by however little the last call is overtaken.  Five calls at x fill the
      window; one after x + 60 empties the deque; one from inside [x, x + 60] that it overtook is then
      admitted too, and that interval holds six. */
  lemma OvertakingBreaksBound(k: Key, x: real, after: real, overtaken: real)
    requires x <= overtaken <= x + 60.0 < after
    ensures var calls := Calls(k, Same(x, 5) + [after] + [overtaken]);
            && Admissions(FRESH, calls) == calls
            && InWindow(AttendeeStamps(calls, k), x, 60.0) == 6
            && Orderly(after - overtaken, calls)
  {
    SevenAdmitted(k, x, after, overtaken);
    SevenInWindow(k, x, after, overtaken, 60.0);
  }

  /** Every run with overtaking up to d admits at most five calls of a key in any closed interval this wide. */
  ghost predicate BoundedWithin(d: real, width: real) {
    forall rqs, k: Key, lo: real ::
      Orderly(d, rqs) ==> InWindow(AttendeeStamps(Admissions(FRESH, rqs), k), lo, width) <= 5
  }

  lemma NotBoundedWithin(d: real, width: real)
    requires d >= 0.0 && width >= 0.0 && width > 60.0 - d
    ensures !BoundedWithin(d, width)
  {
    var (k, after) := (("", 0), width + d);
    SevenAdmitted(k, 0.0, after, width);
    SevenInWindow(k, 0.0, after, width, width);
    assert after - width == d;
    var calls := Calls(k, Same(0.0, 5) + [after] + [width]);
    assert Orderly(d, calls) && InWindow(AttendeeStamps(Admissions(FRESH, calls), k), 0.0, width) >= 6;
  }

  /** 60 - d is the best possible: under overtaking up to d, five per interval of a given width is kept if
      and only if the width is at most 60 - d. */
  lemma SlackExact(d: real, width: real)
    requires d >= 0.0 && width >= 0.0
    ensures BoundedWithin(d, width) <==> width <= 60.0 - d
  {
    if width <= 60.0 - d {
      forall rqs, k: Key, lo: real | Orderly(d, rqs)
        ensures InWindow(AttendeeStamps(Admissions(FRESH, rqs), k), lo, width) <= 5
      {
        SlackGuarantee(rqs, d, lo, k, "x");
        InWiderWindow(AttendeeStamps(Admissions(FRESH, rqs), k), lo, width, 60.0 - d);
      }
    } else {
      NotBoundedWithin(d, width);
    }
  }

  lemma {:induction false} AllPruned(dq: seq<real>, cutoff: real)
    requires forall i :: 0 <= i < |dq| ==> dq[i] < cutoff
    ensures Pruned(dq, cutoff) == []
  {
    if dq != [] { AllPruned(dq[1..], cutoff); }
  }

  lemma {:induction false} CallAt(k: Key, stamps: seq<real>, i: nat)
    requires i < |stamps|
    ensures i < |Calls(k, stamps)| == |stamps| && Calls(k, stamps)[i] == Call(k, stamps[i])
  {
    CallStamps(k, stamps);
    CallStamps(k, stamps[..|stamps| - 1]);
    if i < |stamps| - 1 { CallAt(k, stamps[..|stamps| - 1], i); }
  }

  lemma CallsOrderly(k: Key, stamps: seq<real>, slack: real)
    requires forall i, j :: 0 <= i < j < |stamps| ==> stamps[i] <= stamps[j] + slack
    ensures Orderly(slack, Calls(k, stamps))
  {
    CallStamps(k, stamps);
    forall i | 0 <= i < |stamps| ensures Calls(k, stamps)[i] == Call(k, stamps[i]) {
      CallAt(k, stamps, i);
    }
  }
}
