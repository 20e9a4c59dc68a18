/**
 The sliding-window limiter of the check-in endpoint.  `Limiter` keeps, as the service does, one
 pruned deque of stamps per (attendee, event) and one per client IP.  `LogVerdict` is the reference:
 it forgets nothing and counts the stamps that are still inside the window.
 */
module RateLimiter {
  import opened Seqs

  const WINDOW := 60.0
  const ATTENDEE_EVENT_MAX := 5
  const IP_MAX := 60

  type Key = (string, int)

  datatype Request = Request(now: real, attendee: string, event: int, ip: Option<string>) {
    function Key(): Key { (attendee, event) }
  }

  /** Which window refuses, if any. */
  datatype Code = Admit | AttendeeWindow | IpWindow

  /** Admitted, or the window that refused together with the Retry-After seconds. */
  datatype Verdict = Admitted | Throttled(code: Code, retry: int)

  datatype Deques = Deques(attendeeEvent: map<Key, seq<real>>, byIp: map<string, seq<real>>)

  function Get<K, V>(m: map<K, seq<V>>, k: K): seq<V> {
    if k in m then m[k] else []
  }

  lemma Overwrite<K, V>(m: map<K, V>, k: K, v: V, w: V)
    ensures m[k := v][k := w] == m[k := w]
  {
  }

  /** A deque after dropping its leading stamps older than the cutoff. */
  function Pruned(dq: seq<real>, cutoff: real): seq<real> {
    if dq != [] && dq[0] < cutoff then Pruned(dq[1..], cutoff) else dq
  }

  function RetryAfter(now: real, oldest: real): int {
    var retry := Trunc(WINDOW - (now - oldest)) + 1;
    if retry > 1 then retry else 1
  }

  /** The (attendee, event) deque of a request once pruned at the request's time. */
  function AttendeeDeque(st: Deques, rq: Request): seq<real> {
    Pruned(Get(st.attendeeEvent, rq.Key()), rq.now - WINDOW)
  }

  function IpDeque(st: Deques, rq: Request): seq<real>
    requires rq.ip.Some?
  {
    Pruned(Get(st.byIp, rq.ip.value), rq.now - WINDOW)
  }

  /** The attendee window is consulted first, the IP window only when there is an IP. */
  function DequeCode(st: Deques, rq: Request): Code {
    if |AttendeeDeque(st, rq)| >= ATTENDEE_EVENT_MAX then AttendeeWindow
    else if Truthy(rq.ip) && |IpDeque(st, rq)| >= IP_MAX then IpWindow
    else Admit
  }

  function DequeVerdict(st: Deques, rq: Request): Verdict {
    match DequeCode(st, rq)
    case Admit => Admitted
    case AttendeeWindow => Throttled(AttendeeWindow, RetryAfter(rq.now, AttendeeDeque(st, rq)[0]))
    case IpWindow => Throttled(IpWindow, RetryAfter(rq.now, IpDeque(st, rq)[0]))
  }

  function Stamp(now: real, admitted: bool): seq<real> {
    if admitted then [now] else []
  }

  /** The deques afterwards: pruned where they were consulted, stamped only on admission. */
  function DequeNext(st: Deques, rq: Request): Deques {
    var stamp := Stamp(rq.now, DequeCode(st, rq).Admit?);
    Deques(
      st.attendeeEvent[rq.Key() := AttendeeDeque(st, rq) + stamp],
      if !Truthy(rq.ip) || DequeCode(st, rq).AttendeeWindow? then st.byIp
      else st.byIp[rq.ip.value := IpDeque(st, rq) + stamp])
  }

  /** The process-wide limiter state and the two routines that change it. */
  class Limiter {
    var attendeeEvent: map<Key, seq<real>>
    var byIp: map<string, seq<real>>

    function State(): Deques
      reads this
    {
      Deques(attendeeEvent, byIp)
    }

    constructor ()
      ensures State() == Deques(map[], map[])
    {
      attendeeEvent, byIp := map[], map[];
    }

    static method Prune(deque: seq<real>, now: real, window: real) returns (dq: seq<real>)
      ensures dq == Pruned(deque, now - window)
    {
      var cutoff := now - window;
      dq := deque;
      while dq != [] && dq[0] < cutoff
        invariant Pruned(dq, cutoff) == Pruned(deque, cutoff)
        decreases |dq|
      {
        dq := dq[1..];
      }
    }

    method RateLimit(rq: Request) returns (verdict: Verdict)
      modifies this
      ensures verdict == DequeVerdict(old(State()), rq)
      ensures State() == DequeNext(old(State()), rq)
    {
      ghost var was := State();
      if rq.Key() !in attendeeEvent {
        attendeeEvent := attendeeEvent[rq.Key() := []];
      }
      var dq := Prune(attendeeEvent[rq.Key()], rq.now, WINDOW);
      attendeeEvent := attendeeEvent[rq.Key() := dq];
      Overwrite(was.attendeeEvent, rq.Key(), [], dq);
      assert dq == AttendeeDeque(was, rq) == dq + [];
      if |dq| >= ATTENDEE_EVENT_MAX {
        return Throttled(AttendeeWindow, RetryAfter(rq.now, dq[0]));
      }
      if Truthy(rq.ip) {
        var ip := rq.ip.value;
        if ip !in byIp {
          byIp := byIp[ip := []];
        }
        var dqIp := Prune(byIp[ip], rq.now, WINDOW);
        byIp := byIp[ip := dqIp];
        Overwrite(was.byIp, ip, [], dqIp);
        assert dqIp == IpDeque(was, rq) == dqIp + [];
        if |dqIp| >= IP_MAX {
          return Throttled(IpWindow, RetryAfter(rq.now, dqIp[0]));
        }
        byIp := byIp[ip := dqIp + [rq.now]];
        Overwrite(was.byIp, ip, dqIp, dqIp + [rq.now]);
      }
      attendeeEvent := attendeeEvent[rq.Key() := dq + [rq.now]];
      Overwrite(was.attendeeEvent, rq.Key(), dq, dq + [rq.now]);
      return Admitted;
    }
  }

  // ---------------------------------------------------------------- the reference limiter

  /** Stamps of the admitted requests of one (attendee, event), oldest first. */
  function AttendeeStamps(log: seq<Request>, key: Key): seq<real> {
    if log == [] then []
    else
      var rest := AttendeeStamps(log[..|log| - 1], key);
      var last := log[|log| - 1];
      if last.Key() == key then rest + [last.now] else rest
  }

  /** Stamps of the admitted requests of one client IP, oldest first. */
  function IpStamps(log: seq<Request>, ip: string): seq<real> {
    if log == [] then []
    else
      var rest := IpStamps(log[..|log| - 1], ip);
      var last := log[|log| - 1];
      if last.ip == Some(ip) then rest + [last.now] else rest
  }

  /** The stamps not older than the cutoff. */
  function Live(s: seq<real>, cutoff: real): seq<real> {
    if s == [] then []
    else
      var rest := Live(s[..|s| - 1], cutoff);
      if s[|s| - 1] >= cutoff then rest + [s[|s| - 1]] else rest
  }

  /** The stamps of the request's own (attendee, event), then of its IP, still inside the window. */
  function Mine(log: seq<Request>, rq: Request): seq<real> {
    Live(AttendeeStamps(log, rq.Key()), rq.now - WINDOW)
  }

  function Ours(log: seq<Request>, rq: Request): seq<real>
    requires rq.ip.Some?
  {
    Live(IpStamps(log, rq.ip.value), rq.now - WINDOW)
  }

  /** The reference decision: `log` holds every request ever admitted. */
  function LogCode(log: seq<Request>, rq: Request): Code {
    if |Mine(log, rq)| >= ATTENDEE_EVENT_MAX then AttendeeWindow
    else if Truthy(rq.ip) && |Ours(log, rq)| >= IP_MAX then IpWindow
    else Admit
  }

  function LogVerdict(log: seq<Request>, rq: Request): Verdict {
    match LogCode(log, rq)
    case Admit => Admitted
    case AttendeeWindow => Throttled(AttendeeWindow, RetryAfter(rq.now, Mine(log, rq)[0]))
    case IpWindow => Throttled(IpWindow, RetryAfter(rq.now, Ours(log, rq)[0]))
  }

  function LogNext(log: seq<Request>, rq: Request): seq<Request> {
    if LogCode(log, rq).Admit? then log + [rq] else log
  }

  const FRESH := Deques(map[], map[])

  function DequeRun(st: Deques, rqs: seq<Request>): (Deques, seq<Verdict>)
    decreases |rqs|
  {
    if rqs == [] then (st, [])
    else
      var (st', vs) := DequeRun(DequeNext(st, rqs[0]), rqs[1..]);
      (st', [DequeVerdict(st, rqs[0])] + vs)
  }

  /** The requests the deques admit, in order. */
  function Admissions(st: Deques, rqs: seq<Request>): seq<Request>
    decreases |rqs|
  {
    if rqs == [] then []
    else (if DequeCode(st, rqs[0]).Admit? then [rqs[0]] else []) + Admissions(DequeNext(st, rqs[0]), rqs[1..])
  }

  function LogRun(log: seq<Request>, rqs: seq<Request>): (seq<Request>, seq<Verdict>)
    decreases |rqs|
  {
    if rqs == [] then (log, [])
    else
      var (log', vs) := LogRun(LogNext(log, rqs[0]), rqs[1..]);
      (log', [LogVerdict(log, rqs[0])] + vs)
  }

  // ---------------------------------------------------------------- order

  /** A request may be overtaken by at most `slack` seconds by another of its own (attendee, event) or of
      its own IP; with no slack, each key sees its stamps in order.  Different keys need no order. */
  ghost predicate Orderly(slack: real, rqs: seq<Request>) {
    && (forall i, j | 0 <= i < j < |rqs| :: rqs[i].Key() == rqs[j].Key() ==> rqs[i].now <= rqs[j].now + slack)
    && (forall i, j | 0 <= i < j < |rqs| ::
          rqs[i].ip.Some? && rqs[i].ip == rqs[j].ip ==> rqs[i].now <= rqs[j].now + slack)
  }

  function Later(top: Option<real>, now: real): Option<real> {
    if top.Some? && top.value > now then top else Some(now)
  }

  /** The latest stamp among the requests of one (attendee, event), admitted or not. */
  function Top(past: seq<Request>, k: Key): (top: Option<real>)
    ensures top.Some? ==> exists i :: 0 <= i < |past| && past[i].Key() == k && past[i].now == top.value
  {
    if past == [] then None
    else
      var (n, last) := (|past| - 1, past[|past| - 1]);
      var top := Top(past[..n], k);
      assert forall i :: 0 <= i < n ==> past[i] == past[..n][i];
      if last.Key() == k then Later(top, last.now) else top
  }

  function IpTop(past: seq<Request>, ip: string): (top: Option<real>)
    ensures top.Some? ==> exists i :: 0 <= i < |past| && past[i].ip == Some(ip) && past[i].now == top.value
  {
    if past == [] then None
    else
      var (n, last) := (|past| - 1, past[|past| - 1]);
      var top := IpTop(past[..n], ip);
      assert forall i :: 0 <= i < n ==> past[i] == past[..n][i];
      if last.ip == Some(ip) then Later(top, last.now) else top
  }

  /** The stamp lags behind the latest one by at most `slack`. */
  predicate Follows(top: Option<real>, now: real, slack: real) {
    top.None? || top.value <= now + slack
  }

  predicate InStep(past: seq<Request>, rq: Request, slack: real) {
    Follows(Top(past, rq.Key()), rq.now, slack) && (rq.ip.Some? ==> Follows(IpTop(past, rq.ip.value), rq.now, slack))
  }

  lemma OrderlyInStep(past: seq<Request>, rqs: seq<Request>, slack: real)
    requires Orderly(slack, past + rqs) && rqs != []
    ensures InStep(past, rqs[0], slack)
  {
    var (all, n) := (past + rqs, |past|);
    assert all[n] == rqs[0];
    var top := Top(past, rqs[0].Key());
    if top.Some? {
      var i :| 0 <= i < |past| && past[i].Key() == rqs[0].Key() && past[i].now == top.value;
      assert all[i] == past[i];
    }
    if rqs[0].ip.Some? && IpTop(past, rqs[0].ip.value).Some? {
      var i :| 0 <= i < |past| && past[i].ip == rqs[0].ip && past[i].now == IpTop(past, rqs[0].ip.value).value;
      assert all[i] == past[i];
    }
  }

  lemma TopNext(past: seq<Request>, rq: Request, k: Key)
    ensures Top(past + [rq], k) == if rq.Key() == k then Later(Top(past, k), rq.now) else Top(past, k)
  {
    assert (past + [rq])[..|past|] == past;
  }

  lemma IpTopNext(past: seq<Request>, rq: Request, ip: string)
    ensures IpTop(past + [rq], ip) == if rq.ip == Some(ip) then Later(IpTop(past, ip), rq.now) else IpTop(past, ip)
  {
    assert (past + [rq])[..|past|] == past;
  }

  // ---------------------------------------------------------------- what a deque may hold

  ghost predicate Sorted(s: seq<real>, clock: real) {
    && (forall i, j :: 0 <= i < j < |s| ==> s[i] <= s[j])
    && (forall i :: 0 <= i < |s| ==> s[i] <= clock)
  }

  ghost predicate SortedUpTo(s: seq<real>, top: Option<real>) {
    s == [] || (top.Some? && Sorted(s, top.value))
  }

  /** Stamps `max` or more places apart are more than `width` apart. */
  ghost predicate Spaced(s: seq<real>, max: nat, width: real) {
    forall i, j :: 0 <= i && i + max <= j < |s| ==> s[i] + width < s[j]
  }

  /** The first n stamps are more than a window older than the latest one seen. */
  ghost predicate Behind(s: seq<real>, n: nat, top: Option<real>)
    requires n <= |s|
  {
    n == 0 || (top.Some? && forall i :: 0 <= i < n ==> s[i] < top.value - WINDOW)
  }

  /** `dq` is what a deque may hold when the admitted stamps are `s` and the latest stamp seen is `top`. */
  ghost predicate DequeOf(dq: seq<real>, s: seq<real>, top: Option<real>, max: nat, slack: real) {
    && Spaced(s, max, WINDOW - slack)
    && |dq| <= |s| && |dq| <= max
    && dq == s[|s| - |dq|..]
    && Behind(s, |s| - |dq|, top)
  }

  ghost predicate AttendeeRelated(st: Deques, log: seq<Request>, past: seq<Request>, slack: real, k: Key) {
    DequeOf(Get(st.attendeeEvent, k), AttendeeStamps(log, k), Top(past, k), ATTENDEE_EVENT_MAX, slack)
  }

  ghost predicate IpRelated(st: Deques, log: seq<Request>, past: seq<Request>, slack: real, ip: string) {
    DequeOf(Get(st.byIp, ip), IpStamps(log, ip), IpTop(past, ip), IP_MAX, slack)
  }

  /** After the requests `past`, of which `log` were admitted, the deques may be `st`. */
  ghost predicate Related(st: Deques, log: seq<Request>, past: seq<Request>, slack: real) {
    && (forall k: Key :: AttendeeRelated(st, log, past, slack, k))
    && (forall ip: string | ip != "" :: IpRelated(st, log, past, slack, ip))
  }

  /** Every key's admitted stamps are in order. */
  ghost predicate InOrder(log: seq<Request>, past: seq<Request>) {
    && (forall k: Key :: SortedUpTo(AttendeeStamps(log, k), Top(past, k)))
    && (forall ip: string | ip != "" :: SortedUpTo(IpStamps(log, ip), IpTop(past, ip)))
  }

  lemma {:induction false} PrunedIsSuffix(dq: seq<real>, cutoff: real)
    ensures var r := Pruned(dq, cutoff);
            && |r| <= |dq| && r == dq[|dq| - |r|..]
            && (forall i :: 0 <= i < |dq| - |r| ==> dq[i] < cutoff)
            && (r != [] ==> r[0] >= cutoff)
  {
    if dq != [] && dq[0] < cutoff {
      PrunedIsSuffix(dq[1..], cutoff);
      var r := Pruned(dq, cutoff);
      assert forall i :: 1 <= i < |dq| ==> dq[i] == dq[1..][i - 1];
      assert r == dq[1..][|dq| - 1 - |r|..] == dq[|dq| - |r|..];
    }
  }

  lemma {:induction false} LiveAll(s: seq<real>, cutoff: real)
    requires forall i :: 0 <= i < |s| ==> s[i] >= cutoff
    ensures Live(s, cutoff) == s
  {
    if s != [] {
      LiveAll(s[..|s| - 1], cutoff);
      assert s == s[..|s| - 1] + [s[|s| - 1]];
    }
  }

  lemma {:induction false} LiveNone(s: seq<real>, cutoff: real)
    requires forall i :: 0 <= i < |s| ==> s[i] < cutoff
    ensures Live(s, cutoff) == []
  {
    if s != [] {
      LiveNone(s[..|s| - 1], cutoff);
    }
  }

  lemma {:induction false} LiveConcat(s: seq<real>, t: seq<real>, cutoff: real)
    ensures Live(s + t, cutoff) == Live(s, cutoff) + Live(t, cutoff)
  {
    if t == [] {
      assert s + t == s;
    } else {
      assert (s + t)[..|s + t| - 1] == s + t[..|t| - 1];
      LiveConcat(s, t[..|t| - 1], cutoff);
    }
  }

  /** A history whose first `cut` stamps are stale and whose other stamps are not. */
  lemma LiveIsSuffix(s: seq<real>, cut: nat, cutoff: real)
    requires cut <= |s|
    requires forall i :: 0 <= i < cut ==> s[i] < cutoff
    requires forall i :: cut <= i < |s| ==> s[i] >= cutoff
    ensures Live(s, cutoff) == s[cut..]
  {
    LiveNone(s[..cut], cutoff);
    LiveAll(s[cut..], cutoff);
    LiveConcat(s[..cut], s[cut..], cutoff);
    assert s == s[..cut] + s[cut..];
  }

  /** What pruning the end of a history drops. */
  lemma PrunedDrops(dq: seq<real>, s: seq<real>, cutoff: real)
    requires |dq| <= |s| && dq == s[|s| - |dq|..]
    ensures var r := Pruned(dq, cutoff);
            && |r| <= |dq| && r == s[|s| - |r|..]
            && (forall i :: |s| - |dq| <= i < |s| - |r| ==> s[i] < cutoff)
            && (r != [] ==> s[|s| - |r|] >= cutoff)
  {
    var (r, skipped) := (Pruned(dq, cutoff), |s| - |dq|);
    PrunedIsSuffix(dq, cutoff);
    forall i | skipped <= i < |s| - |r| ensures s[i] < cutoff { assert dq[i - skipped] == s[i]; }
    assert dq[|dq| - |r|..] == s[|s| - |r|..];
  }

  /** In order, pruning a deque leaves exactly the live part of the full history. */
  lemma PrunedIsLive(dq: seq<real>, s: seq<real>, top: Option<real>, max: nat, now: real)
    requires DequeOf(dq, s, top, max, 0.0) && SortedUpTo(s, top) && Follows(top, now, 0.0)
    ensures Pruned(dq, now - WINDOW) == Live(s, now - WINDOW)
  {
    PrunedDrops(dq, s, now - WINDOW);
    var cut := |s| - |Pruned(dq, now - WINDOW)|;
    forall i | cut <= i < |s| ensures s[i] >= now - WINDOW {
      if cut < i { assert s[cut] <= s[i]; }
    }
    LiveIsSuffix(s, cut, now - WINDOW);
  }

  /** Pruning loses only stamps that the latest one has left behind. */
  lemma PruneKeeps(dq: seq<real>, s: seq<real>, top: Option<real>, max: nat, slack: real, now: real)
    requires DequeOf(dq, s, top, max, slack)
    ensures DequeOf(Pruned(dq, now - WINDOW), s, Later(top, now), max, slack)
  {
    PrunedDrops(dq, s, now - WINDOW);
  }

  /** Admitting a stamp that lags by at most the slack keeps the history spaced. */
  lemma AppendKeeps(dq: seq<real>, s: seq<real>, top: Option<real>, now: real, max: nat, slack: real)
    requires DequeOf(dq, s, top, max, slack) && |dq| < max && Follows(top, now, slack)
    ensures DequeOf(dq + [now], s + [now], top, max, slack)
  {
    var (s', dropped) := (s + [now], |s| - |dq|);
    assert Behind(s', dropped, top) by {
      assert forall i :: 0 <= i < dropped ==> s'[i] == s[i];
    }
    forall i, j | 0 <= i && i + max <= j < |s'| ensures s'[i] + (WINDOW - slack) < s'[j] {
      assert s'[i] == s[i];
      if j < |s| {
        assert s'[j] == s[j];
      } else {
        assert i < dropped && s'[j] == now;
      }
    }
    assert dq + [now] == s'[dropped..];
  }

  lemma AttendeeAppend(log: seq<Request>, rq: Request, k: Key)
    ensures AttendeeStamps(log + [rq], k)
            == if k == rq.Key() then AttendeeStamps(log, k) + [rq.now] else AttendeeStamps(log, k)
  {
    assert (log + [rq])[..|log|] == log;
  }

  lemma IpAppend(log: seq<Request>, rq: Request, ip: string)
    ensures IpStamps(log + [rq], ip)
            == if rq.ip == Some(ip) then IpStamps(log, ip) + [rq.now] else IpStamps(log, ip)
  {
    assert (log + [rq])[..|log|] == log;
  }

  /** A window that is asked: pruned, and stamped if the request is admitted. */
  lemma WindowStep(dq: seq<real>, s: seq<real>, top: Option<real>, max: nat, slack: real, now: real, admitted: bool,
                   dq': seq<real>, s': seq<real>, later: Option<real>)
    requires DequeOf(dq, s, top, max, slack) && slack >= 0.0 && Follows(top, now, slack) && later == Later(top, now)
    requires admitted ==> |Pruned(dq, now - WINDOW)| < max
    requires dq' == Pruned(dq, now - WINDOW) + Stamp(now, admitted) && s' == s + Stamp(now, admitted)
    ensures DequeOf(dq', s', later, max, slack)
  {
    PruneKeeps(dq, s, top, max, slack, now);
    if admitted {
      AppendKeeps(Pruned(dq, now - WINDOW), s, Later(top, now), now, max, slack);
    } else {
      assert dq' == Pruned(dq, now - WINDOW) && s' == s;
    }
  }

  /** A window that is not asked, by a request of its key or of another. */
  lemma WindowRests(dq: seq<real>, s: seq<real>, top: Option<real>, max: nat, slack: real, now: real,
                    dq': seq<real>, s': seq<real>, later: Option<real>)
    requires DequeOf(dq, s, top, max, slack) && dq' == dq && s' == s && (later == top || later == Later(top, now))
    ensures DequeOf(dq', s', later, max, slack)
  {
  }

  function Grown(log: seq<Request>, rq: Request, admitted: bool): seq<Request> {
    if admitted then log + [rq] else log
  }

  lemma AttendeeStampsNext(log: seq<Request>, rq: Request, k: Key, admitted: bool)
    ensures AttendeeStamps(Grown(log, rq, admitted), k)
            == if k == rq.Key() then AttendeeStamps(log, k) + Stamp(rq.now, admitted) else AttendeeStamps(log, k)
  {
    AttendeeAppend(log, rq, k);
    assert AttendeeStamps(log, k) + [] == AttendeeStamps(log, k);
  }

  /** A request refused by its attendee window leaves the IP stamps alone as well. */
  lemma IpStampsNext(log: seq<Request>, rq: Request, ip: string, asked: bool, admitted: bool)
    requires asked ==> rq.ip == Some(ip)
    requires admitted && rq.ip == Some(ip) ==> asked
    ensures IpStamps(Grown(log, rq, admitted), ip)
            == if asked then IpStamps(log, ip) + Stamp(rq.now, admitted) else IpStamps(log, ip)
  {
    IpAppend(log, rq, ip);
    assert IpStamps(log, ip) + [] == IpStamps(log, ip);
  }

  lemma AttendeeDequeNext(st: Deques, rq: Request, k: Key)
    ensures Get(DequeNext(st, rq).attendeeEvent, k)
            == if k == rq.Key()
               then Pruned(Get(st.attendeeEvent, k), rq.now - WINDOW) + Stamp(rq.now, DequeCode(st, rq).Admit?)
               else Get(st.attendeeEvent, k)
  {
  }

  lemma IpDequeNext(st: Deques, rq: Request, ip: string)
    requires ip != ""
    ensures Get(DequeNext(st, rq).byIp, ip)
            == if rq.ip == Some(ip) && !DequeCode(st, rq).AttendeeWindow?
               then Pruned(Get(st.byIp, ip), rq.now - WINDOW) + Stamp(rq.now, DequeCode(st, rq).Admit?)
               else Get(st.byIp, ip)
  {
  }

  /** What a request does to the deque, the admissions and the latest stamp of its own key. */
  lemma OwnKeyNext(st: Deques, log: seq<Request>, past: seq<Request>, rq: Request, k: Key, admitted: bool)
    requires k == rq.Key() && admitted == DequeCode(st, rq).Admit?
    ensures Get(DequeNext(st, rq).attendeeEvent, k)
            == Pruned(Get(st.attendeeEvent, k), rq.now - WINDOW) + Stamp(rq.now, admitted)
    ensures AttendeeStamps(Grown(log, rq, admitted), k) == AttendeeStamps(log, k) + Stamp(rq.now, admitted)
    ensures Top(past + [rq], k) == Later(Top(past, k), rq.now)
    ensures admitted ==> |Pruned(Get(st.attendeeEvent, k), rq.now - WINDOW)| < ATTENDEE_EVENT_MAX
  {
    AttendeeStampsNext(log, rq, k, admitted);
    AttendeeDequeNext(st, rq, k);
    TopNext(past, rq, k);
  }

  lemma OtherKeyNext(st: Deques, log: seq<Request>, past: seq<Request>, rq: Request, k: Key, admitted: bool)
    requires k != rq.Key()
    ensures Get(DequeNext(st, rq).attendeeEvent, k) == Get(st.attendeeEvent, k)
    ensures AttendeeStamps(Grown(log, rq, admitted), k) == AttendeeStamps(log, k)
    ensures Top(past + [rq], k) == Top(past, k)
  {
    AttendeeStampsNext(log, rq, k, admitted);
    AttendeeDequeNext(st, rq, k);
    TopNext(past, rq, k);
  }

  lemma AttendeeStaysRelated(st: Deques, log: seq<Request>, past: seq<Request>, slack: real, rq: Request, k: Key)
    requires AttendeeRelated(st, log, past, slack, k) && slack >= 0.0 && InStep(past, rq, slack)
    ensures AttendeeRelated(DequeNext(st, rq), Grown(log, rq, DequeCode(st, rq).Admit?), past + [rq], slack, k)
  {
    var admitted := DequeCode(st, rq).Admit?;
    var (dq', s') := (Get(DequeNext(st, rq).attendeeEvent, k), AttendeeStamps(Grown(log, rq, admitted), k));
    var (dq, s, top) := (Get(st.attendeeEvent, k), AttendeeStamps(log, k), Top(past, k));
    if k == rq.Key() {
      OwnKeyNext(st, log, past, rq, k, admitted);
      WindowStep(dq, s, top, ATTENDEE_EVENT_MAX, slack, rq.now, admitted, dq', s', Top(past + [rq], k));
    } else {
      OtherKeyNext(st, log, past, rq, k, admitted);
      WindowRests(dq, s, top, ATTENDEE_EVENT_MAX, slack, rq.now, dq', s', Top(past + [rq], k));
    }
  }

  /** The request asked the window of this IP. */
  predicate AsksIp(st: Deques, rq: Request, ip: string) {
    rq.ip == Some(ip) && !DequeCode(st, rq).AttendeeWindow?
  }

  lemma OwnIpNext(st: Deques, log: seq<Request>, past: seq<Request>, rq: Request, ip: string, admitted: bool)
    requires ip != "" && AsksIp(st, rq, ip) && admitted == DequeCode(st, rq).Admit?
    ensures Get(DequeNext(st, rq).byIp, ip) == Pruned(Get(st.byIp, ip), rq.now - WINDOW) + Stamp(rq.now, admitted)
    ensures IpStamps(Grown(log, rq, admitted), ip) == IpStamps(log, ip) + Stamp(rq.now, admitted)
    ensures IpTop(past + [rq], ip) == Later(IpTop(past, ip), rq.now)
    ensures admitted ==> |Pruned(Get(st.byIp, ip), rq.now - WINDOW)| < IP_MAX
  {
    IpStampsNext(log, rq, ip, true, admitted);
    IpDequeNext(st, rq, ip);
    IpTopNext(past, rq, ip);
  }

  lemma OtherIpNext(st: Deques, log: seq<Request>, past: seq<Request>, rq: Request, ip: string, admitted: bool)
    requires ip != "" && !AsksIp(st, rq, ip) && admitted == DequeCode(st, rq).Admit?
    ensures Get(DequeNext(st, rq).byIp, ip) == Get(st.byIp, ip)
    ensures IpStamps(Grown(log, rq, admitted), ip) == IpStamps(log, ip)
    ensures IpTop(past + [rq], ip) == IpTop(past, ip) || IpTop(past + [rq], ip) == Later(IpTop(past, ip), rq.now)
  {
    IpStampsNext(log, rq, ip, false, admitted);
    IpDequeNext(st, rq, ip);
    IpTopNext(past, rq, ip);
  }

  lemma IpStaysRelated(st: Deques, log: seq<Request>, past: seq<Request>, slack: real, rq: Request, ip: string)
    requires IpRelated(st, log, past, slack, ip) && slack >= 0.0 && ip != "" && InStep(past, rq, slack)
    ensures IpRelated(DequeNext(st, rq), Grown(log, rq, DequeCode(st, rq).Admit?), past + [rq], slack, ip)
  {
    var admitted := DequeCode(st, rq).Admit?;
    var (dq', s') := (Get(DequeNext(st, rq).byIp, ip), IpStamps(Grown(log, rq, admitted), ip));
    var (dq, s, top) := (Get(st.byIp, ip), IpStamps(log, ip), IpTop(past, ip));
    if AsksIp(st, rq, ip) {
      OwnIpNext(st, log, past, rq, ip, admitted);
      WindowStep(dq, s, top, IP_MAX, slack, rq.now, admitted, dq', s', IpTop(past + [rq], ip));
    } else {
      OtherIpNext(st, log, past, rq, ip, admitted);
      WindowRests(dq, s, top, IP_MAX, slack, rq.now, dq', s', IpTop(past + [rq], ip));
    }
  }

  lemma StaysRelated(st: Deques, log: seq<Request>, past: seq<Request>, slack: real, rq: Request)
    requires Related(st, log, past, slack) && slack >= 0.0 && InStep(past, rq, slack)
    ensures Related(DequeNext(st, rq), Grown(log, rq, DequeCode(st, rq).Admit?), past + [rq], slack)
  {
    forall k: Key
      ensures AttendeeRelated(DequeNext(st, rq), Grown(log, rq, DequeCode(st, rq).Admit?), past + [rq], slack, k)
    {
      AttendeeStaysRelated(st, log, past, slack, rq, k);
    }
    forall ip: string | ip != ""
      ensures IpRelated(DequeNext(st, rq), Grown(log, rq, DequeCode(st, rq).Admit?), past + [rq], slack, ip)
    {
      IpStaysRelated(st, log, past, slack, rq, ip);
    }
  }

  lemma Shift<T>(a: seq<T>, b: seq<T>)
    requires b != []
    ensures a + b == (a + [b[0]]) + b[1..]
  {
  }

  /** Over any run with bounded overtaking, each deque stays the end of its key's admissions. */
  lemma {:induction false} RunStaysRelated(st: Deques, log: seq<Request>, past: seq<Request>, slack: real,
                                           rqs: seq<Request>)
    requires Related(st, log, past, slack) && slack >= 0.0 && Orderly(slack, past + rqs)
    ensures Related(DequeRun(st, rqs).0, log + Admissions(st, rqs), past + rqs, slack)
    decreases |rqs|
  {
    if rqs == [] {
      assert past + rqs == past && log + Admissions(st, rqs) == log;
    } else {
      OrderlyInStep(past, rqs, slack);
      StaysRelated(st, log, past, slack, rqs[0]);
      Shift(past, rqs);
      var log' := Grown(log, rqs[0], DequeCode(st, rqs[0]).Admit?);
      RunStaysRelated(DequeNext(st, rqs[0]), log', past + [rqs[0]], slack, rqs[1..]);
      AdmissionsStep(st, log, rqs);
    }
  }

  lemma Regroup<T>(a: seq<T>, x: T, b: seq<T>)
    ensures a + ([x] + b) == (a + [x]) + b
  {
  }

  lemma AdmissionsStep(st: Deques, log: seq<Request>, rqs: seq<Request>)
    requires rqs != []
    ensures log + Admissions(st, rqs)
            == Grown(log, rqs[0], DequeCode(st, rqs[0]).Admit?) + Admissions(DequeNext(st, rqs[0]), rqs[1..])
  {
    var rest := Admissions(DequeNext(st, rqs[0]), rqs[1..]);
    Regroup(log, rqs[0], rest);
    assert [] + rest == rest;
  }

  lemma EmptyWindow(dq: seq<real>, s: seq<real>, top: Option<real>, max: nat, slack: real)
    requires dq == [] && s == []
    ensures DequeOf(dq, s, top, max, slack)
  {
  }

  lemma FreshRelated(slack: real)
    ensures Related(FRESH, [], [], slack) && InOrder([], [])
  {
    forall k: Key ensures AttendeeRelated(FRESH, [], [], slack, k) && SortedUpTo(AttendeeStamps([], k), Top([], k)) {
      EmptyWindow(Get(FRESH.attendeeEvent, k), AttendeeStamps([], k), Top([], k), ATTENDEE_EVENT_MAX, slack);
    }
    forall ip: string | ip != ""
      ensures IpRelated(FRESH, [], [], slack, ip) && SortedUpTo(IpStamps([], ip), IpTop([], ip))
    {
      EmptyWindow(Get(FRESH.byIp, ip), IpStamps([], ip), IpTop([], ip), IP_MAX, slack);
    }
  }

  lemma FreshRun(rqs: seq<Request>, slack: real)
    requires slack >= 0.0 && Orderly(slack, rqs)
    ensures Related(DequeRun(FRESH, rqs).0, Admissions(FRESH, rqs), rqs, slack)
  {
    FreshRelated(slack);
    assert [] + rqs == rqs && [] + Admissions(FRESH, rqs) == Admissions(FRESH, rqs);
    RunStaysRelated(FRESH, [], [], slack, rqs);
  }

  // ---------------------------------------------------------------- refinement

  /** Both limiters give one request the same verdict, code and Retry-After included. */
  lemma SameVerdict(st: Deques, log: seq<Request>, past: seq<Request>, rq: Request)
    requires Related(st, log, past, 0.0) && InOrder(log, past) && InStep(past, rq, 0.0)
    ensures DequeCode(st, rq) == LogCode(log, rq)
    ensures DequeVerdict(st, rq) == LogVerdict(log, rq)
  {
    var k := rq.Key();
    assert AttendeeRelated(st, log, past, 0.0, k);
    PrunedIsLive(Get(st.attendeeEvent, k), AttendeeStamps(log, k), Top(past, k), ATTENDEE_EVENT_MAX, rq.now);
    if Truthy(rq.ip) {
      var ip := rq.ip.value;
      assert IpRelated(st, log, past, 0.0, ip);
      PrunedIsLive(Get(st.byIp, ip), IpStamps(log, ip), IpTop(past, ip), IP_MAX, rq.now);
    }
  }

  lemma SortedNext(s: seq<real>, top: Option<real>, now: real, asked: bool, admitted: bool, s': seq<real>)
    requires SortedUpTo(s, top) && (asked ==> Follows(top, now, 0.0))
    requires s' == if asked then s + Stamp(now, admitted) else s
    ensures SortedUpTo(s', if asked then Later(top, now) else top)
    ensures SortedUpTo(s, Later(top, now))
  {
  }

  lemma OrderKept(log: seq<Request>, past: seq<Request>, rq: Request)
    requires InOrder(log, past) && InStep(past, rq, 0.0)
    ensures InOrder(LogNext(log, rq), past + [rq])
  {
    var admitted := LogCode(log, rq).Admit?;
    forall k: Key ensures SortedUpTo(AttendeeStamps(LogNext(log, rq), k), Top(past + [rq], k)) {
      AttendeeStampsNext(log, rq, k, admitted);
      TopNext(past, rq, k);
      SortedNext(AttendeeStamps(log, k), Top(past, k), rq.now, k == rq.Key(), admitted,
                 AttendeeStamps(Grown(log, rq, admitted), k));
    }
    forall ip: string | ip != "" ensures SortedUpTo(IpStamps(LogNext(log, rq), ip), IpTop(past + [rq], ip)) {
      IpStampsNext(log, rq, ip, rq.ip == Some(ip), admitted);
      IpTopNext(past, rq, ip);
      SortedNext(IpStamps(log, ip), IpTop(past, ip), rq.now, rq.ip == Some(ip), admitted,
                 IpStamps(Grown(log, rq, admitted), ip));
    }
  }

  /** One request: same verdict (code and retry), and the two states stay related. */
  lemma StepRefines(st: Deques, log: seq<Request>, past: seq<Request>, rq: Request)
    requires Related(st, log, past, 0.0) && InOrder(log, past) && InStep(past, rq, 0.0)
    ensures DequeVerdict(st, rq) == LogVerdict(log, rq)
    ensures LogNext(log, rq) == Grown(log, rq, DequeCode(st, rq).Admit?)
    ensures Related(DequeNext(st, rq), LogNext(log, rq), past + [rq], 0.0) && InOrder(LogNext(log, rq), past + [rq])
  {
    SameVerdict(st, log, past, rq);
    StaysRelated(st, log, past, 0.0, rq);
    OrderKept(log, past, rq);
  }

  /** Over every request sequence in which each key sees its stamps in order, the pruned deques answer
      exactly as the full log does. */
  lemma {:induction false} RunRefines(st: Deques, log: seq<Request>, past: seq<Request>, rqs: seq<Request>)
    requires Related(st, log, past, 0.0) && InOrder(log, past) && Orderly(0.0, past + rqs)
    ensures DequeRun(st, rqs).1 == LogRun(log, rqs).1
    decreases |rqs|
  {
    if rqs != [] {
      OrderlyInStep(past, rqs, 0.0);
      StepRefines(st, log, past, rqs[0]);
      Shift(past, rqs);
      RunRefines(DequeNext(st, rqs[0]), LogNext(log, rqs[0]), past + [rqs[0]], rqs[1..]);
    }
  }

  /** They also admit exactly what the log records. */
  lemma {:induction false} RunRecords(st: Deques, log: seq<Request>, past: seq<Request>, rqs: seq<Request>)
    requires Related(st, log, past, 0.0) && InOrder(log, past) && Orderly(0.0, past + rqs)
    ensures LogRun(log, rqs).0 == log + Admissions(st, rqs)
    decreases |rqs|
  {
    if rqs == [] {
      assert log + [] == log;
    } else {
      OrderlyInStep(past, rqs, 0.0);
      StepRefines(st, log, past, rqs[0]);
      Shift(past, rqs);
      RunRecords(DequeNext(st, rqs[0]), LogNext(log, rqs[0]), past + [rqs[0]], rqs[1..]);
      AdmissionsStep(st, log, rqs);
    }
  }

  lemma {:induction false} RunInOrder(log: seq<Request>, past: seq<Request>, rqs: seq<Request>)
    requires InOrder(log, past) && Orderly(0.0, past + rqs)
    ensures InOrder(LogRun(log, rqs).0, past + rqs)
    decreases |rqs|
  {
    if rqs == [] {
      assert past + rqs == past;
    } else {
      OrderlyInStep(past, rqs, 0.0);
      OrderKept(log, past, rqs[0]);
      Shift(past, rqs);
      RunInOrder(LogNext(log, rqs[0]), past + [rqs[0]], rqs[1..]);
    }
  }

  lemma NoPrefix<T>(s: seq<T>)
    ensures [] + s == s
  {
  }

  lemma FreshRefines(rqs: seq<Request>)
    requires Orderly(0.0, rqs)
    ensures DequeRun(FRESH, rqs).1 == LogRun([], rqs).1
  {
    FreshRelated(0.0);
    NoPrefix(rqs);
    RunRefines(FRESH, [], [], rqs);
  }

  lemma FreshRecords(rqs: seq<Request>)
    requires Orderly(0.0, rqs)
    ensures LogRun([], rqs).0 == Admissions(FRESH, rqs)
  {
    FreshRelated(0.0);
    NoPrefix(rqs);
    NoPrefix(Admissions(FRESH, rqs));
    RunRecords(FRESH, [], [], rqs);
  }

  /** The refinement from a freshly started worker. */
  lemma LimiterRefinesFullLog(rqs: seq<Request>)
    requires Orderly(0.0, rqs)
    ensures DequeRun(FRESH, rqs).1 == LogRun([], rqs).1
    ensures LogRun([], rqs).0 == Admissions(FRESH, rqs)
  {
    FreshRefines(rqs);
    FreshRecords(rqs);
  }

  // ---------------------------------------------------------------- window guarantee

  /** How many stamps fall into the closed interval [lo, lo + width]. */
  function InWindow(s: seq<real>, lo: real, width: real): nat {
    if s == [] then 0
    else InWindow(s[..|s| - 1], lo, width) + Ind(lo <= s[|s| - 1] <= lo + width)
  }

  lemma {:induction false} InWiderWindow(s: seq<real>, lo: real, width: real, wider: real)
    requires width <= wider
    ensures InWindow(s, lo, width) <= InWindow(s, lo, wider)
  {
    if s != [] { InWiderWindow(s[..|s| - 1], lo, width, wider); }
  }

  lemma {:induction false} InWindowNone(s: seq<real>, lo: real, width: real)
    requires forall i :: 0 <= i < |s| ==> s[i] < lo
    ensures InWindow(s, lo, width) == 0
  {
    if s != [] { InWindowNone(s[..|s| - 1], lo, width); }
  }

  lemma {:induction false} InWindowSuffix(s: seq<real>, cut: nat, lo: real, width: real)
    requires cut <= |s| && forall i :: 0 <= i < cut ==> s[i] < lo
    ensures InWindow(s, lo, width) <= |s| - cut
  {
    if cut == |s| {
      InWindowNone(s, lo, width);
    } else {
      InWindowSuffix(s[..|s| - 1], cut, lo, width);
    }
  }

  /** In a spaced history, sorted or not, no closed window of that width holds more than `max` stamps. */
  lemma {:induction false} SpacedBoundsWindows(s: seq<real>, max: nat, lo: real, width: real)
    requires Spaced(s, max, width)
    ensures InWindow(s, lo, width) <= max
  {
    if |s| > max {
      var n := |s| - 1;
      if lo <= s[n] <= lo + width {
        forall i | 0 <= i <= n - max ensures s[i] < lo { assert s[i] + width < s[n]; }
        InWindowSuffix(s, n - max + 1, lo, width);
      } else {
        SpacedBoundsWindows(s[..n], max, lo, width);
      }
    } else {
      InWindowSuffix(s, 0, lo, width);
    }
  }

  lemma DequeBounds(dq: seq<real>, s: seq<real>, top: Option<real>, max: nat, slack: real, lo: real)
    requires DequeOf(dq, s, top, max, slack)
    ensures |dq| <= max && InWindow(s, lo, 60.0 - slack) <= max
  {
    SpacedBoundsWindows(s, max, lo, 60.0 - slack);
  }

  lemma AttendeeSlack(rqs: seq<Request>, slack: real, lo: real, k: Key)
    requires slack >= 0.0 && Orderly(slack, rqs)
    ensures InWindow(AttendeeStamps(Admissions(FRESH, rqs), k), lo, 60.0 - slack) <= 5
    ensures |Get(DequeRun(FRESH, rqs).0.attendeeEvent, k)| <= 5
  {
    FreshRun(rqs, slack);
    var (st, log) := (DequeRun(FRESH, rqs).0, Admissions(FRESH, rqs));
    assert AttendeeRelated(st, log, rqs, slack, k);
    DequeBounds(Get(st.attendeeEvent, k), AttendeeStamps(log, k), Top(rqs, k), 5, slack, lo);
  }

  lemma IpSlack(rqs: seq<Request>, slack: real, lo: real, ip: string)
    requires slack >= 0.0 && Orderly(slack, rqs) && ip != ""
    ensures InWindow(IpStamps(Admissions(FRESH, rqs), ip), lo, 60.0 - slack) <= 60
    ensures |Get(DequeRun(FRESH, rqs).0.byIp, ip)| <= 60
  {
    FreshRun(rqs, slack);
    var (st, log) := (DequeRun(FRESH, rqs).0, Admissions(FRESH, rqs));
    assert IpRelated(st, log, rqs, slack, ip);
    DequeBounds(Get(st.byIp, ip), IpStamps(log, ip), IpTop(rqs, ip), 60, slack, lo);
  }

  /** What bounded overtaking leaves of the guarantee: from a fresh worker, if no request is overtaken by
      more than `slack` seconds by one of its own key, then any closed interval of 60 - slack seconds
      holds at most 5 admissions per (attendee, event) and at most 60 per client IP, and no deque ever
      holds more. */
  lemma SlackGuarantee(rqs: seq<Request>, slack: real, lo: real, k: Key, ip: string)
    requires slack >= 0.0 && Orderly(slack, rqs) && ip != ""
    ensures InWindow(AttendeeStamps(Admissions(FRESH, rqs), k), lo, 60.0 - slack) <= 5
    ensures InWindow(IpStamps(Admissions(FRESH, rqs), ip), lo, 60.0 - slack) <= 60
    ensures |Get(DequeRun(FRESH, rqs).0.attendeeEvent, k)| <= 5 && |Get(DequeRun(FRESH, rqs).0.byIp, ip)| <= 60
  {
    AttendeeSlack(rqs, slack, lo, k);
    IpSlack(rqs, slack, lo, ip);
  }

  /** The guarantee itself: when each key sees its stamps in order, of the requests the deques admit from
      a fresh worker any closed 60-second interval holds at most 5 per (attendee, event), 60 per IP. */
  lemma WindowGuarantee(rqs: seq<Request>, lo: real, k: Key, ip: string)
    requires Orderly(0.0, rqs) && ip != ""
    ensures InWindow(AttendeeStamps(Admissions(FRESH, rqs), k), lo, 60.0) <= 5
    ensures InWindow(IpStamps(Admissions(FRESH, rqs), ip), lo, 60.0) <= 60
  {
    SlackGuarantee(rqs, 0.0, lo, k, ip);
    assert 60.0 - 0.0 == 60.0;
  }

  // ---------------------------------------------------------------- Retry-After

  /** The windows of this request, as some orderly run of the limiter may have left them by its time. */
  ghost predicate Reached(log: seq<Request>, rq: Request) {
    && Sorted(AttendeeStamps(log, rq.Key()), rq.now)
    && Spaced(AttendeeStamps(log, rq.Key()), ATTENDEE_EVENT_MAX, WINDOW)
    && (Truthy(rq.ip) ==>
          Sorted(IpStamps(log, rq.ip.value), rq.now) && Spaced(IpStamps(log, rq.ip.value), IP_MAX, WINDOW))
  }

  /** In a sorted history the live stamps are a suffix; `LiveFrom` is where it starts. */
  function LiveFrom(s: seq<real>, cutoff: real): (cut: nat)
    ensures cut <= |s|
    ensures forall i :: 0 <= i < cut ==> s[i] < cutoff
    ensures cut < |s| ==> s[cut] >= cutoff
  {
    if s == [] then 0
    else
      var cut := LiveFrom(s[..|s| - 1], cutoff);
      assert forall i :: 0 <= i < |s| - 1 ==> s[i] == s[..|s| - 1][i];
      if cut == |s| - 1 && s[|s| - 1] < cutoff then |s| else cut
  }

  lemma LiveSorted(s: seq<real>, clock: real, cutoff: real)
    requires Sorted(s, clock)
    ensures Live(s, cutoff) == s[LiveFrom(s, cutoff)..]
  {
    LiveIsSuffix(s, LiveFrom(s, cutoff), cutoff);
  }

  /** The header's arithmetic: it lies in 1..61 and at the announced second the oldest stamp is out. */
  lemma RetryArithmetic(now: real, oldest: real)
    requires now - WINDOW <= oldest <= now
    ensures 1 <= RetryAfter(now, oldest) <= 61
    ensures oldest < now + RetryAfter(now, oldest) as real - WINDOW
  {
  }

  /** A full window stays full until the header's second, whatever else is admitted meanwhile... */
  lemma StillFull(s: seq<real>, s': seq<real>, now: real, max: nat, k: int)
    requires max > 0 && s <= s' && Sorted(s', now + k as real) && Sorted(s, now)
    requires |Live(s, now - WINDOW)| >= max
    requires 0 <= k < RetryAfter(now, Live(s, now - WINDOW)[0])
    ensures |Live(s', now + k as real - WINDOW)| >= max
  {
    var cut := LiveFrom(s, now - WINDOW);
    LiveSorted(s, now, now - WINDOW);
    RetryArithmetic(now, s[cut]);
    var later := now + k as real - WINDOW;
    LiveSorted(s', now + k as real, later);
    assert s'[cut] == s[cut] >= later;
  }

  /** ... and is no longer full once its oldest stamp has left, if nothing was admitted meanwhile. */
  lemma NoLongerFull(s: seq<real>, now: real, max: nat, later: real)
    requires max > 0 && Sorted(s, now) && Spaced(s, max, WINDOW) && |Live(s, now - WINDOW)| >= max
    requires Live(s, now - WINDOW)[0] < later - WINDOW
    ensures |Live(s, later - WINDOW)| < max
  {
    var cut := LiveFrom(s, now - WINDOW);
    LiveSorted(s, now, now - WINDOW);
    LiveSorted(s, now, later - WINDOW);
    var out := LiveFrom(s, later - WINDOW);
    assert s[cut] < later - WINDOW;
    assert out < |s| ==> s[cut] < s[out];
    assert out > cut;
    assert |s| - cut <= max;
  }

  lemma {:induction false} StampsExtend(log: seq<Request>, more: seq<Request>, k: Key, ip: string)
    ensures AttendeeStamps(log, k) <= AttendeeStamps(log + more, k)
    ensures IpStamps(log, ip) <= IpStamps(log + more, ip)
  {
    if more == [] {
      assert log + more == log;
    } else {
      StampsExtend(log, more[..|more| - 1], k, ip);
      assert (log + more)[..|log + more| - 1] == log + more[..|more| - 1];
    }
  }

  /** Retry-After is exact for the attendee window: whatever is admitted in between (`more`), the same
      request is throttled at every earlier whole second... */
  lemma RetryAfterNotTooLong(log: seq<Request>, rq: Request, more: seq<Request>, k: int)
    requires Reached(log, rq) && LogCode(log, rq) == AttendeeWindow
    requires 0 <= k < LogVerdict(log, rq).retry && Reached(log + more, rq.(now := rq.now + k as real))
    ensures LogCode(log + more, rq.(now := rq.now + k as real)) == AttendeeWindow
  {
    StampsExtend(log, more, rq.Key(), "");
    StillFull(AttendeeStamps(log, rq.Key()), AttendeeStamps(log + more, rq.Key()), rq.now, ATTENDEE_EVENT_MAX, k);
  }

  /** ... and at the announced second this window no longer refuses it, if nothing was admitted to it. */
  lemma RetryAfterNotTooShort(log: seq<Request>, rq: Request, more: seq<Request>, later: real)
    requires Reached(log, rq) && LogCode(log, rq) == AttendeeWindow
    requires later == rq.now + LogVerdict(log, rq).retry as real
    requires AttendeeStamps(log + more, rq.Key()) == AttendeeStamps(log, rq.Key())
    ensures LogCode(log + more, rq.(now := later)) != AttendeeWindow
  {
    RetryAfterInRange(log, rq);
    AttendeeReleased(log, rq, more, later);
  }

  lemma AttendeeReleased(log: seq<Request>, rq: Request, more: seq<Request>, later: real)
    requires Reached(log, rq) && LogCode(log, rq) == AttendeeWindow && Mine(log, rq)[0] < later - WINDOW
    requires AttendeeStamps(log + more, rq.Key()) == AttendeeStamps(log, rq.Key())
    ensures LogCode(log + more, rq.(now := later)) != AttendeeWindow
  {
    NoLongerFull(AttendeeStamps(log, rq.Key()), rq.now, ATTENDEE_EVENT_MAX, later);
  }

  /** The oldest live stamp of the window that refuses. */
  function Oldest(log: seq<Request>, rq: Request): real
    requires LogVerdict(log, rq).Throttled?
  {
    if LogCode(log, rq) == AttendeeWindow then Mine(log, rq)[0] else Ours(log, rq)[0]
  }

  lemma OldestIsLive(log: seq<Request>, rq: Request)
    requires Reached(log, rq) && LogVerdict(log, rq).Throttled?
    ensures rq.now - WINDOW <= Oldest(log, rq) <= rq.now
  {
    var s := if LogCode(log, rq) == AttendeeWindow then AttendeeStamps(log, rq.Key()) else IpStamps(log, rq.ip.value);
    LiveSorted(s, rq.now, rq.now - WINDOW);
  }

  /** The header is always in 1..61, and the oldest stamp of the refusing window is out by then. */
  lemma RetryAfterInRange(log: seq<Request>, rq: Request)
    requires Reached(log, rq) && LogVerdict(log, rq).Throttled?
    ensures 1 <= LogVerdict(log, rq).retry <= 61
    ensures Oldest(log, rq) < rq.now + LogVerdict(log, rq).retry as real - 60.0
  {
    OldestIsLive(log, rq);
    RetryArithmetic(rq.now, Oldest(log, rq));
  }

  /** The same two halves for the IP window. */
  lemma RetryAfterIpNotTooLong(log: seq<Request>, rq: Request, more: seq<Request>, k: int)
    requires Reached(log, rq) && LogCode(log, rq) == IpWindow
    requires 0 <= k < LogVerdict(log, rq).retry && Reached(log + more, rq.(now := rq.now + k as real))
    ensures LogCode(log + more, rq.(now := rq.now + k as real)) != Admit
  {
    StampsExtend(log, more, rq.Key(), rq.ip.value);
    StillFull(IpStamps(log, rq.ip.value), IpStamps(log + more, rq.ip.value), rq.now, IP_MAX, k);
  }

  lemma RetryAfterIpNotTooShort(log: seq<Request>, rq: Request, more: seq<Request>, later: real)
    requires Reached(log, rq) && LogCode(log, rq) == IpWindow
    requires later == rq.now + LogVerdict(log, rq).retry as real
    requires IpStamps(log + more, rq.ip.value) == IpStamps(log, rq.ip.value)
    ensures LogCode(log + more, rq.(now := later)) != IpWindow
  {
    RetryAfterInRange(log, rq);
    IpReleased(log, rq, more, later);
  }

  lemma IpReleased(log: seq<Request>, rq: Request, more: seq<Request>, later: real)
    requires Reached(log, rq) && LogCode(log, rq) == IpWindow && Ours(log, rq)[0] < later - WINDOW
    requires IpStamps(log + more, rq.ip.value) == IpStamps(log, rq.ip.value)
    ensures LogCode(log + more, rq.(now := later)) != IpWindow
  {
    NoLongerFull(IpStamps(log, rq.ip.value), rq.now, IP_MAX, later);
  }

  /** `Reached` is what every orderly run establishes for the next request. */
  lemma RunReaches(rqs: seq<Request>, rq: Request)
    requires Orderly(0.0, rqs + [rq])
    ensures Reached(LogRun([], rqs).0, rq)
  {
    assert Orderly(0.0, rqs) by {
      assert forall i :: 0 <= i < |rqs| ==> rqs[i] == (rqs + [rq])[i];
    }
    OrderlyInStep(rqs, [rq], 0.0);
    FreshRun(rqs, 0.0);
    LimiterRefinesFullLog(rqs);
    FreshInOrder(rqs);
    ReachedFrom(DequeRun(FRESH, rqs).0, LogRun([], rqs).0, rqs, rq);
  }

  lemma FreshInOrder(rqs: seq<Request>)
    requires Orderly(0.0, rqs)
    ensures InOrder(LogRun([], rqs).0, rqs)
  {
    FreshRelated(0.0);
    assert [] + rqs == rqs;
    RunInOrder([], [], rqs);
  }

  lemma ReachedFrom(st: Deques, log: seq<Request>, past: seq<Request>, rq: Request)
    requires Related(st, log, past, 0.0) && InOrder(log, past) && InStep(past, rq, 0.0)
    ensures Reached(log, rq)
  {
    assert AttendeeRelated(st, log, past, 0.0, rq.Key());
    if Truthy(rq.ip) { assert IpRelated(st, log, past, 0.0, rq.ip.value); }
  }

  // ---------------------------------------------------------------- who is refused

  /** The logged calls of this attendee at this event in the last 60 seconds. */
  ghost function RecentCalls(log: seq<Request>, attendee: string, event: int, now: real): set<int> {
    set i | 0 <= i < |log| && log[i].attendee == attendee && log[i].event == event && now - 60.0 <= log[i].now <= now
  }

  /** The logged calls from this address in the last 60 seconds. */
  ghost function RecentFrom(log: seq<Request>, ip: string, now: real): set<int> {
    set i | 0 <= i < |log| && log[i].ip == Some(ip) && now - 60.0 <= log[i].now <= now
  }

  function OfCaller(attendee: string, event: int, now: real): Request -> bool {
    (r: Request) => r.attendee == attendee && r.event == event && now - 60.0 <= r.now <= now
  }

  function OfAddress(ip: string, now: real): Request -> bool {
    (r: Request) => r.ip == Some(ip) && now - 60.0 <= r.now <= now
  }

  lemma LiveSnoc(s: seq<real>, t: real, cutoff: real)
    ensures Live(s + [t], cutoff) == if t >= cutoff then Live(s, cutoff) + [t] else Live(s, cutoff)
  {
    assert (s + [t])[..|s|] == s;
  }

  lemma SortedStart(s: seq<real>, t: real, clock: real)
    requires Sorted(s + [t], clock)
    ensures Sorted(s, clock) && t <= clock
  {
    assert (s + [t])[|s|] == t;
    assert forall i :: 0 <= i < |s| ==> (s + [t])[i] == s[i];
  }

  lemma {:induction false} CallsCounted(log: seq<Request>, attendee: string, event: int, now: real)
    requires Sorted(AttendeeStamps(log, (attendee, event)), now)
    ensures |Live(AttendeeStamps(log, (attendee, event)), now - 60.0)| == Count(log, OfCaller(attendee, event, now))
  {
    if log != [] {
      var n := |log| - 1;
      var rest := AttendeeStamps(log[..n], (attendee, event));
      if log[n].Key() == (attendee, event) {
        SortedStart(rest, log[n].now, now);
        LiveSnoc(rest, log[n].now, now - 60.0);
      }
      CallsCounted(log[..n], attendee, event, now);
    }
  }

  lemma {:induction false} AddressCounted(log: seq<Request>, ip: string, now: real)
    requires Sorted(IpStamps(log, ip), now)
    ensures |Live(IpStamps(log, ip), now - 60.0)| == Count(log, OfAddress(ip, now))
  {
    if log != [] {
      var n := |log| - 1;
      var rest := IpStamps(log[..n], ip);
      if log[n].ip == Some(ip) {
        SortedStart(rest, log[n].now, now);
        LiveSnoc(rest, log[n].now, now - 60.0);
      }
      AddressCounted(log[..n], ip, now);
    }
  }

  lemma CallsAreRecent(log: seq<Request>, attendee: string, event: int, now: real)
    ensures Count(log, OfCaller(attendee, event, now)) == |RecentCalls(log, attendee, event, now)|
  {
    CountIsSize(log, OfCaller(attendee, event, now));
    assert Where(log, OfCaller(attendee, event, now)) == RecentCalls(log, attendee, event, now);
  }

  lemma AddressesAreRecent(log: seq<Request>, ip: string, now: real)
    ensures Count(log, OfAddress(ip, now)) == |RecentFrom(log, ip, now)|
  {
    CountIsSize(log, OfAddress(ip, now));
    assert Where(log, OfAddress(ip, now)) == RecentFrom(log, ip, now);
  }

  /** The two conditions for a refusal, on the log of the admitted calls. */
  ghost predicate CallerSpent(log: seq<Request>, rq: Request) {
    |RecentCalls(log, rq.attendee, rq.event, rq.now)| >= 5
  }

  ghost predicate AddressSpent(log: seq<Request>, rq: Request) {
    exists ip :: rq.ip == Some(ip) && ip != "" && |RecentFrom(log, ip, rq.now)| >= 60
  }

  lemma LogCodeExact(log: seq<Request>, rq: Request)
    requires Reached(log, rq)
    ensures LogCode(log, rq) == if CallerSpent(log, rq) then AttendeeWindow
                                else if AddressSpent(log, rq) then IpWindow else Admit
  {
    CallsCounted(log, rq.attendee, rq.event, rq.now);
    CallsAreRecent(log, rq.attendee, rq.event, rq.now);
    if Truthy(rq.ip) {
      AddressCounted(log, rq.ip.value, rq.now);
      AddressesAreRecent(log, rq.ip.value, rq.now);
    }
  }

  lemma NextVerdict(rqs: seq<Request>, rq: Request)
    requires Orderly(0.0, rqs + [rq])
    ensures Reached(Admissions(FRESH, rqs), rq)
    ensures DequeVerdict(DequeRun(FRESH, rqs).0, rq) == LogVerdict(Admissions(FRESH, rqs), rq)
  {
    RunReaches(rqs, rq);
    assert Orderly(0.0, rqs) by {
      assert forall i :: 0 <= i < |rqs| ==> rqs[i] == (rqs + [rq])[i];
    }
    FreshRecords(rqs);
    FreshRun(rqs, 0.0);
    FreshInOrder(rqs);
    OrderlyInStep(rqs, [rq], 0.0);
    SameVerdict(DequeRun(FRESH, rqs).0, Admissions(FRESH, rqs), rqs, rq);
  }

  /** After any run in which each key sees its stamps in order, the next request is refused if and only if
      five calls of its attendee at its event, or sixty from its address if it has one, were admitted in
      the last 60 seconds; of two reasons the answer names the first. */
  lemma RefusedIff(rqs: seq<Request>, rq: Request)
    requires Orderly(0.0, rqs + [rq])
    ensures var (log, verdict) := (Admissions(FRESH, rqs), DequeVerdict(DequeRun(FRESH, rqs).0, rq));
            && (verdict.Throttled? <==> CallerSpent(log, rq) || AddressSpent(log, rq))
            && (verdict.Throttled? ==> verdict.code == if CallerSpent(log, rq) then AttendeeWindow else IpWindow)
  {
    NextVerdict(rqs, rq);
    LogCodeExact(Admissions(FRESH, rqs), rq);
  }
}
