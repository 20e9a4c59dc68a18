/** Batch invitations under savepoints, and the invitee's answer. */
module Invitations {
  import opened Seqs
  import opened Types

  datatype Item = Item(invitee: string, reason: Option<string>)

  function OfInvitee(e: nat, invitee: string): Invitation -> bool {
    (i: Invitation) => i.eventId == e && i.invitee == invitee
  }

  ghost predicate UniqueInvitees(invites: seq<Invitation>) {
    forall i, j :: 0 <= i < j < |invites| ==>
                     invites[i].eventId != invites[j].eventId || invites[i].invitee != invites[j].invitee
  }

  /** Rows committed by other writers; the UNIQUE constraint drops those that would collide. */
  function Absorb(invites: seq<Invitation>, others: seq<Invitation>): (r: seq<Invitation>)
    ensures invites <= r
    ensures UniqueInvitees(invites) ==> UniqueInvitees(r)
    decreases |others|
  {
    if others == [] then invites
    else
      var o := others[0];
      var hit := First(invites, OfInvitee(o.eventId, o.invitee));
      assert hit.None? ==> forall j :: 0 <= j < |invites| ==> !OfInvitee(o.eventId, o.invitee)(invites[j]);
      Absorb(if hit.Some? then invites else invites + [o], others[1..])
  }

  /** What other writers commit around one item: before its SELECT, and between SELECT and flush. */
  datatype Interference = Interference(before: seq<Invitation>, between: seq<Invitation>)

  const QUIET := Interference([], [])

  /** The outcome of a batch: counters, and for each item the row answered and whether we inserted it. */
  datatype Batch = Batch(sent: nat, existed: nat, rows: seq<nat>, added: seq<bool>)

  /** What every row of one batch has in common. */
  datatype Header = Header(schoolId: string, eventId: nat, inviter: string)

  function InviteRow(h: Header, item: Item): Invitation {
    Invitation(h.schoolId, h.eventId, h.inviter, item.invitee, Sent, item.reason, None)
  }

  /** One item: SELECT, and on a miss an INSERT that a concurrent writer may have forestalled. */
  function SendOne(invites: seq<Invitation>, h: Header, item: Item, env: Interference)
    : (r: (seq<Invitation>, nat, bool))
    ensures r.1 < |r.0| && OfInvitee(h.eventId, item.invitee)(r.0[r.1])
  {
    var seen := Absorb(invites, env.before);
    match First(seen, OfInvitee(h.eventId, item.invitee))
    case Some(i) => (seen, i, false)
    case None =>
      var raced := Absorb(seen, env.between);
      match First(raced, OfInvitee(h.eventId, item.invitee))
      case Some(i) => (raced, i, false)
      case None => (raced + [InviteRow(h, item)], |raced|, true)
  }

  function Tally(b: Batch, row: nat, added: bool): Batch {
    Batch(b.sent + Ind(added), b.existed + Ind(!added), b.rows + [row], b.added + [added])
  }

  /** The whole loop, items from the left. */
  function SendAll(invites: seq<Invitation>, h: Header, items: seq<Item>, env: seq<Interference>)
    : (seq<Invitation>, Batch)
    requires |env| == |items|
  {
    if items == [] then (invites, Batch(0, 0, [], []))
    else
      var n := |items| - 1;
      var (was, b) := SendAll(invites, h, items[..n], env[..n]);
      var (now, row, added) := SendOne(was, h, items[n], env[n]);
      (now, Tally(b, row, added))
  }

  lemma SendAllStep(invites: seq<Invitation>, h: Header, items: seq<Item>, env: seq<Interference>, k: nat)
    requires |env| == |items| && k < |items|
    ensures var (was, b) := SendAll(invites, h, items[..k], env[..k]);
            var (now, row, added) := SendOne(was, h, items[k], env[k]);
            SendAll(invites, h, items[..k + 1], env[..k + 1]) == (now, Tally(b, row, added))
  {
    assert items[..k + 1][..k] == items[..k] && env[..k + 1][..k] == env[..k];
  }

  // ---------------------------------------------------------------- the handler

  datatype SendRequest = SendRequest(actor: Actor, eventId: int, items: seq<Item>)
  datatype SendResponse = SendOk(batch: Batch) | SendRefused(status: int)

  /** `_resolve_event_for_owner`: the actor's school or personal namespace. */
  predicate Reaches(actor: Actor, event: Event) {
    || (Truthy(actor.schoolId) && event.schoolId == actor.schoolId.value)
    || (Truthy(actor.userId) && event.schoolId == "user:" + actor.userId.value)
  }

  /** `assert_event_owner_or_admin` */
  predicate OwnerOrAdmin(actor: Actor, event: Event) {
    || actor.userId == Some(event.owner)
    || (IsAdmin(actor) &&
       ((Truthy(actor.schoolId) && actor.schoolId.value == event.schoolId) || actor.role == "service"))
  }

  function SendTx(events: seq<Event>, invites: seq<Invitation>, rq: SendRequest, env: seq<Interference>)
    : (seq<Invitation>, SendResponse)
    requires |env| == |rq.items|
  {
    if !(0 <= rq.eventId < |events|) || !Reaches(rq.actor, events[rq.eventId]) then (invites, SendRefused(404))
    else if !OwnerOrAdmin(rq.actor, events[rq.eventId]) then (invites, SendRefused(403))
    else
      var inviter := if Truthy(rq.actor.userId) then rq.actor.userId.value else "service";
      var (invites', batch) :=
        SendAll(invites, Header(events[rq.eventId].schoolId, rq.eventId, inviter), rq.items, env);
      (invites', SendOk(batch))
  }

  datatype RespondResponse = RespondOk(id: nat) | RespondRefused(status: int)

  /** `respond_to_invitation`: only the invitee, admins included. */
  function RespondTx(invites: seq<Invitation>, actor: Actor, eventId: int, id: int, accept: bool, now: real)
    : (seq<Invitation>, RespondResponse)
  {
    if !(0 <= id < |invites|) || invites[id].eventId != eventId then (invites, RespondRefused(404))
    else if actor.userId != Some(invites[id].invitee) then (invites, RespondRefused(403))
    else (invites[id := invites[id].(status := if accept then Accepted else Declined, respondedAt := Some(now))],
          RespondOk(id))
  }

  // ---------------------------------------------------------------- batch laws

  /** How many rows other writers added during the batch. */
  function Absorbed(invites: seq<Invitation>, h: Header, items: seq<Item>, env: seq<Interference>): nat
    requires |env| == |items|
  {
    if items == [] then 0
    else
      var n := |items| - 1;
      var was := SendAll(invites, h, items[..n], env[..n]).0;
      var seen := Absorb(was, env[n].before);
      var hit := First(seen, OfInvitee(h.eventId, items[n].invitee));
      Absorbed(invites, h, items[..n], env[..n]) + |if hit.Some? then seen else Absorb(seen, env[n].between)| - |was|
  }

  lemma SendOneLaws(invites: seq<Invitation>, h: Header, item: Item, env: Interference)
    ensures var (now, row, added) := SendOne(invites, h, item, env);
            && invites <= now
            && (UniqueInvitees(invites) ==> UniqueInvitees(now))
            && (added ==> |invites| <= row && row == |now| - 1 && now[row] == InviteRow(h, item))
  {
    var seen := Absorb(invites, env.before);
    if First(seen, OfInvitee(h.eventId, item.invitee)).None? {
      var raced := Absorb(seen, env.between);
      if First(raced, OfInvitee(h.eventId, item.invitee)).None? {
        assert forall j :: 0 <= j < |raced| ==> !OfInvitee(h.eventId, item.invitee)(raced[j]);
      }
    }
  }

  function Yes(): bool -> bool {
    (b: bool) => b
  }

  /** One answer per item, in order, each the row of that item's invitee. */
  ghost predicate Answers(now: seq<Invitation>, e: nat, items: seq<Item>, b: Batch) {
    && |b.rows| == |b.added| == |items| == b.sent + b.existed
    && b.sent == Count(b.added, Yes())
    && forall k :: 0 <= k < |items| ==> b.rows[k] < |now| && OfInvitee(e, items[k].invitee)(now[b.rows[k]])
  }

  lemma AnswersStep(was: seq<Invitation>, now: seq<Invitation>, e: nat, items: seq<Item>,
                    b: Batch, row: nat, added: bool)
    requires items != [] && Answers(was, e, items[..|items| - 1], b) && was <= now
    requires row < |now| && OfInvitee(e, items[|items| - 1].invitee)(now[row])
    ensures Answers(now, e, items, Tally(b, row, added))
  {
    CountAppend(b.added, added, Yes());
    forall k | 0 <= k < |items| - 1 ensures now[b.rows[k]] == was[b.rows[k]] && items[..|items| - 1][k] == items[k] {
    }
  }

  /** For every batch, repeats included, and every interference: one answer per item in order, counters
      that split the batch, no earlier row changed, uniqueness kept. */
  lemma {:induction false} BatchLaws(invites: seq<Invitation>, h: Header, items: seq<Item>, env: seq<Interference>)
    requires |env| == |items|
    ensures var (now, b) := SendAll(invites, h, items, env);
            && Answers(now, h.eventId, items, b)
            && invites <= now
            && (UniqueInvitees(invites) ==> UniqueInvitees(now))
  {
    if items != [] {
      var n := |items| - 1;
      BatchLaws(invites, h, items[..n], env[..n]);
      var (was, b) := SendAll(invites, h, items[..n], env[..n]);
      SendOneLaws(was, h, items[n], env[n]);
      var (now, row, added) := SendOne(was, h, items[n], env[n]);
      AnswersStep(was, now, h.eventId, items, b, row, added);
    }
  }

  /** The table grows by the `sent` rows and by what the other writers added, by nothing else. */
  lemma {:induction false} SentIsGrowth(invites: seq<Invitation>, h: Header, items: seq<Item>, env: seq<Interference>)
    requires |env| == |items|
    ensures var (now, b) := SendAll(invites, h, items, env);
            |now| == |invites| + b.sent + Absorbed(invites, h, items, env)
  {
    if items != [] {
      var n := |items| - 1;
      SentIsGrowth(invites, h, items[..n], env[..n]);
    }
  }

  /** The fresh answers are the rows this call inserted: new `sent` rows of their items, pairwise
      distinct, none older than the call. */
  ghost predicate Inserted(invites: seq<Invitation>, now: seq<Invitation>, h: Header, items: seq<Item>, b: Batch) {
    && |b.rows| == |b.added| == |items|
    && (forall k :: 0 <= k < |items| ==> b.rows[k] < |now|)
    && (forall k :: 0 <= k < |items| && b.added[k] ==>
          |invites| <= b.rows[k] && now[b.rows[k]] == InviteRow(h, items[k]))
    && (forall k, l :: 0 <= k < l < |items| && b.added[l] ==> b.rows[k] < b.rows[l])
  }

  lemma InsertedStep(invites: seq<Invitation>, was: seq<Invitation>, now: seq<Invitation>, h: Header, items: seq<Item>,
                     b: Batch, row: nat, added: bool)
    requires items != [] && Inserted(invites, was, h, items[..|items| - 1], b) && invites <= was <= now && row < |now|
    requires added ==> |was| <= row && now[row] == InviteRow(h, items[|items| - 1])
    ensures Inserted(invites, now, h, items, Tally(b, row, added))
  {
    var n := |items| - 1;
    forall k | 0 <= k < n ensures now[b.rows[k]] == was[b.rows[k]] && items[..n][k] == items[k] {
    }
  }

  lemma {:induction false} FreshRows(invites: seq<Invitation>, h: Header, items: seq<Item>, env: seq<Interference>)
    requires |env| == |items|
    ensures var (now, b) := SendAll(invites, h, items, env);
            invites <= now && Inserted(invites, now, h, items, b)
  {
    if items != [] {
      var n := |items| - 1;
      FreshRows(invites, h, items[..n], env[..n]);
      var (was, b) := SendAll(invites, h, items[..n], env[..n]);
      SendOneLaws(was, h, items[n], env[n]);
      var (now, row, added) := SendOne(was, h, items[n], env[n]);
      InsertedStep(invites, was, now, h, items, b, row, added);
    }
  }

  lemma InvitedIsFound(invites: seq<Invitation>, later: seq<Invitation>, h: Header, item: Item, env: Interference)
    requires invites <= later && First(invites, OfInvitee(h.eventId, item.invitee)).Some?
    ensures !SendOne(later, h, item, env).2
  {
    var hit := First(invites, OfInvitee(h.eventId, item.invitee)).value;
    var seen := Absorb(later, env.before);
    assert seen[hit] == later[hit] == invites[hit];
  }

  /** Resending a batch all of whose invitees have a row inserts nothing, whatever others do. */
  lemma {:induction false} ResendSendsNothing(invites: seq<Invitation>, h: Header, items: seq<Item>,
                                              env: seq<Interference>)
    requires |env| == |items|
    requires forall k :: 0 <= k < |items| ==> First(invites, OfInvitee(h.eventId, items[k].invitee)).Some?
    ensures SendAll(invites, h, items, env).1.sent == 0
  {
    if items != [] {
      var n := |items| - 1;
      ResendSendsNothing(invites, h, items[..n], env[..n]);
      BatchLaws(invites, h, items[..n], env[..n]);
      InvitedIsFound(invites, SendAll(invites, h, items[..n], env[..n]).0, h, items[n], env[n]);
    }
  }

  /** Two batches of the same items answered from one unique table answer the same rows. */
  lemma SameAnswers(now: seq<Invitation>, e: nat, items: seq<Item>, b: Batch, c: Batch)
    requires UniqueInvitees(now) && Answers(now, e, items, b) && Answers(now, e, items, c)
    ensures b.rows == c.rows
  {
    forall k | 0 <= k < |items| ensures b.rows[k] == c.rows[k] {
      SameInvitee(now, e, items[k].invitee, b.rows[k], c.rows[k]);
    }
  }

  lemma AnswersLater(was: seq<Invitation>, now: seq<Invitation>, e: nat, items: seq<Item>, b: Batch)
    requires was <= now && Answers(was, e, items, b)
    ensures Answers(now, e, items, b)
  {
    forall k | 0 <= k < |items| ensures now[b.rows[k]] == was[b.rows[k]] {
    }
  }

  /** Sending one batch twice: the second call answers the same rows and reports sent = 0. */
  lemma ResendSame(invites: seq<Invitation>, h: Header, items: seq<Item>,
                   env: seq<Interference>, env': seq<Interference>)
    requires |env| == |items| == |env'| && UniqueInvitees(invites)
    ensures var (once, b) := SendAll(invites, h, items, env);
            var (twice, c) := SendAll(once, h, items, env');
            c.sent == 0 && c.existed == |items| && c.rows == b.rows
  {
    var (once, b) := SendAll(invites, h, items, env);
    var (twice, c) := SendAll(once, h, items, env');
    BatchLaws(invites, h, items, env);
    forall k | 0 <= k < |items| ensures First(once, OfInvitee(h.eventId, items[k].invitee)).Some? {
      assert OfInvitee(h.eventId, items[k].invitee)(once[b.rows[k]]);
    }
    ResendSendsNothing(once, h, items, env');
    BatchLaws(once, h, items, env');
    AnswersLater(once, twice, h.eventId, items, b);
    SameAnswers(twice, h.eventId, items, b, c);
  }

  lemma SameInvitee(invites: seq<Invitation>, e: nat, invitee: string, i: nat, j: nat)
    requires UniqueInvitees(invites) && i < |invites| && j < |invites|
    requires OfInvitee(e, invitee)(invites[i]) && OfInvitee(e, invitee)(invites[j])
    ensures i == j
  {
  }
}
