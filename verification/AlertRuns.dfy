/**
 Every interleaving of finding handlers, retry sweeps and expiry sweeps.

 A ticket is one claim of one row by one worker.  A worker may stop at any
 point (its ticket gets no more events) and may send long after its claim was
 given up for it.  Nothing here depends on clocks or on owner names.
 */
module AlertRuns {
  import opened Counting
  import opened Prelude
  import opened AlertQueue

  datatype Stage =
    | Taken                    // claim committed, nothing sent
    | Answered(out: Outcome)   // Telegram was called; the row is not updated yet
    | Done(sent: Option<Outcome>)

  /** `initial` marks the claim made by the INSERT, the only one that may be suppressed unsent. */
  datatype Ticket = Ticket(key: Key, owner: Owner, attempts: int, initial: bool, stage: Stage)

  datatype State = State(events: Table, tickets: seq<Ticket>)

  datatype Event =
    | Create(k: Key, owner: Owner, now: Instant)
    | Take(k: Key, owner: Owner, now: Instant)
    | Drop(i: nat, why: Suppression)
    | Send(i: nat, out: Outcome)
    | Record(i: nat, now: Instant)
    | Sweep(now: Instant)

  function Staged(s: State, i: nat, stage: Stage): State
    requires i < |s.tickets|
  {
    s.(tickets := s.tickets[i := s.tickets[i].(stage := stage)])
  }

  function Apply(s: State, e: Event): State {
    match e
    case Create(k, owner, now) =>
      if k in s.events then s
      else State(Insert(s.events, k, owner, now), s.tickets + [Ticket(k, owner, 1, true, Taken)])
    case Take(k, owner, now) =>
      if !CanClaim(s.events, k, now) then s
      else State(Claim(s.events, k, owner, now), s.tickets + [Ticket(k, owner, s.events[k].attempts + 1, false, Taken)])
    case Drop(i, why) =>
      if i < |s.tickets| && s.tickets[i].stage.Taken? && s.tickets[i].initial then
        var t := s.tickets[i];
        var events := Complete(s.events, t.key, t.owner, Completion(SuppressedState(why), false, None));
        Staged(s.(events := events), i, Done(None))
      else s
    case Send(i, out) =>
      if i < |s.tickets| && s.tickets[i].stage.Taken? then Staged(s, i, Answered(out)) else s
    case Record(i, now) =>
      if i < |s.tickets| && s.tickets[i].stage.Answered? then
        var t := s.tickets[i];
        var events := Complete(s.events, t.key, t.owner, Verdict(t.stage.out, t.attempts, now));
        Staged(s.(events := events), i, Done(Some(t.stage.out)))
      else s
    case Sweep(now) => s.(events := Expire(s.events, now))
  }

  function Run(s: State, es: seq<Event>): State
    decreases |es|
  {
    if es == [] then s else Run(Apply(s, es[0]), es[1..])
  }

  // --------------------------------------------------------------- counting

  function One(b: bool): int {
    if b then 1 else 0
  }

  function OfKey(k: Key): Ticket -> bool {
    (t: Ticket) => t.key == k
  }

  predicate Unresolved(t: Ticket) {
    !(t.stage.Done? && t.stage.sent.Some? && t.stage.sent.value.Refused?)
  }

  /** Claims of the row not known to have ended in a definite refusal. */
  function OpenOf(k: Key): Ticket -> bool {
    (t: Ticket) => t.key == k && Unresolved(t)
  }

  predicate WasSent(t: Ticket) {
    t.stage.Answered? || (t.stage.Done? && t.stage.sent.Some?)
  }

  function SentOf(k: Key): Ticket -> bool {
    (t: Ticket) => t.key == k && WasSent(t)
  }

  predicate WasAccepted(t: Ticket) {
    || (t.stage.Answered? && ReallyAccepted(t.stage.out))
    || (t.stage.Done? && t.stage.sent.Some? && ReallyAccepted(t.stage.sent.value))
  }

  function AcceptedOf(k: Key): Ticket -> bool {
    (t: Ticket) => t.key == k && WasAccepted(t)
  }

  /** Messages about key `k` that reached the recipient. */
  function Accepted(s: State, k: Key): nat {
    Count(s.tickets, AcceptedOf(k))
  }

  function Sends(s: State, k: Key): nat {
    Count(s.tickets, SentOf(k))
  }

  // -------------------------------------------------------------- invariant

  predicate MayBeClaimedAgain(row: Row) {
    row.state.Pending? || (row.state.Failed? && row.retryable)
  }

  /** `before` is the number of attempts the row had when the run began. */
  ghost predicate KeyInv(s: State, k: Key, before: nat) {
    && Count(s.tickets, OpenOf(k)) <= 1
    && before + Count(s.tickets, OfKey(k)) <= Max(before, MAX_DELIVERY_ATTEMPTS)
    && (k in s.events ==>
          && before + Count(s.tickets, OfKey(k)) <= s.events[k].attempts
          && (MayBeClaimedAgain(s.events[k]) ==> Count(s.tickets, OpenOf(k)) == 0))
    && (k !in s.events ==> before == 0 == Count(s.tickets, OfKey(k)))
  }

  /** Any rows left by earlier work, none of them being sent at this moment. */
  ghost predicate Quiet(s: State) {
    s.tickets == [] && forall k :: k in s.events ==> s.events[k].attempts >= 0 && !s.events[k].state.Sending?
  }

  /** A step of ticket `i` leaves the counts of every other key alone. */
  lemma {:induction false} TicketStep(s: State, i: nat, stage: Stage, k: Key)
    requires i < |s.tickets|
    ensures
      var t := Staged(s, i, stage);
      var now := t.tickets[i];
      && Count(t.tickets, OfKey(k)) == Count(s.tickets, OfKey(k))
      && Count(t.tickets, OpenOf(k)) == Count(s.tickets, OpenOf(k))
           - One(OpenOf(k)(s.tickets[i])) + One(OpenOf(k)(now))
  {
    CountUpdate(s.tickets, i, s.tickets[i].(stage := stage), OfKey(k));
    CountUpdate(s.tickets, i, s.tickets[i].(stage := stage), OpenOf(k));
  }

  lemma NewTicket(s: State, t: Ticket, k: Key)
    requires t.stage.Taken?
    ensures Count(s.tickets + [t], OfKey(k)) == Count(s.tickets, OfKey(k)) + if t.key == k then 1 else 0
    ensures Count(s.tickets + [t], OpenOf(k)) == Count(s.tickets, OpenOf(k)) + if t.key == k then 1 else 0
  {
    CountAppend(s.tickets, t, OfKey(k));
    CountAppend(s.tickets, t, OpenOf(k));
  }

  /** A claim of a row that may be claimed counts as one more attempt of it. */
  lemma NewClaimKeepsKey(s: State, events: Table, added: Ticket, k: Key, before: nat)
    requires KeyInv(s, k, before) && added.stage.Taken? && added.key in events && events[added.key].state.Sending?
    requires
      var c := added.key;
      if c in s.events
      then MayBeClaimedAgain(s.events[c]) && s.events[c].attempts < MAX_DELIVERY_ATTEMPTS
        && events[c].attempts == s.events[c].attempts + 1
      else events[c].attempts == 1
    requires k != added.key ==> (k in events <==> k in s.events) && (k in events ==> events[k] == s.events[k])
    ensures KeyInv(State(events, s.tickets + [added]), k, before)
  {
    NewTicket(s, added, k);
    CountOpenBelow(s, k);
  }

  lemma ClaimKeepsKey(s: State, e: Event, k: Key, before: nat)
    requires e.Create? || e.Take?
    requires KeyInv(s, k, before)
    ensures KeyInv(Apply(s, e), k, before)
  {
    var t := Apply(s, e);
    if t != s {
      NewClaimKeepsKey(s, t.events, t.tickets[|s.tickets|], k, before);
    }
  }

  lemma TicketKeepsKey(s: State, e: Event, k: Key, before: nat)
    requires e.Drop? || e.Send? || e.Record?
    requires KeyInv(s, k, before)
    ensures KeyInv(Apply(s, e), k, before)
  {
    var t := Apply(s, e);
    if t != s {
      var i := e.i;
      TicketStep(s, i, t.tickets[i].stage, k);
      assert t.tickets == Staged(s, i, t.tickets[i].stage).tickets;
      if s.tickets[i].key == k {
        CountMember(s.tickets, i, OpenOf(k));
        CountMember(s.tickets, i, OfKey(k));
      }
    }
  }

  lemma StepKeepsKey(s: State, e: Event, k: Key, before: nat)
    requires KeyInv(s, k, before)
    ensures KeyInv(Apply(s, e), k, before)
  {
    match e
    case Create(_, _, _) => ClaimKeepsKey(s, e, k, before);
    case Take(_, _, _) => ClaimKeepsKey(s, e, k, before);
    case Sweep(_) =>
    case _ => TicketKeepsKey(s, e, k, before);
  }

  lemma CountOpenBelow(s: State, k: Key)
    ensures Count(s.tickets, OpenOf(k)) <= Count(s.tickets, OfKey(k))
  {
    CountImplies(s.tickets, OpenOf(k), OfKey(k));
  }

  lemma {:induction false} RunKeepsKey(s: State, es: seq<Event>, k: Key, before: nat)
    requires KeyInv(s, k, before)
    ensures KeyInv(Run(s, es), k, before)
    decreases |es|
  {
    if es != [] {
      StepKeepsKey(s, es[0], k, before);
      RunKeepsKey(Apply(s, es[0]), es[1..], k, before);
    }
  }

  /** Attempts a row has on record. */
  function AttemptsOf(s: State, k: Key): int {
    if k in s.events then s.events[k].attempts else 0
  }

  /**
   Whatever interleaves, crashes or wakes up late: a key's message is accepted
   at most once, and with the attempts made before the run it is sent at most
   MAX_DELIVERY_ATTEMPTS times, or not at all if as many were made before.
   */
  lemma AtMostOneMessage(s: State, es: seq<Event>, k: Key)
    requires Quiet(s)
    ensures Accepted(Run(s, es), k) <= 1
    ensures AttemptsOf(s, k) + Sends(Run(s, es), k) <= Max(AttemptsOf(s, k), MAX_DELIVERY_ATTEMPTS)
  {
    RunKeepsKey(s, es, k, AttemptsOf(s, k));
    var t := Run(s, es);
    CountImplies(t.tickets, AcceptedOf(k), OpenOf(k));
    CountImplies(t.tickets, SentOf(k), OfKey(k));
  }

  // ------------------------------------------------- what the row may claim

  predicate Suppressed(d: Delivery) {
    d.SuppressedDuplicate? || d.SuppressedCooldown? || d.NotConfigured?
  }

  function DroppedOf(k: Key): Ticket -> bool {
    (t: Ticket) => t.key == k && t.stage == Done(None)
  }

  /** The stored delivery state tells the truth about what the recipient got. */
  ghost predicate Truthful(s: State, k: Key) {
    k in s.events ==>
      && (s.events[k].state.Sent? ==> Accepted(s, k) == 1)
      && (s.events[k].state.Failed? ==> Count(s.tickets, OpenOf(k)) == 0)
      && (Suppressed(s.events[k].state) ==> Sends(s, k) == 0 && Count(s.tickets, DroppedOf(k)) == 1)
  }

  /** An initial claim still unresolved is the only claim its row ever had. */
  ghost predicate InitialAlone(s: State, k: Key) {
    forall i :: 0 <= i < |s.tickets| && s.tickets[i].key == k && s.tickets[i].initial && Unresolved(s.tickets[i]) ==>
      Count(s.tickets, OfKey(k)) == 1
  }

  lemma {:induction false} TicketStepOutcome(s: State, i: nat, stage: Stage, k: Key)
    requires i < |s.tickets|
    ensures
      var t := Staged(s, i, stage);
      && Accepted(t, k) == Accepted(s, k) - One(AcceptedOf(k)(s.tickets[i])) + One(AcceptedOf(k)(t.tickets[i]))
      && Sends(t, k) == Sends(s, k) - One(SentOf(k)(s.tickets[i])) + One(SentOf(k)(t.tickets[i]))
      && Count(t.tickets, DroppedOf(k))
        == Count(s.tickets, DroppedOf(k)) - One(DroppedOf(k)(s.tickets[i])) + One(DroppedOf(k)(t.tickets[i]))
  {
    CountUpdate(s.tickets, i, s.tickets[i].(stage := stage), AcceptedOf(k));
    CountUpdate(s.tickets, i, s.tickets[i].(stage := stage), SentOf(k));
    CountUpdate(s.tickets, i, s.tickets[i].(stage := stage), DroppedOf(k));
  }

  /** While some unsent claim is initial and unresolved, nothing was sent for its row. */
  lemma {:induction false} InitialUnsent(s: State, i: nat)
    requires i < |s.tickets| && s.tickets[i].stage.Taken? && s.tickets[i].initial
    requires InitialAlone(s, s.tickets[i].key)
    ensures Sends(s, s.tickets[i].key) == 0
  {
    var k := s.tickets[i].key;
    var unsent := (t: Ticket) => t.key == k && t.stage.Taken?;
    CountMember(s.tickets, i, unsent);
    CountDisjoint(s.tickets, unsent, SentOf(k), OfKey(k));
  }

  lemma AcceptedIsOpen(s: State, k: Key)
    ensures Accepted(s, k) <= Count(s.tickets, OpenOf(k))
  {
    CountImplies(s.tickets, AcceptedOf(k), OpenOf(k));
  }

  /** One unresolved claim in flight: no other claim of the row was accepted, dropped or is in flight. */
  lemma {:induction false} InFlightIsAlone(s: State, i: nat)
    requires i < |s.tickets| && !s.tickets[i].stage.Done? && KeyInv(s, s.tickets[i].key, 0)
    ensures Accepted(s, s.tickets[i].key) == if WasAccepted(s.tickets[i]) then 1 else 0
    ensures Count(s.tickets, DroppedOf(s.tickets[i].key)) == 0
  {
    var k := s.tickets[i].key;
    var inFlight := (t: Ticket) => t.key == k && !t.stage.Done?;
    CountMember(s.tickets, i, inFlight);
    CountDisjoint(s.tickets, inFlight, DroppedOf(k), OpenOf(k));
    if WasAccepted(s.tickets[i]) {
      CountMember(s.tickets, i, AcceptedOf(k));
      AcceptedIsOpen(s, k);
    } else {
      var unaccepted := (t: Ticket) => t.key == k && Unresolved(t) && !WasAccepted(t);
      CountMember(s.tickets, i, unaccepted);
      CountDisjoint(s.tickets, unaccepted, AcceptedOf(k), OpenOf(k));
    }
  }

  lemma NewTicketOutcome(s: State, t: Ticket, k: Key)
    requires t.stage.Taken?
    ensures Count(s.tickets + [t], AcceptedOf(k)) == Count(s.tickets, AcceptedOf(k))
    ensures Count(s.tickets + [t], SentOf(k)) == Count(s.tickets, SentOf(k))
    ensures Count(s.tickets + [t], DroppedOf(k)) == Count(s.tickets, DroppedOf(k))
  {
    CountAppend(s.tickets, t, AcceptedOf(k));
    CountAppend(s.tickets, t, SentOf(k));
    CountAppend(s.tickets, t, DroppedOf(k));
  }

  /** A claim that begins makes its row `sending`, of which `Truthful` says nothing, and leaves other keys alone. */
  lemma NewClaimKeepsTruth(s: State, events: Table, added: Ticket, k: Key)
    requires Truthful(s, k) && added.stage.Taken?
    requires added.key in events && events[added.key].state.Sending?
    requires k != added.key && k in events ==> k in s.events && events[k] == s.events[k]
    ensures Truthful(State(events, s.tickets + [added]), k)
  {
    NewTicket(s, added, k);
    NewTicketOutcome(s, added, k);
  }

  lemma ClaimKeepsTruth(s: State, e: Event, k: Key)
    requires e.Create? || e.Take?
    requires Truthful(s, k)
    ensures Truthful(Apply(s, e), k)
  {
    var t := Apply(s, e);
    if t != s {
      NewClaimKeepsTruth(s, t.events, t.tickets[|s.tickets|], k);
    }
  }

  lemma ClaimKeepsInitial(s: State, e: Event, k: Key)
    requires e.Create? || e.Take?
    requires KeyInv(s, k, 0) && InitialAlone(s, k)
    ensures InitialAlone(Apply(s, e), k)
  {
    var t := Apply(s, e);
    if t != s {
      var added := t.tickets[|s.tickets|];
      CountAppend(s.tickets, added, OfKey(k));
      CountAppend(s.tickets, added, OpenOf(k));
      forall i | 0 <= i < |t.tickets| && t.tickets[i].key == k && t.tickets[i].initial && Unresolved(t.tickets[i])
        ensures Count(t.tickets, OfKey(k)) == 1
      {
        if i < |s.tickets| {
          CountMember(s.tickets, i, OpenOf(k));
          CountMember(s.tickets, i, OfKey(k));
        }
      }
    }
  }

  lemma TicketKeepsInitial(s: State, e: Event, k: Key)
    requires e.Drop? || e.Send? || e.Record?
    requires InitialAlone(s, k)
    ensures InitialAlone(Apply(s, e), k)
  {
    var t := Apply(s, e);
    if t != s {
      TicketStep(s, e.i, t.tickets[e.i].stage, k);
      assert t.tickets == Staged(s, e.i, t.tickets[e.i].stage).tickets;
    }
  }

  /** How the counts behind `Truthful` move with a ticket of the key. */
  lemma TicketCounts(s: State, e: Event, k: Key)
    requires e.Drop? || e.Send? || e.Record?
    ensures
      var t := Apply(s, e);
      t != s ==>
        && e.i < |s.tickets| == |t.tickets|
        && Accepted(t, k) - Accepted(s, k) == One(AcceptedOf(k)(t.tickets[e.i])) - One(AcceptedOf(k)(s.tickets[e.i]))
        && Sends(t, k) - Sends(s, k) == One(SentOf(k)(t.tickets[e.i])) - One(SentOf(k)(s.tickets[e.i]))
        && Count(t.tickets, DroppedOf(k)) - Count(s.tickets, DroppedOf(k))
           == One(DroppedOf(k)(t.tickets[e.i])) - One(DroppedOf(k)(s.tickets[e.i]))
        && Count(t.tickets, OpenOf(k)) - Count(s.tickets, OpenOf(k))
           == One(OpenOf(k)(t.tickets[e.i])) - One(OpenOf(k)(s.tickets[e.i]))
  {
    var t := Apply(s, e);
    if t != s {
      TicketStep(s, e.i, t.tickets[e.i].stage, k);
      TicketStepOutcome(s, e.i, t.tickets[e.i].stage, k);
      assert t.tickets == Staged(s, e.i, t.tickets[e.i].stage).tickets;
    }
  }

  lemma {:induction false} DropKeepsTruth(s: State, e: Event, k: Key)
    requires e.Drop? && KeyInv(s, k, 0) && Truthful(s, k) && InitialAlone(s, k)
    ensures Truthful(Apply(s, e), k)
  {
    TicketCounts(s, e, k);
    if Apply(s, e) != s && s.tickets[e.i].key == k {
      CountMember(s.tickets, e.i, OpenOf(k));
      InFlightIsAlone(s, e.i);
      InitialUnsent(s, e.i);
    }
  }

  lemma {:induction false} SendKeepsTruth(s: State, e: Event, k: Key)
    requires e.Send? && KeyInv(s, k, 0) && Truthful(s, k)
    ensures Truthful(Apply(s, e), k)
  {
    TicketCounts(s, e, k);
    if Apply(s, e) != s && s.tickets[e.i].key == k {
      CountMember(s.tickets, e.i, OpenOf(k));
      InFlightIsAlone(s, e.i);
    }
  }

  lemma {:induction false} RecordKeepsTruth(s: State, e: Event, k: Key)
    requires e.Record? && KeyInv(s, k, 0) && Truthful(s, k)
    ensures Truthful(Apply(s, e), k)
  {
    TicketCounts(s, e, k);
    if Apply(s, e) != s && s.tickets[e.i].key == k {
      CountMember(s.tickets, e.i, OpenOf(k));
      InFlightIsAlone(s, e.i);
    }
  }

  lemma {:induction false} StepKeepsTruth(s: State, e: Event, k: Key)
    requires KeyInv(s, k, 0) && Truthful(s, k) && InitialAlone(s, k)
    ensures Truthful(Apply(s, e), k) && InitialAlone(Apply(s, e), k)
  {
    match e
    case Create(_, _, _) => ClaimKeepsTruth(s, e, k); ClaimKeepsInitial(s, e, k);
    case Take(_, _, _) => ClaimKeepsTruth(s, e, k); ClaimKeepsInitial(s, e, k);
    case Sweep(_) => assert Apply(s, e).tickets == s.tickets;
    case Drop(_, _) => DropKeepsTruth(s, e, k); TicketKeepsInitial(s, e, k);
    case Send(_, _) => SendKeepsTruth(s, e, k); TicketKeepsInitial(s, e, k);
    case Record(_, _) => RecordKeepsTruth(s, e, k); TicketKeepsInitial(s, e, k);
  }

  lemma {:induction false} RunKeepsTruth(s: State, es: seq<Event>, k: Key)
    requires KeyInv(s, k, 0) && Truthful(s, k) && InitialAlone(s, k)
    ensures Truthful(Run(s, es), k)
    decreases |es|
  {
    if es != [] {
      StepKeepsKey(s, es[0], k, 0);
      StepKeepsTruth(s, es[0], k);
      RunKeepsTruth(Apply(s, es[0]), es[1..], k);
    }
  }

  /**
   For a finding first recorded during the run: 'sent' rows were accepted
   exactly once, 'failed' rows never, and suppressed rows were never sent.
   */
  lemma {:induction false} StoredStateIsTrue(s: State, es: seq<Event>, k: Key)
    requires Quiet(s) && k !in s.events
    ensures
      var t := Run(s, es);
      k in t.events ==>
        && (t.events[k].state.Sent? ==> Accepted(t, k) == 1)
        && (t.events[k].state.Failed? ==> Accepted(t, k) == 0)
        && (Suppressed(t.events[k].state) ==> Sends(t, k) == 0)
  {
    RunKeepsTruth(s, es, k);
    AcceptedIsOpen(Run(s, es), k);
  }

  // ------------------------------------------------- one worker on its own

  lemma RunFrom(s: State, es: seq<Event>, k: nat)
    requires k < |es|
    ensures Run(s, es[k..]) == Run(Apply(s, es[k]), es[k + 1..])
  {
    assert es[k..][1..] == es[k + 1..];
  }

  lemma RunOfThree(s: State, a: Event, b: Event, c: Event)
    ensures Run(s, [a, b, c]) == Apply(Apply(Apply(s, a), b), c)
  {
    var es := [a, b, c];
    assert es[0..] == es && es[3..] == [];
    RunFrom(Apply(Apply(s, a), b), es, 2);
    RunFrom(Apply(s, a), es, 1);
    RunFrom(s, es, 0);
  }

  /** A new finding that nobody interferes with is sent once, and its row records the answer. */
  lemma CreatedAlone(s: State, k: Key, owner: Owner, claimedAt: Instant, out: Outcome, now: Instant)
    requires k !in s.events
    ensures
      var t := Run(s, [Create(k, owner, claimedAt), Send(|s.tickets|, out), Record(|s.tickets|, now)]);
      && t.events.Keys == s.events.Keys + {k} && t.events[k].attempts == 1 && Records(t.events[k], out, 1, now)
      && (forall q :: q in s.events ==> t.events[q] == s.events[q])
      && t.tickets == s.tickets + [Ticket(k, owner, 1, true, Done(Some(out)))]
  {
    var i := |s.tickets|;
    RunOfThree(s, Create(k, owner, claimedAt), Send(i, out), Record(i, now));
    VerdictRecords(NewRow(owner, claimedAt), out, 1, now);
  }

  /** A row that may be sent again is taken, sent once more, and records that answer. */
  lemma RetriedAlone(s: State, k: Key, owner: Owner, takenAt: Instant, out: Outcome, now: Instant)
    requires k in s.events && IsFree(s.events[k], takenAt)
    ensures
      var t := Run(s, [Take(k, owner, takenAt), Send(|s.tickets|, out), Record(|s.tickets|, now)]);
      var attempt := s.events[k].attempts + 1;
      && t.events.Keys == s.events.Keys && t.events[k].attempts == attempt && Records(t.events[k], out, attempt, now)
      && (forall q :: q in s.events && q != k ==> t.events[q] == s.events[q])
      && t.tickets == s.tickets + [Ticket(k, owner, attempt, false, Done(Some(out)))]
  {
    var i := |s.tickets|;
    RunOfThree(s, Take(k, owner, takenAt), Send(i, out), Record(i, now));
    VerdictRecords(Claimed(s.events[k], owner, takenAt), out, s.events[k].attempts + 1, now);
  }

  /** A new finding may be dropped instead, unsent and for good; a row that may not be taken is not. */
  lemma DroppedAlone(s: State, k: Key, owner: Owner, claimedAt: Instant, why: Suppression)
    requires k !in s.events
    ensures
      var t := Apply(Apply(s, Create(k, owner, claimedAt)), Drop(|s.tickets|, why));
      && t.events.Keys == s.events.Keys + {k} && NeverClaimable(t.events[k])
      && t.events[k].state == (match why
                               case Consolidated => SuppressedDuplicate
                               case CoolingDown => SuppressedCooldown
                               case Unconfigured => NotConfigured)
      && t.tickets == s.tickets + [Ticket(k, owner, 1, true, Done(None))]
  {
  }

  lemma NotTakenUnlessFree(s: State, k: Key, owner: Owner, now: Instant)
    requires k !in s.events || !IsFree(s.events[k], now)
    ensures Apply(s, Take(k, owner, now)) == s
  {
  }
}
