/**
 The `alert_events` rows, the statements that claim and complete them, and
 the AlertService methods that create, send and retry.

 A row is identified by its dedupe key (the UNIQUE index makes the two
 interchangeable).  Instants are milliseconds.
 */
module AlertQueue {
  import opened Counting
  import opened Prelude

  type Key = int
  type Owner = int
  type Instant = int

  const MAX_DELIVERY_ATTEMPTS := 3
  const CLAIM_TTL_MS := 60_000

  datatype Delivery =
    | Pending | Sending | Sent | Failed | Uncertain
    | SuppressedDuplicate | SuppressedCooldown | NotConfigured

  datatype Row = Row(
    state: Delivery, attempts: int, retryable: bool, nextAttemptAt: Option<Instant>,
    claimOwner: Option<Owner>, claimExpiresAt: Option<Instant>)

  /** What Telegram did with one request, and what the caller could tell. */
  datatype Outcome =
    | Accepted                                 // ok
    | Refused(retryable: bool, retryAfter: nat) // a definite error answer: not accepted
    | Ambiguous(reallyAccepted: bool)          // timeout, network, malformed answer or an exception

  /** The fields completeAlertClaim writes besides clearing the claim. */
  datatype Completion = Completion(state: Delivery, retryable: bool, nextAttemptAt: Option<Instant>)

  type Table = map<Key, Row>

  predicate Due(row: Row, now: Instant) {
    row.nextAttemptAt.None? || row.nextAttemptAt.value <= now
  }

  predicate Claimable(row: Row, now: Instant) {
    && row.attempts < MAX_DELIVERY_ATTEMPTS
    && (row.state.Pending? || (row.state.Failed? && row.retryable && Due(row, now)))
  }

  function NewRow(owner: Owner, now: Instant): Row {
    Row(Sending, 1, false, None, Some(owner), Some(now + CLAIM_TTL_MS))
  }

  function Insert(t: Table, k: Key, owner: Owner, now: Instant): Table {
    if k in t then t else t[k := NewRow(owner, now)]
  }

  function Claimed(row: Row, owner: Owner, now: Instant): Row {
    row.(state := Sending, attempts := row.attempts + 1, retryable := false,
         claimOwner := Some(owner), claimExpiresAt := Some(now + CLAIM_TTL_MS))
  }

  predicate CanClaim(t: Table, k: Key, now: Instant) {
    k in t && Claimable(t[k], now)
  }

  function Claim(t: Table, k: Key, owner: Owner, now: Instant): Table {
    if CanClaim(t, k, now) then t[k := Claimed(t[k], owner, now)] else t
  }

  predicate OwnsClaim(t: Table, k: Key, owner: Owner) {
    k in t && t[k].state.Sending? && t[k].claimOwner == Some(owner)
  }

  /** The row with its claim completed. */
  function Settled(row: Row, c: Completion): Row {
    row.(state := c.state, retryable := c.retryable, nextAttemptAt := c.nextAttemptAt, claimOwner := None,
      claimExpiresAt := None)
  }

  function Complete(t: Table, k: Key, owner: Owner, c: Completion): Table {
    if OwnsClaim(t, k, owner) then t[k := Settled(t[k], c)] else t
  }

  predicate ClaimExpired(row: Row, now: Instant) {
    row.state.Sending? && row.claimExpiresAt.Some? && row.claimExpiresAt.value <= now
  }

  function Expire(t: Table, now: Instant): Table {
    map k | k in t ::
      if ClaimExpired(t[k], now)
      then t[k].(state := Uncertain, retryable := false, claimOwner := None, claimExpiresAt := None)
      else t[k]
  }

  /** Seconds before attempt `attempts + 1`. */
  function DelaySeconds(attempts: int, retryAfter: nat): nat {
    Min(3600, Max(retryAfter, 30 * Pow2(Max(0, attempts - 1))))
  }

  /** How deliverClaimed records the outcome of attempt number `attempts`. */
  function Verdict(outcome: Outcome, attempts: int, now: Instant): Completion
  {
    match outcome
    case Accepted => Completion(Sent, false, None)
    case Ambiguous(_) => Completion(Uncertain, false, None)
    case Refused(retryable, retryAfter) =>
      if retryable && attempts < MAX_DELIVERY_ATTEMPTS
      then Completion(Failed, true, Some(now + 1000 * DelaySeconds(attempts, retryAfter)))
      else Completion(Failed, false, None)
  }

  /** The row after a retry: claimed, sent, and completed with the verdict on that send. */
  function Retried(row: Row, owner: Owner, outcome: Outcome, now: Instant): Row {
    Settled(Claimed(row, owner, now), Verdict(outcome, row.attempts + 1, now))
  }

  /** No retry sweep will ever take the row, and nothing in it says that one may. */
  ghost predicate NeverClaimable(row: Row) {
    !row.retryable && row.nextAttemptAt == None && forall t :: !Claimable(row, t)
  }

  /**
   What attempt number `attempts` must leave in its row, in figures: an
   acceptance and an unclear answer end the matter, and so does a refusal but
   for a retryable one before the third attempt. That is claimable again from
   its due time on, after as long as Telegram asks for, or else after half a
   minute that doubles with each attempt, and after an hour at most.
   */
  ghost predicate Records(row: Row, outcome: Outcome, attempts: int, now: Instant) {
    && row.claimOwner.None? && row.claimExpiresAt.None?
    && match outcome
       case Accepted => row.state.Sent? && NeverClaimable(row)
       case Ambiguous(_) => row.state.Uncertain? && NeverClaimable(row)
       case Refused(retryable, retryAfter) =>
         && row.state.Failed?
         && if retryable && attempts < 3
            then row.nextAttemptAt.Some? && WaitsProperly(row, attempts, retryAfter, now)
            else NeverClaimable(row)
  }

  ghost predicate WaitsProperly(row: Row, attempts: int, retryAfter: nat, now: Instant)
    requires row.nextAttemptAt.Some?
  {
    var due, own := row.nextAttemptAt.value, if attempts <= 1 then 30_000 else 60_000;
    && row.retryable
    && now + Min(1000 * retryAfter, 3_600_000) <= due && now + own <= due <= now + 3_600_000
    && (1000 * retryAfter <= own ==> due == now + own)
    && (own <= 1000 * retryAfter <= 3_600_000 ==> due == now + 1000 * retryAfter)
    && (row.attempts < 3 ==> forall t :: Claimable(row, t) <==> due <= t)
  }

  lemma DelayIs(attempts: int, retryAfter: nat)
    requires attempts < 3
    ensures DelaySeconds(attempts, retryAfter) == Min(3600, Max(retryAfter, if attempts <= 1 then 30 else 60))
  {
    assert Pow2(0) == 1 && Pow2(1) == 2;
  }

  /** The wait in general: half a minute before the second attempt, doubled for each one after. */
  lemma DelayDoubles(attempts: int, retryAfter: nat)
    requires attempts >= 1
    ensures DelaySeconds(attempts + 1, 0) == Min(3600, 2 * DelaySeconds(attempts, 0))
    ensures DelaySeconds(1, 0) == 30
    ensures DelaySeconds(attempts, retryAfter) == Min(3600, Max(retryAfter, DelaySeconds(attempts, 0)))
  {
    assert Pow2(attempts) == 2 * Pow2(attempts - 1);
    assert Pow2(0) == 1;
  }

  lemma VerdictRecords(row: Row, outcome: Outcome, attempts: int, now: Instant)
    ensures Records(Settled(row, Verdict(outcome, attempts, now)), outcome, attempts, now)
    ensures Settled(row, Verdict(outcome, attempts, now)).attempts == row.attempts
  {
    if outcome.Refused? && attempts < 3 {
      DelayIs(attempts, outcome.retryAfter);
    }
  }

  predicate ReallyAccepted(outcome: Outcome) {
    outcome.Accepted? || (outcome.Ambiguous? && outcome.reallyAccepted)
  }

  /** Why handleOne completes its fresh row without sending. */
  datatype Suppression = Consolidated | CoolingDown | Unconfigured

  datatype Disposition = Deliver | Suppress(why: Suppression)

  function SuppressedState(why: Suppression): Delivery {
    match why
    case Consolidated => SuppressedDuplicate
    case CoolingDown => SuppressedCooldown
    case Unconfigured => NotConfigured
  }

  /** Fewer than three attempts, and either none was answered or the last was refused with leave to repeat it by now. */
  ghost predicate IsFree(row: Row, now: Instant) {
    && row.attempts < 3
    && (row.state == Pending ||
        (row.state == Failed && row.retryable && (row.nextAttemptAt == None || row.nextAttemptAt.value <= now)))
  }

  /** The statements of Repo that touch alert_events; each is one atomic write. */
  class Repo {
    var events: Table

    constructor (events: Table)
      ensures this.events == events
    {
      this.events := events;
    }

    /** INSERT .. ON CONFLICT DO NOTHING: at most one caller per key is told it inserted. */
    method InsertAlertEvent(k: Key, owner: Owner, now: Instant) returns (inserted: bool)
      modifies this
      ensures inserted <==> k !in old(events)
      ensures events == Insert(old(events), k, owner, now)
      ensures inserted ==>
        events == old(events)[k := Row(Sending, 1, false, None, Some(owner), Some(now + 60_000))]
        && OwnsClaim(events, k, owner)
    {
      inserted := k !in events;
      if inserted {
        events := events[k := NewRow(owner, now)];
      }
    }

    method ClaimAlert(k: Key, owner: Owner, now: Instant) returns (claimed: Option<Row>)
      modifies this
      ensures events == Claim(old(events), k, owner, now)
      ensures claimed.Some? <==> CanClaim(old(events), k, now)
      ensures claimed.Some? <==> k in old(events) && IsFree(old(events)[k], now)
      ensures claimed.Some? ==>
        && claimed.value == events[k] && OwnsClaim(events, k, owner) && events[k].attempts <= MAX_DELIVERY_ATTEMPTS
        && events[k].attempts == old(events)[k].attempts + 1 && !events[k].retryable
        && events[k].claimExpiresAt == Some(now + 60_000)
    {
      if k !in events || !Claimable(events[k], now) {
        return None;
      }
      events := events[k := Claimed(events[k], owner, now)];
      claimed := Some(events[k]);
    }

    /** Claims the first `limit` claimable rows of the given (created_at, id) order. */
    method ClaimPendingAlerts(order: seq<Key>, owner: Owner, limit: nat, now: Instant) returns (claimed: seq<Key>)
      requires forall i, j :: 0 <= i < j < |order| ==> order[i] != order[j]
      modifies this
      ensures |claimed| <= limit
      ensures forall i :: 0 <= i < |claimed| ==> claimed[i] in order && CanClaim(old(events), claimed[i], now)
      ensures forall i, j :: 0 <= i < j < |claimed| ==> claimed[i] != claimed[j]
      ensures |claimed| < limit ==> forall k :: k in order && CanClaim(old(events), k, now) ==> k in claimed
      ensures forall i, j :: 0 <= i < j < |order| && order[j] in claimed && CanClaim(old(events), order[i], now) ==>
        order[i] in claimed
      ensures events.Keys == old(events).Keys
      ensures forall k :: k in events ==>
        events[k] == if k in claimed then Claimed(old(events)[k], owner, now) else old(events)[k]
    {
      claimed := [];
      var i := 0;
      while i < |order| && |claimed| < limit
        invariant 0 <= i <= |order|
        invariant |claimed| <= limit
        invariant forall j :: 0 <= j < |claimed| ==> claimed[j] in order[..i] && CanClaim(old(events), claimed[j], now)
        invariant forall j :: 0 <= j < i && CanClaim(old(events), order[j], now) ==> order[j] in claimed
        invariant forall a, b :: 0 <= a < b < |claimed| ==> claimed[a] != claimed[b]
        invariant forall j :: i <= j < |order| ==> order[j] !in claimed
        invariant events.Keys == old(events).Keys
        invariant forall k :: k in events ==>
          events[k] == if k in claimed then Claimed(old(events)[k], owner, now) else old(events)[k]
      {
        var k := order[i];
        assert k !in claimed;
        assert order[..i + 1] == order[..i] + [k];
        var row := ClaimAlert(k, owner, now);
        if row.Some? {
          claimed := claimed + [k];
        }
        i := i + 1;
      }
    }

    method CompleteAlertClaim(k: Key, owner: Owner, c: Completion) returns (recorded: bool)
      modifies this
      ensures recorded <==> OwnsClaim(old(events), k, owner)
      ensures events == Complete(old(events), k, owner, c)
    {
      recorded := k in events && events[k].state.Sending? && events[k].claimOwner == Some(owner);
      if recorded {
        events := events[k := events[k].(state := c.state, retryable := c.retryable, nextAttemptAt := c.nextAttemptAt,
                                         claimOwner := None, claimExpiresAt := None)];
      }
    }

    method MarkExpiredAlertClaimsUncertain(now: Instant)
      modifies this
      ensures events == Expire(old(events), now)
      ensures forall k :: k in events ==> !ClaimExpired(events[k], now)
      ensures Swept(old(events), events, now)
    {
      events := Expire(events, now);
    }
  }

  /** Of the claims being sent those that have run out are uncertain, and nothing else has changed. */
  ghost predicate Swept(before: Table, after: Table, now: Instant) {
    && after.Keys == before.Keys
    && forall k :: k in before ==>
         if before[k].state == Sending && before[k].claimExpiresAt.Some? && before[k].claimExpiresAt.value <= now
         then after[k] == Row(Uncertain, before[k].attempts, false, before[k].nextAttemptAt, None, None)
         else after[k] == before[k]
  }

  /** The rows that were sent have the verdict on their own send, the others are as before. */
  ghost predicate AllSettled(before: Table, after: Table, sent: seq<Key>, outcomes: Key -> Outcome, now: Instant) {
    && after.Keys == before.Keys
    && forall k :: k in after ==>
         after[k] == if k in sent then Settled(before[k], Verdict(outcomes(k), before[k].attempts, now)) else before[k]
  }

  lemma OneMoreSettled(
    before: Table, at: Table, after: Table, sent: seq<Key>, k: Key, outcomes: Key -> Outcome, now: Instant)
    requires AllSettled(before, at, sent, outcomes, now) && k in at && k !in sent
    requires after == at[k := Settled(at[k], Verdict(outcomes(k), at[k].attempts, now))]
    ensures AllSettled(before, after, sent + [k], outcomes, now)
  {
  }

  lemma SettledRecord(before: Table, after: Table, sent: seq<Key>, outcomes: Key -> Outcome, now: Instant)
    requires AllSettled(before, after, sent, outcomes, now) && forall k :: k in sent ==> k in before
    ensures forall k :: k in sent ==>
      && k in after && Records(after[k], outcomes(k), before[k].attempts, now)
        && after[k].attempts == before[k].attempts
  {
    forall k | k in sent
      ensures Records(after[k], outcomes(k), before[k].attempts, now) && after[k].attempts == before[k].attempts
    {
      VerdictRecords(before[k], outcomes(k), before[k].attempts, now);
    }
  }

  lemma FreeStaysFree(before: Table, now: Instant)
    ensures forall k :: k in before && IsFree(before[k], now) ==> CanClaim(Expire(before, now), k, now)
  {
  }

  /** What a retry sweep leaves, row by row, in figures. */
  ghost predicate RetrySwept(before: Table, after: Table, tried: seq<Key>, outcomes: Key -> Outcome, now: Instant) {
    && after.Keys == before.Keys
    && (forall k :: k in tried ==>
          && k in before && IsFree(before[k], now) && after[k].attempts == before[k].attempts + 1
          && Records(after[k], outcomes(k), after[k].attempts, now))
    && exists swept: Table :: Swept(before, swept, now) && forall k :: k in before && k !in tried ==>
      after[k] == swept[k]
  }

  lemma RetriesAreSwept(
    before: Table, after: Table, tried: seq<Key>, owner: Owner, outcomes: Key -> Outcome, now: Instant)
    requires
      var swept := Expire(before, now);
      && after.Keys == swept.Keys && (forall k :: k in tried ==> CanClaim(swept, k, now))
      && forall k :: k in after ==>
           after[k] == if k in tried then Retried(swept[k], owner, outcomes(k), now) else swept[k]
    ensures RetrySwept(before, after, tried, outcomes, now)
  {
    var swept := Expire(before, now);
    forall k | k in tried
      ensures
        && k in before && IsFree(before[k], now) && after[k].attempts == before[k].attempts + 1
        && Records(after[k], outcomes(k), after[k].attempts, now)
    {
      VerdictRecords(Claimed(swept[k], owner, now), outcomes(k), swept[k].attempts + 1, now);
    }
    assert Swept(before, swept, now);
  }

  class AlertService {
    const repo: Repo

    constructor (repo: Repo)
      ensures this.repo == repo
    {
      this.repo := repo;
    }

    /** Send, then record: the answer is stored only while the claim is still the caller's. */
    method DeliverClaimed(k: Key, owner: Owner, attempts: int, outcome: Outcome, now: Instant) returns (state: Delivery)
      modifies repo
      ensures repo.events == Complete(old(repo.events), k, owner, Verdict(outcome, attempts, now))
      ensures state == if outcome.Accepted? && !OwnsClaim(old(repo.events), k, owner) then Uncertain
        else Verdict(outcome, attempts, now).state
      ensures OwnsClaim(old(repo.events), k, owner) ==>
        && k in repo.events && Records(repo.events[k], outcome, attempts, now)
        && repo.events[k].attempts == old(repo.events)[k].attempts
    {
      if OwnsClaim(repo.events, k, owner) {
        VerdictRecords(repo.events[k], outcome, attempts, now);
      }
      var recorded := repo.CompleteAlertClaim(k, owner, Verdict(outcome, attempts, now));
      match outcome {
        case Accepted => state := if recorded then Sent else Uncertain;
        case Ambiguous(_) => state := Uncertain;
        case Refused(_, _) => state := Failed;
      }
    }

    /**
     One finding: insert-as-claim, then suppress or send.  A key already
     recorded leaves the table as it was, whatever the disposition.
     */
    method HandleOne(k: Key, owner: Owner, disposition: Disposition, outcome: Outcome, claimedAt: Instant, now: Instant)
      returns (state: Delivery)
      modifies repo
      ensures k in old(repo.events) ==> repo.events == old(repo.events) && state == SuppressedDuplicate
      ensures k !in old(repo.events) ==>
        && repo.events.Keys == old(repo.events).Keys + {k}
        && repo.events[k] == Settled(
             NewRow(owner, claimedAt),
             if disposition.Deliver? then Verdict(outcome, 1, now)
               else Completion(SuppressedState(disposition.why), false, None))
        && repo.events[k].state == state
      ensures k !in old(repo.events) && disposition.Deliver? ==>
        Records(repo.events[k], outcome, 1, now) && repo.events[k].attempts == 1
      ensures k !in old(repo.events) && disposition.Suppress? ==>
        && NeverClaimable(repo.events[k])
        && state == match disposition.why
                    case Consolidated => SuppressedDuplicate
                    case CoolingDown => SuppressedCooldown
                    case Unconfigured => NotConfigured
      ensures forall q :: q in old(repo.events) ==> q in repo.events && repo.events[q] == old(repo.events)[q]
    {
      var inserted := repo.InsertAlertEvent(k, owner, claimedAt);
      if !inserted {
        return SuppressedDuplicate;
      }
      if disposition.Suppress? {
        var _ := repo.CompleteAlertClaim(k, owner, Completion(SuppressedState(disposition.why), false, None));
        return SuppressedState(disposition.why);
      }
      state := DeliverClaimed(k, owner, 1, outcome, now);
    }

    /** Sends the claimed rows in turn; each ends with the verdict on its own send. */
    method DeliverAll(claimed: seq<Key>, owner: Owner, outcomes: Key -> Outcome, now: Instant)
      returns (delivered: nat, failed: nat)
      requires forall i, j :: 0 <= i < j < |claimed| ==> claimed[i] != claimed[j]
      requires forall i :: 0 <= i < |claimed| ==> OwnsClaim(repo.events, claimed[i], owner)
      modifies repo
      ensures delivered == Count(claimed, (k: Key) => outcomes(k).Accepted?) && delivered + failed == |claimed|
      ensures AllSettled(old(repo.events), repo.events, claimed, outcomes, now)
      ensures forall k :: k in claimed ==>
        && k in repo.events && Records(repo.events[k], outcomes(k), old(repo.events)[k].attempts, now)
        && repo.events[k].attempts == old(repo.events)[k].attempts
    {
      ghost var before := repo.events;
      var accepted := (k: Key) => outcomes(k).Accepted?;
      delivered, failed := 0, 0;
      for i := 0 to |claimed|
        invariant delivered == Count(claimed[..i], accepted) && delivered + failed == i
        invariant AllSettled(before, repo.events, claimed[..i], outcomes, now)
      {
        var k := claimed[i];
        ghost var at := repo.events;
        assert k !in claimed[..i] && claimed[..i + 1] == claimed[..i] + [k];
        assert OwnsClaim(before, k, owner) && at[k] == before[k];
        var state := DeliverClaimed(k, owner, repo.events[k].attempts, outcomes(k), now);
        assert repo.events == at[k := Settled(at[k], Verdict(outcomes(k), at[k].attempts, now))];
        OneMoreSettled(before, at, repo.events, claimed[..i], k, outcomes, now);
        CountAppend(claimed[..i], k, accepted);
        if state.Sent? {
          delivered := delivered + 1;
        } else {
          failed := failed + 1;
        }
      }
      assert claimed[..|claimed|] == claimed;
      SettledRecord(before, repo.events, claimed, outcomes, now);
    }

    /**
     The retry sweep: expire first, then claim a batch and send each row in
     turn. Every row that was tried ends with the verdict on its own send; the
     others stay as the expiry left them, and none that could be claimed is
     passed over while the batch has room. Those delivered are those accepted.
     Without a chat nothing is tried.
     */
    method RetryPending(
      configured: bool, order: seq<Key>, owner: Owner, limit: nat, outcomes: Key -> Outcome, now: Instant)
      returns (delivered: nat, failed: nat, ghost tried: seq<Key>)
      requires forall i, j :: 0 <= i < j < |order| ==> order[i] != order[j]
      modifies repo
      ensures delivered == Count(tried, (k: Key) => outcomes(k).Accepted?) && delivered + failed == |tried| <= limit
      ensures !configured ==> tried == []
      ensures forall i, j :: 0 <= i < j < |tried| ==> tried[i] != tried[j]
      ensures
        var swept := Expire(old(repo.events), now);
        && repo.events.Keys == swept.Keys
        && (forall k :: k in tried ==> k in order && CanClaim(swept, k, now))
        && (configured && |tried| < limit ==> forall k :: k in order && CanClaim(swept, k, now) ==> k in tried)
        && forall k :: k in repo.events ==>
             repo.events[k] == if k in tried then Retried(swept[k], owner, outcomes(k), now) else swept[k]
      ensures RetrySwept(old(repo.events), repo.events, tried, outcomes, now)
      ensures configured && |tried| < limit ==>
        forall k :: k in order && k in old(repo.events) && IsFree(old(repo.events)[k], now) ==> k in tried
    {
      ghost var before := repo.events;
      repo.MarkExpiredAlertClaimsUncertain(now);
      delivered, failed, tried := 0, 0, [];
      if !configured {
        RetriesAreSwept(before, repo.events, tried, owner, outcomes, now);
        return;
      }
      var claimed := repo.ClaimPendingAlerts(order, owner, limit, now);
      tried := claimed;
      delivered, failed := DeliverAll(claimed, owner, outcomes, now);
      RetriesAreSwept(before, repo.events, tried, owner, outcomes, now);
      FreeStaysFree(before, now);
    }
  }
}
