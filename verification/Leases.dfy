/**
 The conditional-UPDATE lease used for the scheduler row and for each tracker
 row, and every interleaving of the invocations that compete for one row.
 Instants are milliseconds.
 */
module Leases {
  import opened Prelude

  type Owner = int
  type Instant = int

  datatype Lease = Lease(owner: Option<Owner>, expires: Option<Instant>)

  predicate IsFree(l: Lease, now: Instant) {
    l.owner.None? || l.expires.None? || l.expires.value <= now
  }

  predicate IsRenewable(l: Lease, owner: Owner, now: Instant) {
    l.owner == Some(owner) && l.expires.Some? && l.expires.value > now
  }

  class LeaseRow {
    var lease: Lease

    constructor ()
      ensures lease == Lease(None, None)
    {
      lease := Lease(None, None);
    }

    method Acquire(owner: Owner, ttl: nat, now: Instant) returns (acquired: bool)
      modifies this
      ensures acquired <==> IsFree(old(lease), now)
      ensures acquired <==>
        old(lease).owner == None || old(lease).expires == None || old(lease).expires.value <= now
      ensures lease == if acquired then Lease(Some(owner), Some(now + ttl)) else old(lease)
    {
      acquired := lease.owner.None? || lease.expires.None? || lease.expires.value <= now;
      if acquired {
        lease := Lease(Some(owner), Some(now + ttl));
      }
    }

    method Renew(owner: Owner, ttl: nat, now: Instant) returns (renewed: bool)
      modifies this
      ensures renewed <==> IsRenewable(old(lease), owner, now)
      ensures renewed <==>
        old(lease).owner == Some(owner) && old(lease).expires.Some? && now < old(lease).expires.value
      ensures lease == if renewed then Lease(Some(owner), Some(now + ttl)) else old(lease)
    {
      renewed := lease.owner == Some(owner) && lease.expires.Some? && lease.expires.value > now;
      if renewed {
        lease := lease.(expires := Some(now + ttl));
      }
    }

    method Release(owner: Owner)
      modifies this
      ensures lease == if old(lease).owner == Some(owner) then Lease(None, None) else old(lease)
    {
      if lease.owner == Some(owner) {
        lease := Lease(None, None);
      }
    }
  }

  // ------------------------------------------------------------------- runs

  /** An invocation that won the row: the deadline it was promised, and whether a provider call is in progress. */
  datatype Holder = Holder(deadline: Instant, calling: bool)

  datatype State = State(clock: Instant, lease: Lease, holders: map<Owner, Holder>)

  /**
   `captured` is the time an invocation read before its statement ran; the
   statement sees the row later, so it may be stale but never ahead of the
   clock.  A crashed invocation is one that has no more events.
   */
  datatype Event =
    | Pass(elapsed: nat)
    | Acquire(owner: Owner, captured: Instant, ttl: nat)
    | Heartbeat(owner: Owner, captured: Instant, ttl: nat)
    | BeginCall(owner: Owner)
    | EndCall(owner: Owner)
    | Release(owner: Owner)

  function Apply(s: State, e: Event): State {
    match e
    case Pass(elapsed) => s.(clock := s.clock + elapsed)
    case Acquire(owner, captured, ttl) =>
      if captured <= s.clock && owner !in s.holders && IsFree(s.lease, captured)
      then s.(lease := Lease(Some(owner), Some(captured + ttl)),
        holders := s.holders[owner := Holder(captured + ttl, false)])
      else s
    case Heartbeat(owner, captured, ttl) =>
      if captured <= s.clock && owner in s.holders && !s.holders[owner].calling then
        if IsRenewable(s.lease, owner, captured)
        then s.(lease := Lease(Some(owner), Some(captured + ttl)),
          holders := s.holders[owner := Holder(captured + ttl, false)])
        else s.(holders := s.holders - {owner})  // lost: it stops working
      else s
    case BeginCall(owner) =>
      if owner in s.holders then s.(holders := s.holders[owner := s.holders[owner].(calling := true)]) else s
    case EndCall(owner) =>
      if owner in s.holders then s.(holders := s.holders[owner := s.holders[owner].(calling := false)]) else s
    case Release(owner) =>
      if owner in s.holders && !s.holders[owner].calling
      then s.(lease := if s.lease.owner == Some(owner) then Lease(None, None) else s.lease,
        holders := s.holders - {owner})
      else s
  }

  function Run(s: State, es: seq<Event>): State
    decreases |es|
  {
    if es == [] then s else Run(Apply(s, es[0]), es[1..])
  }

  predicate IsLive(s: State, owner: Owner) {
    owner in s.holders && s.clock < s.holders[owner].deadline
  }

  predicate IsCalling(s: State, owner: Owner) {
    owner in s.holders && s.holders[owner].calling
  }

  /** A holder inside its deadline is the owner on record, until that very deadline. */
  ghost predicate RowBacksLive(s: State) {
    forall o :: IsLive(s, o) ==> s.lease == Lease(Some(o), Some(s.holders[o].deadline))
  }

  lemma StepKeepsRow(s: State, e: Event)
    requires RowBacksLive(s)
    ensures RowBacksLive(Apply(s, e))
  {
    var t := Apply(s, e);
    forall o | IsLive(t, o) ensures t.lease == Lease(Some(o), Some(t.holders[o].deadline)) {
      assert o in s.holders && t.holders[o].deadline == s.holders[o].deadline ==> IsLive(s, o);
    }
  }

  lemma {:induction false} RunKeepsRow(s: State, es: seq<Event>)
    requires RowBacksLive(s)
    ensures RowBacksLive(Run(s, es))
    decreases |es|
  {
    if es != [] {
      StepKeepsRow(s, es[0]);
      RunKeepsRow(Apply(s, es[0]), es[1..]);
    }
  }

  /** A heartbeat while the invocation is not calling keeps the lease exactly while it has not run out on record. */
  lemma HeartbeatKeepsIff(s: State, owner: Owner, captured: Instant, ttl: nat)
    requires owner in s.holders && !s.holders[owner].calling && captured <= s.clock
    ensures
      var t := Apply(s, Heartbeat(owner, captured, ttl));
      && (owner in t.holders <==>
            s.lease.owner == Some(owner) && s.lease.expires.Some? && captured < s.lease.expires.value)
      && (owner in t.holders ==>
            t.holders[owner] == Holder(captured + ttl, false) && t.lease == Lease(Some(owner), Some(captured + ttl)))
  {
  }

  /** A newcomer gets the row exactly when it is free on record, and then holds it without calling. */
  lemma AcquireTakesIff(s: State, owner: Owner, captured: Instant, ttl: nat)
    requires owner !in s.holders && captured <= s.clock
    ensures
      var t := Apply(s, Acquire(owner, captured, ttl));
      if s.lease.owner == None || s.lease.expires == None || s.lease.expires.value <= captured
      then t == State(s.clock, Lease(Some(owner), Some(captured + ttl)),
        s.holders[owner := Holder(captured + ttl, false)])
      else t == s
  {
  }

  /** A newcomer that gets the row, calls, ends its call and releases it leaves a free row and nothing else behind. */
  lemma TurnLeavesNothing(s: State, owner: Owner, captured: Instant, ttl: nat)
    requires owner !in s.holders && captured <= s.clock
    requires s.lease.owner == None || s.lease.expires == None || s.lease.expires.value <= captured
    ensures
      var calling := Run(s, [Acquire(owner, captured, ttl), BeginCall(owner)]);
      && IsCalling(calling, owner) && Apply(calling, Release(owner)) == calling
      && Run(calling, [EndCall(owner), Release(owner)]) == State(s.clock, Lease(None, None), s.holders)
  {
    AcquireTakesIff(s, owner, captured, ttl);
    var es, more := [Acquire(owner, captured, ttl), BeginCall(owner)], [EndCall(owner), Release(owner)];
    var s1 := Apply(s, es[0]);
    var s2 := Apply(s1, es[1]);
    assert es[0..] == es && es[2..] == [] && more[0..] == more && more[2..] == [];
    RunFrom(s1, es, 1);
    RunFrom(s, es, 0);
    RunFrom(Apply(s2, more[0]), more, 1);
    RunFrom(s2, more, 0);
    assert s2.holders[owner := Holder(captured + ttl, false)] - {owner} == s.holders;
  }

  /** In every run an owner inside its deadline does keep its lease, for as long as it asks. */
  lemma LiveOwnerRenews(s: State, es: seq<Event>, owner: Owner, captured: Instant, ttl: nat)
    requires s.holders == map[]
    requires IsLive(Run(s, es), owner) && !IsCalling(Run(s, es), owner) && captured <= Run(s, es).clock
    ensures
      var t := Apply(Run(s, es), Heartbeat(owner, captured, ttl));
      && owner in t.holders && t.holders[owner].deadline == captured + ttl
      && (t.clock < captured + ttl ==> IsLive(t, owner))
  {
    RunKeepsRow(s, es);
    HeartbeatKeepsIff(Run(s, es), owner, captured, ttl);
  }

  /** Whatever the row said before and however stale the captured times: one live lease at most. */
  lemma OneLiveLease(s: State, es: seq<Event>, a: Owner, b: Owner)
    requires s.holders == map[]
    requires IsLive(Run(s, es), a) && IsLive(Run(s, es), b)
    ensures a == b
  {
    RunKeepsRow(s, es);
  }

  /**
   Two invocations call the provider for one row at the same time only if one
   of them has outlived the deadline of its last heartbeat.
   */
  lemma OverlapNeedsOverrun(s: State, es: seq<Event>, a: Owner, b: Owner)
    requires s.holders == map[]
    requires a != b && IsCalling(Run(s, es), a) && IsCalling(Run(s, es), b)
    ensures var t := Run(s, es); t.holders[a].deadline <= t.clock || t.holders[b].deadline <= t.clock
  {
    RunKeepsRow(s, es);
  }

  /**
   While `a` calls under the deadline on record, a newcomer that read the time
   as `captured` comes to call beside it exactly when that deadline is over:
   at the present time, exactly when `a` has overrun.
   */
  lemma OverlapStartsIff(s: State, a: Owner, b: Owner, captured: Instant, ttl: nat)
    requires IsCalling(s, a) && s.lease == Lease(Some(a), Some(s.holders[a].deadline))
    requires b !in s.holders && captured <= s.clock
    ensures
      var t := Run(s, [Acquire(b, captured, ttl), BeginCall(b)]);
      IsCalling(t, a) && (IsCalling(t, b) <==> s.holders[a].deadline <= captured)
  {
    var es := [Acquire(b, captured, ttl), BeginCall(b)];
    assert es[0..] == es && es[2..] == [];
    RunFrom(Apply(s, es[0]), es, 1);
    RunFrom(s, es, 0);
  }

  const OVERRUN: seq<Event> := [Acquire(1, 0, 10), BeginCall(1), Pass(10), Acquire(2, 10, 10), BeginCall(2)]

  /** The deadline matters: a call that runs past it can be overlapped. */
  lemma OverrunOverlaps()
    ensures var t := Run(State(0, Lease(None, None), map[]), OVERRUN); IsCalling(t, 1) && IsCalling(t, 2)
  {
    var s0 := State(0, Lease(None, None), map[]);
    var s1 := Apply(s0, OVERRUN[0]);
    var s2 := Apply(s1, OVERRUN[1]);
    var s3 := Apply(s2, OVERRUN[2]);
    var s4 := Apply(s3, OVERRUN[3]);
    var s5 := Apply(s4, OVERRUN[4]);
    assert OVERRUN[0..] == OVERRUN && OVERRUN[5..] == [];
    RunFrom(s4, OVERRUN, 4);
    RunFrom(s3, OVERRUN, 3);
    RunFrom(s2, OVERRUN, 2);
    RunFrom(s1, OVERRUN, 1);
    RunFrom(s0, OVERRUN, 0);
  }

  lemma RunFrom(s: State, es: seq<Event>, k: nat)
    requires k < |es|
    ensures Run(s, es[k..]) == Run(Apply(s, es[k]), es[k + 1..])
  {
    assert es[k..][1..] == es[k + 1..];
  }
}
