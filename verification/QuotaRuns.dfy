/**
 Every interleaving of quota reservations, settlements and provider syncs.

 An invocation advances one atomic D1 statement at a time; a crash is an
 invocation that never advances again.  Invocations stay in the state after
 they finish, so "settled plus outstanding" is a sum over all of them.
 */
module QuotaRuns {
  import opened Prelude
  import opened QuotaLedger

  datatype Stage =
    | Idle                       // nothing read yet
    | Informed(row: Usage)       // usageRow answered; this copy may go stale
    | MonthHeld(row: Usage)      // monthly reservation committed
    | HourRefused                // hourly reservation failed, monthly not yet given back
    | Held                       // both committed; the provider may be called
    | Called(actual: nat)        // the provider answered after `actual` attempts
    | MonthSettled(actual: nat)  // unused monthly capacity given back
    | Settled(actual: nat)
    | Refused

  datatype Proc = Proc(period: Period, at: nat, count: nat, automated: bool, stage: Stage)

  /** A sync in flight: the row it read and the status it is about to write. */
  datatype Sync = Sync(period: Period, captured: Usage, status: Status, written: bool)

  datatype State = State(ledger: Ledger, hours: Buckets, procs: seq<Proc>, syncs: seq<Sync>)

  datatype Event =
    | Spawn(period: Period, at: nat, count: nat, automated: bool)
    | Step(i: nat, reported: int)  // `reported` is the provider's attempt count, used when it answers
    | SyncRead(syncPeriod: Period, status: Status)
    | SyncWrite(j: nat)

  function MonthCharge(p: Proc): nat {
    match p.stage
    case MonthHeld(_) => p.count
    case HourRefused => p.count
    case Held => p.count
    case Called(_) => p.count
    case MonthSettled(a) => a
    case Settled(a) => a
    case _ => 0
  }

  function HourCharge(p: Proc): nat {
    match p.stage
    case Held => p.count
    case Called(_) => p.count
    case MonthSettled(_) => p.count
    case Settled(a) => a
    case _ => 0
  }

  /** What a statement leaves in the tables and where its invocation then stands. */
  datatype Outcome = Outcome(ledger: Ledger, hours: Buckets, stage: Stage)

  /** The next statement of an invocation. */
  function Next(cfg: Config, l: Ledger, hours: Buckets, p: Proc, reported: int): Outcome {
    match p.stage
    case Idle =>
      var withRow := WithRow(l, p.period);
      Outcome(withRow, hours, Informed(withRow[p.period]))
    case Informed(row) =>
      var limit := AllowedLimit(cfg, p.automated, row);
      if CanReserveMonth(l, p.period, p.count, limit)
      then Outcome(ReserveMonth(l, p.period, p.count, limit), hours, MonthHeld(row))
      else Outcome(l, hours, Refused)
    case MonthHeld(row) =>
      var limit := HourlyLimit(cfg, row);
      if CanReserveHour(hours, HourKey(p.at), p.count, limit)
      then Outcome(l, ReserveHour(hours, HourKey(p.at), p.count, limit), Held)
      else Outcome(l, hours, HourRefused)
    case HourRefused => Outcome(ReleaseMonth(l, p.period, p.count), hours, Refused)
    case Held => Outcome(l, hours, Called(Clamp(p.count, reported)))
    case Called(a) => Outcome(ReleaseMonth(l, p.period, p.count - a), hours, MonthSettled(a))
    case MonthSettled(a) => Outcome(l, ReleaseHour(hours, HourKey(p.at), p.count - a), Settled(a))
    case Settled(_) => Outcome(l, hours, p.stage)
    case Refused => Outcome(l, hours, p.stage)
  }

  /** The next statement of invocation `i`. */
  function Advance(cfg: Config, s: State, i: nat, reported: int): State
    requires i < |s.procs|
  {
    var n := Next(cfg, s.ledger, s.hours, s.procs[i], reported);
    State(n.ledger, n.hours, s.procs[i := s.procs[i].(stage := n.stage)], s.syncs)
  }

  /** One atomic step.  An event its target is not ready for changes nothing. */
  function Apply(cfg: Config, s: State, e: Event): State {
    match e
    case Spawn(period, at, count, automated) =>
      if count > 0 then s.(procs := s.procs + [Proc(period, at, count, automated, Idle)]) else s
    case SyncRead(period, status) =>
      var l := WithRow(s.ledger, period);
      s.(ledger := l, syncs := s.syncs + [Sync(period, l[period], status, false)])
    case SyncWrite(j) =>
      if j < |s.syncs| && !s.syncs[j].written then
        var y := s.syncs[j];
        s.(ledger := WriteStatus(s.ledger, y.period, y.captured, y.status), syncs := s.syncs[j := y.(written := true)])
      else s
    case Step(i, reported) =>
      if i < |s.procs| then Advance(cfg, s, i, reported) else s
  }

  function Run(cfg: Config, s: State, es: seq<Event>): State
    decreases |es|
  {
    if es == [] then s else Run(cfg, Apply(cfg, s, es[0]), es[1..])
  }

  lemma RunFrom(cfg: Config, s: State, es: seq<Event>, k: nat)
    requires k < |es|
    ensures Run(cfg, s, es[k..]) == Run(cfg, Apply(cfg, s, es[k]), es[k + 1..])
  {
    assert es[k..][1..] == es[k + 1..];
  }

  // ------------------------------------------------------------- accounting

  function Total(ps: seq<Proc>, share: Proc -> nat): nat {
    if ps == [] then 0 else Total(ps[..|ps| - 1], share) + share(ps[|ps| - 1])
  }

  function MonthShare(period: Period, automatedOnly: bool): Proc -> nat {
    (p: Proc) => if p.period == period && (automatedOnly ==> p.automated) then MonthCharge(p) else 0
  }

  function HourShare(hour: Hour): Proc -> nat {
    (p: Proc) => if HourKey(p.at) == hour then HourCharge(p) else 0
  }

  /** Calls under reservations taken in the 60 minutes that begin at `from`. */
  function WindowShare(from: nat): Proc -> nat {
    (p: Proc) => if from <= p.at < from + HOUR_MS then HourCharge(p) else 0
  }

  /** Settled plus outstanding calls of one period. */
  function Committed(s: State, period: Period, automatedOnly: bool): nat {
    Total(s.procs, MonthShare(period, automatedOnly))
  }

  function HourCommitted(s: State, hour: Hour): nat {
    Total(s.procs, HourShare(hour))
  }

  lemma {:induction false} TotalUpdate(ps: seq<Proc>, i: nat, p: Proc, share: Proc -> nat)
    requires i < |ps|
    ensures Total(ps[i := p], share) == Total(ps, share) - share(ps[i]) + share(p)
  {
    var n := |ps| - 1;
    var qs := ps[i := p];
    if i == n {
      assert qs[..n] == ps[..n];
    } else {
      assert qs[..n] == ps[..n][i := p];
      TotalUpdate(ps[..n], i, p, share);
    }
  }

  lemma TotalAppend(ps: seq<Proc>, p: Proc, share: Proc -> nat)
    ensures Total(ps + [p], share) == Total(ps, share) + share(p)
  {
    assert (ps + [p])[..|ps|] == ps;
  }

  lemma {:induction false} TotalBoundsMember(ps: seq<Proc>, i: nat, share: Proc -> nat)
    requires i < |ps|
    ensures share(ps[i]) <= Total(ps, share)
  {
    if i < |ps| - 1 {
      TotalBoundsMember(ps[..|ps| - 1], i, share);
    }
  }

  lemma {:induction false} AutomatedIsPart(ps: seq<Proc>, period: Period)
    ensures Total(ps, MonthShare(period, true)) <= Total(ps, MonthShare(period, false))
  {
    if ps != [] {
      AutomatedIsPart(ps[..|ps| - 1], period);
    }
  }

  lemma {:induction false} TotalOfNothing(ps: seq<Proc>, share: Proc -> nat)
    requires forall p :: p in ps ==> share(p) == 0
    ensures Total(ps, share) == 0
  {
    if ps != [] {
      TotalOfNothing(ps[..|ps| - 1], share);
    }
  }

  // ------------------------------------------------------------ the invariant

  predicate IsSync(e: Event) {
    e.SyncRead? || e.SyncWrite?
  }

  predicate SyncFree(es: seq<Event>) {
    forall i :: 0 <= i < |es| ==> !IsSync(es[i])
  }

  /** The most that may be reserved for a trigger. */
  function Ceiling(cfg: Config, automated: bool): int {
    if automated then Max(0, cfg.budget - cfg.reserve) else cfg.budget
  }

  /** On top of what the period had counted before, the run's calls are counted, and stay within each ceiling. */
  ghost predicate PeriodCovered(cfg: Config, s: State, q: Period, before: int) {
    && before + Committed(s, q, false) <= LocalOf(s.ledger, q)
    && before + Committed(s, q, false) <= Max(before, Ceiling(cfg, false))
    && before + Committed(s, q, true) <= Max(before, Ceiling(cfg, true))
  }

  ghost predicate BucketsCover(cfg: Config, s: State) {
    && (forall h: Hour :: HourCommitted(s, h) <= Bucket(s.hours, h) <= cfg.hourly)
  }

  /** The period's row exists once it was read, and a settlement never exceeds its reservation. */
  predicate ProcOk(l: Ledger, p: Proc) {
    && p.count > 0
    && (p.stage.Idle? || p.period in l)
    && (p.stage.Called? ==> p.stage.actual <= p.count)
    && (p.stage.MonthSettled? ==> p.stage.actual <= p.count)
  }

  ghost predicate RowsExist(s: State) {
    forall i :: 0 <= i < |s.procs| ==> ProcOk(s.ledger, s.procs[i])
  }

  /** No reservation overtook this sync by more than the provider already reports. */
  predicate WriteIsUndisturbed(s: State, e: Event) {
    e.SyncWrite? && e.j < |s.syncs| && !s.syncs[e.j].written && s.syncs[e.j].period in s.ledger ==>
      s.ledger[s.syncs[e.j].period].local <= SyncedLocal(s.syncs[e.j].captured, s.syncs[e.j].status)
  }

  /** Each sync write of the run finds the row no further than it is about to write. */
  ghost predicate Undisturbed(cfg: Config, s: State, es: seq<Event>)
    decreases |es|
  {
    es == [] || (WriteIsUndisturbed(s, es[0]) && Undisturbed(cfg, Apply(cfg, s, es[0]), es[1..]))
  }

  /** Any ledger and buckets left by earlier work, and nobody in flight. */
  ghost predicate Fresh(cfg: Config, s: State) {
    && s.procs == [] && s.syncs == []
    && (forall p :: p in s.ledger ==> s.ledger[p].local >= 0)
    && (forall h :: h in s.hours ==> 0 <= s.hours[h] <= cfg.hourly)
  }

  /** How the ledger and one invocation's charge move in a step of that invocation. */
  lemma AdvanceCharges(cfg: Config, s: State, i: nat, reported: int, q: Period, automatedOnly: bool)
    requires i < |s.procs|
    ensures
      var p := s.procs[i];
      var t := Advance(cfg, s, i, reported);
      && |t.procs| == |s.procs|
      && t.procs == s.procs[i := t.procs[i]]
      && t.procs[i].period == p.period && t.procs[i].automated == p.automated && t.procs[i].at == p.at
        && t.procs[i].count == p.count
      && Committed(t, q, automatedOnly) == Committed(s, q, automatedOnly)
           - MonthShare(q, automatedOnly)(p) + MonthShare(q, automatedOnly)(t.procs[i])
  {
    var p := s.procs[i];
    var t := Advance(cfg, s, i, reported);
    assert t.procs == s.procs[i := t.procs[i]];
    TotalUpdate(s.procs, i, t.procs[i], MonthShare(q, automatedOnly));
  }

  /**
   What one statement does to the ledger, next to what it does to the charge
   of its invocation: the counter never gains less than the charge, and a
   charge grows only within the ceiling of its trigger.
   */
  lemma LedgerFollowsCharge(cfg: Config, s: State, i: nat, reported: int)
    requires i < |s.procs| && RowsExist(s)
    ensures
      var p := s.procs[i];
      var t := Advance(cfg, s, i, reported);
      var gain := MonthCharge(t.procs[i]) - MonthCharge(p);
      && LocalOf(t.ledger, p.period) >= LocalOf(s.ledger, p.period) + gain
      && (gain > 0 ==> LocalOf(t.ledger, p.period) <= Ceiling(cfg, p.automated))
      && forall q :: q != p.period ==> LocalOf(t.ledger, q) == LocalOf(s.ledger, q)
  {
  }

  lemma AdvanceKeepsPeriod(cfg: Config, s: State, i: nat, reported: int, q: Period, before: int)
    requires i < |s.procs| && RowsExist(s) && PeriodCovered(cfg, s, q, before)
    ensures PeriodCovered(cfg, Advance(cfg, s, i, reported), q, before)
  {
    var t := Advance(cfg, s, i, reported);
    LedgerFollowsCharge(cfg, s, i, reported);
    AdvanceCharges(cfg, s, i, reported, q, false);
    AdvanceCharges(cfg, s, i, reported, q, true);
    AutomatedIsPart(t.procs, q);
  }

  lemma SyncKeepsPeriod(cfg: Config, s: State, e: Event, q: Period, before: int)
    requires IsSync(e) && PeriodCovered(cfg, s, q, before) && WriteIsUndisturbed(s, e)
    ensures PeriodCovered(cfg, Apply(cfg, s, e), q, before)
  {
    assert Apply(cfg, s, e).procs == s.procs;
  }

  lemma AdvanceKeepsProc(cfg: Config, s: State, i: nat, reported: int)
    requires i < |s.procs| && ProcOk(s.ledger, s.procs[i])
    ensures var t := Advance(cfg, s, i, reported);
      ProcOk(t.ledger, t.procs[i]) && s.ledger.Keys <= t.ledger.Keys
  {
  }

  lemma StepKeepsRows(cfg: Config, s: State, e: Event)
    requires RowsExist(s)
    ensures RowsExist(Apply(cfg, s, e))
  {
    var t := Apply(cfg, s, e);
    if e.Step? && e.i < |s.procs| {
      AdvanceKeepsProc(cfg, s, e.i, e.reported);
      AdvanceCharges(cfg, s, e.i, e.reported, 0, false);
    }
    assert s.ledger.Keys <= t.ledger.Keys;
    forall i | 0 <= i < |t.procs| ensures ProcOk(t.ledger, t.procs[i]) {
      assert i < |s.procs| ==> ProcOk(s.ledger, s.procs[i]);
    }
  }

  lemma SpawnKeepsPeriod(cfg: Config, s: State, e: Event, q: Period, before: int)
    requires e.Spawn? && PeriodCovered(cfg, s, q, before)
    ensures PeriodCovered(cfg, Apply(cfg, s, e), q, before)
  {
    if e.count > 0 {
      var p := Proc(e.period, e.at, e.count, e.automated, Idle);
      var t := s.(procs := s.procs + [p]);
      assert Apply(cfg, s, e) == t;
      TotalAppend(s.procs, p, MonthShare(q, false));
      TotalAppend(s.procs, p, MonthShare(q, true));
      assert Committed(t, q, false) == Committed(s, q, false) && Committed(t, q, true) == Committed(s, q, true);
    }
  }

  lemma StepKeepsPeriod(cfg: Config, s: State, e: Event, q: Period, before: int)
    requires PeriodCovered(cfg, s, q, before) && RowsExist(s) && WriteIsUndisturbed(s, e)
    ensures PeriodCovered(cfg, Apply(cfg, s, e), q, before)
  {
    if IsSync(e) {
      SyncKeepsPeriod(cfg, s, e, q, before);
    } else if e.Spawn? {
      SpawnKeepsPeriod(cfg, s, e, q, before);
    } else if e.i < |s.procs| {
      AdvanceKeepsPeriod(cfg, s, e.i, e.reported, q, before);
    }
  }

  lemma {:induction false} RunKeepsPeriod(cfg: Config, s: State, es: seq<Event>, q: Period, before: int)
    requires PeriodCovered(cfg, s, q, before) && RowsExist(s) && Undisturbed(cfg, s, es)
    ensures PeriodCovered(cfg, Run(cfg, s, es), q, before)
    decreases |es|
  {
    if es != [] {
      StepKeepsPeriod(cfg, s, es[0], q, before);
      StepKeepsRows(cfg, s, es[0]);
      RunKeepsPeriod(cfg, Apply(cfg, s, es[0]), es[1..], q, before);
    }
  }

  /**
   In every interleaving and every crash, whatever the provider reports: what
   the period had counted before plus the calls settled or outstanding stays
   within the stored counter, and within the monthly budget unless it was
   passed before; with automated calls alone, within budget minus reserve.
   */
  lemma {:induction false} BudgetHolds(cfg: Config, s: State, es: seq<Event>, period: Period)
    requires Fresh(cfg, s) && Undisturbed(cfg, s, es)
    ensures
      var t := Run(cfg, s, es);
      var before := LocalOf(s.ledger, period);
      && before + Committed(t, period, false) <= LocalOf(t.ledger, period)
      && before + Committed(t, period, false) <= Max(before, cfg.budget)
      && before + Committed(t, period, true) <= Max(before, Max(0, cfg.budget - cfg.reserve))
  {
    RunKeepsPeriod(cfg, s, es, period, LocalOf(s.ledger, period));
  }

  /** Every sync is written right after it is read; `n` syncs were begun before. */
  predicate SyncsAtOnce(n: nat, es: seq<Event>)
    decreases |es|
  {
    es == []
    || (es[0].SyncRead? && |es| >= 2 && es[1] == SyncWrite(n) && SyncsAtOnce(n + 1, es[2..]))
    || (!IsSync(es[0]) && SyncsAtOnce(n, es[1..]))
  }

  /** Then no reservation is lost, so the budget holds. */
  lemma {:induction false} SyncsAtOnceAreUndisturbed(cfg: Config, s: State, es: seq<Event>)
    requires SyncsAtOnce(|s.syncs|, es)
    ensures Undisturbed(cfg, s, es)
    decreases |es|
  {
    if es != [] {
      var t := Apply(cfg, s, es[0]);
      if es[0].SyncRead? {
        assert t.syncs[|s.syncs|] == Sync(es[0].syncPeriod, t.ledger[es[0].syncPeriod], es[0].status, false);
        assert es[1..][1..] == es[2..];
        SyncsAtOnceAreUndisturbed(cfg, Apply(cfg, t, es[1]), es[2..]);
      } else {
        SyncsAtOnceAreUndisturbed(cfg, t, es[1..]);
      }
    }
  }

  // ---------------------------------------------------------- hour buckets

  lemma BucketFollowsCharge(cfg: Config, s: State, i: nat, reported: int)
    requires i < |s.procs| && RowsExist(s)
    requires forall h: Hour :: 0 <= Bucket(s.hours, h) <= cfg.hourly
    ensures
      var p := s.procs[i];
      var t := Advance(cfg, s, i, reported);
      && Bucket(t.hours, HourKey(p.at)) >= Bucket(s.hours, HourKey(p.at)) + HourCharge(t.procs[i]) - HourCharge(p)
      && Bucket(t.hours, HourKey(p.at)) <= cfg.hourly
      && forall h :: h != HourKey(p.at) ==> Bucket(t.hours, h) == Bucket(s.hours, h)
  {
    assert 0 <= Bucket(s.hours, HourKey(s.procs[i].at)) <= cfg.hourly;
  }

  lemma AdvanceKeepsBucket(cfg: Config, s: State, i: nat, reported: int, h: Hour)
    requires i < |s.procs| && BucketsCover(cfg, s) && RowsExist(s)
    ensures
      var t := Advance(cfg, s, i, reported);
      HourCommitted(t, h) <= Bucket(t.hours, h) <= cfg.hourly
  {
    var t := Advance(cfg, s, i, reported);
    assert forall g: Hour :: HourCommitted(s, g) <= Bucket(s.hours, g) <= cfg.hourly;
    BucketFollowsCharge(cfg, s, i, reported);
    AdvanceCharges(cfg, s, i, reported, 0, false);
    TotalUpdate(s.procs, i, t.procs[i], HourShare(h));
  }

  lemma StepKeepsBuckets(cfg: Config, s: State, e: Event)
    requires BucketsCover(cfg, s) && RowsExist(s)
    ensures BucketsCover(cfg, Apply(cfg, s, e))
  {
    var t := Apply(cfg, s, e);
    forall h: Hour ensures HourCommitted(t, h) <= Bucket(t.hours, h) <= cfg.hourly {
      assert HourCommitted(s, h) <= Bucket(s.hours, h) <= cfg.hourly;
      match e
      case Spawn(period, at, count, automated) =>
        TotalAppend(s.procs, Proc(period, at, count, automated, Idle), HourShare(h));
      case Step(i, reported) =>
        if i < |s.procs| {
          AdvanceKeepsBucket(cfg, s, i, reported, h);
        }
      case SyncRead(_, _) =>
      case SyncWrite(_) =>
    }
  }

  lemma {:induction false} RunKeepsBuckets(cfg: Config, s: State, es: seq<Event>)
    requires BucketsCover(cfg, s) && RowsExist(s)
    ensures BucketsCover(cfg, Run(cfg, s, es))
    decreases |es|
  {
    if es != [] {
      StepKeepsRows(cfg, s, es[0]);
      StepKeepsBuckets(cfg, s, es[0]);
      RunKeepsBuckets(cfg, Apply(cfg, s, es[0]), es[1..]);
    }
  }

  lemma {:induction false} WindowSpansTwoHours(ps: seq<Proc>, from: nat)
    ensures
      Total(ps, WindowShare(from)) <= Total(ps, HourShare(HourKey(from))) + Total(ps, HourShare(HourKey(from) + 1))
  {
    if ps != [] {
      WindowSpansTwoHours(ps[..|ps| - 1], from);
    }
  }

  /** No hour bucket passes the hourly limit, and no rolling hour passes twice that. */
  lemma HourlyLimitHolds(cfg: Config, s: State, es: seq<Event>, hour: Hour, from: nat)
    requires Fresh(cfg, s)
    ensures
      var t := Run(cfg, s, es);
      && HourCommitted(t, hour) <= Bucket(t.hours, hour) <= cfg.hourly
      && Total(t.procs, WindowShare(from)) <= 2 * cfg.hourly
  {
    var t := Run(cfg, s, es);
    RunKeepsBuckets(cfg, s, es);
    WindowSpansTwoHours(t.procs, from);
    assert HourCommitted(t, HourKey(from)) <= cfg.hourly && HourCommitted(t, HourKey(from) + 1) <= cfg.hourly;
  }

  // -------------------------------------------------- what the provider has left

  predicate KnowsLeft(l: Ledger, period: Period) {
    period in l && l[period].used.Some? && l[period].left.Some?
  }

  /** The most a period may come to be counted at: what the provider says is left, unless more was counted before. */
  function LeftCeiling(u: Usage): int
    requires u.used.Some? && u.left.Some?
  {
    Max(Max(u.local, u.used.value), u.used.value + u.left.value)
  }

  lemma NextStaysWithinLeft(cfg: Config, l: Ledger, hours: Buckets, p: Proc, reported: int)
    requires KnowsLeft(l, p.period) && ProcOk(l, p)
    ensures
      var after, u := Next(cfg, l, hours, p, reported).ledger, l[p.period];
      && p.period in after && after[p.period] == u.(local := after[p.period].local)
      && after[p.period].local <= LeftCeiling(u)
  {
  }

  /** A statement leaves the provider's figures alone and the counter within them, and never loses a call. */
  lemma StepStaysWithinLeft(cfg: Config, s: State, e: Event, period: Period)
    requires RowsExist(s) && !IsSync(e) && KnowsLeft(s.ledger, period)
    ensures
      var t, u := Apply(cfg, s, e), s.ledger[period];
      && period in t.ledger && t.ledger[period] == u.(local := t.ledger[period].local)
      && t.ledger[period].local <= LeftCeiling(u) && Beyond(s, period) <= Beyond(t, period)
  {
    if e.Spawn? {
      TotalAppend(s.procs, Proc(e.period, e.at, e.count, e.automated, Idle), MonthShare(period, false));
    } else if e.i < |s.procs| {
      var p := s.procs[e.i];
      assert ProcOk(s.ledger, p);
      if p.period == period {
        NextStaysWithinLeft(cfg, s.ledger, s.hours, p, e.reported);
      }
      LedgerFollowsCharge(cfg, s, e.i, e.reported);
      AdvanceCharges(cfg, s, e.i, e.reported, period, false);
    }
  }

  /**
   Until the next sync, in every interleaving and every crash: the provider's
   figures stay, and what the period had counted plus the calls of the run is
   within the counter, which stays within what the provider says is left
   unless more was counted or reported before.
   */
  lemma {:induction false} CallsStayWithinLeft(cfg: Config, s: State, es: seq<Event>, period: Period)
    requires RowsExist(s) && SyncFree(es) && KnowsLeft(s.ledger, period)
    ensures
      var t, u := Run(cfg, s, es), s.ledger[period];
      && period in t.ledger && t.ledger[period] == u.(local := t.ledger[period].local)
      && Beyond(s, period) + Committed(t, period, false) <= t.ledger[period].local
      && t.ledger[period].local <= Max(Max(u.local, u.used.value), u.used.value + u.left.value)
    decreases |es|
  {
    if es != [] {
      StepKeepsRows(cfg, s, es[0]);
      StepStaysWithinLeft(cfg, s, es[0], period);
      CallsStayWithinLeft(cfg, Apply(cfg, s, es[0]), es[1..], period);
    }
  }

  // ----------------------------------------------------------- conservation

  function EffectiveOf(l: Ledger, period: Period): int {
    if period in l then Effective(l[period]) else 0
  }

  function ReportedOf(l: Ledger, period: Period): int {
    if period in l then Reported(l[period]) else 0
  }

  /**
   What an invocation may yet give back: its whole reservation until the provider answers,
   then what it did not use.
   */
  function Releasable(p: Proc): nat {
    match p.stage
    case MonthHeld(_) => p.count
    case HourRefused => p.count
    case Held => p.count
    case Called(a) => if a <= p.count then p.count - a else 0
    case _ => 0
  }

  function ReleaseShare(period: Period): Proc -> nat {
    (p: Proc) => if p.period == period then Releasable(p) else 0
  }

  function Outstanding(s: State, period: Period): nat {
    Total(s.procs, ReleaseShare(period))
  }

  /** Effective usage beyond the calls settled or outstanding in this state. */
  function Surplus(s: State, period: Period): int {
    EffectiveOf(s.ledger, period) - Committed(s, period, false)
  }

  /** All that may yet be given back lies above what the provider reports. */
  predicate HasRoom(s: State, period: Period) {
    ReportedOf(s.ledger, period) + Outstanding(s, period) <= EffectiveOf(s.ledger, period)
  }

  lemma ReserveMovesEffective(l: Ledger, period: Period, count: nat, limit: int)
    requires CanReserveMonth(l, period, count, limit)
    ensures EffectiveOf(ReserveMonth(l, period, count, limit), period) == EffectiveOf(l, period) + count
  {
  }

  lemma ReleaseMovesEffective(l: Ledger, period: Period, count: nat)
    requires period in l && ReportedOf(l, period) + count <= EffectiveOf(l, period)
    ensures EffectiveOf(ReleaseMonth(l, period, count), period) == EffectiveOf(l, period) - count
  {
  }

  /**
   One statement moves effective usage by exactly the charge, if what its invocation may
   give back lies above the report.
   */
  lemma EffectiveFollowsCharge(cfg: Config, s: State, i: nat, reported: int)
    requires i < |s.procs| && ProcOk(s.ledger, s.procs[i])
    requires
      var p := s.procs[i];
      ReportedOf(s.ledger, p.period) + Releasable(p) <= EffectiveOf(s.ledger, p.period)
    ensures
      var p := s.procs[i];
      var t := Advance(cfg, s, i, reported);
      && |t.procs| == |s.procs|
      && EffectiveOf(t.ledger, p.period) == EffectiveOf(s.ledger, p.period) + MonthCharge(t.procs[i]) - MonthCharge(p)
      && Releasable(t.procs[i]) - Releasable(p) <= MonthCharge(t.procs[i]) - MonthCharge(p)
  {
    var p := s.procs[i];
    if p.stage.Informed? {
      var limit := AllowedLimit(cfg, p.automated, p.stage.row);
      if CanReserveMonth(s.ledger, p.period, p.count, limit) {
        ReserveMovesEffective(s.ledger, p.period, p.count, limit);
      }
    } else if p.stage.HourRefused? || p.stage.Called? {
      ReleaseMovesEffective(s.ledger, p.period, Releasable(p));
    }
  }

  /** A statement changes no other period's row, and never what the provider reported. */
  lemma AdvanceKeepsReport(cfg: Config, s: State, i: nat, reported: int, period: Period)
    requires i < |s.procs|
    ensures
      var t := Advance(cfg, s, i, reported);
      && ReportedOf(t.ledger, period) == ReportedOf(s.ledger, period)
      && (period != s.procs[i].period ==> EffectiveOf(t.ledger, period) == EffectiveOf(s.ledger, period))
  {
  }

  lemma AdvanceConserves(cfg: Config, s: State, i: nat, reported: int, period: Period)
    requires i < |s.procs| && RowsExist(s) && HasRoom(s, period)
    ensures
      var t := Advance(cfg, s, i, reported);
      HasRoom(t, period) && Surplus(t, period) == Surplus(s, period)
  {
    var p, t := s.procs[i], Advance(cfg, s, i, reported);
    AdvanceCharges(cfg, s, i, reported, period, false);
    TotalUpdate(s.procs, i, t.procs[i], ReleaseShare(period));
    AdvanceKeepsReport(cfg, s, i, reported, period);
    if p.period == period {
      TotalBoundsMember(s.procs, i, ReleaseShare(period));
      EffectiveFollowsCharge(cfg, s, i, reported);
    }
  }

  lemma StepConserves(cfg: Config, s: State, e: Event, period: Period)
    requires RowsExist(s) && HasRoom(s, period) && !IsSync(e)
    ensures
      var t := Apply(cfg, s, e);
      HasRoom(t, period) && Surplus(t, period) == Surplus(s, period)
  {
    if e.Spawn? {
      TotalAppend(s.procs, Proc(e.period, e.at, e.count, e.automated, Idle), MonthShare(period, false));
      TotalAppend(s.procs, Proc(e.period, e.at, e.count, e.automated, Idle), ReleaseShare(period));
    } else if e.i < |s.procs| {
      AdvanceConserves(cfg, s, e.i, e.reported, period);
    }
  }

  /**
   From any state with room, until the next sync, nothing is lost and nothing
   is invented: effective usage and the calls settled or outstanding move
   together, and there stays room.
   */
  lemma {:induction false} UsageIsConserved(cfg: Config, s: State, es: seq<Event>, period: Period)
    requires RowsExist(s) && HasRoom(s, period) && SyncFree(es)
    ensures
      var t := Run(cfg, s, es);
      RowsExist(t) && HasRoom(t, period) && Surplus(t, period) == Surplus(s, period)
    decreases |es|
  {
    if es != [] {
      StepKeepsRows(cfg, s, es[0]);
      StepConserves(cfg, s, es[0], period);
      UsageIsConserved(cfg, Apply(cfg, s, es[0]), es[1..], period);
    }
  }

  /** With room, the MAX in the release statement cuts no release short. */
  lemma ReleaseIsExact(s: State, i: nat, unused: nat)
    requires i < |s.procs| && unused <= Releasable(s.procs[i]) && HasRoom(s, s.procs[i].period)
    ensures
      var period := s.procs[i].period;
      period in s.ledger && unused > 0 ==>
        ReleaseMonth(s.ledger, period, unused)[period].local == s.ledger[period].local - unused
  {
    TotalBoundsMember(s.procs, i, ReleaseShare(s.procs[i].period));
  }

  /** With nobody in flight there is room, whatever the ledger says. */
  lemma FreshHasRoom(cfg: Config, s: State, period: Period)
    requires Fresh(cfg, s)
    ensures HasRoom(s, period) && RowsExist(s)
  {
  }

  // --------------------------------------- when a release is cut short

  /** Whatever follows before the next sync, effective usage keeps step with the calls. */
  ghost predicate NeverClamped(cfg: Config, s: State, period: Period) {
    forall es: seq<Event> :: SyncFree(es) ==> Surplus(Run(cfg, s, es), period) == Surplus(s, period)
  }

  lemma {:induction false} RunAppend(cfg: Config, s: State, a: seq<Event>, b: seq<Event>)
    ensures Run(cfg, s, a + b) == Run(cfg, Run(cfg, s, a), b)
    decreases |a|
  {
    if a == [] {
      assert a + b == b;
    } else {
      RunAppend(cfg, Apply(cfg, s, a[0]), a[1..], b);
      assert (a + b)[1..] == a[1..] + b;
    }
  }

  /** How far an invocation that holds a reservation is from having given back what it can. */
  function StepsLeft(p: Proc): nat {
    match p.stage
    case MonthHeld(_) => 3
    case HourRefused => 1
    case Held => 2
    case Called(_) => 1
    case _ => 0
  }

  /**
   A statement of such an invocation, should the provider make no call, settles nothing
   beyond what is settled already.
   */
  lemma GivesBack(cfg: Config, l: Ledger, hours: Buckets, p: Proc)
    requires ProcOk(l, p) && StepsLeft(p) > 0
    ensures
      var after := p.(stage := Next(cfg, l, hours, p, 0).stage);
      && StepsLeft(after) < StepsLeft(p)
      && MonthCharge(after) - Releasable(after) == MonthCharge(p) - Releasable(p)
  {
  }

  lemma GivingBackStep(cfg: Config, s: State, i: nat, period: Period)
    requires i < |s.procs| && RowsExist(s) && StepsLeft(s.procs[i]) > 0
    ensures
      var t := Advance(cfg, s, i, 0);
      && |t.procs| == |s.procs| && t.procs == s.procs[i := t.procs[i]]
      && StepsLeft(t.procs[i]) < StepsLeft(s.procs[i])
      && ReportedOf(t.ledger, period) == ReportedOf(s.ledger, period)
      && Committed(t, period, false) - Outstanding(t, period) == Committed(s, period, false) - Outstanding(s, period)
  {
    var p := s.procs[i];
    var after := p.(stage := Next(cfg, s.ledger, s.hours, p, 0).stage);
    assert ProcOk(s.ledger, p);
    GivesBack(cfg, s.ledger, s.hours, p);
    TotalUpdate(s.procs, i, after, MonthShare(period, false));
    TotalUpdate(s.procs, i, after, ReleaseShare(period));
    AdvanceKeepsReport(cfg, s, i, 0, period);
  }

  /** The run in which every reservation from the k-th on is given back as far as it can be. */
  lemma {:induction false} GiveBack(cfg: Config, s: State, k: nat, period: Period) returns (es: seq<Event>)
    requires k <= |s.procs| && RowsExist(s)
    requires forall i :: 0 <= i < k ==> StepsLeft(s.procs[i]) == 0
    ensures
      var t := Run(cfg, s, es);
      && SyncFree(es) && Outstanding(t, period) == 0
      && ReportedOf(t.ledger, period) == ReportedOf(s.ledger, period)
      && Committed(t, period, false) == Committed(s, period, false) - Outstanding(s, period)
    decreases |s.procs| - k, if k < |s.procs| then StepsLeft(s.procs[k]) else 0
  {
    if k == |s.procs| {
      TotalOfNothing(s.procs, ReleaseShare(period));
      es := [];
    } else if StepsLeft(s.procs[k]) == 0 {
      es := GiveBack(cfg, s, k + 1, period);
    } else {
      var e := Step(k, 0);
      var t := Apply(cfg, s, e);
      GivingBackStep(cfg, s, k, period);
      StepKeepsRows(cfg, s, e);
      var more := GiveBack(cfg, t, k, period);
      es := [e] + more;
      assert es[1..] == more;
    }
  }

  /**
   No release is ever cut short before the next sync exactly when all that may yet be given
   back lies above the report.
   */
  lemma NeverClampedIff(cfg: Config, s: State, period: Period)
    requires RowsExist(s)
    ensures NeverClamped(cfg, s, period) <==> HasRoom(s, period)
  {
    if HasRoom(s, period) {
      forall es: seq<Event> | SyncFree(es) ensures Surplus(Run(cfg, s, es), period) == Surplus(s, period) {
        UsageIsConserved(cfg, s, es, period);
      }
    } else {
      var es := GiveBack(cfg, s, 0, period);
      var t := Run(cfg, s, es);
      assert EffectiveOf(t.ledger, period) >= ReportedOf(t.ledger, period);
      assert Surplus(t, period) != Surplus(s, period);
    }
  }

  const ROOMY := Config(100, 0, 100)
  const ALL_REPORTED := Status(None, None, Some(3), None)

  /** Three calls are reserved, the provider already reports three when a sync looks, and then makes one. */
  const RESERVE_THREE: seq<Event> := [Spawn(7, 0, 3, true), Step(0, 0), Step(0, 0), Step(0, 0)]
  const LOOK: seq<Event> := [SyncRead(7, ALL_REPORTED), SyncWrite(0)]
  const SETTLE_ONE: seq<Event> := [Step(0, 1), Step(0, 0)]

  const THREE_HELD := Proc(7, 0, 3, true, Held)
  const HOLDING := State(map[7 := Usage(3, None, None, None, None)], map[0 := 3], [THREE_HELD], [])
  const LOOKED := State(
    map[7 := Usage(3, None, None, Some(3), None)], map[0 := 3], [THREE_HELD],
    [Sync(7, Usage(3, None, None, None, None), ALL_REPORTED, true)])

  lemma ReserveThree()
    ensures Run(ROOMY, EMPTY, RESERVE_THREE) == HOLDING
  {
    var es := RESERVE_THREE;
    var s1 := Apply(ROOMY, EMPTY, es[0]);
    var s2 := Apply(ROOMY, s1, es[1]);
    var s3 := Apply(ROOMY, s2, es[2]);
    assert Apply(ROOMY, s3, es[3]) == HOLDING;
    assert es[0..] == es && es[4..] == [];
    RunFrom(ROOMY, s3, es, 3);
    RunFrom(ROOMY, s2, es, 2);
    RunFrom(ROOMY, s1, es, 1);
    RunFrom(ROOMY, EMPTY, es, 0);
  }

  lemma Look()
    ensures Run(ROOMY, HOLDING, LOOK) == LOOKED && SyncsAtOnce(0, LOOK)
  {
    var s1 := Apply(ROOMY, HOLDING, LOOK[0]);
    assert Apply(ROOMY, s1, LOOK[1]) == LOOKED;
    assert LOOK[0..] == LOOK && LOOK[2..] == [];
    RunFrom(ROOMY, s1, LOOK, 1);
    RunFrom(ROOMY, HOLDING, LOOK, 0);
  }

  lemma TotalOfOne(p: Proc, share: Proc -> nat)
    ensures Total([p], share) == share(p)
  {
    assert [p][..0] == [];
  }

  const CLAMPED := State(LOOKED.ledger, map[0 := 3], [Proc(7, 0, 3, true, MonthSettled(1))], LOOKED.syncs)

  lemma SettleOne()
    ensures Run(ROOMY, LOOKED, SETTLE_ONE) == CLAMPED
  {
    var s1 := Apply(ROOMY, LOOKED, SETTLE_ONE[0]);
    assert Apply(ROOMY, s1, SETTLE_ONE[1]) == CLAMPED;
    assert SETTLE_ONE[0..] == SETTLE_ONE && SETTLE_ONE[2..] == [];
    RunFrom(ROOMY, s1, SETTLE_ONE, 1);
    RunFrom(ROOMY, LOOKED, SETTLE_ONE, 0);
  }

  /**
   In the reachable state after the sync there is no room, and of the two
   unused calls none is given back: one call is settled, three stay counted.
   */
  lemma ReportedCallsClampTheRelease()
    ensures Fresh(ROOMY, EMPTY) && SyncsAtOnce(0, LOOK)
    ensures Run(ROOMY, EMPTY, RESERVE_THREE + LOOK) == LOOKED && !HasRoom(LOOKED, 7)
    ensures Committed(LOOKED, 7, false) == 3 == EffectiveOf(LOOKED.ledger, 7)
    ensures
      var t := Run(ROOMY, LOOKED, SETTLE_ONE);
      Committed(t, 7, false) == 1 && EffectiveOf(t.ledger, 7) == 3
  {
    ReserveThree();
    Look();
    SettleOne();
    RunAppend(ROOMY, EMPTY, RESERVE_THREE, LOOK);
    TotalOfOne(THREE_HELD, MonthShare(7, false));
    TotalOfOne(THREE_HELD, ReleaseShare(7));
    TotalOfOne(CLAMPED.procs[0], MonthShare(7, false));
  }

  // ------------------------------------------------------- the lost update

  /** Counted beyond the calls of this run: what the period had counted before, and what syncs added. */
  function Beyond(s: State, period: Period): int {
    LocalOf(s.ledger, period) - Committed(s, period, false)
  }

  /** The provider reports no limit below the budget. */
  predicate NoTighterLimit(cfg: Config, u: Usage) {
    && (u.perMonth.Some? ==> u.perMonth.value >= cfg.budget)
    && (u.used.Some? && u.left.Some? ==> u.used.value + u.left.value >= cfg.budget)
  }

  /** Some continuation without another sync takes what was counted and the calls of the run past the budget. */
  ghost predicate CanOverspend(cfg: Config, s: State, period: Period, before: int) {
    exists es: seq<Event> ::
      SyncFree(es) && before + Committed(Run(cfg, s, es), period, false) > Max(before, cfg.budget)
  }

  lemma {:induction false} SyncFreeIsUndisturbed(cfg: Config, s: State, es: seq<Event>)
    requires SyncFree(es)
    ensures Undisturbed(cfg, s, es)
    decreases |es|
  {
    if es != [] {
      SyncFreeIsUndisturbed(cfg, Apply(cfg, s, es[0]), es[1..]);
    }
  }

  /** One manual request for all that the row leaves of the budget. */
  function TakeTheRest(cfg: Config, s: State, period: Period): seq<Event>
    requires EffectiveOf(s.ledger, period) <= cfg.budget
  {
    var n := |s.procs|;
    [Spawn(period, 0, cfg.budget - EffectiveOf(s.ledger, period), false), Step(n, 0), Step(n, 0)]
  }

  lemma TheRestFits(cfg: Config, l: Ledger, period: Period)
    requires period in l && NoTighterLimit(cfg, l[period]) && 0 < cfg.budget && EffectiveOf(l, period) < cfg.budget
    ensures AllowedLimit(cfg, false, l[period]) == cfg.budget
    ensures CanReserveMonth(l, period, cfg.budget - EffectiveOf(l, period), cfg.budget)
  {
  }

  lemma TheRestIsGranted(cfg: Config, s: State, period: Period)
    requires period in s.ledger && NoTighterLimit(cfg, s.ledger[period])
    requires 0 < cfg.budget && EffectiveOf(s.ledger, period) < cfg.budget
    ensures
      var t := Run(cfg, s, TakeTheRest(cfg, s, period));
      Committed(t, period, false) == Committed(s, period, false) + cfg.budget - EffectiveOf(s.ledger, period)
  {
    var es, n, row := TakeTheRest(cfg, s, period), |s.procs|, s.ledger[period];
    var p := Proc(period, 0, cfg.budget - EffectiveOf(s.ledger, period), false, Idle);
    var informed, holding := p.(stage := Informed(row)), p.(stage := MonthHeld(row));
    TheRestFits(cfg, s.ledger, period);
    assert Next(cfg, s.ledger, s.hours, p, 0) == Outcome(s.ledger, s.hours, Informed(row));
    assert Next(cfg, s.ledger, s.hours, informed, 0).stage == MonthHeld(row);
    var s1, s2 := s.(procs := s.procs + [p]), s.(procs := s.procs + [informed]);
    assert s1.procs[n := informed] == s2.procs && s2.procs[n := holding] == s.procs + [holding];
    var s3 := Apply(cfg, s2, es[2]);
    assert Apply(cfg, s, es[0]) == s1 && Apply(cfg, s1, es[1]) == s2 && s3.procs == s.procs + [holding];
    assert es[0..] == es && es[3..] == [];
    RunFrom(cfg, s2, es, 2);
    RunFrom(cfg, s1, es, 1);
    RunFrom(cfg, s, es, 0);
    TotalAppend(s.procs, holding, MonthShare(period, false));
  }

  /**
   The sync reads the row in one statement and writes it in a later one. From
   a state within the budget, where the provider reports no tighter limit: the
   calls reserved after the write, until the next sync, can pass the budget
   exactly when some were reserved past the written figure before it.
   */
  lemma SyncWriteIsSafeExactly(cfg: Config, s: State, j: nat)
    requires j < |s.syncs| && !s.syncs[j].written && s.syncs[j].period in s.ledger && RowsExist(s)
    requires
      var period, row := s.syncs[j].period, s.syncs[j];
      && PeriodCovered(cfg, s, period, Beyond(s, period)) && Beyond(s, period) <= cfg.budget
      && SyncedLocal(row.captured, row.status) >= 0
      && NoTighterLimit(cfg, WriteStatus(s.ledger, period, row.captured, row.status)[period])
    ensures
      var period := s.syncs[j].period;
      CanOverspend(cfg, Apply(cfg, s, SyncWrite(j)), period, Beyond(s, period)) <==>
        !WriteIsUndisturbed(s, SyncWrite(j))
  {
    var e, period := SyncWrite(j), s.syncs[j].period;
    var before, t := Beyond(s, period), Apply(cfg, s, e);
    if WriteIsUndisturbed(s, e) {
      SyncKeepsPeriod(cfg, s, e, period, before);
      StepKeepsRows(cfg, s, e);
      forall es: seq<Event> | SyncFree(es)
        ensures before + Committed(Run(cfg, t, es), period, false) <= Max(before, cfg.budget)
      {
        SyncFreeIsUndisturbed(cfg, t, es);
        RunKeepsPeriod(cfg, t, es, period, before);
      }
    } else {
      assert t.procs == s.procs;
      TheRestIsGranted(cfg, t, period);
      assert SyncFree(TakeTheRest(cfg, t, period));
    }
  }

  const TIGHT := Config(1, 0, 10)
  const EMPTY := State(map[], map[], [], [])
  const NO_STATUS := Status(None, None, None, None)

  /** A sync that straddles a reservation: the last search of the month is then sold twice. */
  const LOST_UPDATE: seq<Event> := [
    SyncRead(7, NO_STATUS),
    Spawn(7, 0, 1, true), Step(0, 0), Step(0, 0),
    SyncWrite(0),
    Spawn(7, 0, 1, true), Step(1, 0), Step(1, 0)]

  const SOLD_ONCE := Proc(7, 0, 1, true, MonthHeld(NEW_USAGE))

  /** The sync has read, and the search is reserved. */
  const STRADDLED := State(
    map[7 := NEW_USAGE.(local := 1)], map[], [SOLD_ONCE], [Sync(7, NEW_USAGE, NO_STATUS, false)])

  lemma ReservedInBetween()
    ensures Run(TIGHT, EMPTY, LOST_UPDATE[..4]) == STRADDLED
  {
    var es := LOST_UPDATE[..4];
    var s1 := Apply(TIGHT, EMPTY, es[0]);
    var s2 := Apply(TIGHT, s1, es[1]);
    var s3 := Apply(TIGHT, s2, es[2]);
    assert Apply(TIGHT, s3, es[3]) == STRADDLED;
    assert es[0..] == es && es[4..] == [];
    RunFrom(TIGHT, s3, es, 3);
    RunFrom(TIGHT, s2, es, 2);
    RunFrom(TIGHT, s1, es, 1);
    RunFrom(TIGHT, EMPTY, es, 0);
  }

  const SOLD_TWICE := State(
    map[7 := NEW_USAGE.(local := 1)], map[], [SOLD_ONCE, SOLD_ONCE], [Sync(7, NEW_USAGE, NO_STATUS, true)])

  lemma ReservedAgain()
    ensures Run(TIGHT, STRADDLED, LOST_UPDATE[4..]) == SOLD_TWICE
  {
    var es := LOST_UPDATE[4..];
    var s1 := Apply(TIGHT, STRADDLED, es[0]);
    var s2 := Apply(TIGHT, s1, es[1]);
    var s3 := Apply(TIGHT, s2, es[2]);
    assert Apply(TIGHT, s3, es[3]) == SOLD_TWICE;
    assert es[0..] == es && es[4..] == [];
    RunFrom(TIGHT, s3, es, 3);
    RunFrom(TIGHT, s2, es, 2);
    RunFrom(TIGHT, s1, es, 1);
    RunFrom(TIGHT, STRADDLED, es, 0);
  }

  lemma {:induction false} LostUpdateOverspends()
    ensures Fresh(TIGHT, EMPTY)
    ensures Committed(Run(TIGHT, EMPTY, LOST_UPDATE), 7, false) == 2 > TIGHT.budget
  {
    ReservedInBetween();
    ReservedAgain();
    RunAppend(TIGHT, EMPTY, LOST_UPDATE[..4], LOST_UPDATE[4..]);
    assert LOST_UPDATE[..4] + LOST_UPDATE[4..] == LOST_UPDATE;
    TotalOfOne(SOLD_ONCE, MonthShare(7, false));
    TotalAppend([SOLD_ONCE], SOLD_ONCE, MonthShare(7, false));
    assert SOLD_TWICE.procs == [SOLD_ONCE] + [SOLD_ONCE];
  }

  // -------------------------------------------------- one invocation on its own

  /** Several statements in a row of one invocation. */
  function NextTimes(cfg: Config, o: Outcome, p: Proc, reported: int, k: nat): Outcome
    decreases k
  {
    if k == 0 then o
      else NextTimes(cfg, Next(cfg, o.ledger, o.hours, p.(stage := o.stage), reported), p, reported, k - 1)
  }

  function Statements(i: nat, reported: int, k: nat): seq<Event> {
    if k == 0 then [] else [Step(i, reported)] + Statements(i, reported, k - 1)
  }

  lemma {:induction false} StatementsAreNexts(cfg: Config, s: State, i: nat, reported: int, k: nat)
    requires i < |s.procs|
    ensures
      var p := s.procs[i];
      var o := NextTimes(cfg, Outcome(s.ledger, s.hours, p.stage), p, reported, k);
      Run(cfg, s, Statements(i, reported, k))
      == State(o.ledger, o.hours, s.procs[i := p.(stage := o.stage)], s.syncs)
    decreases k
  {
    if k > 0 {
      var t := Apply(cfg, s, Step(i, reported));
      StatementsAreNexts(cfg, t, i, reported, k - 1);
      assert Statements(i, reported, k)[1..] == Statements(i, reported, k - 1);
      var p, q := s.procs[i], t.procs[i];
      NextsOfStage(cfg, Outcome(t.ledger, t.hours, q.stage), p, q, reported, k - 1);
      var last := NextTimes(cfg, Outcome(t.ledger, t.hours, q.stage), q, reported, k - 1).stage;
      assert t.procs[i := q.(stage := last)] == s.procs[i := p.(stage := last)];
    } else {
      assert s.procs[i := s.procs[i]] == s.procs;
    }
  }

  /** The stage is told by the outcome so far. */
  lemma {:induction false} NextsOfStage(cfg: Config, o: Outcome, p: Proc, q: Proc, reported: int, k: nat)
    requires q == p.(stage := q.stage)
    ensures NextTimes(cfg, o, p, reported, k) == NextTimes(cfg, o, q, reported, k)
    decreases k
  {
    if k > 0 {
      assert p.(stage := o.stage) == q.(stage := o.stage);
      NextsOfStage(cfg, Next(cfg, o.ledger, o.hours, p.(stage := o.stage), reported), p, q, reported, k - 1);
    }
  }

  lemma OneNext(cfg: Config, o: Outcome, p: Proc, reported: int, k: nat)
    requires k > 0
    ensures
      NextTimes(cfg, o, p, reported, k)
      == NextTimes(cfg, Next(cfg, o.ledger, o.hours, p.(stage := o.stage), reported), p, reported, k - 1)
  {
  }

  lemma {:induction false} EndedStays(cfg: Config, o: Outcome, p: Proc, reported: int, k: nat)
    requires o.stage.Refused? || o.stage.Settled?
    ensures NextTimes(cfg, o, p, reported, k) == o
    decreases k
  {
    if k > 0 {
      EndedStays(cfg, o, p, reported, k - 1);
    }
  }

  /** The request is within every figure that is known, as `ReserveCalls` has it. */
  predicate IsGranted(cfg: Config, automated: bool, u: Usage, inHour: int, count: int) {
    var after := count + Max(u.local, if u.used.Some? then u.used.value else 0);
    && 0 < cfg.budget && after <= cfg.budget
    && (automated ==> 0 < cfg.budget - cfg.reserve && after <= cfg.budget - cfg.reserve)
    && (u.perMonth.Some? ==> 0 < u.perMonth.value && after <= u.perMonth.value)
    && (u.used.Some? && u.left.Some? ==> after <= u.used.value + u.left.value)
    && inHour + count <= cfg.hourly
    && (u.rate.Some? ==> inHour + count <= u.rate.value)
  }

  function UsageOf(l: Ledger, period: Period): Usage {
    if period in l then l[period] else Usage(0, None, None, None, None)
  }

  /**
   What an invocation leaves: its actual calls counted in month and hour if it was granted,
   and else no more than before.
   */
  ghost predicate IsAccounted(cfg: Config, l: Ledger, hours: Buckets, p: Proc, reported: int, o: Outcome) {
    var u, hour := UsageOf(l, p.period), p.at / 3_600_000;
    var before := Max(u.local, if u.used.Some? then u.used.value else 0);
    var inHour := if hour in hours then hours[hour] else 0;
    && o.ledger == l[p.period := u.(local := UsageOf(o.ledger, p.period).local)]
    && (forall h :: h != hour ==> Bucket(o.hours, h) == Bucket(hours, h))
    && if IsGranted(cfg, p.automated, u, inHour, p.count)
       then
         var actual := if reported < 0 then 0 else if reported > p.count then p.count else reported;
         && o.stage == Settled(actual) && UsageOf(o.ledger, p.period).local == before + actual
         && Bucket(o.hours, hour) == inHour + actual
       else
         && o.stage == Refused && EffectiveOf(o.ledger, p.period) == before && Bucket(o.hours, hour) == inHour
  }

  /** The figures a request starts from, and what it comes to use. */
  datatype Figures = Figures(row: Usage, before: int, hour: Hour, inHour: nat, actual: nat)

  predicate AreFiguresOf(f: Figures, l: Ledger, hours: Buckets, p: Proc, reported: int) {
    && f.row == UsageOf(l, p.period) && f.before == Max(f.row.local, if f.row.used.Some? then f.row.used.value else 0)
    && f.hour == p.at / 3_600_000 && f.inHour == Bucket(hours, f.hour)
    && f.actual == if reported < 0 then 0 else if reported > p.count then p.count else reported
  }

  /** The three statements of a granted request. */
  lemma ReservesAlone(cfg: Config, l: Ledger, hours: Buckets, p: Proc, reported: int, f: Figures, k: nat)
    requires k >= 3 && p.stage == Idle && p.count > 0 && AreFiguresOf(f, l, hours, p, reported)
    requires IsGranted(cfg, p.automated, f.row, f.inHour, p.count)
    ensures
      NextTimes(cfg, Outcome(l, hours, Idle), p, reported, k)
      == NextTimes(
           cfg, Outcome(l[p.period := f.row.(local := f.before + p.count)], hours[f.hour := f.inHour + p.count], Held),
           p, reported, k - 3)
  {
    var row, reserved := l[p.period := f.row], l[p.period := f.row.(local := f.before + p.count)];
    MonthFitsIff(cfg, p.automated, row, p.period, p.count);
    HourFitsIff(cfg, f.row, hours, f.hour, p.count);
    assert Next(cfg, l, hours, p, reported) == Outcome(row, hours, Informed(f.row));
    assert Next(cfg, row, hours, p.(stage := Informed(f.row)), reported) == Outcome(reserved, hours, MonthHeld(f.row));
    assert Next(cfg, reserved, hours, p.(stage := MonthHeld(f.row)), reported)
        == Outcome(reserved, hours[f.hour := f.inHour + p.count], Held);
    OneNext(cfg, Outcome(l, hours, Idle), p, reported, k);
    OneNext(cfg, Outcome(row, hours, Informed(f.row)), p, reported, k - 1);
    OneNext(cfg, Outcome(reserved, hours, MonthHeld(f.row)), p, reported, k - 2);
  }

  /** The three statements of the call and its settlement. */
  lemma SettlesAlone(cfg: Config, l: Ledger, hours: Buckets, p: Proc, reported: int, f: Figures, k: nat)
    requires k == 3 && p.period in l && f.hour == p.at / 3_600_000 && f.hour in hours
    requires l[p.period].local == f.before + p.count && hours[f.hour] == f.inHour + p.count
    requires Reported(l[p.period]) <= f.before
    requires f.actual == if reported < 0 then 0 else if reported > p.count then p.count else reported
    ensures
      NextTimes(cfg, Outcome(l, hours, Held), p, reported, k)
      == Outcome(
           l[p.period := l[p.period].(local := f.before + f.actual)], hours[f.hour := f.inHour + f.actual],
           Settled(f.actual))
  {
    var settled := l[p.period := l[p.period].(local := f.before + f.actual)];
    var last := Outcome(settled, hours[f.hour := f.inHour + f.actual], Settled(f.actual));
    assert Next(cfg, l, hours, p.(stage := Held), reported) == Outcome(l, hours, Called(f.actual));
    assert Next(cfg, l, hours, p.(stage := Called(f.actual)), reported)
        == Outcome(settled, hours, MonthSettled(f.actual));
    assert Next(cfg, settled, hours, p.(stage := MonthSettled(f.actual)), reported) == last;
    OneNext(cfg, Outcome(l, hours, Held), p, reported, k);
    OneNext(cfg, Outcome(l, hours, Called(f.actual)), p, reported, k - 1);
    OneNext(cfg, Outcome(settled, hours, MonthSettled(f.actual)), p, reported, k - 2);
    assert NextTimes(cfg, last, p, reported, k - 3) == last;
  }

  lemma Overwritten<K, V>(m: map<K, V>, k: K, x: V, y: V)
    ensures m[k := x][k := y] == m[k := y]
  {
  }

  lemma ReservedThenSettled(l: Ledger, hours: Buckets, p: Proc, f: Figures)
    ensures
      var held, used := l[p.period := f.row.(local := f.before + p.count)], hours[f.hour := f.inHour + p.count];
      Outcome(
        held[p.period := held[p.period].(local := f.before + f.actual)], used[f.hour := f.inHour + f.actual],
        Settled(f.actual))
      == SettledOutcome(l, hours, p, f)
  {
    Overwritten(l, p.period, f.row.(local := f.before + p.count), f.row.(local := f.before + f.actual));
    Overwritten(hours, f.hour, f.inHour + p.count, f.inHour + f.actual);
  }

  lemma GrantedAlone(cfg: Config, l: Ledger, hours: Buckets, p: Proc, reported: int, f: Figures, k: nat)
    requires k == 6 && p.stage == Idle && p.count > 0 && AreFiguresOf(f, l, hours, p, reported)
    requires IsGranted(cfg, p.automated, f.row, f.inHour, p.count)
    ensures NextTimes(cfg, Outcome(l, hours, Idle), p, reported, k) == SettledOutcome(l, hours, p, f)
  {
    var held, used := l[p.period := f.row.(local := f.before + p.count)], hours[f.hour := f.inHour + p.count];
    ReservedThenSettled(l, hours, p, f);
    SettlesAlone(cfg, held, used, p, reported, f, k - 3);
    ReservesAlone(cfg, l, hours, p, reported, f, k);
  }

  function SettledOutcome(l: Ledger, hours: Buckets, p: Proc, f: Figures): Outcome {
    Outcome(
      l[p.period := f.row.(local := f.before + f.actual)], hours[f.hour := f.inHour + f.actual], Settled(f.actual))
  }

  lemma GrantIsAccounted(cfg: Config, l: Ledger, hours: Buckets, p: Proc, reported: int, f: Figures)
    requires AreFiguresOf(f, l, hours, p, reported) && IsGranted(cfg, p.automated, f.row, f.inHour, p.count)
    ensures IsAccounted(cfg, l, hours, p, reported, SettledOutcome(l, hours, p, f))
  {
  }

  lemma RefusedAlone(cfg: Config, l: Ledger, hours: Buckets, p: Proc, reported: int, k: nat)
    requires k == 6
    requires p.stage == Idle && p.count > 0 && Bucket(hours, p.at / 3_600_000) >= 0
    requires !IsGranted(cfg, p.automated, UsageOf(l, p.period), Bucket(hours, p.at / 3_600_000), p.count)
    ensures IsAccounted(cfg, l, hours, p, reported, NextTimes(cfg, Outcome(l, hours, Idle), p, reported, k))
  {
    var u, hour := UsageOf(l, p.period), p.at / 3_600_000;
    var o0, o1 := Outcome(l, hours, Idle), Outcome(l[p.period := u], hours, Informed(u));
    assert Next(cfg, l, hours, p, reported) == o1;
    MonthFitsIff(cfg, p.automated, o1.ledger, p.period, p.count);
    HourFitsIff(cfg, u, hours, hour, p.count);
    var o2 := Next(cfg, o1.ledger, o1.hours, p.(stage := o1.stage), reported);
    OneNext(cfg, o0, p, reported, k);
    OneNext(cfg, o1, p, reported, k - 1);
    if o2.stage.Refused? {
      EndedStays(cfg, o2, p, reported, k - 2);
    } else {
      var o3 := Outcome(o2.ledger, hours, HourRefused);
      assert Next(cfg, o2.ledger, o2.hours, p.(stage := o2.stage), reported) == o3;
      var o4 := Next(cfg, o3.ledger, o3.hours, p.(stage := o3.stage), reported);
      OneNext(cfg, o2, p, reported, k - 2);
      OneNext(cfg, o3, p, reported, k - 3);
      EndedStays(cfg, o4, p, reported, k - 4);
    }
  }

  /**
   An invocation that nobody interferes with, from its request to its end, is
   granted exactly within the known figures and leaves exactly the calls the
   provider reported counted, in the month and in the hour.
   */
  lemma InvocationAloneAccounts(
    cfg: Config, s: State, period: Period, at: nat, count: nat, automated: bool, reported: int)
    requires count > 0 && Bucket(s.hours, at / 3_600_000) >= 0
    ensures
      var n, p := |s.procs|, Proc(period, at, count, automated, Idle);
      var t := Run(cfg, s, [Spawn(period, at, count, automated)] + Statements(n, reported, 6));
      && |t.procs| == n + 1 && t.procs[..n] == s.procs && t.syncs == s.syncs
      && IsAccounted(cfg, s.ledger, s.hours, p, reported, Outcome(t.ledger, t.hours, t.procs[n].stage))
  {
    var n, p := |s.procs|, Proc(period, at, count, automated, Idle);
    var e, es := Spawn(period, at, count, automated), Statements(n, reported, 6);
    assert ([e] + es)[1..] == es;
    StatementsAreNexts(cfg, Apply(cfg, s, e), n, reported, 6);
    if IsGranted(cfg, automated, UsageOf(s.ledger, period), Bucket(s.hours, at / 3_600_000), count) {
      var u, hour := UsageOf(s.ledger, period), at / 3_600_000;
      var f := Figures(
        u, Max(u.local, if u.used.Some? then u.used.value else 0), hour, Bucket(s.hours, hour),
        if reported < 0 then 0 else if reported > count then count else reported);
      GrantedAlone(cfg, s.ledger, s.hours, p, reported, f, 6);
      GrantIsAccounted(cfg, s.ledger, s.hours, p, reported, f);
    } else {
      RefusedAlone(cfg, s.ledger, s.hours, p, reported, 6);
    }
  }
}
