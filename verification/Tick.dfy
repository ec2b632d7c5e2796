/**
 One scheduled tick (worker/src/scheduled.ts) and the part of a tracker check
 that spends its budget (worker/src/services/search.ts, `runTracker`). Every
 awaited call may throw; what the calls answer is given beforehand.
 */
module Tick {
  import opened Prelude

  datatype Reply<+T> = Answers(value: T) | Throws

  /** The calls whose order matters. A release is logged when it is tried, whether or not it throws. */
  datatype Event =
    | LeaseTaken
    | LeaseReleaseTried
    | LockTaken(tracker: nat)
    | LockReleaseTried(tracker: nat)
    | HistoryWriteTried

  /** What executing a unit comes to; a call made may be followed by a statement that throws. */
  datatype Work = FromCache | NotAllowed | Called(requests: nat, thenThrows: bool)

  datatype Unit = Unit(heartbeat: Reply<bool>, work: Work)

  datatype CheckOutcome = CheckOutcome(providerCalls: nat, workRemaining: bool)

  /** One check: what it reports, if it does, and the calls it really made. */
  datatype Checked = Checked(outcome: Reply<CheckOutcome>, made: nat)

  datatype Tracker = Tracker(
    id: nat, lock: Reply<bool>, leaseRenewed: Reply<bool>, units: seq<Unit>, settles: Reply<()>, release: Reply<()>)

  // ------------------------------------------------------------- one check

  datatype Progress = Progress(made: nat, threw: bool, workRemaining: bool)

  /** Unit by unit, until the lease is lost or something throws. */
  function WorkOn(units: seq<Unit>): Progress {
    if units == [] then Progress(0, false, false)
    else if units[0].heartbeat.Throws? then Progress(0, true, false)
    else if !units[0].heartbeat.value then Progress(0, false, true)
    else
      match units[0].work
      case FromCache => WorkOn(units[1..])
      case NotAllowed => WorkOn(units[1..]).(workRemaining := true)
      case Called(requests, thenThrows) =>
        if thenThrows then Progress(requests, true, false)
        else
          var more := WorkOn(units[1..]);
          more.(made := requests + more.made)
  }

  /** A check of what its budget allows; its own count is lost when it throws. */
  function CheckOf(units: seq<Unit>, maxQueries: nat, settles: Reply<()>): Checked {
    var p := WorkOn(units[..Min(|units|, maxQueries)]);
    if p.threw || settles.Throws? then Checked(Throws, p.made)
    else Checked(Answers(CheckOutcome(p.made, p.workRemaining || |units| > maxQueries)), p.made)
  }

  // ------------------------------------------- the same, unit by unit in figures

  /** After this unit the loop goes on. */
  predicate GoesOn(u: Unit) {
    u.heartbeat == Answers(true) && !(u.work.Called? && u.work.thenThrows)
  }

  /** The loop comes to the i-th unit: the budget allows it, and it went on after all before. */
  predicate ComesTo(units: seq<Unit>, maxQueries: nat, i: nat) {
    i < |units| && i < maxQueries && forall j :: 0 <= j < i ==> GoesOn(units[j])
  }

  /** Something throws at this unit. */
  predicate ThrowsAt(u: Unit) {
    u.heartbeat == Throws || (u.heartbeat == Answers(true) && u.work.Called? && u.work.thenThrows)
  }

  /** This unit is left for a later tick. */
  predicate IsLeft(u: Unit) {
    u.heartbeat == Answers(false) || (u.heartbeat == Answers(true) && u.work == NotAllowed)
  }

  /** The calls made for the first n units. */
  function CallsUpTo(units: seq<Unit>, maxQueries: nat, n: nat): nat {
    if n == 0 then 0
    else
      CallsUpTo(units, maxQueries, n - 1) +
      if ComesTo(units, maxQueries, n - 1) && units[n - 1].heartbeat == Answers(true) && units[n - 1].work.Called?
      then units[n - 1].work.requests else 0
  }

  /** What a check of these units within this budget has to be. */
  ghost predicate Checks(units: seq<Unit>, maxQueries: nat, settles: Reply<()>, c: Checked) {
    && c.made == CallsUpTo(units, maxQueries, |units|)
    && (c.outcome == Throws <==>
          settles == Throws || exists i: nat :: ComesTo(units, maxQueries, i) && ThrowsAt(units[i]))
    && (c.outcome.Answers? ==>
          && c.outcome.value.providerCalls == c.made
          && (c.outcome.value.workRemaining <==>
                |units| > maxQueries || exists i: nat :: ComesTo(units, maxQueries, i) && IsLeft(units[i])))
  }

  lemma {:induction false} CallsSettled(units: seq<Unit>, maxQueries: nat, k: nat, n: nat)
    requires k <= n && (k >= |units| || k >= maxQueries || (k > 0 && !GoesOn(units[k - 1])))
    ensures CallsUpTo(units, maxQueries, n) == CallsUpTo(units, maxQueries, k)
  {
    if k < n {
      CallsSettled(units, maxQueries, k, n - 1);
    }
  }

  /** The loop has come as far as the k-th unit, or ends there. */
  ghost predicate SoFar(units: seq<Unit>, maxQueries: nat, k: nat, made: nat, left: bool) {
    && k <= |units| && k <= maxQueries && (forall j :: 0 <= j < k ==> GoesOn(units[j]))
    && made == CallsUpTo(units, maxQueries, k)
    && (left <==> |units| > maxQueries || exists i :: 0 <= i < k && IsLeft(units[i]))
  }

  /** The last unit answered, and the loop goes on. */
  lemma OneUnitOn(units: seq<Unit>, maxQueries: nat, k: nat, made: nat, left: bool)
    requires SoFar(units, maxQueries, k, made, left) && k < |units| && k < maxQueries && GoesOn(units[k])
    ensures
      var u := units[k];
      var calls := if u.work.Called? then u.work.requests else 0;
      SoFar(units, maxQueries, k + 1, made + calls, left || u.work == NotAllowed)
  {
    assert ComesTo(units, maxQueries, k);
  }

  /** The loop ends at the k-th unit, because it must not go on there or there is none. */
  lemma EndsHere(units: seq<Unit>, maxQueries: nat, settles: Reply<()>, k: nat, made: nat, left: bool)
    requires SoFar(units, maxQueries, k, made, left)
    requires k == |units| || k == maxQueries || !GoesOn(units[k])
    ensures
      var last := k < |units| && k < maxQueries;
      var threw := last && ThrowsAt(units[k]);
      var calls := made + if threw && units[k].heartbeat == Answers(true) then units[k].work.requests else 0;
      Checks(units, maxQueries, settles,
        Checked(if threw || settles == Throws then Throws else Answers(CheckOutcome(calls, left || last)), calls))
  {
    var last := k < |units| && k < maxQueries;
    if last {
      assert ComesTo(units, maxQueries, k);
      CallsSettled(units, maxQueries, k + 1, |units|);
    } else {
      CallsSettled(units, maxQueries, k, |units|);
    }
    forall i: nat ensures ComesTo(units, maxQueries, i) ==> i <= k && (i == k ==> last) {
    }
    forall i: nat | i < k ensures ComesTo(units, maxQueries, i) && GoesOn(units[i]) && !ThrowsAt(units[i]) {
    }
    if last && ThrowsAt(units[k]) {
      assert ComesTo(units, maxQueries, k) && ThrowsAt(units[k]);
    } else if last {
      var beat := units[k].heartbeat;
      assert beat == Answers(beat.value) && (beat.value == true || beat.value == false);
      assert ComesTo(units, maxQueries, k) && IsLeft(units[k]);
    } else {
      assert left && |units| <= maxQueries ==> exists i: nat :: ComesTo(units, maxQueries, i) && IsLeft(units[i]);
    }
  }

  /** Executes the units a budget allows. */
  method RunTracker(allUnits: seq<Unit>, maxQueries: nat, settles: Reply<()>)
    returns (r: Reply<CheckOutcome>, ghost made: nat)
    ensures r == CheckOf(allUnits, maxQueries, settles).outcome
    ensures made == CheckOf(allUnits, maxQueries, settles).made
    ensures Checks(allUnits, maxQueries, settles, Checked(r, made))
  {
    var units, providerCalls, workRemaining := allUnits, 0, false;
    made := 0;
    assert allUnits[..|allUnits|] == allUnits;
    if |units| > maxQueries {
      units := units[..maxQueries];
      workRemaining := true;
    }
    var i := 0;
    while i < |units|
      invariant 0 <= i <= |units| && providerCalls == made
      invariant WorkOn(units).made == made + WorkOn(units[i..]).made && WorkOn(units).threw == WorkOn(units[i..]).threw
      invariant !WorkOn(units).threw ==>
        ((WorkOn(units).workRemaining || |allUnits| > maxQueries) <==>
          (workRemaining || WorkOn(units[i..]).workRemaining))
      invariant SoFar(allUnits, maxQueries, i, made, workRemaining)
      decreases |units| - i
    {
      var unit := units[i];
      assert units[i..][0] == unit && units[i..][1..] == units[i + 1..];
      if GoesOn(unit) {
        OneUnitOn(allUnits, maxQueries, i, made, workRemaining);
      } else {
        EndsHere(allUnits, maxQueries, settles, i, made, workRemaining);
      }
      if unit.heartbeat.Throws? {
        return Throws, made;
      }
      if !unit.heartbeat.value {
        workRemaining := true;
        break;
      }
      match unit.work {
        case FromCache =>
        case NotAllowed => workRemaining := true;
        case Called(requests, thenThrows) =>
          made := made + requests;
          if thenThrows {
            return Throws, made;
          }
          providerCalls := providerCalls + requests;
      }
      i := i + 1;
    }
    if i == |units| {
      EndsHere(allUnits, maxQueries, settles, i, made, workRemaining);
    }
    r := if settles.Throws? then Throws else Answers(CheckOutcome(providerCalls, workRemaining));
  }

  /** No unit makes more HTTP attempts than the provider allows a search. */
  predicate WithinAttempts(units: seq<Unit>, attempts: nat) {
    forall i :: 0 <= i < |units| && units[i].work.Called? ==> units[i].work.requests <= attempts
  }

  /** So many times `each`. */
  function Times(n: nat, each: nat): nat {
    if n == 0 then 0 else Times(n - 1, each) + each
  }

  lemma {:induction false} TimesIsProduct(n: nat, each: nat)
    ensures Times(n, each) == n * each
  {
    if n > 0 {
      TimesIsProduct(n - 1, each);
    }
  }

  lemma {:induction false} TimesOfSum(n: nat, m: nat, each: nat)
    ensures Times(n + m, each) == Times(n, each) + Times(m, each)
    ensures each > 0 ==> Times(n, each) >= n
  {
    if n > 0 {
      TimesOfSum(n - 1, m, each);
      assert n - 1 + m == n + m - 1;
    }
  }

  lemma {:induction false} WorkWithinAttempts(units: seq<Unit>, attempts: nat)
    requires WithinAttempts(units, attempts)
    ensures WorkOn(units).made <= Times(|units|, attempts)
  {
    if units != [] {
      WorkWithinAttempts(units[1..], attempts);
    }
  }

  /**
   A check makes no more calls than its budget times the attempts of a search, and reports
   all it made if it reports.
   */
  lemma CheckWithinBudget(units: seq<Unit>, maxQueries: nat, settles: Reply<()>, attempts: nat)
    requires WithinAttempts(units, attempts)
    ensures
      var c := CheckOf(units, maxQueries, settles);
      c.made <= Times(maxQueries, attempts) && (c.outcome.Answers? ==> c.outcome.value.providerCalls == c.made)
  {
    var n := Min(|units|, maxQueries);
    WorkWithinAttempts(units[..n], attempts);
    TimesOfSum(n, maxQueries - n, attempts);
  }

  /** The unit was asked for and answered, by the cache or by the provider. */
  predicate IsDone(u: Unit) {
    u.heartbeat == Answers(true) && (u.work.FromCache? || (u.work.Called? && !u.work.thenThrows))
  }

  lemma {:induction false} WorkDoneIff(units: seq<Unit>)
    ensures !WorkOn(units).threw && !WorkOn(units).workRemaining <==> forall i :: 0 <= i < |units| ==> IsDone(units[i])
  {
    if units != [] {
      WorkDoneIff(units[1..]);
      assert forall i :: 1 <= i < |units| ==> units[i] == units[1..][i - 1];
      if forall i :: 0 <= i < |units| ==> IsDone(units[i]) {
        assert IsDone(units[0]);
        forall i | 0 <= i < |units[1..]| ensures IsDone(units[1..][i]) {
          assert IsDone(units[i + 1]);
        }
      }
    }
  }

  /** A check reports no work remaining exactly when its budget allowed every unit and every one was executed. */
  lemma NothingRemainsIff(units: seq<Unit>, maxQueries: nat, settles: Reply<()>)
    ensures
      var c := CheckOf(units, maxQueries, settles);
      c.outcome.Answers? && !c.outcome.value.workRemaining
      <==> settles.Answers? && |units| <= maxQueries && forall i :: 0 <= i < |units| ==> IsDone(units[i])
  {
    if |units| <= maxQueries {
      assert units[..|units|] == units;
      WorkDoneIff(units);
    }
  }

  // --------------------------------------------------------------- the tick

  datatype TickOutcome = Completed | Disabled | LeaseHeld | NoWork | Partial | Error

  datatype Config = Config(schedulerEnabled: bool, maxQueriesPerTick: nat)

  datatype Environment = Environment(
    start: Reply<nat>, lease: Reply<bool>, due: Reply<seq<Tracker>>, stillDue: Reply<nat>, retry: Reply<()>,
    sweepState: Reply<()>, history: Reply<()>)

  datatype Report = Report(
    outcome: TickOutcome, trackersSelected: nat, trackersCompleted: nat, queriesExecuted: nat, workRemaining: nat)

  /** The counters of a tick, the checks it ran and the calls it logged. */
  datatype Tally = Tally(
    budget: int, completed: nat, incomplete: nat, queries: nat, checks: seq<Checked>, log: seq<Event>)

  /** A check, finished or thrown, is counted once. */
  function Counted(t: Tally, c: Checked): Tally {
    match c.outcome
    case Throws => t.(incomplete := t.incomplete + 1, checks := t.checks + [c])
    case Answers(o) =>
      Tally(t.budget - o.providerCalls,
            if o.workRemaining then t.completed else t.completed + 1,
            if o.workRemaining then t.incomplete + 1 else t.incomplete,
            t.queries + o.providerCalls, t.checks + [c], t.log)
  }

  /** The check of a locked tracker, which throws when the scheduler lease cannot be renewed. */
  function CheckOfTracker(tracker: Tracker, budget: nat): Checked {
    if tracker.leaseRenewed == Answers(true) then CheckOf(tracker.units, budget, tracker.settles)
      else Checked(Throws, 0)
  }

  /** One tracker of the loop, and whether the loop is left by a throw. */
  function AfterTracker(t: Tally, tracker: Tracker): (Tally, bool)
    requires t.budget > 0
  {
    if tracker.lock.Throws? then (t, true)
    else if !tracker.lock.value then (t, false)
    else
      var log := t.log + [LockTaken(tracker.id)] + [LockReleaseTried(tracker.id)];
      (Counted(t.(log := log), CheckOfTracker(tracker, t.budget)), tracker.release.Throws?)
  }

  /** The trackers that are due, until the budget is spent or something throws. */
  function AfterTrackers(t: Tally, due: seq<Tracker>): (Tally, bool)
    decreases |due|
  {
    if due == [] || t.budget <= 0 then (t, false)
    else
      var a := AfterTracker(t, due[0]);
      if a.1 then a else AfterTrackers(a.0, due[1..])
  }

  function StartOf(config: Config): Tally {
    Tally(config.maxQueriesPerTick, 0, 0, 0, [], [LeaseTaken])
  }

  function Dued(env: Environment): seq<Tracker> {
    if env.due.Answers? then env.due.value else []
  }

  /** Everything a tick with the lease does to its trackers. */
  function TallyOf(config: Config, env: Environment): Tally {
    AfterTrackers(StartOf(config), Dued(env)).0
  }

  /** What such a tick reports. */
  function ReportOf(config: Config, env: Environment): Report {
    var (t, threw) := AfterTrackers(StartOf(config), Dued(env));
    var selected := |Dued(env)|;
    if env.due.Throws? || threw || (env.due.value != [] && env.stillDue.Throws?) then
      Report(Error, selected, t.completed, t.queries, 0)
    else
      var remaining := if env.due.value == [] then 0 else env.stillDue.value + t.incomplete;
      var outcome :=
        if env.retry.Throws? || env.sweepState.Throws? then Error
        else if env.due.value == [] then NoWork
        else if remaining > 0 || t.budget <= 0 then Partial
        else Completed;
      Report(outcome, selected, t.completed, t.queries, remaining)
  }

  // -------------------------------------------------- the tick in figures

  /** A check of a locked tracker, in figures. */
  ghost predicate IsCheckOf(tracker: Tracker, budget: nat, c: Checked) {
    if tracker.leaseRenewed == Answers(true) then Checks(tracker.units, budget, tracker.settles, c)
    else c == Checked(Throws, 0)
  }

  /** Something throws at this tracker outside its check. */
  predicate Stops(tracker: Tracker) {
    tracker.lock == Throws || (tracker.lock == Answers(true) && tracker.release == Throws)
  }

  /** The loop was left by a throw at the last of the first `end` trackers. */
  predicate StoppedAt(due: seq<Tracker>, end: nat) {
    0 < end <= |due| && Stops(due[end - 1])
  }

  /** The trackers whose lock is to be had. */
  function LockedOnes(due: seq<Tracker>): seq<Tracker> {
    if due == [] then []
    else
      var n := |due| - 1;
      LockedOnes(due[..n]) + if due[n].lock == Answers(true) then [due[n]] else []
  }

  /** One check each, in turn, and each within what the ones before have left of the budget. */
  ghost predicate InTurn(start: nat, locked: seq<Tracker>, checks: seq<Checked>) {
    if locked == [] then checks == []
    else
      var n := |locked| - 1;
      && |checks| == |locked| && InTurn(start, locked[..n], checks[..n]) && Reported(checks[..n]) < start
      && IsCheckOf(locked[n], start - Reported(checks[..n]), checks[n])
  }

  /**
   The loop has looked at the first `end` trackers, checked those it could lock, and gone
   on after all but the last.
   */
  ghost predicate LookedAt(start: nat, due: seq<Tracker>, checks: seq<Checked>, end: nat) {
    && end <= |due| && InTurn(start, LockedOnes(due[..end]), checks)
    && (forall i: nat :: i + 1 < end ==> !Stops(due[i]))
    && (end > 0 && due[end - 1].lock != Answers(true) ==> Reported(checks) < start)
  }

  /** And there it ends: at a throw, at the last tracker, or with the budget spent. */
  ghost predicate RunsThrough(start: nat, due: seq<Tracker>, checks: seq<Checked>, end: nat) {
    LookedAt(start, due, checks, end) && (StoppedAt(due, end) || end == |due| || Reported(checks) >= start)
  }

  /** Each lock is taken and tried to be handed back, in the order of the trackers. */
  function LockEvents(locked: seq<Tracker>): seq<Event> {
    if locked == [] then []
    else
      var n := |locked| - 1;
      LockEvents(locked[..n]) + [LockTaken(locked[n].id)] + [LockReleaseTried(locked[n].id)]
  }

  predicate IsFinished(c: Checked) {
    c.outcome.Answers? && !c.outcome.value.workRemaining
  }

  function Finished(checks: seq<Checked>): nat {
    if checks == [] then 0
    else Finished(checks[..|checks| - 1]) + if IsFinished(checks[|checks| - 1]) then 1 else 0
  }

  /** The counters of the tick, told from its checks. */
  ghost predicate Counts(start: nat, t: Tally) {
    && t.budget == start - Reported(t.checks) && t.queries == Reported(t.checks)
    && t.completed == Finished(t.checks) && t.completed + t.incomplete == |t.checks|
  }

  /** All the loop over the trackers leaves: its checks, its counters and its entries in the log. */
  ghost predicate GoneThrough(start: nat, due: seq<Tracker>, log: seq<Event>, t: Tally, end: nat) {
    && RunsThrough(start, due, t.checks, end) && Counts(start, t)
    && t.log == log + LockEvents(LockedOnes(due[..end]))
  }

  /** One more check in the counters. */
  predicate CountsOne(before: Tally, after: Tally, c: Checked) {
    && after.budget == before.budget - ReportedBy(c) && after.queries == before.queries + ReportedBy(c)
    && after.completed == before.completed + (if IsFinished(c) then 1 else 0)
    && after.completed + after.incomplete == before.completed + before.incomplete + 1
  }

  /** Something the tick calls throws outside the checks. */
  predicate Fails(env: Environment, stopped: bool) {
    || env.due == Throws || stopped
    || (env.due.Answers? && env.due.value != [] && env.stillDue == Throws)
    || env.retry == Throws || env.sweepState == Throws
  }

  /** The report, told from the answers and the checks. */
  ghost predicate Tells(start: nat, env: Environment, checks: seq<Checked>, stopped: bool, r: Report) {
    var due := if env.due.Answers? then env.due.value else [];
    && (r.outcome == Error <==> Fails(env, stopped))
    && (r.outcome == NoWork <==> !Fails(env, stopped) && due == [])
    && (r.outcome == Completed <==>
          && !Fails(env, stopped) && due != [] && env.stillDue == Answers(0)
          && Finished(checks) == |checks| && Reported(checks) < start)
    && (r.outcome == Partial <==>
          && !Fails(env, stopped) && due != []
          && !(env.stillDue == Answers(0) && Finished(checks) == |checks| && Reported(checks) < start))
    && r.trackersSelected == |due| && r.trackersCompleted == Finished(checks) && r.queriesExecuted == Reported(checks)
    && r.workRemaining ==
         if due == [] || stopped || env.stillDue == Throws then 0
         else env.stillDue.value + |checks| - Finished(checks)
  }

  lemma OneMoreFinished(checks: seq<Checked>, c: Checked)
    ensures Finished(checks + [c]) == Finished(checks) + if IsFinished(c) then 1 else 0
    ensures Finished(checks) <= |checks|
    decreases |checks|
  {
    assert (checks + [c])[..|checks|] == checks;
    if checks != [] {
      var n := |checks| - 1;
      OneMoreFinished(checks[..n], checks[n]);
      assert checks[..n] + [checks[n]] == checks;
    }
  }

  lemma OneMoreLooked(due: seq<Tracker>, i: nat)
    requires i < |due|
    ensures
      LockedOnes(due[..i + 1])
      == if due[i].lock == Answers(true) then LockedOnes(due[..i]) + [due[i]] else LockedOnes(due[..i])
  {
    assert due[..i + 1][..i] == due[..i];
    assert LockedOnes(due[..i]) + [] == LockedOnes(due[..i]);
  }

  lemma OneMoreInTurn(start: nat, locked: seq<Tracker>, checks: seq<Checked>, tracker: Tracker, c: Checked)
    requires InTurn(start, locked, checks) && Reported(checks) < start
    requires IsCheckOf(tracker, start - Reported(checks), c)
    ensures InTurn(start, locked + [tracker], checks + [c])
  {
    assert (locked + [tracker])[..|locked|] == locked && (checks + [c])[..|checks|] == checks;
  }

  lemma OneMoreLock(log: seq<Event>, locked: seq<Tracker>, tracker: Tracker)
    ensures
      log + LockEvents(locked + [tracker])
      == log + LockEvents(locked) + [LockTaken(tracker.id)] + [LockReleaseTried(tracker.id)]
  {
    assert (locked + [tracker])[..|locked|] == locked;
  }

  /** The next tracker, locked elsewhere or checked. */
  lemma LooksAtNext(start: nat, due: seq<Tracker>, i: nat, before: seq<Checked>, after: seq<Checked>)
    requires LookedAt(start, due, before, i) && i < |due| && !StoppedAt(due, i) && Reported(before) < start
    requires
      if due[i].lock == Answers(true)
      then |after| > 0 && after == before + [after[|after| - 1]]
        && IsCheckOf(due[i], start - Reported(before), after[|after| - 1])
      else after == before
    ensures LookedAt(start, due, after, i + 1)
  {
    OneMoreLooked(due, i);
    if due[i].lock == Answers(true) {
      OneMoreInTurn(start, LockedOnes(due[..i]), before, due[i], after[|after| - 1]);
    }
    forall j: nat | j + 1 < i + 1 ensures !Stops(due[j]) {
      assert j + 1 < i || j + 1 == i;
    }
  }

  lemma CountsOn(start: nat, before: Tally, after: Tally, c: Checked)
    requires Counts(start, before) && CountsOne(before, after, c) && after.checks == before.checks + [c]
    ensures Counts(start, after)
  {
    OneMoreCheck(before.checks, c);
    OneMoreFinished(before.checks, c);
  }

  /** One turn of the loop: no trace of a tracker locked elsewhere, one check and two log entries for any other. */
  ghost predicate Turns(before: Tally, after: Tally, t: Tracker)
    requires before.budget > 0
  {
    if t.lock != Answers(true) then after == before
    else
      && |after.checks| == |before.checks| + 1 && after.checks == before.checks + [after.checks[|before.checks|]]
      && IsCheckOf(t, before.budget, after.checks[|before.checks|])
      && CountsOne(before, after, after.checks[|before.checks|])
      && after.log == before.log + [LockTaken(t.id)] + [LockReleaseTried(t.id)]
  }

  /** Where the loop is after the first i trackers. */
  ghost predicate GotTo(start: nat, due: seq<Tracker>, log: seq<Event>, t: Tally, i: nat) {
    && LookedAt(start, due, t.checks, i) && Counts(start, t)
    && t.log == log + LockEvents(LockedOnes(due[..i]))
  }

  lemma GetsToNext(start: nat, due: seq<Tracker>, log: seq<Event>, before: Tally, after: Tally, i: nat)
    requires GotTo(start, due, log, before, i) && i < |due| && !StoppedAt(due, i)
    requires before.budget > 0 && Turns(before, after, due[i])
    ensures GotTo(start, due, log, after, i + 1)
  {
    LooksAtNext(start, due, i, before.checks, after.checks);
    OneMoreLooked(due, i);
    if due[i].lock == Answers(true) {
      OneMoreLock(log, LockedOnes(due[..i]), due[i]);
      CountsOn(start, before, after, after.checks[|before.checks|]);
    }
  }

  /** The report of a tick, told from its checks. */
  lemma ReportTells(config: Config, env: Environment)
    requires Counts(config.maxQueriesPerTick, TallyOf(config, env))
    ensures
      Tells(config.maxQueriesPerTick, env, TallyOf(config, env).checks,
            AfterTrackers(StartOf(config), Dued(env)).1, ReportOf(config, env))
  {
    OneMoreFinished(TallyOf(config, env).checks, Checked(Throws, 0));
  }

  lemma AfterTrackerTurns(before: Tally, t: Tracker)
    requires before.budget > 0
    requires t.lock == Answers(true) ==> IsCheckOf(t, before.budget, CheckOfTracker(t, before.budget))
    ensures Turns(before, AfterTracker(before, t).0, t) && AfterTracker(before, t).1 == Stops(t)
  {
  }

  lemma NothingToGoThrough(start: nat, log: seq<Event>)
    ensures GoneThrough(start, [], log, Tally(start, 0, 0, 0, [], log), 0)
  {
    assert log + [] == log;
  }

  /** At the last tracker or with the budget spent, the loop is over. */
  lemma GotThrough(start: nat, due: seq<Tracker>, log: seq<Event>, t: Tally, i: nat)
    requires GotTo(start, due, log, t, i)
    ensures StoppedAt(due, i) || i == |due| || t.budget <= 0 ==> GoneThrough(start, due, log, t, i)
  {
  }

  class Scheduler {
    var log: seq<Event>
    var budget: int
    var trackersSelected: nat
    var workRemaining: nat
    var trackersCompleted: nat
    var incompleteSelected: nat
    var queriesExecuted: nat
    ghost var checks: seq<Checked>

    constructor ()
      ensures log == [] && Untouched()
    {
      log, budget, trackersSelected, workRemaining := [], 0, 0, 0;
      trackersCompleted, incompleteSelected, queriesExecuted, checks := 0, 0, 0, [];
    }

    ghost predicate Untouched()
      reads this
    {
      queriesExecuted == trackersCompleted == incompleteSelected == trackersSelected == workRemaining == 0
        && checks == []
    }

    ghost function Now(): Tally
      reads this
    {
      Tally(budget, trackersCompleted, incompleteSelected, queriesExecuted, checks, log)
    }

    /** One tracker: lock, check, count, and hand the lock back whatever happened in between. */
    method CheckTracker(t: Tracker) returns (r: Reply<()>)
      requires budget > 0
      modifies this`log, this`budget, this`trackersCompleted, this`incompleteSelected, this`queriesExecuted, this`checks
      ensures (Now(), r.Throws?) == AfterTracker(old(Now()), t)
      ensures Turns(old(Now()), Now(), t) && (r == Throws <==> Stops(t))
    {
      if t.lock.Throws? {
        return Throws;
      }
      if !t.lock.value {
        return Answers(());
      }
      log := log + [LockTaken(t.id)];
      var outcome: Reply<CheckOutcome> := Throws;
      ghost var made := 0;
      if t.leaseRenewed == Answers(true) {
        outcome, made := RunTracker(t.units, budget, t.settles);
      }
      checks := checks + [Checked(outcome, made)];
      if outcome.Answers? {
        budget := budget - outcome.value.providerCalls;
        queriesExecuted := queriesExecuted + outcome.value.providerCalls;
        if outcome.value.workRemaining {
          incompleteSelected := incompleteSelected + 1;
        } else {
          trackersCompleted := trackersCompleted + 1;
        }
      } else {
        incompleteSelected := incompleteSelected + 1;
      }
      log := log + [LockReleaseTried(t.id)];
      assert Now() == Counted(old(Now()).(log := log), CheckOfTracker(t, old(budget)));
      AfterTrackerTurns(old(Now()), t);
      r := t.release;
    }

    /** The trackers that are due, until the budget is spent. */
    method CheckTrackers(due: seq<Tracker>, ghost start: nat) returns (r: Reply<()>, ghost end: nat)
      requires checks == [] && Counts(start, Now())
      modifies this`log, this`budget, this`trackersCompleted, this`incompleteSelected, this`queriesExecuted, this`checks
      ensures (Now(), r.Throws?) == AfterTrackers(old(Now()), due)
      ensures GoneThrough(start, due, old(log), Now(), end) && (r == Throws <==> StoppedAt(due, end))
    {
      end := 0;
      for i := 0 to |due|
        invariant AfterTrackers(old(Now()), due) == AfterTrackers(Now(), due[i..])
        invariant end == i && !StoppedAt(due, i) && GotTo(start, due, old(log), Now(), i)
      {
        assert due[i..][0] == due[i] && due[i..][1..] == due[i + 1..];
        if budget <= 0 {
          break;
        }
        ghost var before := Now();
        var checked := CheckTracker(due[i]);
        end := i + 1;
        GetsToNext(start, due, old(log), before, Now(), i);
        GotThrough(start, due, old(log), Now(), i + 1);
        if checked.Throws? {
          return Throws, end;
        }
      }
      GotThrough(start, due, old(log), Now(), end);
      r := Answers(());
    }

    /** The work of a tick that holds the lease, which may throw anywhere. */
    method Work(config: Config, env: Environment)
      returns (outcome: Reply<TickOutcome>, ghost end: nat)
      requires log == [LeaseTaken] && Untouched()
      modifies this
      ensures Now() == TallyOf(config, env)
      ensures
        ReportOf(config, env) == Report(
          if outcome.Answers? then outcome.value else Error,
          trackersSelected, trackersCompleted, queriesExecuted, workRemaining)
      ensures GoneThrough(config.maxQueriesPerTick, Dued(env), [LeaseTaken], Now(), end)
      ensures StoppedAt(Dued(env), end) == AfterTrackers(StartOf(config), Dued(env)).1
    {
      end := 0;
      budget := config.maxQueriesPerTick;
      NothingToGoThrough(budget, log);
      if env.due.Throws? {
        return Throws, 0;
      }
      var due, found := env.due.value, NoWork;
      trackersSelected := |due|;
      if due != [] {
        var checked;
        checked, end := CheckTrackers(due, config.maxQueriesPerTick);
        if checked.Throws? || env.stillDue.Throws? {
          return Throws, end;
        }
        workRemaining := env.stillDue.value + incompleteSelected;
        found := if workRemaining > 0 || budget <= 0 then Partial else Completed;
      }
      if env.retry.Throws? || env.sweepState.Throws? {
        return Throws, end;
      }
      outcome := Answers(found);
    }

    /** A tick, told entirely by its configuration and what the calls answer. */
    method RunScheduledTick(config: Config, env: Environment)
      returns (r: Reply<Report>, ghost end: nat)
      requires log == [] && Untouched()
      modifies this
      ensures
        if env.start.Throws? || (config.schedulerEnabled && env.lease.Throws?) then r.Throws? && log == []
        else if !config.schedulerEnabled || !env.lease.value then
          log == [] && Untouched()
          && r == if env.history.Throws? then Throws
            else Answers(Report(if config.schedulerEnabled then LeaseHeld else Disabled, 0, 0, 0, 0))
        else
          && r == Answers(ReportOf(config, env))
          && Now() == TallyOf(config, env).(log := TallyOf(config, env).log + [HistoryWriteTried] + [LeaseReleaseTried])
      ensures env.start.Answers? && config.schedulerEnabled && env.lease == Answers(true) ==>
        && r.Answers? && RunsThrough(config.maxQueriesPerTick, Dued(env), checks, end)
        && log == [LeaseTaken] + LockEvents(LockedOnes(Dued(env)[..end])) + [HistoryWriteTried] + [LeaseReleaseTried]
        && Tells(config.maxQueriesPerTick, env, checks, StoppedAt(Dued(env), end), r.value)
    {
      end := 0;
      if env.start.Throws? {
        return Throws, 0;
      }
      if !config.schedulerEnabled {
        return if env.history.Throws? then Throws else Answers(Report(Disabled, 0, 0, 0, 0)), 0;
      }
      if env.lease.Throws? {
        return Throws, 0;
      }
      if !env.lease.value {
        return if env.history.Throws? then Throws else Answers(Report(LeaseHeld, 0, 0, 0, 0)), 0;
      }
      log := [LeaseTaken];
      var worked;
      worked, end := Work(config, env);
      ReportTells(config, env);
      r := Answers(Report(
        if worked.Answers? then worked.value else Error,
        trackersSelected, trackersCompleted, queriesExecuted, workRemaining));
      log := log + [HistoryWriteTried];
      log := log + [LeaseReleaseTried];
    }
  }

  // ------------------------------------------------ counters, calls and locks

  /** Calls a check reports. */
  function ReportedBy(c: Checked): nat {
    match c.outcome case Answers(o) => o.providerCalls case Throws => 0
  }

  /** Calls the checks report. */
  function Reported(checks: seq<Checked>): nat {
    if checks == [] then 0
    else Reported(checks[..|checks| - 1]) + ReportedBy(checks[|checks| - 1])
  }

  /** Calls the checks made. */
  function Made(checks: seq<Checked>): nat {
    if checks == [] then 0 else Made(checks[..|checks| - 1]) + checks[|checks| - 1].made
  }

  function Thrown(checks: seq<Checked>): nat {
    if checks == [] then 0 else Thrown(checks[..|checks| - 1]) + if checks[|checks| - 1].outcome.Throws? then 1 else 0
  }

  function LocksTaken(log: seq<Event>): nat {
    if log == [] then 0 else LocksTaken(log[..|log| - 1]) + if log[|log| - 1].LockTaken? then 1 else 0
  }

  /** A tracker lock is handed back before anything else happens. */
  predicate LocksReturned(log: seq<Event>) {
    forall i :: 0 <= i < |log| && log[i].LockTaken? ==> i + 1 < |log| && log[i + 1] == LockReleaseTried(log[i].tracker)
  }

  predicate OnlyLocks(log: seq<Event>) {
    forall i :: 1 <= i < |log| ==> log[i].LockTaken? || log[i].LockReleaseTried?
  }

  lemma LockAndRelease(log: seq<Event>, tracker: nat)
    requires log != []
    ensures
      var after := log + [LockTaken(tracker)] + [LockReleaseTried(tracker)];
      && LocksTaken(after) == LocksTaken(log) + 1
      && (LocksReturned(log) ==> LocksReturned(after)) && (OnlyLocks(log) ==> OnlyLocks(after))
  {
    var one := log + [LockTaken(tracker)];
    var two := one + [LockReleaseTried(tracker)];
    assert two[..|two| - 1] == one && one[..|one| - 1] == log;
  }

  predicate CheckFits(c: Checked, cap: nat) {
    c.made <= cap && (c.outcome.Answers? ==> c.outcome.value.providerCalls == c.made)
  }

  ghost predicate ChecksFit(t: Tally, start: nat, cap: nat) {
    && t.queries == Reported(t.checks) == start - t.budget && t.queries <= cap
    && t.completed + t.incomplete == |t.checks|
    && (t.incomplete == 0 ==> Thrown(t.checks) == 0)
    && forall i :: 0 <= i < |t.checks| ==> CheckFits(t.checks[i], cap)
  }

  ghost predicate LogFits(t: Tally) {
    LocksTaken(t.log) == |t.checks| && LocksReturned(t.log) && [LeaseTaken] <= t.log && OnlyLocks(t.log)
  }

  predicate AllWithinAttempts(trackers: seq<Tracker>, attempts: nat) {
    forall i :: 0 <= i < |trackers| ==> WithinAttempts(trackers[i].units, attempts)
  }

  /** With budget left, the calls of one more check keep the total within the start budget times the attempts. */
  lemma SpentSoFar(start: nat, budget: nat, calls: nat, attempts: nat)
    requires 0 < budget <= start && calls <= Times(budget, attempts) && attempts > 0
    ensures start - budget + calls <= Times(start, attempts)
    ensures calls <= Times(start, attempts)
  {
    TimesOfSum(start - budget, budget, attempts);
  }

  lemma OneMoreCheck(checks: seq<Checked>, c: Checked)
    ensures Reported(checks + [c]) == Reported(checks) + ReportedBy(c)
    ensures Made(checks + [c]) == Made(checks) + c.made
    ensures Thrown(checks + [c]) == Thrown(checks) + if c.outcome.Throws? then 1 else 0
  {
    assert (checks + [c])[..|checks|] == checks;
  }

  lemma CountedFits(t: Tally, c: Checked, start: nat, cap: nat)
    requires ChecksFit(t, start, cap) && CheckFits(c, cap) && t.queries + ReportedBy(c) <= cap
    ensures ChecksFit(Counted(t, c), start, cap)
  {
    var u := Counted(t, c);
    OneMoreCheck(t.checks, c);
    forall i | 0 <= i < |u.checks| ensures CheckFits(u.checks[i], cap) {
      assert i < |t.checks| ==> u.checks[i] == t.checks[i];
    }
  }

  lemma {:induction false} CheckKeepsFit(t: Tally, tracker: Tracker, start: nat, attempts: nat)
    requires ChecksFit(t, start, Times(start, attempts)) && t.budget > 0 && attempts > 0
      && WithinAttempts(tracker.units, attempts)
    ensures ChecksFit(AfterTracker(t, tracker).0, start, Times(start, attempts))
  {
    if tracker.lock == Answers(true) {
      var c := CheckOfTracker(tracker, t.budget);
      CheckWithinBudget(tracker.units, t.budget, tracker.settles, attempts);
      SpentSoFar(start, t.budget, 0, attempts);
      SpentSoFar(start, t.budget, c.made, attempts);
      var log := t.log + [LockTaken(tracker.id)] + [LockReleaseTried(tracker.id)];
      CountedFits(t.(log := log), c, start, Times(start, attempts));
    }
  }

  lemma LockKeepsLog(t: Tally, tracker: Tracker)
    requires LogFits(t) && t.budget > 0
    ensures LogFits(AfterTracker(t, tracker).0)
  {
    LockAndRelease(t.log, tracker.id);
  }

  lemma {:induction false} TrackersKeepFit(t: Tally, due: seq<Tracker>, start: nat, attempts: nat)
    requires ChecksFit(t, start, Times(start, attempts)) && LogFits(t) && attempts > 0
      && AllWithinAttempts(due, attempts)
    ensures ChecksFit(AfterTrackers(t, due).0, start, Times(start, attempts)) && LogFits(AfterTrackers(t, due).0)
    decreases |due|
  {
    if due != [] && t.budget > 0 {
      assert WithinAttempts(due[0].units, attempts);
      CheckKeepsFit(t, due[0], start, attempts);
      LockKeepsLog(t, due[0]);
      var a := AfterTracker(t, due[0]);
      if !a.1 {
        TrackersKeepFit(a.0, due[1..], start, attempts);
      }
    }
  }

  lemma {:induction false} LostCalls(checks: seq<Checked>, cap: nat)
    requires forall i :: 0 <= i < |checks| ==> CheckFits(checks[i], cap)
    ensures Reported(checks) <= Made(checks) <= Reported(checks) + Times(Thrown(checks), cap)
    ensures Made(checks) == Reported(checks) <==> forall i :: 0 <= i < |checks| && checks[i].outcome.Throws? ==>
      checks[i].made == 0
  {
    if checks != [] {
      var n := |checks| - 1;
      LostCalls(checks[..n], cap);
      assert CheckFits(checks[n], cap);
      assert forall i :: 0 <= i < n ==> checks[..n][i] == checks[i];
      TimesOfSum(Thrown(checks[..n]), 1, cap);
      assert Times(1, cap) == cap;
    }
  }

  /**
   Every tick: the counted calls stay within its budget times the attempts of
   one search, the calls really made exceed them by as much at most for each
   check that threw, and not at all exactly when no check that threw had made
   a call; every locked tracker is counted once, and its lock handed back at once.
   */
  lemma TickHolds(config: Config, env: Environment, attempts: nat)
    requires attempts > 0 && AllWithinAttempts(Dued(env), attempts)
    ensures
      var t, cap := TallyOf(config, env), config.maxQueriesPerTick * attempts;
      && t.queries == Reported(t.checks) <= cap
      && t.queries <= Made(t.checks) <= t.queries + Times(Thrown(t.checks), cap)
      && (Made(t.checks) == t.queries <==>
            forall i :: 0 <= i < |t.checks| && t.checks[i].outcome.Throws? ==> t.checks[i].made == 0)
      && t.completed + t.incomplete == LocksTaken(t.log) && LogFits(t)
  {
    var start := config.maxQueriesPerTick;
    TimesIsProduct(start, attempts);
    StartFits(config, attempts);
    TrackersKeepFit(StartOf(config), Dued(env), start, attempts);
    LostCalls(TallyOf(config, env).checks, Times(start, attempts));
  }

  /** A tick reports itself complete only when nothing is due, no check threw and every locked tracker was finished. */
  lemma CompleteMeansDone(config: Config, env: Environment, attempts: nat)
    requires attempts > 0 && AllWithinAttempts(Dued(env), attempts)
    requires ReportOf(config, env).outcome == Completed
    ensures
      var t := TallyOf(config, env);
      && env.stillDue == Answers(0) && t.incomplete == 0 && Thrown(t.checks) == 0
      && t.completed == LocksTaken(t.log) && Made(t.checks) == t.queries < config.maxQueriesPerTick
  {
    TickHolds(config, env, attempts);
    var start := config.maxQueriesPerTick;
    StartFits(config, attempts);
    TrackersKeepFit(StartOf(config), Dued(env), start, attempts);
    assert Times(0, start * attempts) == 0;
  }

  // ------------------------------------------------ calls beyond the budget

  /** No tracker is listed twice. */
  ghost predicate DistinctTrackers(due: seq<Tracker>) {
    forall i, j :: 0 <= i < j < |due| ==> due[i].id != due[j].id
  }

  /** A tick that n trackers at most are due in. */
  ghost predicate IsTickOf(env: Environment, n: nat, attempts: nat) {
    |Dued(env)| <= n && DistinctTrackers(Dued(env)) && AllWithinAttempts(Dued(env), attempts)
  }

  /** No such tick makes more calls than its budget times the attempts of one search. */
  ghost predicate StaysWithin(config: Config, n: nat, attempts: nat) {
    forall env: Environment :: IsTickOf(env, n, attempts) ==>
      Made(TallyOf(config, env).checks) <= config.maxQueriesPerTick * attempts
  }

  lemma {:induction false} OneCheckEach(t: Tally, due: seq<Tracker>)
    ensures |AfterTrackers(t, due).0.checks| <= |t.checks| + |due|
    ensures t.budget <= 0 ==> AfterTrackers(t, due).0 == t
    decreases |due|
  {
    if due != [] && t.budget > 0 {
      var a := AfterTracker(t, due[0]);
      if !a.1 {
        OneCheckEach(a.0, due[1..]);
      }
    }
  }

  lemma AtMostOneFits(checks: seq<Checked>, cap: nat)
    requires |checks| <= 1 && forall i :: 0 <= i < |checks| ==> CheckFits(checks[i], cap)
    ensures Made(checks) <= cap
  {
    if checks != [] {
      OneMoreCheck([], checks[0]);
      assert checks == [] + [checks[0]];
    }
  }

  lemma {:induction false} FewStayWithin(t: Tally, due: seq<Tracker>, start: nat, attempts: nat)
    requires ChecksFit(t, start, Times(start, attempts)) && LogFits(t) && t.checks == []
    requires attempts > 0 && AllWithinAttempts(due, attempts) && (|due| <= 1 || t.budget <= 0)
    ensures Made(AfterTrackers(t, due).0.checks) <= Times(start, attempts)
  {
    TrackersKeepFit(t, due, start, attempts);
    OneCheckEach(t, due);
    AtMostOneFits(AfterTrackers(t, due).0.checks, Times(start, attempts));
  }

  lemma StartFits(config: Config, attempts: nat)
    ensures ChecksFit(StartOf(config), config.maxQueriesPerTick, Times(config.maxQueriesPerTick, attempts))
    ensures LogFits(StartOf(config))
  {
    assert StartOf(config).log[..0] == [];
  }

  lemma AloneStaysWithin(config: Config, env: Environment, attempts: nat)
    requires attempts > 0 && AllWithinAttempts(Dued(env), attempts)
    requires |Dued(env)| <= 1 || config.maxQueriesPerTick == 0
    ensures Made(TallyOf(config, env).checks) <= Times(config.maxQueriesPerTick, attempts)
  {
    StartFits(config, attempts);
    FewStayWithin(StartOf(config), Dued(env), config.maxQueriesPerTick, attempts);
  }

  /** k searches of so many attempts each. */
  function Searches(k: nat, attempts: nat): (units: seq<Unit>)
    ensures |units| == k
  {
    if k == 0 then [] else [Unit(Answers(true), Called(attempts, false))] + Searches(k - 1, attempts)
  }

  lemma {:induction false} SearchesWork(k: nat, attempts: nat)
    ensures WithinAttempts(Searches(k, attempts), attempts)
    ensures WorkOn(Searches(k, attempts)) == Progress(Times(k, attempts), false, false)
  {
    if k > 0 {
      SearchesWork(k - 1, attempts);
      assert Searches(k, attempts)[1..] == Searches(k - 1, attempts);
    }
  }

  /** A tracker whose check makes all the calls it may and then throws while it settles. */
  function Spender(id: nat, budget: nat, attempts: nat): Tracker {
    Tracker(id, Answers(true), Answers(true), Searches(budget, attempts), Throws, Answers(()))
  }

  lemma SpenderSpends(t: Tally, id: nat, attempts: nat)
    requires t.budget > 0
    ensures
      var a := AfterTracker(t, Spender(id, t.budget, attempts));
      && a.0.budget == t.budget && a.0.queries == t.queries
        && a.0.checks == t.checks + [Checked(Throws, Times(t.budget, attempts))] && !a.1
  {
    var units := Searches(t.budget, attempts);
    SearchesWork(t.budget, attempts);
    assert units[..t.budget] == units;
  }

  function TwoSpenders(budget: nat, attempts: nat): Environment {
    Environment(
      Answers(1), Answers(true), Answers([Spender(1, budget, attempts), Spender(2, budget, attempts)]), Answers(0),
      Answers(()), Answers(()), Answers(()))
  }

  lemma TwoTurns(t: Tally, a: Tracker, b: Tracker)
    requires t.budget > 0 && !AfterTracker(t, a).1
    requires AfterTracker(t, a).0.budget > 0 && !AfterTracker(AfterTracker(t, a).0, b).1
    ensures AfterTrackers(t, [a, b]).0 == AfterTracker(AfterTracker(t, a).0, b).0
  {
    var t1 := AfterTracker(t, a).0;
    assert [a, b][1..] == [b] && [b][1..] == [];
    assert AfterTrackers(t1, [b]) == AfterTrackers(AfterTracker(t1, b).0, []);
  }

  lemma {:induction false} TwoSpendTwice(config: Config, attempts: nat)
    requires config.maxQueriesPerTick > 0
    ensures IsTickOf(TwoSpenders(config.maxQueriesPerTick, attempts), 2, attempts)
    ensures
      var t := TallyOf(config, TwoSpenders(config.maxQueriesPerTick, attempts));
      var cap := config.maxQueriesPerTick * attempts;
      Made(t.checks) == cap + cap && t.queries == 0
  {
    var budget := config.maxQueriesPerTick;
    var due := Dued(TwoSpenders(budget, attempts));
    var t0, spent := StartOf(config), Checked(Throws, Times(budget, attempts));
    var t1 := AfterTracker(t0, due[0]).0;
    var t2 := AfterTracker(t1, due[1]).0;
    SearchesWork(budget, attempts);
    TimesIsProduct(budget, attempts);
    SpenderSpends(t0, 1, attempts);
    SpenderSpends(t1, 2, attempts);
    TwoTurns(t0, due[0], due[1]);
    OneMoreCheck([], spent);
    OneMoreCheck([spent], spent);
    assert t2.checks == [spent] + [spent] && [] + [spent] == [spent];
  }

  /**
   A tick is sure to stay within its budget exactly when one tracker at most is due, or the
   budget allows no search.
   */
  lemma StaysWithinIff(config: Config, n: nat, attempts: nat)
    requires attempts > 0
    ensures StaysWithin(config, n, attempts) <==> n <= 1 || config.maxQueriesPerTick == 0
  {
    TimesIsProduct(config.maxQueriesPerTick, attempts);
    if n <= 1 || config.maxQueriesPerTick == 0 {
      forall env: Environment | IsTickOf(env, n, attempts)
        ensures Made(TallyOf(config, env).checks) <= config.maxQueriesPerTick * attempts
      {
        AloneStaysWithin(config, env, attempts);
      }
    } else {
      var env := TwoSpenders(config.maxQueriesPerTick, attempts);
      TwoSpendTwice(config, attempts);
      assert IsTickOf(env, n, attempts);
      assert config.maxQueriesPerTick * attempts > 0;
    }
  }

  /** A budget of one search of one attempt, and two calls made, none of them counted. */
  lemma LostCallsExceedTheBudget()
    ensures IsTickOf(TwoSpenders(1, 1), 2, 1)
    ensures
      var t := TallyOf(Config(true, 1), TwoSpenders(1, 1));
      Made(t.checks) == 2 > 1 * 1 && t.queries == 0
  {
    TwoSpendTwice(Config(true, 1), 1);
  }
}
