/**
 What lets two replies of one update be accepted: a handler that stores its
 reply over one that is already there (worker/src/services/bot.ts). Handlers
 overlap, die and come back in any order here.
 */
module BotStores {
  import opened Counting
  import opened Prelude
  import opened BotUpdates

  /** The next statement of a handler that writes a reply into the row. */
  predicate Stores(authorised: bool, h: Handler, abandoned: bool) {
    || h.stage.Prepared?
    || (h.stage.Existing? && h.stage.seen.phase.Processing? && h.stage.seen.reply.None? && abandoned && authorised)
  }

  predicate IsStore(authorised: bool, s: State, e: Event) {
    e.Step? && e.i < |s.handlers| && s.row.Some? && Stores(authorised, s.handlers[e.i], e.abandoned)
  }

  /** No reply is stored over another. */
  ghost predicate StoresOnce(authorised: bool, s: State, es: seq<Event>)
    decreases |es|
  {
    es == [] || ((IsStore(authorised, s, es[0]) ==> s.row.value.reply.None?)
      && StoresOnce(authorised, Apply(authorised, s, es[0]), es[1..]))
  }

  // ----------------------------------------------------- one reply, whatever overlaps

  /** The handler holds an attempt, or its send was accepted. */
  predicate IsEngaged(h: Handler) {
    h.stage.Sending? || h.stage.Answered? || WasAccepted(h)
  }

  predicate WasAccepted(h: Handler) {
    h.sent.Some? && ReallyAccepted(h.sent.value)
  }

  function Engaged(s: State): nat {
    Count(s.handlers, (h: Handler) => IsEngaged(h))
  }

  /** Attempts claimed by handlers that have got as far as sending, or are about to. */
  function Attempted(s: State): nat {
    Count(s.handlers, (h: Handler) => h.sent.Some? || h.stage.Sending?)
  }

  predicate RowHolds(engaged: nat, attempted: nat, row: Row) {
    && engaged <= 1 && attempted <= row.attempts <= MAX_COMMAND_REPLY_ATTEMPTS
    && (row.reply.None? ==> engaged == 0 && row.attempts == 0)
    && (row.phase.Ready? ==> engaged == 0 && row.reply.Some? && row.attempts < MAX_COMMAND_REPLY_ATTEMPTS)
  }

  predicate HandlerHolds(row: Row, h: Handler) {
    && (h.sent.Some? ==> h.stage.Answered? || h.stage.Over?)
    && (h.stage.Existing? && h.stage.seen.reply.Some? ==> row.reply == h.stage.seen.reply)
    && (h.stage.Delivering? ==> row.reply == Some(h.stage.text))
    && (h.stage.Sending? ==> h.stage.attempt == row.attempts && row.reply == Some(h.stage.text))
    && (h.stage.Answered? ==> h.stage.attempt == row.attempts && row.reply.Some? && h.sent == Some(h.stage.out))
  }

  /** All attempts are of the one stored reply, one at a time, and none after an acceptance. */
  ghost predicate OneReply(s: State) {
    && (s.row.None? ==>
          && Engaged(s) == 0 && Attempted(s) == 0
          && forall i :: 0 <= i < |s.handlers| ==> s.handlers[i].stage.Arrived? && s.handlers[i].sent.None?)
    && (s.row.Some? ==>
          && RowHolds(Engaged(s), Attempted(s), s.row.value)
          && forall i :: 0 <= i < |s.handlers| ==> HandlerHolds(s.row.value, s.handlers[i]))
  }

  function One(b: bool): int {
    if b then 1 else 0
  }

  /** One statement, as far as the row and the handler that makes it are concerned. */
  lemma MoveKeepsReply(
    authorised: bool, engaged: nat, attempted: nat, row: Row, h: Handler, abandoned: bool, out: Outcome)
    requires RowHolds(engaged, attempted, row) && HandlerHolds(row, h) && One(IsEngaged(h)) <= engaged
    requires Stores(authorised, h, abandoned) ==> row.reply.None?
    ensures
      var m := Move(authorised, Some(row), h, abandoned, out);
      var engaged' := engaged - One(IsEngaged(h)) + One(IsEngaged(m.1));
      var attempted' := attempted - One(h.sent.Some? || h.stage.Sending?) + One(m.1.sent.Some? || m.1.stage.Sending?);
      && m.0.Some? && engaged' >= 0 && attempted' >= 0
      && RowHolds(engaged', attempted', m.0.value) && HandlerHolds(m.0.value, m.1)
  {
  }

  /**
   Nor does it disturb another handler: while that one holds an attempt, neither the
   attempts nor the reply change.
   */
  lemma MoveSparesOthers(
    authorised: bool, engaged: nat, attempted: nat, row: Row, h: Handler, abandoned: bool, out: Outcome, other: Handler)
    requires RowHolds(engaged, attempted, row) && HandlerHolds(row, h) && HandlerHolds(row, other)
    requires One(IsEngaged(h)) + One(IsEngaged(other)) <= engaged
    requires Stores(authorised, h, abandoned) ==> row.reply.None?
    ensures HandlerHolds(Move(authorised, Some(row), h, abandoned, out).0.value, other)
  {
  }

  lemma {:induction false} TwoMembers(s: seq<Handler>, i: nat, j: nat, p: Handler -> bool)
    requires i < j < |s|
    ensures One(p(s[i])) + One(p(s[j])) <= Count(s, p)
  {
    var n := |s| - 1;
    if j < n {
      TwoMembers(s[..n], i, j, p);
    } else if p(s[i]) {
      CountMember(s[..n], i, p);
    }
  }

  lemma OneMember(s: seq<Handler>, i: nat, p: Handler -> bool)
    requires i < |s|
    ensures One(p(s[i])) <= Count(s, p)
  {
    if p(s[i]) {
      CountMember(s, i, p);
    }
  }

  lemma StepKeepsReply(authorised: bool, s: State, e: Event)
    requires OneReply(s) && e.Step? && e.i < |s.handlers|
    requires IsStore(authorised, s, e) ==> s.row.value.reply.None?
    ensures OneReply(Apply(authorised, s, e))
  {
    var h := s.handlers[e.i];
    var m := Move(authorised, s.row, h, e.abandoned, e.out);
    CountUpdate(s.handlers, e.i, m.1, (x: Handler) => IsEngaged(x));
    CountUpdate(s.handlers, e.i, m.1, (x: Handler) => x.sent.Some? || x.stage.Sending?);
    if s.row.Some? {
      OneMember(s.handlers, e.i, (x: Handler) => IsEngaged(x));
      MoveKeepsReply(authorised, Engaged(s), Attempted(s), s.row.value, h, e.abandoned, e.out);
      OthersHold(authorised, s, e);
    }
  }

  lemma OthersHold(authorised: bool, s: State, e: Event)
    requires OneReply(s) && e.Step? && e.i < |s.handlers| && s.row.Some?
    requires IsStore(authorised, s, e) ==> s.row.value.reply.None?
    ensures
      var m := Move(authorised, s.row, s.handlers[e.i], e.abandoned, e.out);
      m.0.Some? && forall j :: 0 <= j < |s.handlers| && j != e.i ==> HandlerHolds(m.0.value, s.handlers[j])
  {
    var h := s.handlers[e.i];
    var engaged := (x: Handler) => IsEngaged(x);
    forall j | 0 <= j < |s.handlers| && j != e.i
      ensures HandlerHolds(Move(authorised, s.row, h, e.abandoned, e.out).0.value, s.handlers[j])
    {
      if j < e.i {
        TwoMembers(s.handlers, j, e.i, engaged);
      } else {
        TwoMembers(s.handlers, e.i, j, engaged);
      }
      MoveSparesOthers(authorised, Engaged(s), Attempted(s), s.row.value, h, e.abandoned, e.out, s.handlers[j]);
    }
  }

  lemma ArrivalKeepsReply(authorised: bool, s: State)
    requires OneReply(s)
    ensures OneReply(Apply(authorised, s, Arrive))
  {
    CountAppend(s.handlers, Handler(Arrived, false, false, None), (x: Handler) => IsEngaged(x));
    CountAppend(s.handlers, Handler(Arrived, false, false, None), (x: Handler) => x.sent.Some? || x.stage.Sending?);
  }

  lemma {:induction false} RunKeepsReply(authorised: bool, s: State, es: seq<Event>)
    requires OneReply(s) && StoresOnce(authorised, s, es)
    ensures OneReply(Run(authorised, s, es))
    decreases |es|
  {
    if es != [] {
      if es[0].Arrive? {
        ArrivalKeepsReply(authorised, s);
      } else if es[0].i < |s.handlers| {
        StepKeepsReply(authorised, s, es[0]);
      }
      RunKeepsReply(authorised, Apply(authorised, s, es[0]), es[1..]);
    }
  }

  /**
   However handlers overlap, die and come back: if no reply is stored over
   another, at most one is accepted and at most three are sent, and what a
   handler is about to send is what the row holds.
   */
  lemma OneReplyIfStoredOnce(authorised: bool, es: seq<Event>)
    requires StoresOnce(authorised, START, es)
    ensures
      var t := Run(authorised, START, es);
      && Acceptances(t) <= 1 && Sends(t) <= MAX_COMMAND_REPLY_ATTEMPTS
      && forall i :: 0 <= i < |t.handlers| && t.handlers[i].stage.Sending? ==>
           t.row.Some? && t.row.value.reply == Some(t.handlers[i].stage.text)
  {
    RunKeepsReply(authorised, START, es);
    AcceptedAreEngaged(Run(authorised, START, es));
  }

  lemma AcceptedAreEngaged(s: State)
    ensures Acceptances(s) <= Engaged(s) && Sends(s) <= Attempted(s)
  {
    CountImplies(s.handlers, (h: Handler) => h.sent.Some? && ReallyAccepted(h.sent.value),
      (h: Handler) => IsEngaged(h));
    CountImplies(s.handlers, (h: Handler) => h.sent.Some?, (h: Handler) => h.sent.Some? || h.stage.Sending?);
  }

  /** Handlers that come one at a time never store over another's reply. */
  lemma {:induction false} SerialStoresOnce(authorised: bool, s: State, es: seq<Event>)
    requires SerialInv(s) && Serial(authorised, s, es)
    ensures StoresOnce(authorised, s, es)
    decreases |es|
  {
    if es != [] {
      SerialEvent(authorised, s, es[0]);
      SerialStoresOnce(authorised, Apply(authorised, s, es[0]), es[1..]);
    }
  }

  // --------------------------------------------- what a second store can do

  /** Accepted already, or about to be sent. */
  predicate IsLive(h: Handler) {
    WasAccepted(h) || h.stage.Sending?
  }

  /** Or refused for now, and about to make the row ready once more. */
  predicate IsInPlay(h: Handler) {
    IsLive(h) || (h.stage.Answered? && h.stage.out == Refused(true))
  }

  function Live(s: State): nat {
    Count(s.handlers, (h: Handler) => IsLive(h))
  }

  function InPlay(s: State): nat {
    Count(s.handlers, (h: Handler) => IsInPlay(h))
  }

  /** Without another reply being stored over this one. */
  ghost predicate CanAcceptTwice(authorised: bool, s: State) {
    exists es: seq<Event> :: StoresOnce(authorised, s, es) && Acceptances(Run(authorised, s, es)) >= 2
  }

  lemma {:induction false} StoresOnceAppend(authorised: bool, s: State, a: seq<Event>, b: seq<Event>)
    requires StoresOnce(authorised, s, a) && StoresOnce(authorised, Run(authorised, s, a), b)
    ensures StoresOnce(authorised, s, a + b)
    decreases |a|
  {
    if a == [] {
      assert a + b == b;
    } else {
      StoresOnceAppend(authorised, Apply(authorised, s, a[0]), a[1..], b);
      assert (a + b)[1..] == a[1..] + b;
    }
  }

  /** What holds after `a` and then `b`, none of which stores over a reply. */
  lemma Then(authorised: bool, s: State, a: seq<Event>, b: seq<Event>)
    requires StoresOnce(authorised, s, a) && StoresOnce(authorised, Run(authorised, s, a), b)
    ensures StoresOnce(authorised, s, a + b) && Run(authorised, s, a + b) == Run(authorised, Run(authorised, s, a), b)
  {
    StoresOnceAppend(authorised, s, a, b);
    RunAppend(authorised, s, a, b);
  }

  // With attempts left, the next handler sends the second reply.

  function Steps(i: nat, k: nat): seq<Event> {
    Statements(i, false, OK, k)
  }

  /** The handler did not create the row, so it only ever sends what is stored. */
  predicate IsLater(h: Handler) {
    !h.stage.Executing? && !h.stage.Prepared? && !(h.stage.Inserted? && h.stage.claimed)
  }

  lemma {:induction false} StepsStoreOnce(authorised: bool, s: State, i: nat, k: nat)
    requires i < |s.handlers| && s.row.Some? && IsLater(s.handlers[i])
    ensures StoresOnce(authorised, s, Steps(i, k)) && Run(authorised, s, Steps(i, k)).row.Some?
    decreases k
  {
    if k > 0 {
      StepsStoreOnce(authorised, Apply(authorised, s, Step(i, false, OK)), i, k - 1);
      assert Steps(i, k)[1..] == Steps(i, k - 1);
    }
  }

  predicate HasAttemptsLeft(s: State) {
    && s.row.Some? && s.row.value.phase.Ready? && s.row.value.reply.Some?
    && s.row.value.attempts < MAX_COMMAND_REPLY_ATTEMPTS
  }

  function Claiming(row: Row): Handler
    requires row.reply.Some?
  {
    IDLE.(stage := Sending(row.attempts + 1, row.reply.value))
  }

  /** A handler that comes to a stored reply with attempts left claims one. */
  lemma NewcomerMoves(authorised: bool, row: Row)
    requires HasAttemptsLeft(State(Some(row), []))
    ensures
      MoveTimes(authorised, Some(row), IDLE, false, OK, 4)
      == (Some(row.(phase := Processing, attempts := row.attempts + 1)), Claiming(row))
  {
    var h1 := IDLE.(stage := Inserted(false));
    var h2 := IDLE.(stage := Existing(row));
    var h3 := IDLE.(stage := Delivering(row.attempts, row.reply.value));
    assert MoveTimes(authorised, Some(row), h3, false, OK, 1) == Move(authorised, Some(row), h3, false, OK);
    assert MoveTimes(authorised, Some(row), h2, false, OK, 2) == MoveTimes(authorised, Some(row), h3, false, OK, 1);
    assert MoveTimes(authorised, Some(row), h1, false, OK, 3) == MoveTimes(authorised, Some(row), h2, false, OK, 2);
  }

  /** The n-th handler arrives and claims an attempt. */
  function Newcomer(n: nat): seq<Event> {
    [Arrive] + Steps(n, 4)
  }

  lemma NewcomerClaims(authorised: bool, s: State)
    requires HasAttemptsLeft(s)
    ensures StoresOnce(authorised, s, Newcomer(|s.handlers|))
    ensures
      var r := s.row.value;
      Run(authorised, s, Newcomer(|s.handlers|))
      == State(Some(r.(phase := Processing, attempts := r.attempts + 1)), s.handlers + [Claiming(r)])
  {
    var n := |s.handlers|;
    var arrived := Apply(authorised, s, Arrive);
    assert Newcomer(n)[1..] == Steps(n, 4);
    StepsStoreOnce(authorised, arrived, n, 4);
    StatementsAreMoves(authorised, arrived, n, false, OK, 4);
    NewcomerMoves(authorised, s.row.value);
    assert arrived.handlers[n := Claiming(s.row.value)] == s.handlers + [Claiming(s.row.value)];
  }

  /** An attempt in flight is answered. */
  lemma InFlightIsAccepted(authorised: bool, s: State, j: nat)
    requires s.row.Some? && j < |s.handlers| && s.handlers[j].stage.Sending? && !WasAccepted(s.handlers[j])
    ensures
      var t := Run(authorised, s, Steps(j, 1));
      && StoresOnce(authorised, s, Steps(j, 1)) && Acceptances(t) == Acceptances(s) + 1
      && t.row == s.row && |t.handlers| == |s.handlers|
      && forall i :: 0 <= i < |s.handlers| && i != j ==> t.handlers[i] == s.handlers[i]
  {
    assert Statements(j, false, OK, 0) == [] && Steps(j, 1) == [Step(j, false, OK)];
    var m := Move(authorised, s.row, s.handlers[j], false, OK);
    CountUpdate(s.handlers, j, m.1, (h: Handler) => h.sent.Some? && ReallyAccepted(h.sent.value));
  }

  function NewcomerSends(n: nat): seq<Event> {
    Newcomer(n) + Steps(n, 1)
  }

  /** A handler that comes to a stored reply with attempts left gets it accepted. */
  lemma NewcomerIsAccepted(authorised: bool, s: State)
    requires HasAttemptsLeft(s)
    ensures
      var t := Run(authorised, s, NewcomerSends(|s.handlers|));
      && StoresOnce(authorised, s, NewcomerSends(|s.handlers|)) && Acceptances(t) == Acceptances(s) + 1
      && t.row.Some? && |t.handlers| == |s.handlers| + 1
      && forall i :: 0 <= i < |s.handlers| ==> t.handlers[i] == s.handlers[i]
  {
    var n := |s.handlers|;
    NewcomerClaims(authorised, s);
    var t := Run(authorised, s, Newcomer(n));
    CountAppend(s.handlers, t.handlers[n], (h: Handler) => h.sent.Some? && ReallyAccepted(h.sent.value));
    InFlightIsAccepted(authorised, t, n);
    Then(authorised, s, Newcomer(n), Steps(n, 1));
  }

  lemma {:induction false} LiveIsSomebody(s: seq<Handler>)
    requires Count(s, (h: Handler) => IsLive(h)) > 0
    requires Count(s, (h: Handler) => h.sent.Some? && ReallyAccepted(h.sent.value)) == 0
    ensures exists j :: 0 <= j < |s| && s[j].stage.Sending? && !WasAccepted(s[j])
  {
    var n := |s| - 1;
    if IsLive(s[n]) {
      assert s[n].stage.Sending? && !WasAccepted(s[n]);
    } else {
      LiveIsSomebody(s[..n]);
      var j :| 0 <= j < n && s[..n][j].stage.Sending? && !WasAccepted(s[..n][j]);
      assert s[j] == s[..n][j];
    }
  }

  /** Beside a reply that was accepted or is being sent, a newcomer gets a second one accepted. */
  lemma LiveAcceptsTwice(authorised: bool, s: State)
    requires HasAttemptsLeft(s) && Live(s) > 0
    ensures CanAcceptTwice(authorised, s)
  {
    var es := NewcomerSends(|s.handlers|);
    NewcomerIsAccepted(authorised, s);
    if Acceptances(s) == 0 {
      var t := Run(authorised, s, es);
      LiveIsSomebody(s.handlers);
      var j :| 0 <= j < |s.handlers| && s.handlers[j].stage.Sending? && !WasAccepted(s.handlers[j]);
      InFlightIsAccepted(authorised, t, j);
      Then(authorised, s, es, Steps(j, 1));
      assert Acceptances(Run(authorised, s, es + Steps(j, 1))) >= 2;
    }
  }

  /** A refusal that was not recorded when the reply was stored: one newcomer claims, the refusal is recorded. */
  function Revival(n: nat, j: nat): seq<Event> {
    Newcomer(n) + Steps(j, 1)
  }

  predicate WasRefused(h: Handler, attempts: int) {
    h.stage.Answered? && h.stage.out == Refused(true) && h.stage.attempt == attempts && !WasAccepted(h)
  }

  /** A late record makes the row ready again under the attempt it was for. */
  lemma RefusalIsRecorded(authorised: bool, s: State, j: nat)
    requires s.row.Some? && s.row.value.attempts - 1 < MAX_COMMAND_REPLY_ATTEMPTS
    requires j < |s.handlers| && WasRefused(s.handlers[j], s.row.value.attempts - 1)
    ensures
      var t := Run(authorised, s, Steps(j, 1));
      && StoresOnce(authorised, s, Steps(j, 1)) && Acceptances(t) == Acceptances(s)
      && t == State(
           Some(s.row.value.(phase := Ready, attempts := s.row.value.attempts - 1)),
           s.handlers[j := s.handlers[j].(stage := Over)])
  {
    assert Statements(j, false, OK, 0) == [] && Steps(j, 1) == [Step(j, false, OK)];
    CountUpdate(
      s.handlers, j, s.handlers[j].(stage := Over), (h: Handler) => h.sent.Some? && ReallyAccepted(h.sent.value));
  }

  /** Beside the newcomer who is sending, the row is ready once more. */
  lemma {:induction false} RefusalRevives(authorised: bool, s: State, j: nat)
    requires HasAttemptsLeft(s) && j < |s.handlers| && WasRefused(s.handlers[j], s.row.value.attempts)
    ensures
      var t := Run(authorised, s, Revival(|s.handlers|, j));
      && StoresOnce(authorised, s, Revival(|s.handlers|, j)) && t.row == s.row
      && t.handlers == (s.handlers + [Claiming(s.row.value)])[j := s.handlers[j].(stage := Over)]
      && Acceptances(t) == Acceptances(s)
  {
    var n := |s.handlers|;
    NewcomerClaims(authorised, s);
    var t := Run(authorised, s, Newcomer(n));
    CountAppend(s.handlers, Claiming(s.row.value), (h: Handler) => h.sent.Some? && ReallyAccepted(h.sent.value));
    RefusalIsRecorded(authorised, t, j);
    Then(authorised, s, Newcomer(n), Steps(j, 1));
  }

  /** Then a second newcomer sends beside the first. */
  function TwoNewcomers(n: nat, j: nat): seq<Event> {
    Revival(n, j) + NewcomerSends(n + 1) + Steps(n, 1)
  }

  lemma RefusalAcceptsTwice(authorised: bool, s: State, j: nat)
    requires HasAttemptsLeft(s) && j < |s.handlers| && WasRefused(s.handlers[j], s.row.value.attempts)
    ensures
      && StoresOnce(authorised, s, TwoNewcomers(|s.handlers|, j))
      && Acceptances(Run(authorised, s, TwoNewcomers(|s.handlers|, j))) == Acceptances(s) + 2
  {
    var n := |s.handlers|;
    RefusalRevives(authorised, s, j);
    var t := Run(authorised, s, Revival(n, j));
    NewcomerIsAccepted(authorised, t);
    var u := Run(authorised, t, NewcomerSends(n + 1));
    assert u.handlers[n] == t.handlers[n] == Claiming(s.row.value);
    InFlightIsAccepted(authorised, u, n);
    Then(authorised, s, Revival(n, j), NewcomerSends(n + 1));
    Then(authorised, s, Revival(n, j) + NewcomerSends(n + 1), Steps(n, 1));
  }

  // Without attempts, nobody claims another.

  /** All attempts are used up, and at most one send is accepted or still in flight. */
  ghost predicate Exhausted(s: State) {
    && s.row.Some? && s.row.value.attempts >= MAX_COMMAND_REPLY_ATTEMPTS && Live(s) <= 1
    && forall i :: 0 <= i < |s.handlers| ==> HoldsLast(s.row.value, s.handlers[i])
  }

  predicate HoldsLast(row: Row, h: Handler) {
    && (h.stage.Sending? ==> h.stage.attempt == row.attempts)
    && (h.stage.Answered? ==> h.stage.attempt == row.attempts)
  }

  lemma MoveStaysExhausted(authorised: bool, row: Row, h: Handler, abandoned: bool, out: Outcome)
    requires row.attempts >= MAX_COMMAND_REPLY_ATTEMPTS && HoldsLast(row, h)
    ensures
      var m := Move(authorised, Some(row), h, abandoned, out);
      m.0.Some? && m.0.value.attempts == row.attempts && HoldsLast(row, m.1) && (IsLive(m.1) ==> IsLive(h))
  {
  }

  lemma StepStaysExhausted(authorised: bool, s: State, e: Event)
    requires Exhausted(s)
    ensures Exhausted(Apply(authorised, s, e))
  {
    var live := (h: Handler) => IsLive(h);
    if e.Arrive? {
      CountAppend(s.handlers, Handler(Arrived, false, false, None), live);
    } else if e.i < |s.handlers| {
      var m := Move(authorised, s.row, s.handlers[e.i], e.abandoned, e.out);
      MoveStaysExhausted(authorised, s.row.value, s.handlers[e.i], e.abandoned, e.out);
      CountUpdate(s.handlers, e.i, m.1, live);
    }
  }

  lemma {:induction false} RunStaysExhausted(authorised: bool, s: State, es: seq<Event>)
    requires Exhausted(s)
    ensures Acceptances(Run(authorised, s, es)) <= 1
    decreases |es|
  {
    if es == [] {
      CountImplies(s.handlers, (h: Handler) => h.sent.Some? && ReallyAccepted(h.sent.value), (h: Handler) => IsLive(h));
    } else {
      StepStaysExhausted(authorised, s, es[0]);
      RunStaysExhausted(authorised, Apply(authorised, s, es[0]), es[1..]);
    }
  }

  // And with nothing in play, one reply at a time comes into play.

  predicate AnswersAgree(h: Handler) {
    h.stage.Answered? ==> h.sent == Some(h.stage.out)
  }

  predicate RowInPlay(row: Row, inPlay: nat) {
    row.reply.Some? && inPlay <= 1 && (row.phase.Ready? ==> inPlay == 0)
  }

  /** At most one reply is in play, and none while the row is ready. */
  ghost predicate OneInPlay(s: State) {
    && s.row.Some? && RowInPlay(s.row.value, InPlay(s))
    && forall i :: 0 <= i < |s.handlers| ==> AnswersAgree(s.handlers[i])
  }

  lemma MoveKeepsOneInPlay(
    authorised: bool, row: Row, h: Handler, abandoned: bool, out: Outcome, inPlay: nat)
    requires RowInPlay(row, inPlay) && AnswersAgree(h) && One(IsInPlay(h)) <= inPlay
    requires !Stores(authorised, h, abandoned)
    ensures
      var m := Move(authorised, Some(row), h, abandoned, out);
      var inPlay' := inPlay - One(IsInPlay(h)) + One(IsInPlay(m.1));
      m.0.Some? && inPlay' >= 0 && RowInPlay(m.0.value, inPlay') && AnswersAgree(m.1)
  {
  }

  lemma StepKeepsOneInPlay(authorised: bool, s: State, e: Event)
    requires OneInPlay(s) && !IsStore(authorised, s, e)
    ensures OneInPlay(Apply(authorised, s, e))
  {
    var inPlay := (h: Handler) => IsInPlay(h);
    if e.Arrive? {
      CountAppend(s.handlers, Handler(Arrived, false, false, None), inPlay);
    } else if e.i < |s.handlers| {
      var m := Move(authorised, s.row, s.handlers[e.i], e.abandoned, e.out);
      OneMember(s.handlers, e.i, inPlay);
      MoveKeepsOneInPlay(authorised, s.row.value, s.handlers[e.i], e.abandoned, e.out, InPlay(s));
      CountUpdate(s.handlers, e.i, m.1, inPlay);
    }
  }

  lemma {:induction false} RunKeepsOneInPlay(authorised: bool, s: State, es: seq<Event>)
    requires OneInPlay(s) && StoresOnce(authorised, s, es)
    ensures Acceptances(Run(authorised, s, es)) <= 1
    decreases |es|
  {
    if es == [] {
      CountImplies(s.handlers, (h: Handler) => h.sent.Some? && ReallyAccepted(h.sent.value),
        (h: Handler) => IsInPlay(h));
    } else {
      StepKeepsOneInPlay(authorised, s, es[0]);
      RunKeepsOneInPlay(authorised, Apply(authorised, s, es[0]), es[1..]);
    }
  }

  lemma HandlersAfterStore(authorised: bool, s: State, e: Event)
    requires OneReply(s) && IsStore(authorised, s, e)
    ensures
      var t := Apply(authorised, s, e);
      && t.row == Some(Row(Ready, t.row.value.reply, s.row.value.attempts)) && t.row.value.reply.Some?
      && forall i :: 0 <= i < |t.handlers| ==> HoldsLast(t.row.value, t.handlers[i]) && AnswersAgree(t.handlers[i])
  {
    var t := Apply(authorised, s, e);
    forall i | 0 <= i < |t.handlers| ensures HoldsLast(t.row.value, t.handlers[i]) && AnswersAgree(t.handlers[i]) {
      assert HandlerHolds(s.row.value, s.handlers[i]);
    }
  }

  lemma InPlayIsEngaged(s: State)
    ensures InPlay(s) <= Engaged(s)
  {
    CountImplies(s.handlers, (h: Handler) => IsInPlay(h), (h: Handler) => IsEngaged(h));
  }

  lemma LiveIsInPlay(s: State)
    ensures Live(s) <= InPlay(s)
  {
    CountImplies(s.handlers, (h: Handler) => IsLive(h), (h: Handler) => IsInPlay(h));
  }

  /** What is left of the order of a run of single stores once a reply is stored over another. */
  lemma AfterStore(authorised: bool, s: State, e: Event)
    requires OneReply(s) && IsStore(authorised, s, e)
    ensures
      var t := Apply(authorised, s, e);
      InPlay(t) == InPlay(s) <= Engaged(s) <= 1 && Live(t) <= InPlay(t)
        && s.row.value.attempts <= MAX_COMMAND_REPLY_ATTEMPTS
  {
    var t := Apply(authorised, s, e);
    assert HandlerHolds(s.row.value, s.handlers[e.i]);
    CountUpdate(s.handlers, e.i, t.handlers[e.i], (h: Handler) => IsInPlay(h));
    InPlayIsEngaged(s);
    LiveIsInPlay(t);
  }

  lemma {:induction false} InPlayIsSomebody(s: seq<Handler>)
    requires Count(s, (h: Handler) => IsInPlay(h)) > 0 && Count(s, (h: Handler) => IsLive(h)) == 0
    ensures exists j :: 0 <= j < |s| && s[j].stage.Answered? && s[j].stage.out == Refused(true) && !WasAccepted(s[j])
  {
    var n := |s| - 1;
    if IsInPlay(s[n]) {
      assert s[n].stage.Answered? && s[n].stage.out == Refused(true) && !WasAccepted(s[n]);
    } else {
      InPlayIsSomebody(s[..n]);
      var j :| 0 <= j < n && s[..n][j].stage.Answered? && s[..n][j].stage.out == Refused(true)
        && !WasAccepted(s[..n][j]);
      assert s[j] == s[..n][j];
    }
  }

  lemma InPlayAcceptsTwice(authorised: bool, s: State)
    requires HasAttemptsLeft(s) && InPlay(s) > 0
    requires forall i :: 0 <= i < |s.handlers| ==> HoldsLast(s.row.value, s.handlers[i])
    ensures CanAcceptTwice(authorised, s)
  {
    if Live(s) > 0 {
      LiveAcceptsTwice(authorised, s);
    } else {
      InPlayIsSomebody(s.handlers);
      var j :| 0 <= j < |s.handlers| && s.handlers[j].stage.Answered? && s.handlers[j].stage.out == Refused(true)
        && !WasAccepted(s.handlers[j]);
      assert HoldsLast(s.row.value, s.handlers[j]);
      RefusalAcceptsTwice(authorised, s, j);
    }
  }

  /**
   So far no reply was stored over another, and now a reply is stored. Two
   acceptances can follow, without any further store over a reply, exactly
   when there was a reply in play (accepted, being sent, or refused for now
   and not yet recorded) and fewer than three attempts were claimed. A store
   into a row without a reply is never of that kind.
   */
  lemma StoringAcceptsTwiceIff(authorised: bool, es: seq<Event>, e: Event)
    requires StoresOnce(authorised, START, es) && IsStore(authorised, Run(authorised, START, es), e)
    ensures
      var s := Run(authorised, START, es);
      CanAcceptTwice(authorised, Apply(authorised, s, e))
      <==> InPlay(s) > 0 && s.row.value.attempts < MAX_COMMAND_REPLY_ATTEMPTS
    ensures
      var s := Run(authorised, START, es);
      InPlay(s) > 0 ==> s.row.value.reply.Some?
  {
    RunKeepsReply(authorised, START, es);
    var s := Run(authorised, START, es);
    var t := Apply(authorised, s, e);
    AfterStore(authorised, s, e);
    HandlersAfterStore(authorised, s, e);
    if s.row.value.attempts >= MAX_COMMAND_REPLY_ATTEMPTS {
      forall more: seq<Event> ensures Acceptances(Run(authorised, t, more)) <= 1 {
        RunStaysExhausted(authorised, t, more);
      }
    } else if InPlay(s) > 0 {
      InPlayAcceptsTwice(authorised, t);
    } else {
      forall more: seq<Event> | StoresOnce(authorised, t, more) ensures Acceptances(Run(authorised, t, more)) <= 1 {
        RunKeepsOneInPlay(authorised, t, more);
      }
    }
  }

  // ------------------------------------------------ a refusal recorded late

  const NOT_NOW := Refused(true)

  /** The second handler's notice is refused for now, which it has not recorded when the first stores its own reply. */
  const REFUSAL: seq<Event> := [Step(1, false, OK), Step(1, false, NOT_NOW)]
  const STORE := Step(0, false, OK)

  const REFUSED_HANDLER := Handler(Answered(1, AbandonedNotice, NOT_NOW), false, false, Some(NOT_NOW))
  const REFUSED_STATE := State(Some(Row(Processing, NOTICE, 1)), [RAN, REFUSED_HANDLER])

  const STORED_OVER := State(
    Some(Row(Ready, Some(CommandReply), 1)), [Handler(Delivering(0, CommandReply), true, true, None), REFUSED_HANDLER])

  lemma RefusedOnce()
    ensures Run(true, NOTICED, REFUSAL) == REFUSED_STATE
  {
    var s1 := Apply(true, NOTICED, REFUSAL[0]);
    assert s1 == State(REFUSED_STATE.row, [RAN, Handler(Sending(1, AbandonedNotice), false, false, None)]);
    assert Apply(true, s1, REFUSAL[1]) == REFUSED_STATE;
    assert Run(true, s1, REFUSAL[1..]) == Run(true, REFUSED_STATE, REFUSAL[1..][1..]);
  }

  lemma ThenStored()
    ensures Run(true, REFUSED_STATE, [STORE]) == STORED_OVER
  {
    assert Apply(true, REFUSED_STATE, STORE) == STORED_OVER;
    assert [STORE][1..] == [];
  }

  lemma CountOfTwo(a: Handler, b: Handler, p: Handler -> bool)
    ensures Count([a, b], p) == One(p(a)) + One(p(b))
  {
    CountAppend([], a, p);
    CountAppend([a], b, p);
    assert [a] == [] + [a] && [a, b] == [a] + [b];
  }

  lemma ReachesRefusal()
    ensures Run(true, START, OVERLAP[..8] + REFUSAL) == REFUSED_STATE
    ensures Live(REFUSED_STATE) == 0
  {
    OverlapGivesUp();
    RefusedOnce();
    RunAppend(true, START, OVERLAP[..8], REFUSAL);
    CountOfTwo(RAN, REFUSED_HANDLER, (h: Handler) => IsLive(h));
  }

  lemma ReachesTheStore()
    ensures Run(true, START, OVERLAP[..8] + REFUSAL + [STORE]) == STORED_OVER
    ensures Acceptances(STORED_OVER) == 0
  {
    ReachesRefusal();
    ThenStored();
    RunAppend(true, START, OVERLAP[..8] + REFUSAL, [STORE]);
    CountOfTwo(STORED_OVER.handlers[0], REFUSED_HANDLER, (h: Handler) => h.sent.Some? && ReallyAccepted(h.sent.value));
  }

  /** Nothing of the notice was accepted or in flight, and yet two newcomers get the command's reply accepted. */
  lemma LateRefusalAcceptsTwice()
    ensures Live(Run(true, START, OVERLAP[..8] + REFUSAL)) == 0
    ensures Acceptances(Run(true, START, OVERLAP[..8] + REFUSAL + [STORE] + TwoNewcomers(2, 1))) == 2
  {
    ReachesRefusal();
    ReachesTheStore();
    RefusalAcceptsTwice(true, STORED_OVER, 1);
    RunAppend(true, START, OVERLAP[..8] + REFUSAL + [STORE], TwoNewcomers(2, 1));
  }
}
