/**
 One Telegram update: its row, the statements that move it, the webhook
 handler, and every interleaving of handlers for redeliveries of the update.
 */
module BotUpdates {
  import opened Counting
  import opened Prelude

  const MAX_COMMAND_REPLY_ATTEMPTS := 3

  datatype Phase = Processing | Ready | Delivered | Failed | Ignored

  /** The text a handler prepares: the command's own reply, or the notice that it was not run again. */
  datatype Reply = CommandReply | AbandonedNotice

  /** reply_text and chat_id are always written together. */
  datatype Row = Row(phase: Phase, reply: Option<Reply>, attempts: int)

  datatype Outcome = Accepted | Refused(retryable: bool) | Ambiguous(reallyAccepted: bool)

  const NEW_ROW := Row(Processing, None, 0)

  predicate CanSend(row: Row, expected: int) {
    row.phase.Ready? && row.attempts == expected && row.attempts < MAX_COMMAND_REPLY_ATTEMPTS
  }

  /** What deliver writes after attempt number `attempts`. */
  function PhaseAfter(o: Outcome, attempts: int): Phase {
    match o
    case Accepted => Delivered
    case Ambiguous(_) => Failed
    case Refused(retryable) => if retryable && attempts < MAX_COMMAND_REPLY_ATTEMPTS then Ready else Failed
  }

  predicate IsFinal(phase: Phase) {
    phase.Delivered? || phase.Failed? || phase.Ignored?
  }

  /** What the handler answers the webhook. */
  datatype Handled = ReplySent | GivenUp | Duplicate | NotForUs | Retry

  /** The answer, told from what became of the row. */
  function HandledAs(phase: Phase, sent: bool): Handled {
    match phase
    case Delivered => if sent then ReplySent else Duplicate
    case Failed => GivenUp
    case Ignored => Duplicate
    case _ => Retry
  }

  /** What the answer to attempt number `attempts` makes of the row: an unclear one is never followed by another. */
  function Answer(outcome: Outcome, attempts: int): Phase {
    if outcome == Accepted then Delivered
    else if outcome == Refused(true) && attempts < 3 then Ready
    else Failed
  }

  /** The handler that had the row is taken for dead. */
  predicate IsAbandoned(row: Row, abandoned: bool) {
    row.phase == Processing && abandoned
  }

  /** The row after a stored reply was tried. */
  function Tried(row: Row, outcome: Outcome): Row {
    if row.attempts < 3 then Row(Answer(outcome, row.attempts + 1), row.reply, row.attempts + 1)
    else row.(phase := Failed)
  }

  /** The row that one delivery of the update leaves when nobody interferes. */
  function Handling(authorised: bool, before: Option<Row>, abandoned: bool, outcome: Outcome): Row {
    if before == None then
      if authorised then Tried(Row(Ready, Some(CommandReply), 0), outcome) else Row(Ignored, None, 0)
    else
      var row := before.value;
      if row.phase == Ready && row.reply != None then Tried(row, outcome)
      else if !IsAbandoned(row, abandoned) then row
      else if row.reply != None then row.(phase := Failed)
      else if authorised then Tried(Row(Ready, Some(AbandonedNotice), row.attempts), outcome)
      else row.(phase := Ignored)
  }

  predicate ReallyAccepted(o: Outcome) {
    o.Accepted? || (o.Ambiguous? && o.reallyAccepted)
  }

  class TelegramBot {
    var row: Option<Row>
    const authorised: bool  // whether the update carries a command from the configured chat

    constructor (authorised: bool)
      ensures row.None? && this.authorised == authorised
    {
      row := None;
      this.authorised := authorised;
    }

    /** INSERT OR IGNORE, then read back. */
    method ClaimTelegramUpdate() returns (claimed: bool, current: Row)
      modifies this
      ensures claimed <==> old(row).None?
      ensures row == Some(current) && current == (if claimed then NEW_ROW else old(row).value)
    {
      claimed := row.None?;
      if claimed {
        row := Some(NEW_ROW);
      }
      current := row.value;
    }

    method ClaimTelegramReplyDelivery(expected: int) returns (claimed: bool)
      requires row.Some?
      modifies this
      ensures claimed <==> CanSend(old(row).value, expected)
      ensures claimed <==>
        old(row).value.phase == Ready && old(row).value.attempts == expected && old(row).value.attempts < 3
      ensures row == Some(if claimed then old(row).value.(phase := Processing, attempts := expected + 1)
        else old(row).value)
    {
      claimed := CanSend(row.value, expected);
      if claimed {
        row := Some(row.value.(phase := Processing, attempts := row.value.attempts + 1));
      }
    }

    /**
     Send the reply if this attempt can be claimed, and record the answer. The
     row may have moved on since it was read: then it stays as it is, and what
     it says decides whether the delivery is done or to be repeated.
     */
    method Deliver(previousAttempts: int, outcome: Outcome) returns (sent: bool, handled: Handled)
      requires row.Some?
      modifies this
      ensures row.Some? && row.value.reply == old(row).value.reply
      ensures sent <==> previousAttempts < MAX_COMMAND_REPLY_ATTEMPTS && CanSend(old(row).value, previousAttempts)
      ensures sent ==>
        row.value.phase == PhaseAfter(outcome, previousAttempts + 1) && row.value.attempts == previousAttempts + 1
      ensures !sent ==>
        row.value == if previousAttempts >= MAX_COMMAND_REPLY_ATTEMPTS then old(row).value.(phase := Failed)
          else old(row).value
      ensures handled == HandledAs(row.value.phase, sent)
    {
      if previousAttempts >= MAX_COMMAND_REPLY_ATTEMPTS {
        row := Some(row.value.(phase := Failed));
        return false, GivenUp;
      }
      sent := ClaimTelegramReplyDelivery(previousAttempts);
      if !sent {
        match row.value.phase {
          case Failed => handled := GivenUp;
          case Delivered => handled := Duplicate;
          case Ignored => handled := Duplicate;
          case _ => handled := Retry;
        }
        return;
      }
      var phase := PhaseAfter(outcome, previousAttempts + 1);
      row := Some(row.value.(phase := phase, attempts := previousAttempts + 1));
      handled := if outcome.Accepted? then ReplySent else if phase.Ready? then Retry else GivenUp;
    }

    /**
     One uninterrupted delivery of the update.  The command is dispatched only
     by the delivery that created the row, nothing is sent that the row does
     not hold, and Telegram is asked to come back exactly while the row is not
     final.
     */
    method HandleUpdate(abandoned: bool, outcome: Outcome) returns (dispatched: bool, sent: bool, handled: Handled)
      modifies this
      ensures row.Some?
      ensures dispatched <==> old(row).None? && authorised
      ensures sent ==> row.value.reply.Some? && row.value.phase == PhaseAfter(outcome, row.value.attempts)
      ensures old(row).Some? ==> row.value.attempts == old(row).value.attempts + if sent then 1 else 0
      ensures old(row).Some? && old(row).value.reply.Some? ==> row.value.reply == old(row).value.reply
      ensures old(row).Some? && IsFinal(old(row).value.phase) ==>
        row == old(row) && !sent
      ensures old(row).Some? && old(row).value.phase.Processing? && (!abandoned || old(row).value.reply.Some?) ==> !sent
      ensures (old(row).Some? && old(row).value.phase.Ready? ==> old(row).value.reply.Some?) ==>
        (handled.Retry? <==> row.value.phase.Processing? || row.value.phase.Ready?)
      // a new update: the command's own reply, or nothing for a stranger
      ensures dispatched ==> sent && row == Some(Row(Answer(outcome, 1), Some(CommandReply), 1))
      ensures old(row) == None && !authorised ==> !sent && row == Some(Row(Ignored, None, 0)) && handled == NotForUs
      // an update nobody finished: the notice, once, and never a second reply
      ensures old(row).Some? && IsAbandoned(old(row).value, abandoned) && old(row).value.reply == None && authorised ==>
        && (sent <==> old(row).value.attempts < 3)
        && row.value.reply == Some(AbandonedNotice)
        && row.value.phase == if sent then Answer(outcome, row.value.attempts) else Failed
      ensures
        && old(row).Some? && IsAbandoned(old(row).value, abandoned) && old(row).value.reply == None && !authorised
        ==>
        !sent && row == Some(Row(Ignored, None, old(row).value.attempts)) && handled == NotForUs
      ensures old(row).Some? && IsAbandoned(old(row).value, abandoned) && old(row).value.reply != None ==>
        !sent && row == Some(Row(Failed, old(row).value.reply, old(row).value.attempts)) && handled == GivenUp
      // a stored reply: sent while attempts remain
      ensures old(row).Some? && old(row).value.phase == Ready && old(row).value.reply != None ==>
        && (sent <==> old(row).value.attempts < 3)
        && row.value.phase == if sent then Answer(outcome, row.value.attempts) else Failed
      // anything else stays as it is
      ensures
        && old(row).Some? && !IsAbandoned(old(row).value, abandoned)
        && !(old(row).value.phase == Ready && old(row).value.reply != None)
        ==>
        !sent && row == old(row) && handled == if row.value.phase == Processing then Retry else Duplicate
      ensures sent ==>
        handled == if outcome == Accepted then ReplySent else if row.value.phase == Ready then Retry else GivenUp
      ensures row == Some(Handling(authorised, old(row), abandoned, outcome))
    {
      dispatched, sent, handled := false, false, Duplicate;
      var claimed, current := ClaimTelegramUpdate();
      if claimed {
        if !authorised {
          row := Some(current.(phase := Ignored));
          handled := NotForUs;
          return;
        }
        dispatched := true;
        row := Some(current.(phase := Ready, reply := Some(CommandReply)));
        sent, handled := Deliver(current.attempts, outcome);
      } else if current.phase.Ready? && current.reply.Some? {
        sent, handled := Deliver(current.attempts, outcome);
      } else if !current.phase.Processing? {
        return;
      } else if !abandoned {
        handled := Retry;
      } else if current.reply.Some? {
        row := Some(current.(phase := Failed));
        handled := GivenUp;
      } else if !authorised {
        row := Some(current.(phase := Ignored));
        handled := NotForUs;
      } else {
        row := Some(current.(phase := Ready, reply := Some(AbandonedNotice)));
        sent, handled := Deliver(current.attempts, outcome);
      }
    }
  }

  // ------------------------------------------------------------------- runs

  datatype Stage =
    | Arrived
    | Inserted(claimed: bool)
    | Executing(prev: int)                 // created the row; the command has not run
    | Prepared(prev: int)                  // the command ran; its reply is only in memory
    | Existing(seen: Row)                  // somebody else created the row; this is what it said
    | Delivering(prev: int, text: Reply)   // the reply was stored; no attempt claimed
    | Sending(attempt: int, text: Reply)   // attempt claimed; nothing sent
    | Answered(attempt: int, text: Reply, out: Outcome)
    | Over

  /** `ran` and `sent` record what the handler really did, whatever became of it. */
  datatype Handler = Handler(stage: Stage, inserted: bool, ran: bool, sent: Option<Outcome>)

  datatype State = State(row: Option<Row>, handlers: seq<Handler>)

  datatype Event =
    | Arrive
    | Step(i: nat, abandoned: bool, out: Outcome)

  /** The next statement of a handler, whose update is authorised or not: what it makes of the row and of itself. */
  function Move(authorised: bool, row: Option<Row>, h: Handler, abandoned: bool, out: Outcome): (Option<Row>, Handler) {
    if h.stage.Arrived? then
      if row.None? then (Some(NEW_ROW), h.(stage := Inserted(true), inserted := true))
        else (row, h.(stage := Inserted(false)))
    else if row.None? then (row, h)
    else
      var r := row.value;
      match h.stage
      case Arrived => (row, h)
      case Inserted(claimed) => (row, h.(stage := if claimed then Executing(r.attempts) else Existing(r)))
      case Executing(prev) =>
        if authorised then (row, h.(stage := Prepared(prev), ran := true))
          else (Some(r.(phase := Ignored)), h.(stage := Over))
      case Prepared(prev) =>
        (Some(r.(phase := Ready, reply := Some(CommandReply))), h.(stage := Delivering(prev, CommandReply)))
      case Existing(seen) =>
        if seen.phase.Ready? && seen.reply.Some? then (row, h.(stage := Delivering(seen.attempts, seen.reply.value)))
        else if !seen.phase.Processing? || !abandoned then (row, h.(stage := Over))
        else if seen.reply.Some? then (Some(r.(phase := Failed)), h.(stage := Over))
        else if !authorised then (Some(r.(phase := Ignored)), h.(stage := Over))
        else (Some(r.(phase := Ready, reply := Some(AbandonedNotice))),
          h.(stage := Delivering(seen.attempts, AbandonedNotice)))
      case Delivering(prev, text) =>
        if prev >= MAX_COMMAND_REPLY_ATTEMPTS then (Some(r.(phase := Failed)), h.(stage := Over))
        else if CanSend(r, prev)
          then (Some(r.(phase := Processing, attempts := prev + 1)), h.(stage := Sending(prev + 1, text)))
        else (row, h.(stage := Over))
      case Sending(attempt, text) => (row, h.(stage := Answered(attempt, text, out), sent := Some(out)))
      case Answered(attempt, text, o) =>
        (Some(r.(phase := PhaseAfter(o, attempt), attempts := attempt)), h.(stage := Over))
      case Over => (row, h)
  }

  function Advance(authorised: bool, s: State, i: nat, abandoned: bool, out: Outcome): State
    requires i < |s.handlers|
  {
    var m := Move(authorised, s.row, s.handlers[i], abandoned, out);
    State(m.0, s.handlers[i := m.1])
  }

  function Apply(authorised: bool, s: State, e: Event): State {
    match e
    case Arrive => s.(handlers := s.handlers + [Handler(Arrived, false, false, None)])
    case Step(i, abandoned, out) => if i < |s.handlers| then Advance(authorised, s, i, abandoned, out) else s
  }

  function Run(authorised: bool, s: State, es: seq<Event>): State
    decreases |es|
  {
    if es == [] then s else Run(authorised, Apply(authorised, s, es[0]), es[1..])
  }

  const START := State(None, [])

  function Dispatches(s: State): nat {
    Count(s.handlers, (h: Handler) => h.ran)
  }

  function Claims(s: State): nat {
    Count(s.handlers, (h: Handler) => h.inserted)
  }

  function Sends(s: State): nat {
    Count(s.handlers, (h: Handler) => h.sent.Some?)
  }

  /** Replies that reached the chat. */
  function Acceptances(s: State): nat {
    Count(s.handlers, (h: Handler) => h.sent.Some? && ReallyAccepted(h.sent.value))
  }

  // ------------------------------------------------- one handler on its own

  const IDLE := Handler(Arrived, false, false, None)

  /** Several statements in a row of one handler. */
  function MoveTimes(
    authorised: bool, row: Option<Row>, h: Handler, abandoned: bool, out: Outcome, k: nat): (Option<Row>, Handler)
    decreases k
  {
    if k == 0 then (row, h)
    else
      var m := Move(authorised, row, h, abandoned, out);
      MoveTimes(authorised, m.0, m.1, abandoned, out, k - 1)
  }

  function Statements(i: nat, abandoned: bool, out: Outcome, k: nat): seq<Event> {
    if k == 0 then [] else [Step(i, abandoned, out)] + Statements(i, abandoned, out, k - 1)
  }

  lemma {:induction false} StatementsAreMoves(
    authorised: bool, s: State, i: nat, abandoned: bool, out: Outcome, k: nat)
    requires i < |s.handlers|
    ensures
      var m := MoveTimes(authorised, s.row, s.handlers[i], abandoned, out, k);
      Run(authorised, s, Statements(i, abandoned, out, k)) == State(m.0, s.handlers[i := m.1])
    decreases k
  {
    if k > 0 {
      var t := Apply(authorised, s, Step(i, abandoned, out));
      StatementsAreMoves(authorised, t, i, abandoned, out, k - 1);
      assert Statements(i, abandoned, out, k)[1..] == Statements(i, abandoned, out, k - 1);
      var last := MoveTimes(authorised, t.row, t.handlers[i], abandoned, out, k - 1).1;
      assert t.handlers[i := last] == s.handlers[i := last];
    } else {
      assert s.handlers[i := s.handlers[i]] == s.handlers;
    }
  }

  lemma OneMove(authorised: bool, row: Option<Row>, h: Handler, abandoned: bool, out: Outcome, k: nat)
    requires k > 0
    ensures
      var m := Move(authorised, row, h, abandoned, out);
      MoveTimes(authorised, row, h, abandoned, out, k) == MoveTimes(authorised, m.0, m.1, abandoned, out, k - 1)
  {
  }

  lemma {:induction false} OverStays(
    authorised: bool, row: Option<Row>, h: Handler, abandoned: bool, out: Outcome, k: nat)
    requires h.stage.Over?
    ensures MoveTimes(authorised, row, h, abandoned, out, k) == (row, h)
    decreases k
  {
    if k > 0 {
      OverStays(authorised, row, h, abandoned, out, k - 1);
    }
  }

  /** From a stored reply on: it is tried once. */
  lemma DeliveringAlone(authorised: bool, row: Row, h: Handler, abandoned: bool, out: Outcome, k: nat)
    requires k >= 4 && row.phase == Ready && row.reply.Some? && h.stage == Delivering(row.attempts, row.reply.value)
    ensures
      var m := MoveTimes(authorised, Some(row), h, abandoned, out, k);
      && m.0 == Some(Tried(row, out)) && m.1.stage.Over? && m.1.ran == h.ran
      && m.1.sent == if row.attempts < 3 then Some(out) else h.sent
  {
    var m1 := Move(authorised, Some(row), h, abandoned, out);
    OneMove(authorised, Some(row), h, abandoned, out, k);
    if m1.1.stage.Over? {
      OverStays(authorised, m1.0, m1.1, abandoned, out, k - 1);
    } else {
      var m2 := Move(authorised, m1.0, m1.1, abandoned, out);
      var m3 := Move(authorised, m2.0, m2.1, abandoned, out);
      OneMove(authorised, m1.0, m1.1, abandoned, out, k - 1);
      OneMove(authorised, m2.0, m2.1, abandoned, out, k - 2);
      OverStays(authorised, m3.0, m3.1, abandoned, out, k - 3);
    }
  }

  lemma CreatingAlone(authorised: bool, abandoned: bool, out: Outcome)
    ensures
      var m := MoveTimes(authorised, None, IDLE, abandoned, out, 8);
      && m.0 == Some(Handling(authorised, None, abandoned, out))
      && m.1.stage.Over? && m.1.ran == authorised && m.1.sent == if authorised then Some(out) else None
  {
    var m1 := Move(authorised, None, IDLE, abandoned, out);
    var m2 := Move(authorised, m1.0, m1.1, abandoned, out);
    var m3 := Move(authorised, m2.0, m2.1, abandoned, out);
    OneMove(authorised, None, IDLE, abandoned, out, 8);
    OneMove(authorised, m1.0, m1.1, abandoned, out, 7);
    OneMove(authorised, m2.0, m2.1, abandoned, out, 6);
    if authorised {
      var m4 := Move(authorised, m3.0, m3.1, abandoned, out);
      OneMove(authorised, m3.0, m3.1, abandoned, out, 5);
      DeliveringAlone(authorised, m4.0.value, m4.1, abandoned, out, 4);
    } else {
      OverStays(authorised, m3.0, m3.1, abandoned, out, 5);
    }
  }

  lemma FindingAlone(authorised: bool, row: Row, abandoned: bool, out: Outcome)
    ensures
      var m := MoveTimes(authorised, Some(row), IDLE, abandoned, out, 8);
      m.0 == Some(Handling(authorised, Some(row), abandoned, out)) && m.1.stage.Over? && !m.1.ran
  {
    var m1 := Move(authorised, Some(row), IDLE, abandoned, out);
    var m2 := Move(authorised, m1.0, m1.1, abandoned, out);
    var m3 := Move(authorised, m2.0, m2.1, abandoned, out);
    OneMove(authorised, Some(row), IDLE, abandoned, out, 8);
    OneMove(authorised, m1.0, m1.1, abandoned, out, 7);
    OneMove(authorised, m2.0, m2.1, abandoned, out, 6);
    if m3.1.stage.Over? {
      OverStays(authorised, m3.0, m3.1, abandoned, out, 5);
    } else {
      DeliveringAlone(authorised, m3.0.value, m3.1, abandoned, out, 5);
    }
  }

  /**
   A handler that nobody interferes with, from its arrival to its end, leaves
   the row that `HandleUpdate` leaves, and runs the command exactly for a new
   and authorised update.
   */
  lemma HandlerAloneHandles(authorised: bool, s: State, abandoned: bool, out: Outcome)
    ensures
      var t := Run(authorised, s, [Arrive] + Statements(|s.handlers|, abandoned, out, 8));
      && t.row == Some(Handling(authorised, s.row, abandoned, out))
      && |t.handlers| == |s.handlers| + 1 && t.handlers[..|s.handlers|] == s.handlers
      && t.handlers[|s.handlers|].stage.Over? && t.handlers[|s.handlers|].ran == (s.row.None? && authorised)
  {
    var n := |s.handlers|;
    var arrived := Apply(authorised, s, Arrive);
    assert ([Arrive] + Statements(n, abandoned, out, 8))[1..] == Statements(n, abandoned, out, 8);
    StatementsAreMoves(authorised, arrived, n, abandoned, out, 8);
    if s.row.None? {
      CreatingAlone(authorised, abandoned, out);
    } else {
      FindingAlone(authorised, s.row.value, abandoned, out);
    }
  }

  // ------------------------------------- the command's reply follows the command

  predicate HasText(stage: Stage, text: Reply) {
    (stage.Delivering? || stage.Sending? || stage.Answered?) && stage.text == text
  }

  /** Where a handler stands only once the command ran. */
  predicate PresumesRun(h: Handler) {
    h.stage.Prepared? || HasText(h.stage, CommandReply)
      || (h.stage.Existing? && h.stage.seen.reply == Some(CommandReply))
  }

  predicate RowPresumesRun(row: Option<Row>) {
    row.Some? && row.value.reply == Some(CommandReply)
  }

  ghost predicate RanFirst(s: State) {
    && (RowPresumesRun(s.row) ==> Dispatches(s) > 0)
    && forall i :: 0 <= i < |s.handlers| && PresumesRun(s.handlers[i]) ==> Dispatches(s) > 0
  }

  /** Nothing presumes the run of the command but what presumed it before or the run itself. */
  lemma MovePresumes(authorised: bool, row: Option<Row>, h: Handler, abandoned: bool, out: Outcome)
    ensures
      var m := Move(authorised, row, h, abandoned, out);
      && (h.ran ==> m.1.ran)
      && (PresumesRun(m.1) || RowPresumesRun(m.0) ==> m.1.ran || PresumesRun(h) || RowPresumesRun(row))
  {
  }

  lemma StepKeepsRanFirst(authorised: bool, s: State, e: Event)
    requires RanFirst(s)
    ensures RanFirst(Apply(authorised, s, e))
  {
    var ran := (h: Handler) => h.ran;
    var t := Apply(authorised, s, e);
    if e.Arrive? {
      CountAppend(s.handlers, IDLE, ran);
    } else if e.i < |s.handlers| {
      MovePresumes(authorised, s.row, s.handlers[e.i], e.abandoned, e.out);
      CountUpdate(s.handlers, e.i, t.handlers[e.i], ran);
      if t.handlers[e.i].ran {
        CountMember(t.handlers, e.i, ran);
      }
    }
  }

  lemma {:induction false} RunKeepsRanFirst(authorised: bool, s: State, es: seq<Event>)
    requires RanFirst(s)
    ensures RanFirst(Run(authorised, s, es))
    decreases |es|
  {
    if es != [] {
      StepKeepsRanFirst(authorised, s, es[0]);
      RunKeepsRanFirst(authorised, Apply(authorised, s, es[0]), es[1..]);
    }
  }

  /** However handlers overlap and die: the command's reply is stored, sent or answered only if the command ran. */
  lemma RepliesFollowTheCommand(authorised: bool, es: seq<Event>)
    ensures
      var t := Run(authorised, START, es);
      (t.row.Some? && t.row.value.reply == Some(CommandReply))
      || (exists i :: 0 <= i < |t.handlers| && HasText(t.handlers[i].stage, CommandReply))
      ==> authorised && Dispatches(t) == 1
  {
    RunKeepsRanFirst(authorised, START, es);
    DispatchedAtMostOnce(authorised, es);
  }

  // ------------------------------------------- at most one execution, always

  predicate HandlerOk(h: Handler) {
    && (h.ran ==> h.inserted)
    && (h.stage.Executing? || h.stage.Prepared? || (h.stage.Inserted? && h.stage.claimed) ==> h.inserted)
  }

  ghost predicate ClaimInv(s: State) {
    && Claims(s) <= (if s.row.Some? then 1 else 0)
    && forall i :: 0 <= i < |s.handlers| ==> HandlerOk(s.handlers[i])
  }

  lemma MoveKeepsClaim(authorised: bool, row: Option<Row>, h: Handler, abandoned: bool, out: Outcome)
    requires HandlerOk(h)
    ensures
      var m := Move(authorised, row, h, abandoned, out);
      && HandlerOk(m.1) && (h.inserted ==> m.1.inserted) && (row.Some? ==> m.0.Some?)
      && (m.1.inserted && !h.inserted ==> row.None? && m.0.Some?)
  {
  }

  lemma ArrivalKeepsClaims(authorised: bool, s: State)
    requires ClaimInv(s)
    ensures ClaimInv(Apply(authorised, s, Arrive))
  {
    CountAppend(s.handlers, Handler(Arrived, false, false, None), (h: Handler) => h.inserted);
  }

  lemma AdvanceKeepsClaims(authorised: bool, s: State, i: nat, abandoned: bool, out: Outcome)
    requires ClaimInv(s) && i < |s.handlers|
    ensures ClaimInv(Advance(authorised, s, i, abandoned, out))
  {
    var h := s.handlers[i];
    var m := Move(authorised, s.row, h, abandoned, out);
    var handlers := s.handlers[i := m.1];
    assert HandlerOk(h);
    MoveKeepsClaim(authorised, s.row, h, abandoned, out);
    CountUpdate(s.handlers, i, m.1, (h: Handler) => h.inserted);
    forall j | 0 <= j < |handlers| ensures HandlerOk(handlers[j]) {
      assert j != i ==> HandlerOk(s.handlers[j]);
    }
  }

  lemma StepKeepsClaims(authorised: bool, s: State, e: Event)
    requires ClaimInv(s)
    ensures ClaimInv(Apply(authorised, s, e))
  {
    if e.Arrive? {
      ArrivalKeepsClaims(authorised, s);
    } else if e.i < |s.handlers| {
      AdvanceKeepsClaims(authorised, s, e.i, e.abandoned, e.out);
    }
  }

  lemma {:induction false} RunKeepsClaims(authorised: bool, s: State, es: seq<Event>)
    requires ClaimInv(s)
    ensures ClaimInv(Run(authorised, s, es))
    decreases |es|
  {
    if es != [] {
      StepKeepsClaims(authorised, s, es[0]);
      RunKeepsClaims(authorised, Apply(authorised, s, es[0]), es[1..]);
    }
  }

  /** However often the update is redelivered and however handlers interleave or die: the command runs at most once. */
  lemma DispatchedAtMostOnce(authorised: bool, es: seq<Event>)
    ensures Dispatches(Run(authorised, START, es)) <= 1
    ensures !authorised ==> Dispatches(Run(authorised, START, es)) == 0
  {
    RunKeepsClaims(authorised, START, es);
    var t := Run(authorised, START, es);
    forall h | h in t.handlers && h.ran ensures h.inserted {
      assert HandlerOk(h);
    }
    CountImplies(t.handlers, (h: Handler) => h.ran, (h: Handler) => h.inserted);
    if !authorised {
      NeverRuns(START, es);
    }
  }

  lemma {:induction false} NeverRuns(s: State, es: seq<Event>)
    requires Dispatches(s) == 0
    ensures Dispatches(Run(false, s, es)) == 0
    decreases |es|
  {
    if es != [] {
      var t := Apply(false, s, es[0]);
      var ran := (h: Handler) => h.ran;
      if es[0].Arrive? {
        CountAppend(s.handlers, t.handlers[|s.handlers|], ran);
      } else if es[0].i < |s.handlers| {
        assert t.handlers == s.handlers[es[0].i := t.handlers[es[0].i]];
        CountUpdate(s.handlers, es[0].i, t.handlers[es[0].i], ran);
      }
      NeverRuns(t, es[1..]);
    }
  }

  // ------------------------------------ serial handlers that may die anywhere

  /** Only the newest handler still moves: the earlier ones have ended or died. */
  predicate IsSerial(s: State, e: Event) {
    e.Step? ==> e.i + 1 == |s.handlers|
  }

  ghost predicate Serial(authorised: bool, s: State, es: seq<Event>)
    decreases |es|
  {
    es == [] || (IsSerial(s, es[0]) && Serial(authorised, Apply(authorised, s, es[0]), es[1..]))
  }

  /** What the row says about the replies sent so far, given what the newest handler is doing. */
  ghost predicate SerialInv(s: State) {
    && (s.row.None? ==> Sends(s) == 0 && Acceptances(s) == 0 && forall i :: 0 <= i < |s.handlers| ==>
      s.handlers[i].stage.Arrived?)
    && (s.row.Some? ==> RowOk(Sends(s), Acceptances(s), s.row.value))
    && (s.row.Some? && s.handlers != [] ==>
          NewestOk(Sends(s), Acceptances(s), s.row.value, s.handlers[|s.handlers| - 1]))
  }

  predicate RowOk(sends: nat, accepted: nat, row: Row) {
    && sends <= row.attempts <= MAX_COMMAND_REPLY_ATTEMPTS && accepted <= 1 && accepted <= sends
    && (row.phase.Ready? ==> row.reply.Some? && accepted == 0 && row.attempts < MAX_COMMAND_REPLY_ATTEMPTS)
    && (row.reply.None? ==> row.attempts == 0 && accepted == 0)
  }

  predicate NewestOk(sends: nat, accepted: nat, row: Row, h: Handler) {
    && (h.sent.Some? ==> h.stage.Answered? || h.stage.Over?)
    && match h.stage
    case Arrived => true
    case Inserted(claimed) => claimed ==> row == NEW_ROW
    case Executing(prev) => row == NEW_ROW && prev == 0
    case Prepared(prev) => row == NEW_ROW && prev == 0
    case Existing(seen) => seen == row
    case Delivering(prev, text) => row.phase.Ready? && row.attempts == prev && row.reply == Some(text)
    case Sending(attempt, text) =>
      row.phase.Processing? && row.attempts == attempt && row.reply == Some(text) && accepted == 0 && sends < attempt
    case Answered(attempt, text, o) =>
      row.phase.Processing? && row.attempts == attempt && row.reply == Some(text)
      && h.sent == Some(o) && accepted == if ReallyAccepted(o) then 1 else 0
    case Over => true
  }

  function Sent(h: Handler): int {
    if h.sent.Some? then 1 else 0
  }

  function Reached(h: Handler): int {
    if h.sent.Some? && ReallyAccepted(h.sent.value) then 1 else 0
  }

  /** One statement keeps the row and the newest handler in order. */
  ghost predicate KeepsSerial(
    authorised: bool, sends: nat, accepted: nat, row: Row, h: Handler, abandoned: bool, out: Outcome)
  {
    var m := Move(authorised, Some(row), h, abandoned, out);
    var sends' := sends - Sent(h) + Sent(m.1);
    var accepted' := accepted - Reached(h) + Reached(m.1);
    && m.0.Some? && sends' >= 0 && accepted' >= 0
    && RowOk(sends', accepted', m.0.value) && NewestOk(sends', accepted', m.0.value, m.1)
  }

  lemma CreatingKeepsSerial(
    authorised: bool, sends: nat, accepted: nat, row: Row, h: Handler, abandoned: bool, out: Outcome)
    requires RowOk(sends, accepted, row) && NewestOk(sends, accepted, row, h)
    requires h.stage.Arrived? || h.stage.Inserted? || h.stage.Executing? || h.stage.Prepared?
    ensures KeepsSerial(authorised, sends, accepted, row, h, abandoned, out)
  {
  }

  lemma FindingKeepsSerial(
    authorised: bool, sends: nat, accepted: nat, row: Row, h: Handler, abandoned: bool, out: Outcome)
    requires RowOk(sends, accepted, row) && NewestOk(sends, accepted, row, h)
    requires h.stage.Existing? || h.stage.Delivering?
    ensures KeepsSerial(authorised, sends, accepted, row, h, abandoned, out)
  {
  }

  lemma SendingKeepsSerial(
    authorised: bool, sends: nat, accepted: nat, row: Row, h: Handler, abandoned: bool, out: Outcome)
    requires RowOk(sends, accepted, row) && NewestOk(sends, accepted, row, h)
    requires h.stage.Sending? || h.stage.Answered? || h.stage.Over?
    ensures KeepsSerial(authorised, sends, accepted, row, h, abandoned, out)
  {
  }

  lemma MoveKeepsSerial(
    authorised: bool, sends: nat, accepted: nat, row: Row, h: Handler, abandoned: bool, out: Outcome)
    requires RowOk(sends, accepted, row) && NewestOk(sends, accepted, row, h)
    ensures KeepsSerial(authorised, sends, accepted, row, h, abandoned, out)
  {
    match h.stage
    case Existing(_) => FindingKeepsSerial(authorised, sends, accepted, row, h, abandoned, out);
    case Delivering(_, _) => FindingKeepsSerial(authorised, sends, accepted, row, h, abandoned, out);
    case Sending(_, _) => SendingKeepsSerial(authorised, sends, accepted, row, h, abandoned, out);
    case Answered(_, _, _) => SendingKeepsSerial(authorised, sends, accepted, row, h, abandoned, out);
    case Over => SendingKeepsSerial(authorised, sends, accepted, row, h, abandoned, out);
    case _ => CreatingKeepsSerial(authorised, sends, accepted, row, h, abandoned, out);
  }

  /** The counts move by what the one moving handler sent. */
  lemma CountsMove(s: State, i: nat, h: Handler)
    requires i < |s.handlers|
    ensures
      var t := s.handlers[i := h];
      && Count(t, (x: Handler) => x.sent.Some?) == Sends(s) - Sent(s.handlers[i]) + Sent(h)
      && Count(t, (x: Handler) => x.sent.Some? && ReallyAccepted(x.sent.value))
         == Acceptances(s) - Reached(s.handlers[i]) + Reached(h)
  {
    CountUpdate(s.handlers, i, h, (x: Handler) => x.sent.Some?);
    CountUpdate(s.handlers, i, h, (x: Handler) => x.sent.Some? && ReallyAccepted(x.sent.value));
  }

  lemma {:induction false} SerialStep(authorised: bool, s: State, e: Event)
    requires SerialInv(s) && e.Step? && e.i + 1 == |s.handlers|
    ensures SerialInv(Apply(authorised, s, e))
  {
    var h := s.handlers[e.i];
    var m := Move(authorised, s.row, h, e.abandoned, e.out);
    CountsMove(s, e.i, m.1);
    if s.row.Some? {
      MoveKeepsSerial(authorised, Sends(s), Acceptances(s), s.row.value, h, e.abandoned, e.out);
    }
  }

  lemma SerialArrival(authorised: bool, s: State)
    requires SerialInv(s)
    ensures SerialInv(Apply(authorised, s, Arrive))
  {
    var h := Handler(Arrived, false, false, None);
    CountAppend(s.handlers, h, (h: Handler) => h.sent.Some?);
    CountAppend(s.handlers, h, (h: Handler) => h.sent.Some? && ReallyAccepted(h.sent.value));
  }

  lemma {:induction false} SerialEvent(authorised: bool, s: State, e: Event)
    requires SerialInv(s) && IsSerial(s, e)
    ensures SerialInv(Apply(authorised, s, e))
  {
    if e.Arrive? {
      SerialArrival(authorised, s);
    } else {
      SerialStep(authorised, s, e);
    }
  }

  lemma {:induction false} RunKeepsSerial(authorised: bool, s: State, es: seq<Event>)
    requires SerialInv(s) && Serial(authorised, s, es)
    ensures SerialInv(Run(authorised, s, es))
    decreases |es|
  {
    if es != [] {
      SerialEvent(authorised, s, es[0]);
      RunKeepsSerial(authorised, Apply(authorised, s, es[0]), es[1..]);
    }
  }

  /**
   With one handler at a time, each free to die between any two statements:
   the reply is accepted at most once, sent at most three times, and whatever
   is being sent is what the row already holds.
   */
  lemma SerialRepliesOnce(authorised: bool, es: seq<Event>)
    requires Serial(authorised, START, es)
    ensures
      var t := Run(authorised, START, es);
      && Acceptances(t) <= 1 && Sends(t) <= MAX_COMMAND_REPLY_ATTEMPTS
      && (t.handlers != [] && t.handlers[|t.handlers| - 1].stage.Sending? ==>
            t.row.Some? && t.row.value.reply == Some(t.handlers[|t.handlers| - 1].stage.text))
  {
    RunKeepsSerial(authorised, START, es);
  }

  const OK := Accepted

  /**
   Two handlers at once: the first is still running its command when the
   second gives it up, replies and is answered; the first then stores its own
   reply over the delivered row, and a third delivery sends that one too.
   */
  const OVERLAP: seq<Event> := [
    Arrive, Step(0, false, OK), Step(0, false, OK), Step(0, false, OK),
    Arrive, Step(1, false, OK), Step(1, false, OK), Step(1, true, OK), Step(1, false, OK), Step(1, false, OK),
    Step(1, false, OK),
    Step(0, false, OK),
    Arrive, Step(2, false, OK), Step(2, false, OK), Step(2, false, OK), Step(2, false, OK), Step(2, false, OK)]

  lemma {:induction false} RunAppend(authorised: bool, s: State, a: seq<Event>, b: seq<Event>)
    ensures Run(authorised, s, a + b) == Run(authorised, Run(authorised, s, a), b)
    decreases |a|
  {
    if a == [] {
      assert a + b == b;
    } else {
      RunAppend(authorised, Apply(authorised, s, a[0]), a[1..], b);
      assert (a + b)[1..] == a[1..] + b;
    }
  }

  ghost predicate Reaches(k: nat, s: State)
    requires k <= |OVERLAP|
  {
    Run(true, START, OVERLAP[..k]) == s
  }

  lemma {:induction false} Next(k: nat, s: State, t: State)
    requires k < |OVERLAP| && Reaches(k, s) && t == Apply(true, s, OVERLAP[k])
    ensures Reaches(k + 1, t)
  {
    RunAppend(true, START, OVERLAP[..k], [OVERLAP[k]]);
    assert OVERLAP[..k + 1] == OVERLAP[..k] + [OVERLAP[k]];
  }

  const RAN := Handler(Prepared(0), true, true, None)
  const REPLIED := Handler(Over, false, false, Some(OK))

  const TAKEN := Some(NEW_ROW)
  const NOTICE := Some(AbandonedNotice)

  const CLAIMED := State(TAKEN, [Handler(Executing(0), true, false, None)])

  /** The first handler claims the update. */
  lemma OverlapStarts()
    ensures Reaches(3, CLAIMED)
  {
    var s2 := State(TAKEN, [Handler(Inserted(true), true, false, None)]);
    Next(0, START, State(None, [IDLE]));
    Next(1, State(None, [IDLE]), s2);
    Next(2, s2, CLAIMED);
  }

  /** It runs its command and stops before storing the reply; the update is delivered again. */
  lemma OverlapRuns()
    ensures Reaches(5, State(TAKEN, [RAN, IDLE]))
  {
    OverlapStarts();
    Next(3, CLAIMED, State(TAKEN, [RAN]));
    Next(4, State(TAKEN, [RAN]), State(TAKEN, [RAN, IDLE]));
  }

  const NOTICED :=
    State(Some(Row(Ready, NOTICE, 0)), [RAN, Handler(Delivering(0, AbandonedNotice), false, false, None)])

  /** The second handler gives the first up. */
  lemma OverlapGivesUp()
    ensures Reaches(8, NOTICED)
  {
    OverlapRuns();
    var s6 := State(TAKEN, [RAN, Handler(Inserted(false), false, false, None)]);
    var s7 := State(TAKEN, [RAN, Handler(Existing(NEW_ROW), false, false, None)]);
    Next(5, State(TAKEN, [RAN, IDLE]), s6);
    Next(6, s6, s7);
    Next(7, s7, NOTICED);
  }

  const TOLD := State(Some(Row(Delivered, NOTICE, 1)), [RAN, REPLIED])

  const NOTIFYING := State(
    Some(Row(Processing, NOTICE, 1)), [RAN, Handler(Sending(1, AbandonedNotice), false, false, None)])

  lemma OverlapClaims()
    ensures Reaches(9, NOTIFYING)
  {
    OverlapGivesUp();
    Next(8, NOTICED, NOTIFYING);
  }

  /** Its notice is accepted. */
  lemma OverlapReplies()
    ensures Reaches(11, TOLD)
  {
    OverlapClaims();
    var s10 := State(
      NOTIFYING.row, [RAN, Handler(Answered(1, AbandonedNotice, OK), false, false, Some(OK))]);
    Next(9, NOTIFYING, s10);
    Next(10, s10, TOLD);
  }

  const STORED := Row(Ready, Some(CommandReply), 1)
  const LATE := Handler(Delivering(0, CommandReply), true, true, None)
  const AGAIN := Handler(Answered(2, CommandReply, OK), false, false, Some(OK))

  const RESTORED := State(Some(STORED), [LATE, REPLIED, Handler(Inserted(false), false, false, None)])
  const LAST := State(Some(Row(Processing, Some(CommandReply), 2)), [LATE, REPLIED, AGAIN])

  /** The first stores its own reply over the delivered row, and a third handler comes. */
  lemma OverlapStoresAgain()
    ensures Reaches(14, RESTORED)
  {
    OverlapReplies();
    Next(11, TOLD, State(Some(STORED), [LATE, REPLIED]));
    Next(12, State(Some(STORED), [LATE, REPLIED]), State(Some(STORED), [LATE, REPLIED, IDLE]));
    Next(13, State(Some(STORED), [LATE, REPLIED, IDLE]), RESTORED);
  }

  /** It finds the stored reply and sends it. */
  lemma OverlapSendsAgain()
    ensures Reaches(18, LAST)
  {
    OverlapStoresAgain();
    var s15 := State(Some(STORED), [LATE, REPLIED, Handler(Existing(STORED), false, false, None)]);
    var s16 := State(Some(STORED), [LATE, REPLIED, Handler(Delivering(1, CommandReply), false, false, None)]);
    var s17 := State(LAST.row, [LATE, REPLIED, Handler(Sending(2, CommandReply), false, false, None)]);
    Next(14, RESTORED, s15);
    Next(15, s15, s16);
    Next(16, s16, s17);
    Next(17, s17, LAST);
  }

  lemma CountThree(a: Handler, b: Handler, c: Handler, p: Handler -> bool)
    ensures Count([a, b, c], p) == (if p(a) then 1 else 0) + (if p(b) then 1 else 0) + (if p(c) then 1 else 0)
  {
    CountAppend([], a, p);
    CountAppend([a], b, p);
    CountAppend([a, b], c, p);
    assert [a, b, c] == [a, b] + [c] && [a, b] == [a] + [b] && [a] == [] + [a];
  }

  lemma ConcurrentRecoveryRepliesTwice()
    ensures Acceptances(Run(true, START, OVERLAP)) == 2
  {
    OverlapSendsAgain();
    assert OVERLAP[..18] == OVERLAP;
    CountThree(LATE, REPLIED, AGAIN, (h: Handler) => h.sent.Some? && ReallyAccepted(h.sent.value));
  }
}
