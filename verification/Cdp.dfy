/**
 One DevTools command under its deadlines: `send`, `alive`, `page_answers` and `after_deadline` of
 crates/fastbrowse-browser/src/cdp.rs. Times are seconds; when a reply lands and how a probe is answered is up to a
 `Wire`.
 */
module Cdp {
  import opened Common

  const ALIVE_SECONDS := 10.0
  const PAGE_SECONDS := 10.0
  const REPLY_SECONDS := 60.0
  const COMMAND_SECONDS := 120.0
  const INPUT_SECONDS := 15.0
  const DEADLINES_BEFORE_STOP: nat := 2

  function CommandSeconds(input: bool): real {
    if input then INPUT_SECONDS else COMMAND_SECONDS
  }

  datatype Outcome = Success | ProtocolError | Closed

  /** When a command's reply lands. */
  datatype Landing = Landing(at: real, outcome: Outcome)

  /** How a probe is answered: how long after it was sent, and whether what comes back counts as an answer. */
  datatype Answer = Answer(after: real, counts: bool)

  /** The command's reply, how each probe is answered by the time it is sent, and when another command was answered. */
  datatype Wire = Wire(
    reply: Option<Landing>, browser: real -> Option<Answer>, page: real -> Option<Answer>, othersAnswered: real -> bool)

  /** A probe is given up after `ALIVE_SECONDS`. */
  function Delay(answer: Option<Answer>): (delay: real)
    ensures 0.0 <= delay <= ALIVE_SECONDS
  {
    if answer.None? || answer.value.after > ALIVE_SECONDS then ALIVE_SECONDS
    else if answer.value.after < 0.0 then 0.0
    else answer.value.after
  }

  predicate Counts(answer: Option<Answer>) {
    answer.Some? && answer.value.after <= ALIVE_SECONDS && answer.value.counts
  }

  predicate Landed(w: Wire, now: real) {
    w.reply.Some? && w.reply.value.at <= now
  }

  datatype Verdict = Replied(outcome: Outcome) | PageUnresponsive | BrowserUnresponsive | NotSent

  /** How and when a command ends, and whether the browser is known to answer by then. */
  datatype Ending = Ending(at: real, verdict: Verdict, answered: bool)

  function Reply(w: Wire, now: real, answered: bool): Ending
    requires Landed(w, now)
  {
    var outcome := w.reply.value.outcome;
    Ending(now, Replied(outcome), answered || outcome != Closed)
  }

  /** Past the deadline: a reply that landed, else whether the browser is still there. */
  function AfterDeadline(w: Wire, now: real, answered: bool): Ending {
    if Landed(w, now) then Reply(w, now, answered)
    else
      var later, alive := now + Delay(w.browser(now)), Counts(w.browser(now));
      if Landed(w, later) then Reply(w, later, answered || alive)
      else Ending(later, if alive then PageUnresponsive else BrowserUnresponsive, answered || alive)
  }

  function Wait(answered: bool, session: bool): (wait: real)
    ensures wait >= 10.0
  {
    if !answered then ALIVE_SECONDS else if session then PAGE_SECONDS else REPLY_SECONDS
  }

  function Earlier(a: real, b: real): real {
    if a <= b then a else b
  }

  /** Where a round of probes leaves a command that had no reply by `now`, before the deadline. */
  datatype Probed = Probed(at: real, late: bool, alive: bool, pageAnswers: bool)

  function Probe(w: Wire, session: bool, deadline: real, now: real): (p: Probed)
    requires now < deadline
    ensures now <= p.at <= deadline && p.at <= now + 20.0
    ensures p.alive && !p.late ==> Counts(w.browser(now))
  {
    var asked := now + Delay(w.browser(now));
    if asked > deadline then Probed(deadline, true, false, false)
    else
      var alive := Counts(w.browser(now));
      if !session || !alive then Probed(asked, false, alive, true)
      else
        var told := asked + Delay(w.page(asked));
        if told > deadline then Probed(deadline, false, true, false)
        else Probed(told, false, true, Counts(w.page(asked)))
  }

  /** What one wait, and the probes after it, come to: an ending, or another round. */
  datatype Turn = Over(ending: Ending) | Again(at: real, known: bool)

  /** What the probes of a round come to, when they are sent at `until`. */
  function AfterProbe(w: Wire, session: bool, deadline: real, until: real, answered: bool): (turn: Turn)
    requires until < deadline
    ensures turn.Again? ==> until <= turn.at <= deadline
  {
    var p := Probe(w, session, deadline, until);
    var told := answered || p.alive;
    if p.late then Over(AfterDeadline(w, p.at, told))
    else if Landed(w, p.at) then Over(Reply(w, p.at, told))
    else if !p.pageAnswers then Over(AfterDeadline(w, p.at, told))
    else if !p.alive then Over(Ending(p.at, BrowserUnresponsive, told))
    else Again(p.at, told)
  }

  function Round(w: Wire, session: bool, deadline: real, now: real, known: bool): (turn: Turn)
    requires now <= deadline
    ensures turn.Again? ==> now + 10.0 <= turn.at <= deadline
  {
    var answered := known || w.othersAnswered(now);
    var until := Earlier(now + Wait(answered, session), deadline);
    if Landed(w, until) then Over(Reply(w, if w.reply.value.at <= now then now else w.reply.value.at, answered))
    else if until >= deadline then Over(AfterDeadline(w, until, answered))
    else AfterProbe(w, session, deadline, until, answered)
  }

  /** The rounds of waiting and probing from `now` on. */
  function Rounds(w: Wire, session: bool, deadline: real, now: real, known: bool): Ending
    requires now <= deadline
    decreases deadline - now
  {
    match Round(w, session, deadline, now, known)
    case Over(ending) => ending
    case Again(at, told) => Rounds(w, session, deadline, at, told)
  }

  /** One command, sent at `now`. */
  function Sent(w: Wire, input: bool, session: bool, now: real, known: bool): Ending {
    Rounds(w, session, now + CommandSeconds(input), now, known)
  }

  // ---------------------------------------------------------------------------------------------------------------
  // What a verdict says
  // ---------------------------------------------------------------------------------------------------------------

  /** What every ending keeps to, of a command sent at `start` with its deadline at `deadline`. */
  ghost predicate Fair(w: Wire, start: real, deadline: real, e: Ending) {
    && start <= e.at <= deadline + ALIVE_SECONDS && e.verdict != NotSent
    && (e.verdict.Replied? ==> Landed(w, e.at) && e.verdict.outcome == w.reply.value.outcome)
    && (!e.verdict.Replied? ==> !Landed(w, e.at))
    && (e.verdict == PageUnresponsive ==> ProbedAlive(w, start, e.at))
    && (e.verdict == BrowserUnresponsive ==> ProbedDead(w, start, e.at))
  }

  /** A browser probe sent at `p`, after the command, was answered just when the command ended. */
  predicate AliveAt(w: Wire, start: real, end: real, p: real) {
    start <= p && p + Delay(w.browser(p)) == end && Counts(w.browser(p))
  }

  ghost predicate ProbedAlive(w: Wire, start: real, end: real) {
    exists p: real :: AliveAt(w, start, end, p)
  }

  /** A browser probe sent at `p`, after the command, was given up or refused by the time the command ended. */
  predicate DeadAt(w: Wire, start: real, end: real, p: real) {
    start <= p && p + Delay(w.browser(p)) <= end && !Counts(w.browser(p))
  }

  ghost predicate ProbedDead(w: Wire, start: real, end: real) {
    exists p: real :: DeadAt(w, start, end, p)
  }

  lemma AfterDeadlineIsFair(w: Wire, start: real, deadline: real, now: real, answered: bool)
    requires start <= now <= deadline
    ensures Fair(w, start, deadline, AfterDeadline(w, now, answered))
  {
    var e := AfterDeadline(w, now, answered);
    assert e.verdict == PageUnresponsive ==> AliveAt(w, start, e.at, now);
    assert e.verdict == BrowserUnresponsive ==> DeadAt(w, start, e.at, now);
  }

  lemma ReplyIsFair(w: Wire, start: real, deadline: real, now: real, answered: bool)
    requires start <= now <= deadline && Landed(w, now)
    ensures Fair(w, start, deadline, Reply(w, now, answered))
  {
  }

  lemma ProbesAreFair(w: Wire, session: bool, start: real, deadline: real, until: real, answered: bool)
    requires start <= until < deadline
    ensures var p := Probe(w, session, deadline, until);
            !p.late && !p.alive && !Landed(w, p.at) ==>
              Fair(w, start, deadline, Ending(p.at, BrowserUnresponsive, answered))
  {
    var p := Probe(w, session, deadline, until);
    assert !p.late && !p.alive ==> DeadAt(w, start, p.at, until);
  }

  lemma AfterProbeIsFair(w: Wire, session: bool, start: real, deadline: real, until: real, answered: bool)
    requires start <= until < deadline
    ensures var turn := AfterProbe(w, session, deadline, until, answered);
            turn.Over? ==> Fair(w, start, deadline, turn.ending)
  {
    var p := Probe(w, session, deadline, until);
    AfterDeadlineIsFair(w, start, deadline, p.at, answered || p.alive);
    ProbesAreFair(w, session, start, deadline, until, answered || p.alive);
    if Landed(w, p.at) {
      ReplyIsFair(w, start, deadline, p.at, answered || p.alive);
    }
  }

  lemma RoundIsFair(w: Wire, session: bool, start: real, deadline: real, now: real, known: bool)
    requires start <= now <= deadline
    requires w.reply.Some? ==> w.reply.value.at >= start
    ensures var turn := Round(w, session, deadline, now, known); turn.Over? ==> Fair(w, start, deadline, turn.ending)
  {
    var answered := known || w.othersAnswered(now);
    var until := Earlier(now + Wait(answered, session), deadline);
    if Landed(w, until) {
      ReplyIsFair(w, start, deadline, if w.reply.value.at <= now then now else w.reply.value.at, answered);
    } else if until >= deadline {
      AfterDeadlineIsFair(w, start, deadline, until, answered);
    } else {
      AfterProbeIsFair(w, session, start, deadline, until, answered);
    }
  }

  /**
   A command ends within its deadline and one more probe. A reply that landed is never thrown away; only a browser that
   answered a probe sent after the command makes it the page's failure, and only one that left such a probe unanswered
   its own.
   */
  lemma {:induction false} RoundsAreFair(
    w: Wire, session: bool, start: real, deadline: real, now: real, known: bool)
    requires start <= now <= deadline
    requires w.reply.Some? ==> w.reply.value.at >= start
    ensures Fair(w, start, deadline, Rounds(w, session, deadline, now, known))
    decreases deadline - now
  {
    RoundIsFair(w, session, start, deadline, now, known);
    var turn := Round(w, session, deadline, now, known);
    if turn.Again? {
      RoundsAreFair(w, session, start, deadline, turn.at, turn.known);
    }
  }

  /** A reply is noticed no later than the two probes it may land behind. */
  lemma {:induction false} ReplyIsNoticed(w: Wire, session: bool, deadline: real, now: real, known: bool)
    requires now <= deadline && w.reply.Some? && w.reply.value.at >= now
    requires Rounds(w, session, deadline, now, known).verdict.Replied?
    ensures Rounds(w, session, deadline, now, known).at <= w.reply.value.at + 20.0
    decreases deadline - now
  {
    var turn := Round(w, session, deadline, now, known);
    if turn.Again? {
      ReplyIsNoticed(w, session, deadline, turn.at, turn.known);
    }
  }

  /** Every probe is answered in time. */
  ghost predicate AllAnswer(w: Wire) {
    forall t :: Counts(w.browser(t)) && Counts(w.page(t))
  }

  /** A page that only waits on a slow server keeps its whole deadline. */
  lemma {:induction false} LivePageKeepsItsDeadline(w: Wire, session: bool, deadline: real, now: real, known: bool)
    requires now <= deadline && AllAnswer(w)
    ensures var e := Rounds(w, session, deadline, now, known);
            e.verdict.Replied? || (e.at >= deadline && e.verdict == PageUnresponsive)
    decreases deadline - now
  {
    var turn := Round(w, session, deadline, now, known);
    if turn.Again? {
      LivePageKeepsItsDeadline(w, session, deadline, turn.at, turn.known);
    }
  }

  /** A browser that answers at once, and a page behind it that answers nothing. */
  ghost predicate HungPage(w: Wire) {
    && w.reply == None
    && forall t :: w.browser(t) == Some(Answer(0.0, true)) && w.page(t) == None
  }

  /** How long such a page is waited for: one wait and two probes, or the shorter deadline of an input command. */
  lemma HungPageIsKnown(w: Wire, input: bool, now: real, known: bool)
    requires HungPage(w)
    ensures var e := Sent(w, input, true, now, known);
            e.verdict == PageUnresponsive && e.at == now + if input then INPUT_SECONDS else 20.0
  {
  }

  /** A browser that answers nothing, on this connection or any other command's. */
  ghost predicate DeadBrowser(w: Wire) {
    w.reply == None && forall t :: w.browser(t) == None && w.page(t) == None && !w.othersAnswered(t)
  }

  /**
   How long such a browser is waited for: one wait and one probe, longer only where it was known to answer and no page's
   session is at stake; an input command is asked about once more at its deadline.
   */
  lemma DeadBrowserIsKnown(w: Wire, input: bool, session: bool, now: real, known: bool)
    requires DeadBrowser(w)
    ensures var e := Sent(w, input, session, now, known);
            && e.verdict == BrowserUnresponsive && e.answered == known
            && e.at == now + (if input then 25.0 else if known && !session then 70.0 else 20.0)
  {
  }

  /** Of a page that answers every probe, a reply within the deadline is taken, however slow it is. */
  lemma SlowReplyIsTaken(w: Wire, input: bool, session: bool, now: real, known: bool)
    requires AllAnswer(w) && w.reply.Some?
    requires now <= w.reply.value.at <= now + if input then 15.0 else 120.0
    ensures var e := Sent(w, input, session, now, known);
            e.verdict == Replied(w.reply.value.outcome) && w.reply.value.at <= e.at <= w.reply.value.at + 20.0
  {
    var deadline := now + CommandSeconds(input);
    LivePageKeepsItsDeadline(w, session, deadline, now, known);
    RoundsAreFair(w, session, now, deadline, now, known);
    if Rounds(w, session, deadline, now, known).verdict.Replied? {
      ReplyIsNoticed(w, session, deadline, now, known);
    }
  }

  /** A command is over ten seconds after its deadline at the latest; a live page without a reply keeps it till then. */
  lemma CommandEnds(w: Wire, input: bool, session: bool, now: real, known: bool)
    requires w.reply.Some? ==> w.reply.value.at >= now
    ensures now <= Sent(w, input, session, now, known).at <= now + if input then 25.0 else 130.0
    ensures AllAnswer(w) && w.reply.None? ==>
              var e := Sent(w, input, session, now, known);
              e.verdict == PageUnresponsive && e.at >= now + if input then 15.0 else 120.0
  {
    var deadline := now + CommandSeconds(input);
    RoundsAreFair(w, session, now, deadline, now, known);
    if AllAnswer(w) {
      LivePageKeepsItsDeadline(w, session, deadline, now, known);
    }
  }

  /** No sign of the browser: no probe of it counts, no other command is answered, and the reply, if any, is its end. */
  ghost predicate NoSign(w: Wire) {
    && (w.reply.Some? ==> w.reply.value.outcome == Closed)
    && forall t :: !Counts(w.browser(t)) && !w.othersAnswered(t)
  }

  /** The browser comes to be known to answer by a sign of it only; a reply that is not its end is one. */
  lemma {:induction false} KnownBySigns(w: Wire, session: bool, deadline: real, now: real, known: bool)
    requires now <= deadline
    ensures var e := Rounds(w, session, deadline, now, known);
            && (NoSign(w) ==> e.answered == known)
            && (known || e.verdict in {PageUnresponsive, Replied(Success), Replied(ProtocolError)} ==> e.answered)
    decreases deadline - now
  {
    var turn := Round(w, session, deadline, now, known);
    if turn.Again? {
      KnownBySigns(w, session, deadline, turn.at, turn.known);
    }
  }

  // ---------------------------------------------------------------------------------------------------------------
  // The connection
  // ---------------------------------------------------------------------------------------------------------------

  type Session = string

  function Missed(deadlines: map<Session, nat>, session: Option<Session>): nat {
    if session.Some? && session.value in deadlines then deadlines[session.value] else 0
  }

  /** One more deadline met on a session, and on no other. */
  function Counted(deadlines: map<Session, nat>, session: Session): map<Session, nat> {
    deadlines[session := Missed(deadlines, Some(session)) + 1]
  }

  class Connection {
    var answered: bool
    var deadlines: map<Session, nat>
    var clock: real

    constructor (start: real)
      ensures !answered && deadlines == map[] && clock == start
    {
      answered, deadlines, clock := false, map[], start;
    }

    /** A reply that landed ends the command; unless it says the connection closed, the browser is known to answer. */
    method TakeReply(w: Wire) returns (verdict: Verdict)
      requires Landed(w, clock)
      modifies this`answered
      ensures Reply(w, clock, old(answered)) == Ending(clock, verdict, answered)
    {
      var outcome := w.reply.value.outcome;
      answered := answered || outcome != Closed;
      verdict := Replied(outcome);
    }

    /** Past the deadline, the browser is asked once more. */
    method AskOnceMore(w: Wire) returns (verdict: Verdict)
      modifies this`clock, this`answered
      ensures AfterDeadline(w, old(clock), old(answered)) == Ending(clock, verdict, answered)
    {
      if Landed(w, clock) {
        verdict := TakeReply(w);
        return;
      }
      var asked := clock;
      clock := clock + Delay(w.browser(asked));
      var alive := Counts(w.browser(asked));
      answered := answered || alive;
      if Landed(w, clock) {
        verdict := TakeReply(w);
        return;
      }
      verdict := if alive then PageUnresponsive else BrowserUnresponsive;
    }

    /** One round of probes, inside the deadline. */
    method ProbeOnce(w: Wire, session: bool, deadline: real) returns (verdict: Option<Verdict>)
      requires clock < deadline
      modifies this`clock, this`answered
      ensures AfterProbe(w, session, deadline, old(clock), old(answered))
           == if verdict.Some? then Over(Ending(clock, verdict.value, answered)) else Again(clock, answered)
    {
      var p := Probe(w, session, deadline, clock);
      clock, answered := p.at, answered || p.alive;
      if !p.late && Landed(w, clock) {
        var replied := TakeReply(w);
        return Some(replied);
      }
      if p.late || !p.pageAnswers {
        var last := AskOnceMore(w);
        return Some(last);
      }
      verdict := if p.alive then None else Some(BrowserUnresponsive);
    }

    /** One wait and, unless it settles the command, one round of probes. */
    method WaitAndProbe(w: Wire, session: bool, deadline: real) returns (verdict: Option<Verdict>)
      requires clock <= deadline
      modifies this`clock, this`answered
      ensures Round(w, session, deadline, old(clock), old(answered))
           == if verdict.Some? then Over(Ending(clock, verdict.value, answered)) else Again(clock, answered)
    {
      answered := answered || w.othersAnswered(clock);
      var until := Earlier(clock + Wait(answered, session), deadline);
      if Landed(w, until) {
        clock := if w.reply.value.at <= clock then clock else w.reply.value.at;
        var replied := TakeReply(w);
        return Some(replied);
      }
      clock := until;
      if clock >= deadline {
        var last := AskOnceMore(w);
        return Some(last);
      }
      verdict := ProbeOnce(w, session, deadline);
    }

    /** A command; one on a session that missed too many deadlines is refused unsent. */
    method Send(w: Wire, input: bool, session: Option<Session>) returns (verdict: Verdict)
      modifies this
      ensures old(Missed(deadlines, session)) >= DEADLINES_BEFORE_STOP ==>
                verdict == NotSent && clock == old(clock) && deadlines == old(deadlines) && answered == old(answered)
      ensures old(Missed(deadlines, session)) < DEADLINES_BEFORE_STOP ==>
                && Sent(w, input, session.Some?, old(clock), old(answered)) == Ending(clock, verdict, answered)
                && deadlines == if verdict == PageUnresponsive && session.Some?
                                then Counted(old(deadlines), session.value) else old(deadlines)
    {
      if Missed(deadlines, session) >= DEADLINES_BEFORE_STOP {
        return NotSent;
      }
      var deadline := clock + CommandSeconds(input);
      var outcome: Option<Verdict> := None;
      while outcome.None?
        invariant deadlines == old(deadlines)
        invariant outcome.None? ==>
          && clock <= deadline
          && Rounds(w, session.Some?, deadline, clock, answered)
             == Sent(w, input, session.Some?, old(clock), old(answered))
        invariant outcome.Some? ==>
          Sent(w, input, session.Some?, old(clock), old(answered)) == Ending(clock, outcome.value, answered)
        decreases outcome.None?, deadline - clock
      {
        outcome := WaitAndProbe(w, session.Some?, deadline);
      }
      verdict := outcome.value;
      if verdict == PageUnresponsive && session.Some? {
        deadlines := Counted(deadlines, session.value);
      }
    }
  }

  // ---------------------------------------------------------------------------------------------------------------
  // Many commands at once
  // ---------------------------------------------------------------------------------------------------------------

  /** A command in flight; its wire, and what was known when it began, settle what it will come to. */
  datatype Command = Command(session: Option<Session>, wire: Wire, input: bool, start: real, known: bool) {
    function Ending(): Ending {
      Sent(wire, input, session.Some?, start, known)
    }

    predicate Wastes(on: Session) {
      session == Some(on) && Ending().verdict == PageUnresponsive
    }
  }

  /**
   A command is tried; one in flight ends, or is given up by whoever sent it; or a caller counts a deadline it met
   itself. They may come in any order, even one their times would not allow.
   */
  datatype Event =
    | Begins(session: Option<Session>, wire: Wire, input: bool, at: real)
    | Ends(id: nat)
    | GivenUp(id: nat)
    | CallerMissed(on: Session)

  /**
   The connection with its commands in flight; `wasted` and `counted` are the history of a session's count: the commands
   that ended with the page unresponsive, and the deadlines counted by a caller.
   */
  datatype Traffic = Traffic(
    deadlines: map<Session, nat>, answered: bool, inFlight: map<nat, Command>, begun: nat,
    wasted: map<Session, nat>, counted: map<Session, nat>)

  const QUIET := Traffic(map[], false, map[], 0, map[], map[])

  function Next(s: Traffic, e: Event): Traffic {
    match e
    case Begins(session, w, input, at) =>
      if Missed(s.deadlines, session) >= DEADLINES_BEFORE_STOP then s
      else s.(inFlight := s.inFlight[s.begun := Command(session, w, input, at, s.answered)], begun := s.begun + 1)
    case Ends(id) =>
      if id !in s.inFlight then s
      else
        var c := s.inFlight[id];
        var over := s.(inFlight := s.inFlight - {id}, answered := s.answered || c.Ending().answered);
        if c.session.Some? && c.Wastes(c.session.value) then
          over.(deadlines := Counted(s.deadlines, c.session.value), wasted := Counted(s.wasted, c.session.value))
        else over
    case GivenUp(id) => s.(inFlight := s.inFlight - {id})
    case CallerMissed(on) => s.(deadlines := Counted(s.deadlines, on), counted := Counted(s.counted, on))
  }

  function Run(s: Traffic, events: seq<Event>): Traffic
    decreases |events|
  {
    if events == [] then s else Run(Next(s, events[0]), events[1..])
  }

  /** The commands in flight on a session. */
  function On(s: Traffic, session: Session): set<nat> {
    set id | id in s.inFlight && s.inFlight[id].session == Some(session)
  }

  /** A session never has more than `k` commands in flight. */
  predicate AtMost(s: Traffic, events: seq<Event>, session: Session, k: nat)
    decreases |events|
  {
    |On(s, session)| <= k && (events == [] || AtMost(Next(s, events[0]), events[1..], session, k))
  }

  /** Once the count is at the stop, what the session can still waste is what it has in flight. */
  ghost predicate Bounded(s: Traffic, session: Session, k: nat) {
    && (forall id :: id in s.inFlight ==> id < s.begun)
    && Missed(s.deadlines, Some(session)) == Missed(s.wasted, Some(session)) + Missed(s.counted, Some(session))
    && (Missed(s.deadlines, Some(session)) >= DEADLINES_BEFORE_STOP ==>
          Missed(s.wasted, Some(session)) + |On(s, session)| <= k + 1)
  }

  lemma OnAfter(s: Traffic, e: Event, session: Session)
    requires forall id :: id in s.inFlight ==> id < s.begun
    ensures var now, t := On(s, session), Next(s, e);
            On(t, session) == match e
                              case Begins(on, _, _, _) =>
                                if on == Some(session) && t != s then now + {s.begun} else now
                              case Ends(id) => now - {id}
                              case GivenUp(id) => now - {id}
                              case CallerMissed(_) => now
  {
  }

  predicate Wastes(s: Traffic, e: Event, session: Session) {
    e.Ends? && e.id in s.inFlight && s.inFlight[e.id].Wastes(session)
  }

  lemma CountsAfter(s: Traffic, e: Event, session: Session)
    ensures var t, wastes, called := Next(s, e), Wastes(s, e, session), e == CallerMissed(session);
            && Missed(t.wasted, Some(session)) == Missed(s.wasted, Some(session)) + (if wastes then 1 else 0)
            && Missed(t.counted, Some(session)) == Missed(s.counted, Some(session)) + (if called then 1 else 0)
            && Missed(t.deadlines, Some(session))
               == Missed(s.deadlines, Some(session)) + (if wastes || called then 1 else 0)
  {
  }

  lemma OneFewer(s: Traffic, e: Event, session: Session)
    requires Wastes(s, e, session)
    ensures |On(s, session) - {e.id}| == |On(s, session)| - 1
  {
  }

  lemma WasteKeepsBound(s: Traffic, e: Event, session: Session, k: nat)
    requires Bounded(s, session, k) && |On(s, session)| <= k && k >= 1 && Wastes(s, e, session)
    ensures Bounded(Next(s, e), session, k)
  {
    OnAfter(s, e, session);
    CountsAfter(s, e, session);
    OneFewer(s, e, session);
  }

  lemma OthersKeepBound(s: Traffic, e: Event, session: Session, k: nat)
    requires Bounded(s, session, k) && |On(s, session)| <= k && k >= 1 && !Wastes(s, e, session)
    ensures Bounded(Next(s, e), session, k)
  {
    OnAfter(s, e, session);
    CountsAfter(s, e, session);
    var now, later := On(s, session), On(Next(s, e), session);
    if later <= now {
      SubsetSize(later, now);
    }
  }

  lemma EventKeepsBound(s: Traffic, e: Event, session: Session, k: nat)
    requires Bounded(s, session, k) && |On(s, session)| <= k && k >= 1
    ensures Bounded(Next(s, e), session, k)
  {
    if Wastes(s, e, session) {
      WasteKeepsBound(s, e, session, k);
    } else {
      OthersKeepBound(s, e, session, k);
    }
  }

  lemma {:induction false} RunKeepsBound(s: Traffic, events: seq<Event>, session: Session, k: nat)
    requires Bounded(s, session, k) && AtMost(s, events, session, k) && k >= 1
    ensures Bounded(Run(s, events), session, k)
    decreases |events|
  {
    if events != [] {
      EventKeepsBound(s, events[0], session, k);
      RunKeepsBound(Next(s, events[0]), events[1..], session, k);
    }
  }

  /**
   A page that stops answering costs a run at most one deadline more than the commands it ever has in flight there: two
   when they go one at a time. What callers count besides raises the session's count, and not that bound.
   */
  lemma AHungPageCostsAtMost(events: seq<Event>, session: Session, k: nat)
    requires AtMost(QUIET, events, session, k) && k >= 1
    ensures var s := Run(QUIET, events);
            && Missed(s.wasted, Some(session)) <= k + 1
            && Missed(s.deadlines, Some(session)) == Missed(s.wasted, Some(session)) + Missed(s.counted, Some(session))
  {
    RunKeepsBound(QUIET, events, session, k);
    var s := Run(QUIET, events);
    assert Missed(s.deadlines, Some(session)) < DEADLINES_BEFORE_STOP ==> Missed(s.wasted, Some(session)) <= 1;
  }

  const HUNG := Wire(None, (t: real) => Some(Answer(0.0, true)), (t: real) => None, (t: real) => false)

  /** Every command in flight on the session is about to waste a deadline. */
  predicate AllWaste(s: Traffic, session: Session) {
    && (forall id :: id in s.inFlight ==> id < s.begun)
    && (forall id :: id in On(s, session) ==> s.inFlight[id].Wastes(session))
  }

  lemma BeginsOnHung(s: Traffic, session: Session, at: real) returns (e: Event)
    requires AllWaste(s, session) && Missed(s.deadlines, Some(session)) < DEADLINES_BEFORE_STOP
    ensures var t := Next(s, e);
            && AllWaste(t, session) && |On(t, session)| == |On(s, session)| + 1
            && t.deadlines == s.deadlines && t.wasted == s.wasted
  {
    e := Begins(Some(session), HUNG, false, at);
    OnAfter(s, e, session);
    HungPageIsKnown(HUNG, false, at, s.answered);
    assert s.begun !in On(s, session);
  }

  lemma EndsOnHung(s: Traffic, session: Session) returns (e: Event)
    requires AllWaste(s, session) && On(s, session) != {}
    ensures var t := Next(s, e);
            && AllWaste(t, session) && |On(t, session)| == |On(s, session)| - 1
            && Missed(t.deadlines, Some(session)) == Missed(s.deadlines, Some(session)) + 1
            && Missed(t.wasted, Some(session)) == Missed(s.wasted, Some(session)) + 1
  {
    var id :| id in On(s, session);
    e := Ends(id);
    OnAfter(s, e, session);
    CountsAfter(s, e, session);
    OneFewer(s, e, session);
  }

  lemma {:induction false} AllEnd(s: Traffic, session: Session, k: nat) returns (events: seq<Event>)
    requires AllWaste(s, session) && |On(s, session)| <= k
    ensures AtMost(s, events, session, k)
    ensures Missed(Run(s, events).wasted, Some(session)) == Missed(s.wasted, Some(session)) + |On(s, session)|
    decreases |On(s, session)|
  {
    events := [];
    if On(s, session) != {} {
      var e := EndsOnHung(s, session);
      var rest := AllEnd(Next(s, e), session, k);
      events := [e] + rest;
    }
  }

  lemma {:induction false} FillsAndEnds(s: Traffic, session: Session, k: nat) returns (events: seq<Event>)
    requires AllWaste(s, session) && |On(s, session)| <= k
    requires Missed(s.deadlines, Some(session)) < DEADLINES_BEFORE_STOP
    ensures AtMost(s, events, session, k)
    ensures Missed(Run(s, events).wasted, Some(session)) == Missed(s.wasted, Some(session)) + k
    decreases k - |On(s, session)|
  {
    if |On(s, session)| == k {
      events := AllEnd(s, session, k);
    } else {
      var e := BeginsOnHung(s, session, 20.0);
      var rest := FillsAndEnds(Next(s, e), session, k);
      events := [e] + rest;
    }
  }

  /** And it can cost that many: one deadline alone, then `k` commands sent together before the second is met. */
  lemma AHungPageCanCostThatMany(session: Session, k: nat) returns (events: seq<Event>)
    requires k >= 1
    ensures AtMost(QUIET, events, session, k) && Missed(Run(QUIET, events).wasted, Some(session)) == k + 1
  {
    var begins := BeginsOnHung(QUIET, session, 0.0);
    var s := Next(QUIET, begins);
    var ends := EndsOnHung(s, session);
    var rest := FillsAndEnds(Next(s, ends), session, k);
    events := [begins] + ([ends] + rest);
  }

  lemma {:induction false} AtMostMore(s: Traffic, events: seq<Event>, session: Session, k: nat, more: nat)
    requires AtMost(s, events, session, k) && k <= more
    ensures AtMost(s, events, session, more)
    decreases |events|
  {
    if events != [] {
      AtMostMore(Next(s, events[0]), events[1..], session, k, more);
    }
  }

  /** Two deadlines are the most a hung page can cost exactly when its commands go one at a time. */
  lemma TwoDeadlinesIff(session: Session, k: nat)
    ensures (forall events ::
               AtMost(QUIET, events, session, k) ==> Missed(Run(QUIET, events).wasted, Some(session)) <= 2)
       <==> k <= 1
  {
    if k <= 1 {
      forall events | AtMost(QUIET, events, session, k)
        ensures Missed(Run(QUIET, events).wasted, Some(session)) <= 2
      {
        AtMostMore(QUIET, events, session, k, 1);
        AHungPageCostsAtMost(events, session, 1);
      }
    } else {
      var events := AHungPageCanCostThatMany(session, k);
    }
  }

  /** Past the stop nothing more is sent on the session: whatever is in flight there was so already. */
  lemma {:induction false} NothingBeginsPastTheStop(s: Traffic, events: seq<Event>, session: Session)
    requires forall id :: id in s.inFlight ==> id < s.begun
    requires Missed(s.deadlines, Some(session)) >= DEADLINES_BEFORE_STOP
    ensures On(Run(s, events), session) <= On(s, session)
    ensures Missed(Run(s, events).deadlines, Some(session)) >= DEADLINES_BEFORE_STOP
    decreases |events|
  {
    if events != [] {
      OnAfter(s, events[0], session);
      NothingBeginsPastTheStop(Next(s, events[0]), events[1..], session);
    }
  }

  /** Whose count an event may raise. */
  function Touched(s: Traffic, e: Event): Option<Session> {
    match e
    case Begins(_, _, _, _) => None
    case Ends(id) => if id in s.inFlight then s.inFlight[id].session else None
    case GivenUp(_) => None
    case CallerMissed(on) => Some(on)
  }

  predicate Leaves(s: Traffic, events: seq<Event>, session: Session)
    decreases |events|
  {
    events == [] ||
    (Touched(s, events[0]) != Some(session) && Leaves(Next(s, events[0]), events[1..], session))
  }

  /** A command is sent exactly while its session is below the stop, and begins with what is known of the browser. */
  lemma BeginsIs(s: Traffic, session: Option<Session>, w: Wire, input: bool, at: real)
    requires forall id :: id in s.inFlight ==> id < s.begun
    ensures var t := Next(s, Begins(session, w, input, at));
            if Missed(s.deadlines, session) < 2
            then exists id: nat :: id !in s.inFlight
                              && t.inFlight == s.inFlight[id := Command(session, w, input, at, s.answered)]
            else t == s
  {
    assert s.begun !in s.inFlight;
  }

  /** Some command that ended showed the browser to answer. */
  predicate ShownToAnswer(s: Traffic, events: seq<Event>)
    decreases |events|
  {
    events != [] &&
    ((events[0].Ends? && events[0].id in s.inFlight && s.inFlight[events[0].id].Ending().answered)
     || ShownToAnswer(Next(s, events[0]), events[1..]))
  }

  /** Over a run, the browser is known to answer exactly once some command showed it. */
  lemma {:induction false} KnownOnceShown(s: Traffic, events: seq<Event>)
    ensures Run(s, events).answered <==> s.answered || ShownToAnswer(s, events)
    decreases |events|
  {
    if events != [] {
      KnownOnceShown(Next(s, events[0]), events[1..]);
    }
  }

  /** What happens on other sessions leaves a session's count alone. */
  lemma {:induction false} OtherSessionsKeepTheirCount(s: Traffic, events: seq<Event>, session: Session)
    requires Leaves(s, events, session)
    ensures Missed(Run(s, events).deadlines, Some(session)) == Missed(s.deadlines, Some(session))
    decreases |events|
  {
    if events != [] {
      OtherSessionsKeepTheirCount(Next(s, events[0]), events[1..], session);
    }
  }
}
