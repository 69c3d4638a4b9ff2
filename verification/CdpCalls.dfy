/**
 The calls waiting for a reply: `call`, `dispatch`, `close`, `closed_error` and `PendingGuard` of
 crates/fastbrowse-browser/src/cdp.rs.
 */
module CdpCalls {
  import opened Common

  datatype Reply = Answered(n: nat) | Closed(why: string)

  datatype State = State(pending: set<nat>, nextId: nat, closed: Option<string>)

  const OPEN := State({}, 0, None)

  function Registered(s: State): State {
    if s.closed.Some? then s else s.(nextId := s.nextId + 1, pending := s.pending + {s.nextId + 1})
  }

  function Forgotten(s: State, id: nat): State {
    s.(pending := s.pending - {id})
  }

  /** Why a call failed that cannot be sent, when nobody has closed the connection yet. */
  const UNSENT := "ConnectionError"

  function Reason(s: State): string {
    if s.closed.Some? then s.closed.value else UNSENT
  }

  function Shut(s: State, why: string): State {
    s.(pending := {}, closed := Some(if s.closed.Some? then s.closed.value else why))
  }

  class Inner {
    var pending: set<nat>
    var nextId: nat
    var closed: Option<string>

    ghost function View(): State
      reads this
    {
      State(pending, nextId, closed)
    }

    constructor ()
      ensures View() == OPEN
    {
      pending, nextId, closed := {}, 0, None;
    }

    /** The id a call waits under, or why there will be no reply. */
    method Register() returns (id: Result<nat, string>)
      modifies this
      ensures View() == Registered(old(View()))
      ensures id == if old(closed).Some? then Err(old(closed).value) else Ok(nextId)
    {
      if closed.Some? {
        return Err(closed.value);
      }
      nextId := nextId + 1;
      pending := pending + {nextId};
      id := Ok(nextId);
    }

    /** Whether somebody waits for the reply, who then gets it. */
    method Dispatch(id: nat) returns (waiting: bool)
      modifies this`pending
      ensures View() == Forgotten(old(View()), id) && waiting == (id in old(pending))
    {
      waiting := id in pending;
      pending := pending - {id};
    }

    /** Those that still wait, who are told why; the first reason stands. */
    method Close(why: string) returns (waiting: set<nat>)
      modifies this
      ensures View() == Shut(old(View()), why) && waiting == old(pending)
    {
      if closed.None? {
        closed := Some(why);
      }
      waiting := pending;
      pending := {};
    }

    /** A call that ended, however it did, waits no more. */
    method Drop(id: nat) returns (waiting: bool)
      modifies this`pending
      ensures View() == Forgotten(old(View()), id) && waiting == (id in old(pending))
    {
      waiting := id in pending;
      pending := pending - {id};
    }

    method ClosedError() returns (why: string)
      ensures why == Reason(View())
    {
      why := if closed.Some? then closed.value else UNSENT;
    }
  }

  // ---------------------------------------------------------------------------------------------------------------
  // Every order of events
  // ---------------------------------------------------------------------------------------------------------------

  /** A call registers, its message finds no writer, a reply comes, the connection closes, or a caller goes away. */
  datatype Event = Call | Unsent(id: nat) | Arrives(id: nat, reply: nat) | Close(why: string) | Dropped(id: nat)

  /**
   The connection with its history: the reply each call got, the calls whose callers went away first, the reasons later
   calls were refused for, and the calls that failed unsent before the connection was closed.
   */
  datatype World = World(
    state: State, replies: map<nat, Reply>, dropped: set<nat>, refusals: seq<string>, early: set<nat>)

  const START := World(OPEN, map[], {}, [], {})

  function Next(w: World, e: Event): World {
    match e
    case Call =>
      if w.state.closed.Some? then w.(refusals := w.refusals + [w.state.closed.value])
      else w.(state := Registered(w.state))
    case Unsent(id) =>
      if id !in w.state.pending then w
      else
        w.(state := Forgotten(w.state, id), replies := w.replies[id := Closed(Reason(w.state))],
           early := if w.state.closed.None? then w.early + {id} else w.early)
    case Arrives(id, reply) =>
      if id !in w.state.pending then w
      else w.(state := Forgotten(w.state, id), replies := w.replies[id := Answered(reply)])
    case Close(why) =>
      w.(state := Shut(w.state, why), replies := w.replies + map id | id in w.state.pending :: Closed(why))
    case Dropped(id) =>
      if id !in w.state.pending then w else w.(state := Forgotten(w.state, id), dropped := w.dropped + {id})
  }

  function Run(w: World, events: seq<Event>): World
    decreases |events|
  {
    if events == [] then w else Run(Next(w, events[0]), events[1..])
  }

  predicate Made(w: World, id: nat) {
    1 <= id <= w.state.nextId
  }

  /** A call made is waiting, replied to, or given up by its caller: exactly one of these. */
  predicate InOnePlace(w: World, id: nat) {
    && (id in w.state.pending || id in w.replies || id in w.dropped)
    && !(id in w.state.pending && id in w.replies)
    && !(id in w.state.pending && id in w.dropped)
    && !(id in w.replies && id in w.dropped)
  }

  ghost predicate Accounted(w: World) {
    && (forall id :: Made(w, id) ==> InOnePlace(w, id))
    && (forall id :: id in w.state.pending || id in w.replies || id in w.dropped ==> Made(w, id))
    && (w.state.closed.Some? ==> w.state.pending == {})
  }

  /** The reasons that failed calls carry. */
  ghost predicate Explained(w: World) {
    && (forall id :: id in w.early ==> id in w.replies && w.replies[id] == Closed(UNSENT))
    && (forall id :: id in w.replies && id !in w.early && w.replies[id].Closed? ==>
          w.state.closed == Some(w.replies[id].why))
    && (forall why :: why in w.refusals ==> w.state.closed == Some(why))
  }

  lemma EventKeepsAccount(w: World, e: Event)
    requires Accounted(w)
    ensures Accounted(Next(w, e))
    ensures forall id :: id in w.replies ==> id in Next(w, e).replies && Next(w, e).replies[id] == w.replies[id]
    ensures w.state.closed.Some? ==> Next(w, e).state == w.state
  {
    var t := Next(w, e);
    forall id | Made(t, id) ensures InOnePlace(t, id) {
      assert Made(w, id) ==> InOnePlace(w, id);
    }
  }

  lemma EventKeepsReasons(w: World, e: Event)
    requires Accounted(w) && Explained(w)
    ensures Explained(Next(w, e))
  {
  }

  /**
   Whatever the order of calls, failed writes, replies, closings and dropped callers, no call is lost or replied to
   twice, and once the connection has closed nobody waits and nothing more is accepted.
   */
  lemma {:induction false} RunKeepsAccount(w: World, events: seq<Event>)
    requires Accounted(w) && Explained(w)
    ensures Accounted(Run(w, events)) && Explained(Run(w, events))
    ensures forall id :: id in w.replies ==> id in Run(w, events).replies && Run(w, events).replies[id] == w.replies[id]
    ensures w.state.closed.Some? ==> Run(w, events).state == w.state
    decreases |events|
  {
    if events != [] {
      EventKeepsAccount(w, events[0]);
      EventKeepsReasons(w, events[0]);
      RunKeepsAccount(Next(w, events[0]), events[1..]);
    }
  }

  /** While the connection is open as after it has closed. */
  lemma EveryCallIsAccountedFor(events: seq<Event>, id: nat)
    ensures var w := Run(START, events);
            && (Made(w, id) ==> InOnePlace(w, id))
            && (!Made(w, id) ==> id !in w.state.pending && id !in w.replies && id !in w.dropped)
            && (Made(w, id) && w.state.closed.Some? ==> id in w.replies || id in w.dropped)
  {
    RunKeepsAccount(START, events);
  }

  lemma {:induction false} DroppedStays(w: World, events: seq<Event>, id: nat)
    requires Accounted(w) && id in w.dropped
    ensures Accounted(Run(w, events)) && id in Run(w, events).dropped
    decreases |events|
  {
    if events != [] {
      EventKeepsAccount(w, events[0]);
      DroppedStays(Next(w, events[0]), events[1..], id);
    }
  }

  /**
   The first thing that happens to a call that waits is what comes of it, whatever follows: its reply, the reason its
   connection closed for, a write that failed, or its caller going away, who is then told nothing.
   */
  lemma TheFirstWordStands(w: World, e: Event, later: seq<Event>, id: nat)
    requires Accounted(w) && Explained(w) && id in w.state.pending
    ensures var replies := Run(Next(w, e), later).replies;
            match e
            case Arrives(other, n) => other == id ==> id in replies && replies[id] == Answered(n)
            case Close(why) => id in replies && replies[id] == Closed(why)
            case Unsent(other) => other == id ==> id in replies && replies[id] == Closed("ConnectionError")
            case Dropped(other) => other == id ==> id !in replies
            case Call => id in Next(w, e).state.pending
    ensures (e.Arrives? || e.Unsent? || e.Dropped?) && e.id != id ==> id in Next(w, e).state.pending
  {
    EventKeepsAccount(w, e);
    EventKeepsReasons(w, e);
    RunKeepsAccount(Next(w, e), later);
    if id in Next(w, e).dropped {
      DroppedStays(Next(w, e), later, id);
      assert InOnePlace(Run(Next(w, e), later), id);
    }
  }

  /** A call is accepted, under a number no call had, exactly while the connection is open; later ones learn why not. */
  lemma CallIsAcceptedIff(w: World)
    requires Accounted(w)
    ensures var t := Next(w, Call);
            if w.state.closed.None?
            then exists id :: !Made(w, id) && Made(t, id) && t.state.pending == w.state.pending + {id}
            else t.state == w.state && t.refusals == w.refusals + [w.state.closed.value]
  {
    assert w.state.closed.None? ==> !Made(w, w.state.nextId + 1) && Made(Next(w, Call), w.state.nextId + 1);
  }

  /** Some call was failed or refused for this reason. */
  ghost predicate FailedFor(w: World, why: string) {
    why in w.refusals || exists id :: id in w.replies && w.replies[id] == Closed(why)
  }

  ghost predicate OneReason(w: World) {
    forall a, b :: FailedFor(w, a) && FailedFor(w, b) ==> a == b
  }

  lemma ReasonsAre(w: World, why: string)
    requires Explained(w) && FailedFor(w, why)
    ensures w.state.closed == Some(why) || (why == UNSENT && w.early != {})
  {
  }

  /**
   After a call found no writer, a step that gives another reason than that call's: the connection closes on calls that
   wait, or refuses one.
   */
  predicate Splits(w: World, e: Event) {
    match e
    case Close(why) => w.early != {} && w.state.closed.None? && why != UNSENT && w.state.pending != {}
    case Call => w.early != {} && w.state.closed.Some? && w.state.closed.value != UNSENT
    case _ => false
  }

  predicate NoneSplits(w: World, events: seq<Event>)
    decreases |events|
  {
    events == [] || (!Splits(w, events[0]) && NoneSplits(Next(w, events[0]), events[1..]))
  }

  lemma SplittingBreaks(w: World, e: Event)
    requires Accounted(w) && Explained(w) && Splits(w, e)
    ensures !OneReason(Next(w, e))
  {
    var t := Next(w, e);
    EventKeepsAccount(w, e);
    var id :| id in w.early;
    assert t.replies[id] == Closed(UNSENT) && FailedFor(t, UNSENT);
    if e.Close? {
      var waiting :| waiting in w.state.pending;
      assert t.replies[waiting] == Closed(e.why) && FailedFor(t, e.why);
    } else {
      assert FailedFor(t, w.state.closed.value);
    }
  }

  /** Where a step can give a reason no call was given before. */
  lemma NewReason(w: World, e: Event, why: string)
    requires FailedFor(Next(w, e), why) && !FailedFor(w, why)
    ensures match e
            case Call => w.state.closed == Some(why)
            case Close(reason) => reason == why && w.state.pending != {}
            case Unsent(id) => id in w.state.pending
            case _ => false
  {
  }

  lemma OthersKeepOneReason(w: World, e: Event)
    requires Accounted(w) && Explained(w) && OneReason(w) && !Splits(w, e)
    ensures OneReason(Next(w, e))
  {
    var t := Next(w, e);
    EventKeepsReasons(w, e);
    forall a, b | FailedFor(t, a) && FailedFor(t, b) ensures a == b {
      ReasonsAre(t, a);
      ReasonsAre(t, b);
      if !FailedFor(w, a) {
        NewReason(w, e, a);
      }
      if !FailedFor(w, b) {
        NewReason(w, e, b);
      }
    }
  }

  lemma BrokenStays(w: World, e: Event)
    requires Accounted(w) && !OneReason(w)
    ensures !OneReason(Next(w, e))
  {
    EventKeepsAccount(w, e);
    var a, b :| FailedFor(w, a) && FailedFor(w, b) && a != b;
    assert FailedFor(Next(w, e), a) && FailedFor(Next(w, e), b);
  }

  lemma {:induction false} OneReasonAlong(w: World, events: seq<Event>)
    requires Accounted(w) && Explained(w)
    ensures OneReason(Run(w, events)) <==> OneReason(w) && NoneSplits(w, events)
    decreases |events|
  {
    if events != [] {
      var e := events[0];
      EventKeepsAccount(w, e);
      EventKeepsReasons(w, e);
      OneReasonAlong(Next(w, e), events[1..]);
      if !OneReason(w) {
        BrokenStays(w, e);
      } else if Splits(w, e) {
        SplittingBreaks(w, e);
      } else {
        OthersKeepOneReason(w, e);
      }
    }
  }

  /** The connection fails every call for one reason, exactly when no step gives another than one already given. */
  lemma OneReasonIff(events: seq<Event>)
    ensures OneReason(Run(START, events)) <==> NoneSplits(START, events)
  {
    OneReasonAlong(START, events);
  }

  lemma ReasonsCanDiffer()
    ensures !OneReason(Run(START, [Call, Unsent(1), Close("ConnectionClosed"), Call]))
  {
    var unsent := Run(START, [Call, Unsent(1)]);
    assert unsent.replies == map[1 := Closed(UNSENT)];
    var events := [Call, Unsent(1), Close("ConnectionClosed"), Call];
    assert events[1..] == [Unsent(1), Close("ConnectionClosed"), Call];
    assert events[1..][1..] == [Close("ConnectionClosed"), Call];
    var w := Run(START, events);
    assert w == Run(unsent, [Close("ConnectionClosed"), Call]);
    assert w.replies[1] == Closed(UNSENT) && FailedFor(w, UNSENT);
    assert "ConnectionClosed" in w.refusals && FailedFor(w, "ConnectionClosed");
    assert UNSENT[10] != "ConnectionClosed"[10];
  }

  // ---------------------------------------------------------------------------------------------------------------
  // The connection and its callers
  // ---------------------------------------------------------------------------------------------------------------

  /** What the callers saw, beside the connection they call through. */
  class Callers {
    const inner: Inner
    var replies: map<nat, Reply>
    var dropped: set<nat>
    var refusals: seq<string>
    ghost var early: set<nat>

    ghost function View(): World
      reads this, inner
    {
      World(inner.View(), replies, dropped, refusals, early)
    }

    constructor ()
      ensures fresh(inner) && View() == START
    {
      inner := new Inner();
      replies, dropped, refusals, early := map[], {}, [], {};
    }

    /** One event, through the connection's own critical sections. */
    method Take(e: Event)
      modifies this, inner
      ensures View() == Next(old(View()), e)
    {
      match e
      case Call =>
        var id := inner.Register();
        if id.Err? {
          refusals := refusals + [id.error];
        }
      case Unsent(id) =>
        var why := inner.ClosedError();
        early := if id in inner.pending && inner.closed.None? then early + {id} else early;
        var waiting := inner.Drop(id);
        if waiting {
          replies := replies[id := Closed(why)];
        }
      case Arrives(id, reply) =>
        var waiting := inner.Dispatch(id);
        if waiting {
          replies := replies[id := Answered(reply)];
        }
      case Close(why) =>
        var waiting := inner.Close(why);
        replies := replies + map id | id in waiting :: Closed(why);
      case Dropped(id) =>
        var waiting := inner.Drop(id);
        if waiting {
          dropped := dropped + {id};
        }
    }

    method Drive(events: seq<Event>)
      requires Accounted(View()) && Explained(View())
      modifies this, inner
      ensures View() == Run(old(View()), events)
      ensures Accounted(View()) && Explained(View())
    {
      ghost var start := View();
      for i := 0 to |events|
        invariant Run(View(), events[i..]) == Run(start, events)
      {
        assert events[i..][1..] == events[i + 1..];
        Take(events[i]);
      }
      RunKeepsAccount(start, events);
    }
  }

  /** A new connection, driven through a whole run: once closed, nobody is left waiting on it. */
  method Connect(events: seq<Event>) returns (callers: Callers)
    ensures fresh(callers) && callers.View() == Run(START, events)
    ensures callers.inner.closed.Some? ==>
              forall id :: Made(callers.View(), id) ==> id in callers.replies || id in callers.dropped
  {
    callers := new Callers();
    callers.Drive(events);
  }
}
