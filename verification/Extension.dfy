/**
 Which run owns which tab, in the service worker of crates/fastbrowse-browser/extension/background.js: handlers run one
 at a time between their awaits, and everything else may happen at each await.
 */
module Extension {
  type Conn = nat
  type Tab = nat

  /** A run of the worker's: the tabs it works in and which of those were the user's, and whether it was released. */
  datatype RunState = RunState(tabs: set<Tab>, adopted: set<Tab>, released: bool)

  /** `runs` holds every run there was; the worker's own map holds those not released. */
  datatype Worker = Worker(runs: map<Conn, RunState>, owners: map<Tab, Conn>)

  const IDLE := Worker(map[], map[])

  predicate Live(w: Worker, conn: Conn) {
    conn in w.runs && !w.runs[conn].released
  }

  // ---------------------------------------------------------------------------------------------------------------
  // What a handler does between two awaits
  // ---------------------------------------------------------------------------------------------------------------

  function Greeted(w: Worker, conn: Conn): Worker {
    if conn in w.runs then w else w.(runs := w.runs[conn := RunState({}, {}, false)])
  }

  function Taken(w: Worker, conn: Conn, tab: Tab): Worker
    requires conn in w.runs
  {
    Worker(w.runs[conn := w.runs[conn].(tabs := w.runs[conn].tabs + {tab})], w.owners[tab := conn])
  }

  function MarkedAdopted(w: Worker, conn: Conn, tab: Tab): Worker
    requires conn in w.runs
  {
    w.(runs := w.runs[conn := w.runs[conn].(adopted := w.runs[conn].adopted + {tab})])
  }

  function MarkedReleased(w: Worker, conn: Conn): Worker
    requires conn in w.runs
  {
    w.(runs := w.runs[conn := w.runs[conn].(released := true)])
  }

  function Disowned(w: Worker, conn: Conn, tab: Tab): Worker {
    if tab in w.owners && w.owners[tab] == conn then w.(owners := w.owners - {tab}) else w
  }

  function Removed(w: Worker, tab: Tab): Worker {
    if tab !in w.owners then w
    else
      var conn := w.owners[tab];
      var gone := w.(owners := w.owners - {tab});
      if Live(w, conn) then gone.(runs := w.runs[conn := w.runs[conn].(tabs := w.runs[conn].tabs - {tab})]) else gone
  }

  /** The worker's own maps, changed in place. */
  class Background {
    var runs: map<Conn, RunState>
    var owners: map<Tab, Conn>

    ghost function View(): Worker
      reads this
    {
      Worker(runs, owners)
    }

    constructor ()
      ensures View() == IDLE
    {
      runs, owners := map[], map[];
    }

    /** Whether the worker's own map holds the run. */
    predicate Has(conn: Conn)
      reads this
    {
      conn in runs && !runs[conn].released
    }

    method Hello(conn: Conn)
      modifies this
      ensures View() == Greeted(old(View()), conn)
    {
      if conn !in runs {
        runs := runs[conn := RunState({}, {}, false)];
      }
    }

    /** The start of adopting a tab, before its first await. */
    method Take(conn: Conn, tab: Tab)
      requires conn in runs
      modifies this
      ensures View() == Taken(old(View()), conn, tab)
    {
      runs := runs[conn := runs[conn].(tabs := runs[conn].tabs + {tab})];
      owners := owners[tab := conn];
    }

    /** `adopt` after it read the tab: the tab is the user's, and the run's from here on. */
    method Adopt(conn: Conn, tab: Tab)
      requires conn in runs
      modifies this
      ensures View() == Taken(MarkedAdopted(old(View()), conn, tab), conn, tab)
    {
      runs := runs[conn := runs[conn].(adopted := runs[conn].adopted + {tab})];
      Take(conn, tab);
    }

    /** Whether the run was there to release. */
    method StartRelease(conn: Conn) returns (found: bool)
      modifies this
      ensures found == Live(old(View()), conn)
      ensures View() == if found then MarkedReleased(old(View()), conn) else old(View())
    {
      found := Has(conn);
      if found {
        runs := runs[conn := runs[conn].(released := true)];
      }
    }

    /** The end of a tab's teardown. */
    method Disown(conn: Conn, tab: Tab)
      modifies this
      ensures View() == Disowned(old(View()), conn, tab)
    {
      if tab in owners && owners[tab] == conn {
        owners := owners - {tab};
      }
    }

    /** Chrome says a tab is gone. */
    method OnRemoved(tab: Tab)
      modifies this
      ensures View() == Removed(old(View()), tab)
    {
      if tab in owners {
        var conn := owners[tab];
        owners := owners - {tab};
        if Has(conn) {
          runs := runs[conn := runs[conn].(tabs := runs[conn].tabs - {tab})];
        }
      }
    }
  }

  // ---------------------------------------------------------------------------------------------------------------
  // Handlers at their awaits
  // ---------------------------------------------------------------------------------------------------------------

  /**
   Where a handler waits: for the tab `newTab` creates, for the tab `adopt` reads, while a tab is grouped and attached,
   for the list of finished runs, or while a tab is torn down with `rest` still to go.
   */
  datatype Handler =
    | Creating(conn: Conn)
    | Reading(conn: Conn, tab: Tab)
    | Attaching(conn: Conn, tab: Tab)
    | Remembering(conn: Conn)
    | Detaching(conn: Conn, tab: Tab, rest: set<Tab>)
    | Closing(conn: Conn, tab: Tab, rest: set<Tab>)

  /**
   The worker, its waiting handlers under numbers never used twice, and the history: the tabs each run opened, and those
   a release asked the browser to close.
   */
  datatype World = World(
    worker: Worker, handlers: map<nat, Handler>, started: nat, made: set<(Conn, Tab)>, shut: set<(Conn, Tab)>)

  const START := World(IDLE, map[], 0, {}, {})

  datatype Event =
    | Hello(conn: Conn)
    | NewTab(conn: Conn)
    | Adopt(conn: Conn, tab: Tab)
    | Popup(opener: Tab, tab: Tab)
    | TabRemoved(tab: Tab)
    | Release(conn: Conn)
    | Resumes(handler: nat, tab: Tab)
    | Fails(handler: nat)

  function Started(w: World, h: Handler): World {
    w.(handlers := w.handlers[w.started := h], started := w.started + 1)
  }

  function Ended(w: World, handler: nat): World {
    w.(handlers := w.handlers - {handler})
  }

  function Moved(w: World, handler: nat, h: Handler): World {
    w.(handlers := w.handlers[handler := h])
  }

  /** The next of the tabs a release tears down, or its end. */
  function NextOf(w: World, handler: nat, conn: Conn, rest: set<Tab>, tab: Tab): World {
    if rest == {} then Ended(w, handler)
    else if tab in rest then Moved(w, handler, Detaching(conn, tab, rest - {tab}))
    else w
  }

  /**
   A waiting handler goes on. `tab` is the tab created, or which tab a release goes on with; a release cannot go on with
   a tab it does not have, and then nothing happens.
   */
  function Resumed(w: World, handler: nat, tab: Tab): World
    requires handler in w.handlers
  {
    match w.handlers[handler]
    case Creating(conn) =>
      if conn !in w.worker.runs then w
      else
        Moved(w, handler, Attaching(conn, tab)).(
          worker := Taken(w.worker, conn, tab), made := w.made + {(conn, tab)})
    case Reading(conn, t) =>
      if conn !in w.worker.runs then w
      else Moved(w, handler, Attaching(conn, t)).(worker := Taken(MarkedAdopted(w.worker, conn, t), conn, t))
    case Attaching(conn, t) =>
      if Live(w.worker, conn) then Ended(w, handler) else Moved(w, handler, Detaching(conn, t, {}))
    case Remembering(conn) =>
      if conn !in w.worker.runs then w else NextOf(w, handler, conn, w.worker.runs[conn].tabs, tab)
    case Detaching(conn, t, rest) =>
      if conn !in w.worker.runs then w
      else if t in w.worker.runs[conn].adopted then Moved(w, handler, Closing(conn, t, rest))
      else Moved(w, handler, Closing(conn, t, rest)).(shut := w.shut + {(conn, t)})
    case Closing(conn, t, rest) =>
      if rest != {} && tab !in rest then w
      else NextOf(w.(worker := Disowned(w.worker, conn, t)), handler, conn, rest, tab)
  }

  function Next(w: World, e: Event): World {
    match e
    case Hello(conn) => w.(worker := Greeted(w.worker, conn))
    case NewTab(conn) => if Live(w.worker, conn) then Started(w, Creating(conn)) else w
    case Adopt(conn, tab) =>
      if Live(w.worker, conn) && tab !in w.worker.owners then Started(w, Reading(conn, tab)) else w
    case Popup(opener, tab) =>
      if opener !in w.worker.owners || !Live(w.worker, w.worker.owners[opener]) then w
      else
        var conn := w.worker.owners[opener];
        w.(worker := Taken(w.worker, conn, tab), made := w.made + {(conn, tab)})
    case TabRemoved(tab) => w.(worker := Removed(w.worker, tab))
    case Release(conn) =>
      if Live(w.worker, conn) then Started(w.(worker := MarkedReleased(w.worker, conn)), Remembering(conn)) else w
    case Resumes(handler, tab) => if handler in w.handlers then Resumed(w, handler, tab) else w
    case Fails(handler) =>
      // What `newTab` and `adopt` wait for first may be refused, and then nothing was taken yet.
      if handler in w.handlers && (w.handlers[handler].Creating? || w.handlers[handler].Reading?)
      then Ended(w, handler) else w
  }

  function Run(w: World, events: seq<Event>): World
    decreases |events|
  {
    if events == [] then w else Run(Next(w, events[0]), events[1..])
  }

  // ---------------------------------------------------------------------------------------------------------------
  // Ownership drains
  // ---------------------------------------------------------------------------------------------------------------

  /** A handler that will let go of `tab` for its run. */
  predicate Covers(w: World, handler: nat, conn: Conn, tab: Tab) {
    handler in w.handlers && w.handlers[handler].conn == conn &&
    match w.handlers[handler]
    case Attaching(_, t) => t == tab
    case Remembering(_) => conn in w.worker.runs && tab in w.worker.runs[conn].tabs
    case Detaching(_, t, rest) => t == tab || tab in rest
    case Closing(_, t, rest) => t == tab || tab in rest
    case _ => false
  }

  ghost predicate Covered(w: World, conn: Conn, tab: Tab) {
    exists handler :: Covers(w, handler, conn, tab)
  }

  /** A tab a run owns is one of its tabs, and one some handler is about to let go of once the run is released. */
  ghost predicate Drains(w: World) {
    forall tab :: tab in w.worker.owners ==>
      var conn := w.worker.owners[tab];
      && conn in w.worker.runs
      && (Live(w.worker, conn) ==> tab in w.worker.runs[conn].tabs)
      && (!Live(w.worker, conn) ==> Covered(w, conn, tab))
  }

  ghost predicate Numbered(w: World) {
    && (forall h :: h in w.handlers ==> h < w.started && w.handlers[h].conn in w.worker.runs)
    && (forall h :: h in w.handlers && !w.handlers[h].Creating? && !w.handlers[h].Reading? && !w.handlers[h].Attaching?
          ==> !Live(w.worker, w.handlers[h].conn))
  }

  /** Handlers that stay, and keep what they cover, still cover it. */
  lemma CoverStays(w: World, next: World, conn: Conn, tab: Tab)
    requires Covered(w, conn, tab)
    requires forall h :: Covers(w, h, conn, tab) ==> Covers(next, h, conn, tab)
    ensures Covered(next, conn, tab)
  {
  }

  lemma PlainStepDrains(w: World, e: Event)
    requires Drains(w) && Numbered(w)
    requires e.Hello? || e.NewTab? || e.Adopt? || e.Popup? || e.TabRemoved? || e.Fails?
    ensures Drains(Next(w, e)) && Numbered(Next(w, e))
  {
    var next := Next(w, e);
    forall tab | tab in next.worker.owners && !Live(next.worker, next.worker.owners[tab])
      ensures Covered(next, next.worker.owners[tab], tab)
    {
      CoverStays(w, next, next.worker.owners[tab], tab);
    }
  }

  lemma ReleaseDrains(w: World, conn: Conn)
    requires Drains(w) && Numbered(w)
    ensures Drains(Next(w, Release(conn))) && Numbered(Next(w, Release(conn)))
  {
    var next := Next(w, Release(conn));
    forall tab | tab in next.worker.owners && !Live(next.worker, next.worker.owners[tab])
      ensures Covered(next, next.worker.owners[tab], tab)
    {
      if next.worker.owners[tab] == conn && Live(w.worker, conn) {
        assert Covers(next, w.started, conn, tab);
      } else {
        CoverStays(w, next, next.worker.owners[tab], tab);
      }
    }
  }

  /** A handler of `conn` goes on: what others cover, and what it still covers itself, stays covered. */
  lemma OthersStayCovered(w: World, next: World, handler: nat, conn: Conn, tab: Tab)
    requires Covered(w, conn, tab)
    requires forall h :: h in w.handlers && h != handler ==> h in next.handlers && next.handlers[h] == w.handlers[h]
    requires forall c :: c in w.worker.runs ==>
               c in next.worker.runs && w.worker.runs[c].tabs <= next.worker.runs[c].tabs
    requires Covers(w, handler, conn, tab) ==> Covers(next, handler, conn, tab)
    ensures Covered(next, conn, tab)
  {
    CoverStays(w, next, conn, tab);
  }

  lemma TakingDrains(w: World, handler: nat, tab: Tab)
    requires Drains(w) && Numbered(w) && handler in w.handlers
    requires w.handlers[handler].Creating? || w.handlers[handler].Reading?
    ensures Drains(Resumed(w, handler, tab)) && Numbered(Resumed(w, handler, tab))
  {
    var next := Resumed(w, handler, tab);
    forall t | t in next.worker.owners && !Live(next.worker, next.worker.owners[t])
      ensures Covered(next, next.worker.owners[t], t)
    {
      if !Covers(next, handler, next.worker.owners[t], t) {
        OthersStayCovered(w, next, handler, next.worker.owners[t], t);
      }
    }
  }

  /** A handler that starts to let go of its tab, or goes on doing so. */
  lemma LettingGoDrains(w: World, handler: nat, tab: Tab)
    requires Drains(w) && Numbered(w) && handler in w.handlers
    requires w.handlers[handler].Attaching? || w.handlers[handler].Detaching?
    ensures Drains(Resumed(w, handler, tab)) && Numbered(Resumed(w, handler, tab))
  {
    var next := Resumed(w, handler, tab);
    forall t | t in next.worker.owners && !Live(next.worker, next.worker.owners[t])
      ensures Covered(next, next.worker.owners[t], t)
    {
      OthersStayCovered(w, next, handler, next.worker.owners[t], t);
    }
  }

  /** A release that goes on with its next tab, or ends. */
  lemma GoingOnDrains(w: World, handler: nat, tab: Tab)
    requires Drains(w) && Numbered(w) && handler in w.handlers
    requires w.handlers[handler].Remembering? || w.handlers[handler].Closing?
    ensures Drains(Resumed(w, handler, tab)) && Numbered(Resumed(w, handler, tab))
  {
    var next := Resumed(w, handler, tab);
    forall t | t in next.worker.owners && !Live(next.worker, next.worker.owners[t])
      ensures Covered(next, next.worker.owners[t], t)
    {
      OthersStayCovered(w, next, handler, next.worker.owners[t], t);
    }
  }

  lemma ResumeDrains(w: World, handler: nat, tab: Tab)
    requires Drains(w) && Numbered(w) && handler in w.handlers
    ensures Drains(Resumed(w, handler, tab)) && Numbered(Resumed(w, handler, tab))
  {
    if w.handlers[handler].Creating? || w.handlers[handler].Reading? {
      TakingDrains(w, handler, tab);
    } else if w.handlers[handler].Attaching? || w.handlers[handler].Detaching? {
      LettingGoDrains(w, handler, tab);
    } else {
      GoingOnDrains(w, handler, tab);
    }
  }

  lemma StepDrains(w: World, e: Event)
    requires Drains(w) && Numbered(w)
    ensures Drains(Next(w, e)) && Numbered(Next(w, e))
  {
    if e.Release? {
      ReleaseDrains(w, e.conn);
    } else if e.Resumes? {
      if e.handler in w.handlers {
        ResumeDrains(w, e.handler, e.tab);
      }
    } else {
      PlainStepDrains(w, e);
    }
  }

  lemma {:induction false} RunDrains(w: World, events: seq<Event>)
    requires Drains(w) && Numbered(w)
    ensures Drains(Run(w, events)) && Numbered(Run(w, events))
    decreases |events|
  {
    if events != [] {
      StepDrains(w, events[0]);
      RunDrains(Next(w, events[0]), events[1..]);
    }
  }

  /** Once a run was released and none of its handlers waits, it owns no tab, however the handlers interleaved. */
  lemma ReleasedRunOwnsNothing(events: seq<Event>, conn: Conn, tab: Tab)
    requires var w := Run(START, events);
             && conn in w.worker.runs && w.worker.runs[conn].released
             && forall h :: h in w.handlers ==> w.handlers[h].conn != conn
    ensures var w := Run(START, events); tab in w.worker.owners ==> w.worker.owners[tab] != conn
  {
    RunDrains(START, events);
  }

  // ---------------------------------------------------------------------------------------------------------------
  // A release closes what the run opened
  // ---------------------------------------------------------------------------------------------------------------

  /** A run's tabs are those it opened and those it adopted. */
  predicate Its(w: World, conn: Conn, tab: Tab) {
    (conn, tab) in w.made || (conn in w.worker.runs && tab in w.worker.runs[conn].adopted)
  }

  ghost predicate Known(w: World, h: Handler) {
    match h
    case Creating(_) => true
    case Reading(_, _) => true
    case Attaching(conn, t) => Its(w, conn, t)
    case Remembering(_) => true
    case Detaching(conn, t, rest) => Its(w, conn, t) && forall r :: r in rest ==> Its(w, conn, r)
    case Closing(conn, t, rest) => Its(w, conn, t) && forall r :: r in rest ==> Its(w, conn, r)
  }

  ghost predicate Honest(w: World) {
    && (forall conn, tab :: conn in w.worker.runs && tab in w.worker.runs[conn].tabs ==> Its(w, conn, tab))
    && (forall h :: h in w.handlers ==> Known(w, w.handlers[h]))
    && w.shut <= w.made
  }

  /** What a run has only ever grows: the tabs it opened and the tabs it adopted. */
  lemma StepGrows(w: World, e: Event, conn: Conn, tab: Tab)
    requires Its(w, conn, tab)
    ensures Its(Next(w, e), conn, tab)
  {
  }

  lemma KnownGrows(w: World, e: Event, h: Handler)
    requires Known(w, h)
    ensures Known(Next(w, e), h)
  {
  }

  lemma StepIsHonest(w: World, e: Event)
    requires Honest(w)
    ensures Honest(Next(w, e))
  {
    forall conn, tab | Its(w, conn, tab) ensures Its(Next(w, e), conn, tab) {
      StepGrows(w, e, conn, tab);
    }
    forall h | h in w.handlers ensures Known(Next(w, e), w.handlers[h]) {
      KnownGrows(w, e, w.handlers[h]);
    }
  }

  lemma {:induction false} RunIsHonest(w: World, events: seq<Event>)
    requires Honest(w)
    ensures Honest(Run(w, events))
    decreases |events|
  {
    if events != [] {
      StepIsHonest(w, events[0]);
      RunIsHonest(Next(w, events[0]), events[1..]);
    }
  }

  /** A release closes only tabs its run opened: one the run adopted and did not open is let go and left open. */
  lemma ReleaseClosesOnlyWhatItOpened(events: seq<Event>, conn: Conn, tab: Tab)
    requires (conn, tab) in Run(START, events).shut
    ensures (conn, tab) in Run(START, events).made
  {
    RunIsHonest(START, events);
  }

  /** A handler that will yet ask the browser to close `tab`, unless the run adopted it. */
  predicate WillShut(w: World, handler: nat, conn: Conn, tab: Tab) {
    handler in w.handlers && w.handlers[handler].conn == conn &&
    match w.handlers[handler]
    case Attaching(_, t) => t == tab
    case Remembering(_) => true
    case Detaching(_, t, rest) => t == tab || tab in rest
    case Closing(_, _, rest) => tab in rest
    case _ => false
  }

  ghost predicate ToBeShut(w: World, conn: Conn, tab: Tab) {
    exists handler :: WillShut(w, handler, conn, tab)
  }

  /** A tab that the run opens and does not adopt is one of its tabs, and, once it is released, shut or about to be. */
  ghost predicate Owed(w: World, conn: Conn, tab: Tab) {
    && (forall h :: h in w.handlers ==> w.handlers[h] != Reading(conn, tab))
    && (conn in w.worker.runs ==> tab !in w.worker.runs[conn].adopted)
    && ((conn, tab) in w.made ==>
          && conn in w.worker.runs && tab in w.worker.runs[conn].tabs
          && (Live(w.worker, conn) || (conn, tab) in w.shut || ToBeShut(w, conn, tab)))
  }

  lemma PlainStepOwes(w: World, e: Event, conn: Conn, tab: Tab)
    requires Owed(w, conn, tab) && Numbered(w) && !e.Resumes?
    requires e != TabRemoved(tab) && e != Adopt(conn, tab)
    ensures Owed(Next(w, e), conn, tab)
  {
    var next := Next(w, e);
    if e == Release(conn) && Live(w.worker, conn) {
      assert WillShut(next, w.started, conn, tab);
    } else if ToBeShut(w, conn, tab) {
      var h :| WillShut(w, h, conn, tab);
      assert WillShut(next, h, conn, tab);
    }
  }

  lemma ResumeOwes(w: World, handler: nat, which: Tab, conn: Conn, tab: Tab)
    requires Owed(w, conn, tab) && Numbered(w) && handler in w.handlers
    ensures Owed(Resumed(w, handler, which), conn, tab)
  {
    var next := Resumed(w, handler, which);
    if (conn, tab) in next.made && !Live(next.worker, conn) && (conn, tab) !in next.shut {
      if !WillShut(next, handler, conn, tab) {
        var h :| WillShut(w, h, conn, tab);
        assert WillShut(next, h, conn, tab);
      }
    }
  }

  lemma {:induction false} RunOwes(w: World, events: seq<Event>, conn: Conn, tab: Tab)
    requires Owed(w, conn, tab) && Drains(w) && Numbered(w)
    requires TabRemoved(tab) !in events && Adopt(conn, tab) !in events
    ensures Owed(Run(w, events), conn, tab)
    decreases |events|
  {
    if events != [] {
      var e := events[0];
      assert e in events;
      if !e.Resumes? {
        PlainStepOwes(w, e, conn, tab);
      } else if e.handler in w.handlers {
        ResumeOwes(w, e.handler, e.tab, conn, tab);
      }
      StepDrains(w, e);
      RunOwes(Next(w, e), events[1..], conn, tab);
    }
  }

  /**
   And it closes every tab its run opened: once the run was released and none of its handlers waits, each tab it opened,
   and never asked to adopt besides, was closed by the user or is closed by the release.
   */
  lemma ReleaseClosesWhatItOpened(events: seq<Event>, conn: Conn, tab: Tab)
    requires var w := Run(START, events);
             && (conn, tab) in w.made && conn in w.worker.runs && w.worker.runs[conn].released
             && forall h :: h in w.handlers ==> w.handlers[h].conn != conn
    requires TabRemoved(tab) !in events && Adopt(conn, tab) !in events
    ensures (conn, tab) in Run(START, events).shut
  {
    RunOwes(START, events, conn, tab);
  }

  /** A tab that cannot be made or read leaves no trace; what comes after taking a tab does not fail. */
  lemma RefusedLeavesNoTrace(w: World, handler: nat)
    ensures var t := Next(w, Fails(handler));
            && t.worker == w.worker && t.made == w.made && t.shut == w.shut
            && forall h :: h in t.handlers <==>
                 h in w.handlers && (h != handler || !(w.handlers[h].Creating? || w.handlers[h].Reading?))
  {
  }

  /** A tab that is gone is nobody's; nothing else changes hands. */
  lemma GoneIsForgotten(w: World, tab: Tab)
    ensures var t := Next(w, TabRemoved(tab));
            && t.worker.owners == w.worker.owners - {tab} && t.worker.runs.Keys == w.worker.runs.Keys
            && forall conn :: conn in w.worker.runs ==>
                 t.worker.runs[conn] == w.worker.runs[conn].(
                   tabs := if tab in w.worker.owners && w.worker.owners[tab] == conn && Live(w.worker, conn)
                           then w.worker.runs[conn].tabs - {tab} else w.worker.runs[conn].tabs)
  {
  }

  /** A live run that asks for a tab, made or adopted, has it once its handler has gone on: the owner, and no other. */
  lemma AskedForIsTaken(w: World, conn: Conn, tab: Tab, adopts: bool)
    requires Live(w.worker, conn) && Numbered(w) && (adopts ==> tab !in w.worker.owners)
    ensures var ask, goesOn := if adopts then Adopt(conn, tab) else NewTab(conn), Resumes(w.started, tab);
            var t, run := Run(w, [ask, goesOn, goesOn]), w.worker.runs[conn];
            && t.handlers == w.handlers && t.shut == w.shut
            && t.worker.owners == w.worker.owners[tab := conn]
            && t.worker.runs == w.worker.runs[conn := run.(
                                  tabs := run.tabs + {tab},
                                  adopted := if adopts then run.adopted + {tab} else run.adopted)]
            && t.made == if adopts then w.made else w.made + {(conn, tab)}
  {
    var ask, goesOn := if adopts then Adopt(conn, tab) else NewTab(conn), Resumes(w.started, tab);
    assert w.started !in w.handlers;
    RunThree(w, ask, goesOn, goesOn);
    var asked := Next(w, ask);
    var taken := Next(asked, goesOn);
    assert asked.worker == w.worker && taken.worker.owners == w.worker.owners[tab := conn];
    assert Next(taken, goesOn).handlers == w.handlers;
    var run := w.worker.runs[conn];
    assert taken.worker.runs == w.worker.runs[conn := run.(
                                    tabs := run.tabs + {tab},
                                    adopted := if adopts then run.adopted + {tab} else run.adopted)];
  }

  lemma RunThree(w: World, a: Event, b: Event, c: Event)
    ensures Run(w, [a, b, c]) == Next(Next(Next(w, a), b), c)
  {
    assert [a, b, c][1..] == [b, c] && [b, c][1..] == [c] && [c][1..] == [];
    assert Run(Next(w, a), [b, c]) == Run(Next(Next(w, a), b), [c]);
  }

  /** A run that is not there, or no longer, is given nothing, and no run adopts a tab that is another's. */
  lemma OnlyLiveRunsTake(w: World, conn: Conn, tab: Tab, opener: Tab)
    ensures !Live(w.worker, conn) ==>
              Next(w, NewTab(conn)) == Next(w, Adopt(conn, tab)) == Next(w, Release(conn)) == w
    ensures tab in w.worker.owners ==> Next(w, Adopt(conn, tab)) == w
    ensures (opener in w.worker.owners ==> !Live(w.worker, w.worker.owners[opener])) ==>
              Next(w, Popup(opener, tab)) == w
  {
  }

  /** A tab opened from one of a live run's is that run's at once; a run that says hello is there from then on. */
  lemma OpenedIsTaken(w: World, conn: Conn, opener: Tab, tab: Tab)
    ensures opener in w.worker.owners && w.worker.owners[opener] == conn && Live(w.worker, conn) ==>
              var t := Next(w, Popup(opener, tab));
              && t.worker.owners == w.worker.owners[tab := conn] && (conn, tab) in t.made
              && tab in t.worker.runs[conn].tabs && t.handlers == w.handlers
    ensures conn !in w.worker.runs ==> Live(Next(w, Hello(conn)).worker, conn)
    ensures conn in w.worker.runs ==> Next(w, Hello(conn)) == w
  {
  }

  /** How much a handler has yet to do. */
  function LeftToDo(w: World, h: Handler): nat {
    match h
    case Creating(_) => 1
    case Reading(_, _) => 1
    case Attaching(_, _) => 3
    case Remembering(conn) => if conn in w.worker.runs then 2 * |w.worker.runs[conn].tabs| + 1 else 0
    case Detaching(_, _, rest) => 2 * |rest| + 2
    case Closing(_, _, rest) => 2 * |rest| + 1
  }

  function Waited(w: World, handler: nat): set<Tab>
    requires handler in w.handlers
  {
    match w.handlers[handler]
    case Remembering(conn) => if conn in w.worker.runs then w.worker.runs[conn].tabs else {}
    case Closing(_, _, rest) => rest
    case _ => {}
  }

  /** A handler can always go on, and then has ended or has less to do. */
  lemma GoesOn(w: World, handler: nat) returns (e: Event)
    requires Numbered(w) && handler in w.handlers
    ensures var t := Next(w, e);
            && (e.Resumes? || e.Fails?) && (handler !in t.handlers ==> t.handlers == w.handlers - {handler})
            && (handler in t.handlers ==>
                  && t.handlers == w.handlers[handler := t.handlers[handler]]
                  && LeftToDo(t, t.handlers[handler]) < LeftToDo(w, w.handlers[handler]))
  {
    if w.handlers[handler].Creating? || w.handlers[handler].Reading? {
      e := Fails(handler);
    } else if Waited(w, handler) != {} {
      var tab :| tab in Waited(w, handler);
      e := Resumes(handler, tab);
    } else {
      e := Resumes(handler, 0);
    }
  }

  lemma {:induction false} CanEnd(w: World, handler: nat) returns (events: seq<Event>)
    requires Drains(w) && Numbered(w) && handler in w.handlers
    ensures Run(w, events).handlers == w.handlers - {handler}
    ensures forall e :: e in events ==> e.Resumes? || e.Fails?
    decreases LeftToDo(w, w.handlers[handler])
  {
    var e := GoesOn(w, handler);
    var t, rest := Next(w, e), [];
    StepDrains(w, e);
    if handler in t.handlers {
      rest := CanEnd(t, handler);
    }
    events := [e] + rest;
  }

  /** No handler waits for another: whatever happened, all can come to their ends, releases among them. */
  lemma {:induction false} AllCanEnd(w: World) returns (events: seq<Event>)
    requires Drains(w) && Numbered(w)
    ensures Run(w, events).handlers == map[] && forall e :: e in events ==> e.Resumes? || e.Fails?
    decreases |w.handlers|
  {
    events := [];
    if w.handlers != map[] {
      var handler :| handler in w.handlers;
      var first := CanEnd(w, handler);
      RunDrains(w, first);
      var rest := AllCanEnd(Run(w, first));
      RunAppend(w, first, rest);
      events := first + rest;
    }
  }

  // ---------------------------------------------------------------------------------------------------------------
  // One run to a tab
  // ---------------------------------------------------------------------------------------------------------------

  /** Every tab a run works in is its own. */
  ghost predicate Exclusive(w: World) {
    forall conn, tab :: Live(w.worker, conn) && tab in w.worker.runs[conn].tabs ==>
      tab in w.worker.owners && w.worker.owners[tab] == conn
  }

  /** A tab that a handler takes as it goes on, for a run, when another live run owns it by then. */
  predicate Steals(w: World, e: Event) {
    match e
    case Resumes(handler, tab) =>
      handler in w.handlers && w.handlers[handler].conn in w.worker.runs
      && (w.handlers[handler].Creating? || w.handlers[handler].Reading?)
      && OwnedByAnother(w.worker, w.handlers[handler].conn,
                        if w.handlers[handler].Creating? then tab else w.handlers[handler].tab)
    case Popup(opener, tab) =>
      opener in w.worker.owners && Live(w.worker, w.worker.owners[opener])
      && OwnedByAnother(w.worker, w.worker.owners[opener], tab)
    case _ => false
  }

  predicate OwnedByAnother(w: Worker, conn: Conn, tab: Tab) {
    tab in w.owners && w.owners[tab] != conn && Live(w, w.owners[tab])
  }

  /** The tab a step takes for a run, when it takes one. */
  function TakenTab(w: World, e: Event): Tab
    requires Steals(w, e)
  {
    match e
    case Resumes(handler, tab) => if w.handlers[handler].Creating? then tab else w.handlers[handler].tab
    case Popup(_, tab) => tab
  }

  lemma StealingBreaks(w: World, e: Event)
    requires Drains(w) && Steals(w, e)
    ensures !Exclusive(Next(w, e))
  {
    var tab, next := TakenTab(w, e), Next(w, e);
    var loser := w.worker.owners[tab];
    assert tab in w.worker.runs[loser].tabs;
    assert Live(next.worker, loser) && tab in next.worker.runs[loser].tabs && next.worker.owners[tab] != loser;
  }

  lemma OthersKeep(w: World, e: Event)
    requires Exclusive(w) && Numbered(w) && !Steals(w, e)
    ensures Exclusive(Next(w, e))
  {
  }

  /** A tab taken while another run has it is no longer that run's, and any other step leaves every run its tabs. */
  lemma TabsAreKeptIff(w: World, e: Event)
    requires Exclusive(w) && Drains(w) && Numbered(w)
    ensures Exclusive(Next(w, e)) <==> !Steals(w, e)
  {
    if Steals(w, e) {
      StealingBreaks(w, e);
    } else {
      OthersKeep(w, e);
    }
  }

  predicate NoneSteals(w: World, events: seq<Event>)
    decreases |events|
  {
    events == [] || (!Steals(w, events[0]) && NoneSteals(Next(w, events[0]), events[1..]))
  }

  ghost predicate AlwaysExclusive(w: World, events: seq<Event>)
    decreases |events|
  {
    Exclusive(w) && (events == [] || AlwaysExclusive(Next(w, events[0]), events[1..]))
  }

  lemma {:induction false} AlwaysExclusiveIff(w: World, events: seq<Event>)
    requires Exclusive(w) && Drains(w) && Numbered(w)
    ensures AlwaysExclusive(w, events) <==> NoneSteals(w, events)
    decreases |events|
  {
    if events != [] {
      StepDrains(w, events[0]);
      TabsAreKeptIff(w, events[0]);
      if !Steals(w, events[0]) {
        AlwaysExclusiveIff(Next(w, events[0]), events[1..]);
      }
    }
  }

  /** Every run keeps its tabs to itself throughout, exactly when no handler ever takes a tab another live run has. */
  lemma TabsAreKeptThroughoutIff(events: seq<Event>)
    ensures AlwaysExclusive(START, events) <==> NoneSteals(START, events)
    ensures NoneSteals(START, events) ==> Exclusive(Run(START, events))
  {
    AlwaysExclusiveIff(START, events);
    if NoneSteals(START, events) {
      EndsExclusive(START, events);
    }
  }

  lemma {:induction false} EndsExclusive(w: World, events: seq<Event>)
    requires AlwaysExclusive(w, events)
    ensures Exclusive(Run(w, events))
    decreases |events|
  {
    if events != [] {
      EndsExclusive(Next(w, events[0]), events[1..]);
    }
  }

  /** Two runs both find a tab free, and only then does each read it and take it. */
  const BOTH_ADOPT := [Hello(1), Hello(2), Adopt(1, 7), Adopt(2, 7), Resumes(0, 0), Resumes(1, 0)]

  lemma TwoRunsCanAdoptOneTab()
    ensures var w := Run(START, BOTH_ADOPT);
            && Live(w.worker, 1) && Live(w.worker, 2)
            && 7 in w.worker.runs[1].tabs && 7 in w.worker.runs[2].tabs && w.worker.owners[7] == 2
  {
  }

  // ---------------------------------------------------------------------------------------------------------------
  // A teardown and the tab's next owner
  // ---------------------------------------------------------------------------------------------------------------

  predicate TearsDown(w: World, handler: nat, tab: Tab) {
    handler in w.handlers && (w.handlers[handler].Detaching? || w.handlers[handler].Closing?)
    && w.handlers[handler].tab == tab
  }

  /** The handler tears down a tab that another live run owns. */
  predicate Intrudes(w: World, handler: nat) {
    handler in w.handlers && (w.handlers[handler].Detaching? || w.handlers[handler].Closing?)
    && OwnedByAnother(w.worker, w.handlers[handler].conn, w.handlers[handler].tab)
  }

  /** A tab is torn down only while no other live run owns it. */
  ghost predicate Undisturbed(w: World) {
    forall handler :: !Intrudes(w, handler)
  }

  ghost predicate TornDownByAnother(w: World, conn: Conn, tab: Tab) {
    exists handler :: TearsDown(w, handler, tab) && w.handlers[handler].conn != conn
  }

  /**
   A live run takes a tab in the middle of another's teardown of it; or a released run's handler begins to tear down a
   tab that is another live run's by then: the one it attached to, or the next of those it releases.
   */
  ghost predicate Disturbs(w: World, e: Event) {
    match e
    case Popup(opener, tab) =>
      opener in w.worker.owners && Live(w.worker, w.worker.owners[opener])
      && TornDownByAnother(w, w.worker.owners[opener], tab)
    case Resumes(handler, tab) =>
      handler in w.handlers &&
      (match w.handlers[handler]
       case Creating(conn) => Live(w.worker, conn) && TornDownByAnother(w, conn, tab)
       case Reading(conn, t) => Live(w.worker, conn) && TornDownByAnother(w, conn, t)
       case Attaching(conn, t) => !Live(w.worker, conn) && OwnedByAnother(w.worker, conn, t)
       case Remembering(conn) =>
         conn in w.worker.runs && tab in w.worker.runs[conn].tabs && OwnedByAnother(w.worker, conn, tab)
       case Detaching(_, _, _) => false
       case Closing(conn, _, rest) => tab in rest && OwnedByAnother(w.worker, conn, tab))
    case _ => false
  }

  /** A tab taken by a live run is its own afterwards, whoever is tearing it down. */
  lemma TakingDisturbsIff(w: World, next: World, conn: Conn, tab: Tab, taker: nat)
    requires Undisturbed(w) && Live(w.worker, conn) && !TearsDown(w, taker, tab)
    requires next.worker.owners == w.worker.owners[tab := conn]
    requires forall c :: Live(next.worker, c) <==> Live(w.worker, c)
    requires forall h, t :: h != taker ==> (TearsDown(next, h, t) <==> TearsDown(w, h, t))
    requires forall h :: h in w.handlers && h != taker ==> h in next.handlers && next.handlers[h] == w.handlers[h]
    requires !TearsDown(next, taker, tab) && !Intrudes(next, taker)
    ensures Undisturbed(next) <==> !TornDownByAnother(w, conn, tab)
  {
    forall h ensures Intrudes(next, h) <==> TearsDown(w, h, tab) && w.handlers[h].conn != conn {
      assert !Intrudes(w, h);
      assert h in next.handlers && (next.handlers[h].Detaching? || next.handlers[h].Closing?) ==>
          TearsDown(next, h, next.handlers[h].tab);
    }
  }

  /** A handler that begins to tear down `tab`, or ends; what anyone owns is as it was, or less. */
  lemma TeardownDisturbsIff(w: World, next: World, handler: nat)
    requires Undisturbed(w)
    requires forall c :: Live(next.worker, c) <==> Live(w.worker, c)
    requires forall t :: t in next.worker.owners ==> t in w.worker.owners && next.worker.owners[t] == w.worker.owners[t]
    requires forall h :: h in next.handlers && h != handler ==> h in w.handlers && next.handlers[h] == w.handlers[h]
    ensures Undisturbed(next) <==> !Intrudes(next, handler)
  {
    forall h | h != handler ensures !Intrudes(next, h) {
      assert !Intrudes(w, h);
    }
  }

  lemma PlainStepDisturbsIff(w: World, e: Event)
    requires Undisturbed(w) && Drains(w) && Numbered(w) && !e.Resumes?
    ensures Undisturbed(Next(w, e)) <==> !Disturbs(w, e)
  {
    var next := Next(w, e);
    if e.Popup? {
      if e.opener in w.worker.owners && Live(w.worker, w.worker.owners[e.opener]) {
        forall h ensures
          Intrudes(next, h) <==> TearsDown(w, h, e.tab) && w.handlers[h].conn != w.worker.owners[e.opener]
        {
          assert !Intrudes(w, h);
        }
      }
    } else {
      forall h ensures !Intrudes(next, h) {
        assert !Intrudes(w, h);
      }
    }
  }

  lemma ResumeDisturbsIff(w: World, handler: nat, tab: Tab)
    requires Undisturbed(w) && Drains(w) && Numbered(w) && handler in w.handlers
    ensures Undisturbed(Resumed(w, handler, tab)) <==> !Disturbs(w, Resumes(handler, tab))
  {
    var next, h := Resumed(w, handler, tab), w.handlers[handler];
    if h.Creating? || h.Reading? {
      var taken := if h.Creating? then tab else h.tab;
      if Live(w.worker, h.conn) {
        TakingDisturbsIff(w, next, h.conn, taken, handler);
      } else {
        forall k ensures !Intrudes(next, k) {
          assert !Intrudes(w, k);
        }
      }
    } else {
      assert !Intrudes(w, handler);
      TeardownDisturbsIff(w, next, handler);
    }
  }

  /** A step sets a teardown and another live run on one tab exactly when it is one of those named. */
  lemma StepDisturbsIff(w: World, e: Event)
    requires Undisturbed(w) && Drains(w) && Numbered(w)
    ensures Undisturbed(Next(w, e)) <==> !Disturbs(w, e)
  {
    if !e.Resumes? {
      PlainStepDisturbsIff(w, e);
    } else if e.handler in w.handlers {
      ResumeDisturbsIff(w, e.handler, e.tab);
    }
  }

  ghost predicate NoneDisturbs(w: World, events: seq<Event>)
    decreases |events|
  {
    events == [] || (!Disturbs(w, events[0]) && NoneDisturbs(Next(w, events[0]), events[1..]))
  }

  ghost predicate AlwaysUndisturbed(w: World, events: seq<Event>)
    decreases |events|
  {
    Undisturbed(w) && (events == [] || AlwaysUndisturbed(Next(w, events[0]), events[1..]))
  }

  lemma {:induction false} AlwaysUndisturbedIff(w: World, events: seq<Event>)
    requires Undisturbed(w) && Drains(w) && Numbered(w)
    ensures AlwaysUndisturbed(w, events) <==> NoneDisturbs(w, events)
    decreases |events|
  {
    if events != [] {
      StepDrains(w, events[0]);
      StepDisturbsIff(w, events[0]);
      if !Disturbs(w, events[0]) {
        AlwaysUndisturbedIff(Next(w, events[0]), events[1..]);
      }
    }
  }

  /** No tab is ever torn down under another live run, exactly when no step of a run sets the two on one tab. */
  lemma TeardownsAreApartIff(events: seq<Event>)
    ensures AlwaysUndisturbed(START, events) <==> NoneDisturbs(START, events)
  {
    AlwaysUndisturbedIff(START, events);
  }

  lemma {:induction false} RunAppend(w: World, a: seq<Event>, b: seq<Event>)
    ensures Run(w, a + b) == Run(Run(w, a), b)
    ensures NoneSteals(w, a + b) <==> NoneSteals(w, a) && NoneSteals(Run(w, a), b)
    decreases |a|
  {
    if a == [] {
      assert a + b == b;
    } else {
      assert (a + b)[1..] == a[1..] + b;
      RunAppend(Next(w, a[0]), a[1..], b);
    }
  }

  /** Run 1 is released while its tab is being attached; the release tears the tab down and lets go of it. */
  const ADOPTS := [Hello(1), Hello(2), Adopt(1, 7), Resumes(0, 0)]
  const RELEASES := [Release(1), Resumes(1, 7)]
  const LETS_GO := [Resumes(1, 0), Resumes(1, 0)]

  /** Run 2 adopts the tab, and only then does run 1's late handler go on. */
  const READOPTS := [Adopt(2, 7), Resumes(2, 0), Resumes(0, 0)]

  const NEW := RunState({}, {}, false)
  const WITH_TAB := RunState({7}, {7}, false)
  const RELEASED := RunState({7}, {7}, true)
  const ADOPTED := World(Worker(map[1 := WITH_TAB, 2 := NEW], map[7 := 1]), map[0 := Attaching(1, 7)], 1, {}, {})
  const TEARING := World(
    Worker(map[1 := RELEASED, 2 := NEW], map[7 := 1]),
    map[0 := Attaching(1, 7), 1 := Detaching(1, 7, {})], 2, {}, {})
  const LET_GO := World(Worker(map[1 := RELEASED, 2 := NEW], map[]), map[0 := Attaching(1, 7)], 2, {}, {})
  const LATE := World(
    Worker(map[1 := RELEASED, 2 := WITH_TAB], map[7 := 2]),
    map[0 := Detaching(1, 7, {}), 2 := Attaching(2, 7)], 3, {}, {})

  lemma AdoptsFirst()
    ensures Run(START, ADOPTS) == ADOPTED && NoneSteals(START, ADOPTS)
  {
    var w := Run(START, ADOPTS);
    assert w.worker.runs[1].tabs == {7} && w.worker.runs[1].adopted == {7};
    assert w.worker.runs == ADOPTED.worker.runs && w.handlers == ADOPTED.handlers;
  }

  lemma ReleasesNext()
    ensures Run(ADOPTED, RELEASES) == TEARING && NoneSteals(ADOPTED, RELEASES)
  {
    assert RELEASED.tabs - {7} == {};
    assert Run(ADOPTED, RELEASES).handlers == TEARING.handlers;
  }

  lemma LetsGo()
    ensures Run(TEARING, LETS_GO) == LET_GO && NoneSteals(TEARING, LETS_GO)
  {
  }

  lemma ReadoptsLast()
    ensures Run(LET_GO, READOPTS) == LATE && NoneSteals(LET_GO, READOPTS)
  {
    var w := Run(LET_GO, READOPTS);
    assert w.worker.runs[2].tabs == {7} && w.worker.runs[2].adopted == {7};
    assert w.worker.runs == LATE.worker.runs && w.handlers == LATE.handlers;
  }

  /** Nothing was stolen, and still the tab that live run 2 owns is about to be torn down for run 1. */
  lemma LateTeardownMeetsTheNextOwner()
    ensures var events := ((ADOPTS + RELEASES) + LETS_GO) + READOPTS;
            Run(START, events) == LATE && NoneSteals(START, events)
    ensures Intrudes(LATE, 0) && Live(LATE.worker, 2) && LATE.worker.owners[7] == 2
  {
    AdoptsFirst();
    ReleasesNext();
    LetsGo();
    ReadoptsLast();
    RunAppend(START, ADOPTS, RELEASES);
    RunAppend(START, ADOPTS + RELEASES, LETS_GO);
    RunAppend(START, (ADOPTS + RELEASES) + LETS_GO, READOPTS);
  }

  // ---------------------------------------------------------------------------------------------------------------
  // The worker and its waiting handlers
  // ---------------------------------------------------------------------------------------------------------------

  class ServiceWorker {
    const background: Background
    var handlers: map<nat, Handler>
    var started: nat
    ghost var made: set<(Conn, Tab)>
    ghost var shut: set<(Conn, Tab)>

    ghost function View(): World
      reads this, background
    {
      World(background.View(), handlers, started, made, shut)
    }

    constructor ()
      ensures fresh(background) && View() == START
    {
      background := new Background();
      handlers, started, made, shut := map[], 0, {}, {};
    }

    method Start(h: Handler)
      modifies this`handlers, this`started
      ensures View() == Started(old(View()), h)
    {
      handlers, started := handlers[started := h], started + 1;
    }

    /** A message of a run, or an event of the browser's, up to its first await. */
    method Hear(e: Event)
      requires !e.Resumes? && !e.Fails?
      modifies this, background
      ensures View() == Next(old(View()), e)
    {
      match e
      case Hello(conn) => background.Hello(conn);
      case NewTab(conn) =>
        if background.Has(conn) {
          Start(Creating(conn));
        }
      case Adopt(conn, tab) =>
        if background.Has(conn) && tab !in background.owners {
          Start(Reading(conn, tab));
        }
      case Popup(opener, tab) =>
        if opener in background.owners {
          var conn := background.owners[opener];
          if background.Has(conn) {
            background.Take(conn, tab);
            made := made + {(conn, tab)};
          }
        }
      case TabRemoved(tab) => background.OnRemoved(tab);
      case Release(conn) =>
        var found := background.StartRelease(conn);
        if found {
          Start(Remembering(conn));
        }
    }

    /** What `newTab` and `adopt` do once they have their tab, and after it was grouped and attached. */
    method TakeTab(handler: nat, tab: Tab)
      requires handler in handlers
      requires handlers[handler].Creating? || handlers[handler].Reading? || handlers[handler].Attaching?
      modifies this, background
      ensures View() == Resumed(old(View()), handler, tab)
    {
      match handlers[handler]
      case Creating(conn) =>
        if conn in background.runs {
          background.Take(conn, tab);
          handlers, made := handlers[handler := Attaching(conn, tab)], made + {(conn, tab)};
        }
      case Reading(conn, t) =>
        if conn in background.runs {
          background.Adopt(conn, t);
          handlers := handlers[handler := Attaching(conn, t)];
        }
      case Attaching(conn, t) =>
        handlers := if background.Has(conn) then handlers - {handler} else handlers[handler := Detaching(conn, t, {})];
    }

    /** A teardown goes on to the next of its tabs, or ends. */
    method GoOn(handler: nat, conn: Conn, rest: set<Tab>, tab: Tab)
      modifies this`handlers
      ensures View() == NextOf(old(View()), handler, conn, rest, tab)
    {
      if rest == {} {
        handlers := handlers - {handler};
      } else if tab in rest {
        handlers := handlers[handler := Detaching(conn, tab, rest - {tab})];
      }
    }

    method TearDown(handler: nat, tab: Tab)
      requires handler in handlers
      requires handlers[handler].Remembering? || handlers[handler].Detaching? || handlers[handler].Closing?
      modifies this, background
      ensures View() == Resumed(old(View()), handler, tab)
    {
      match handlers[handler]
      case Remembering(conn) =>
        if conn in background.runs {
          GoOn(handler, conn, background.runs[conn].tabs, tab);
        }
      case Detaching(conn, t, rest) =>
        if conn in background.runs {
          shut := if t in background.runs[conn].adopted then shut else shut + {(conn, t)};
          handlers := handlers[handler := Closing(conn, t, rest)];
        }
      case Closing(conn, t, rest) =>
        if rest == {} || tab in rest {
          background.Disown(conn, t);
          GoOn(handler, conn, rest, tab);
        }
    }

    method Take(e: Event)
      modifies this, background
      ensures View() == Next(old(View()), e)
    {
      match e
      case Resumes(handler, tab) =>
        if handler in handlers {
          var h := handlers[handler];
          if h.Creating? || h.Reading? || h.Attaching? {
            TakeTab(handler, tab);
          } else {
            TearDown(handler, tab);
          }
        }
      case Fails(handler) =>
        if handler in handlers && (handlers[handler].Creating? || handlers[handler].Reading?) {
          handlers := handlers - {handler};
        }
      case _ => Hear(e);
    }

    /** Any interleaving of handlers. */
    method Drive(events: seq<Event>)
      requires Drains(View()) && Numbered(View()) && Honest(View())
      modifies this, background
      ensures View() == Run(old(View()), events)
      ensures Drains(View()) && Numbered(View()) && Honest(View())
    {
      ghost var start := View();
      for i := 0 to |events|
        invariant Run(View(), events[i..]) == Run(start, events)
      {
        assert events[i..][1..] == events[i + 1..];
        Take(events[i]);
      }
      RunDrains(start, events);
      RunIsHonest(start, events);
    }
  }

  /** A new worker, driven through a whole run: what its releases closed, its runs had opened. */
  method Work(events: seq<Event>) returns (worker: ServiceWorker)
    ensures fresh(worker) && worker.View() == Run(START, events)
    ensures worker.shut <= worker.made
    ensures NoneSteals(START, events) ==> Exclusive(worker.View())
  {
    worker := new ServiceWorker();
    worker.Drive(events);
    TabsAreKeptThroughoutIff(events);
  }
}
