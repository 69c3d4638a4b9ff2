/**
 The JSON-RPC connection of go/rpc.go as steps between its locks: callers, one reader that takes messages off the
 stream, one goroutine that delivers them in order, and whoever ends the connection. A call's channel is its id.
 */
module Rpc {
  import opened Common

  /** What is queued for delivery: a notification or a request, a call's reply, or the end for the waiting calls. */
  datatype Delivery = Notice(n: nat) | Reply(id: nat) | End(waiting: set<nat>)

  /** What the mutex guards, and whether a token is in `waking`. */
  datatype Shared = Shared(
    pending: set<nat>, nextID: nat, ended: bool, queued: seq<Delivery>, drained: bool, token: bool)

  const FRESH := Shared({}, 1, false, [], false, false)

  // ---------------------------------------------------------------------------------------------------------------
  // The critical sections
  // ---------------------------------------------------------------------------------------------------------------

  function Registered(c: Shared): Shared {
    if c.ended then c else c.(pending := c.pending + {c.nextID}, nextID := c.nextID + 1)
  }

  function Without(c: Shared, id: nat): Shared {
    c.(pending := c.pending - {id})
  }

  function Closed(c: Shared): Shared {
    if c.ended then c else c.(ended := true, pending := {})
  }

  function Appended(c: Shared, d: Delivery): Shared {
    c.(queued := c.queued + [d])
  }

  function Popped(c: Shared): Shared {
    if c.queued == [] then c else c.(queued := c.queued[1..])
  }

  class Conn {
    var pending: set<nat>
    var nextID: nat
    var ended: bool
    var queued: seq<Delivery>
    var drained: bool
    var waking: bool

    ghost function View(): Shared
      reads this
    {
      Shared(pending, nextID, ended, queued, drained, waking)
    }

    constructor ()
      ensures View() == FRESH
    {
      pending, nextID, ended, queued, drained, waking := {}, 1, false, [], false, false;
    }

    /** The id a call gets and waits under; none once the connection has ended. */
    method Register() returns (id: Option<nat>)
      modifies this
      ensures View() == Registered(old(View()))
      ensures id == if old(ended) then None else Some(old(nextID))
    {
      if ended {
        return None;
      }
      id := Some(nextID);
      nextID := nextID + 1;
      pending := pending + {nextID - 1};
    }

    /** Takes the channel a reply is for; nobody else can take it again. */
    method TakeWaiting(id: nat) returns (found: bool)
      modifies this`pending
      ensures View() == Without(old(View()), id) && found == (id in old(pending))
    {
      found := id in pending;
      pending := pending - {id};
    }

    /** The first end takes every channel that still waits; a later one takes nothing. */
    method Close() returns (waiting: Option<set<nat>>)
      modifies this
      ensures View() == Closed(old(View()))
      ensures waiting == if old(ended) then None else Some(old(pending))
    {
      if ended {
        return None;
      }
      ended := true;
      waiting := Some(pending);
      pending := {};
    }

    method Append(d: Delivery)
      modifies this`queued
      ensures View() == Appended(old(View()), d)
    {
      queued := queued + [d];
    }

    /** A token when there is none: the channel holds one, and a second is not waited for. */
    method Wake()
      modifies this`waking
      ensures View() == old(View()).(token := true)
    {
      if !waking {
        waking := true;
      }
    }

    /** The deliverer takes the token, when there is one; otherwise it stays blocked. */
    method TakeToken() returns (taken: bool)
      modifies this`waking
      ensures View() == old(View()).(token := false) && taken == old(waking)
    {
      taken := waking;
      waking := false;
    }

    /** What the deliverer finds: the next delivery, or whether the end has been delivered. */
    method Pop() returns (next: Option<Delivery>, finished: bool)
      modifies this`queued
      ensures View() == Popped(old(View()))
      ensures next == (if old(queued) == [] then None else Some(old(queued)[0])) && finished == drained
    {
      finished := drained;
      if queued == [] {
        return None, finished;
      }
      next := Some(queued[0]);
      queued := queued[1..];
    }

    /** The last thing the delivered end does. */
    method MarkDrained()
      modifies this`drained
      ensures View() == old(View()).(drained := true)
    {
      drained := true;
    }
  }

  // ---------------------------------------------------------------------------------------------------------------
  // Every interleaving
  // ---------------------------------------------------------------------------------------------------------------

  /** A goroutine inside `queue`: with a delivery not yet appended, or appended and its token not yet sent. */
  datatype Producer = Idle | Holding(d: Delivery) | Owing

  /** The deliverer: blocked on `waking`, at the lock of its inner loop, inside a delivery, or returned. */
  datatype Deliverer = Waiting | Looping | Running(d: Delivery, left: set<nat>) | Exited

  /**
   `stopped` says the reader takes no more messages, and `byReader` that the end came from it. Beside the program's own
   state are the history of what was read and of everything ever queued, how much of that was popped, and the calls
   whose channels were sent a value, in order.
   */
  datatype State = State(
    shared: Shared, reader: Producer, stopped: bool, byReader: bool, ender: Producer, deliverer: Deliverer,
    read: seq<Delivery>, log: seq<Delivery>, popped: nat, answered: seq<nat>)

  const START := State(FRESH, Idle, false, false, Idle, Waiting, [], [], 0, [])

  datatype Action =
    | Call
    | ReadNotice(n: nat) | ReadReply(id: nat) | ReadEnd | ReaderAppends | ReaderWakes
    | Fail | EnderAppends | EnderWakes
    | TakeToken | Pop | Deliver | SendEnd(id: nat)

  /** What a step leads to. A step its goroutine cannot take now changes nothing. */
  function Next(s: State, a: Action): State {
    match a
    case Call => s.(shared := Registered(s.shared))
    case ReadNotice(n) =>
      if s.reader != Idle || s.stopped then s
      else s.(reader := Holding(Notice(n)), read := s.read + [Notice(n)])
    case ReadReply(id) =>
      if s.reader != Idle || s.stopped || id !in s.shared.pending then s
      else s.(shared := Without(s.shared, id), reader := Holding(Reply(id)), read := s.read + [Reply(id)])
    case ReadEnd =>
      if s.reader != Idle || s.stopped then s
      else if s.shared.ended then s.(stopped := true)
      else s.(shared := Closed(s.shared), reader := Holding(End(s.shared.pending)), stopped := true, byReader := true)
    case ReaderAppends =>
      if !s.reader.Holding? then s
      else s.(shared := Appended(s.shared, s.reader.d), reader := Owing, log := s.log + [s.reader.d])
    case ReaderWakes =>
      if s.reader != Owing then s else s.(shared := s.shared.(token := true), reader := Idle)
    case Fail =>
      if s.shared.ended then s
      else s.(shared := Closed(s.shared), ender := Holding(End(s.shared.pending)))
    case EnderAppends =>
      if !s.ender.Holding? then s
      else s.(shared := Appended(s.shared, s.ender.d), ender := Owing, log := s.log + [s.ender.d])
    case EnderWakes =>
      if s.ender != Owing then s else s.(shared := s.shared.(token := true), ender := Idle)
    case TakeToken =>
      if s.deliverer != Waiting || !s.shared.token then s
      else s.(shared := s.shared.(token := false), deliverer := Looping)
    case Pop =>
      if s.deliverer != Looping then s
      else if s.shared.queued == [] then s.(deliverer := if s.shared.drained then Exited else Waiting)
      else
        var d := s.shared.queued[0];
        s.(shared := Popped(s.shared), popped := s.popped + 1,
           deliverer := Running(d, if d.End? then d.waiting else {}))
    case Deliver =>
      if !s.deliverer.Running? then s
      else
        (match s.deliverer.d
         case Notice(_) => s.(deliverer := Looping)
         case Reply(id) => s.(deliverer := Looping, answered := s.answered + [id])
         case End(_) =>
           if s.deliverer.left != {} then s
           else s.(deliverer := Looping, shared := s.shared.(drained := true)))
    case SendEnd(id) =>
      if !s.deliverer.Running? || id !in s.deliverer.left then s
      else s.(deliverer := s.deliverer.(left := s.deliverer.left - {id}), answered := s.answered + [id])
  }

  function Run(s: State, actions: seq<Action>): State
    decreases |actions|
  {
    if actions == [] then s else Run(Next(s, actions[0]), actions[1..])
  }

  // ---------------------------------------------------------------------------------------------------------------
  // Where a call's channel is
  // ---------------------------------------------------------------------------------------------------------------

  /** `Slot(p)` is the delivery queued as number `p`: it waits, runs or has been made. */
  datatype Place = Pending | WithReader | WithEnder | Slot(p: nat)

  predicate Carries(d: Delivery, id: nat) {
    d == Reply(id) || (d.End? && id in d.waiting)
  }

  predicate At(s: State, id: nat, place: Place) {
    match place
    case Pending => id in s.shared.pending
    case WithReader => s.reader.Holding? && Carries(s.reader.d, id)
    case WithEnder => s.ender.Holding? && Carries(s.ender.d, id)
    case Slot(p) => p < |s.log| && Carries(s.log[p], id)
  }

  predicate Accepted(s: State, id: nat) {
    1 <= id < s.shared.nextID
  }

  ghost predicate Somewhere(s: State, id: nat) {
    exists place :: At(s, id, place)
  }

  /** Whether the delivery in slot `p` has sent to `id`'s channel. */
  predicate Sent(s: State, id: nat, p: nat) {
    p < s.popped
    && (p == s.popped - 1 && s.deliverer.Running? ==> s.deliverer.d.End? && id !in s.deliverer.left)
  }

  /** Every accepted call's channel is in exactly one place, and has been sent a value exactly when its slot says so. */
  ghost predicate Placed(s: State) {
    && s.shared.nextID >= 1
    && (forall id, place :: At(s, id, place) ==> Accepted(s, id))
    && (forall id :: Accepted(s, id) ==> Somewhere(s, id))
    && (forall id, a, b :: At(s, id, a) && At(s, id, b) ==> a == b)
    && (forall id, place :: At(s, id, place) ==>
          (id in s.answered <==> place.Slot? && Sent(s, id, place.p)))
    && (forall id :: id in s.answered ==> Accepted(s, id))
    && Distinct(s.answered)
  }

  /** The queue is what was queued and not yet popped. */
  ghost predicate Queued(s: State) {
    && s.popped <= |s.log| && s.shared.queued == s.log[s.popped..]
    && (s.deliverer.Running? ==>
          && s.popped > 0 && s.deliverer.d == s.log[s.popped - 1]
          && s.deliverer.left <= (if s.deliverer.d.End? then s.deliverer.d.waiting else {}))
  }

  /** No wake-up is lost. */
  predicate Awake(s: State) {
    s.shared.queued != [] ==>
      s.deliverer == Looping || s.deliverer.Running? || s.shared.token || s.reader == Owing || s.ender == Owing
  }

  function FromReader(log: seq<Delivery>): seq<Delivery> {
    Filter(log, (d: Delivery) => !d.End?)
  }

  /** What the reader read and has yet to queue. */
  function Held(p: Producer): seq<Delivery> {
    if p.Holding? && !p.d.End? then [p.d] else []
  }

  /** What the reader queues is what it read, in that order. */
  ghost predicate InOrder(s: State) {
    FromReader(s.log) + Held(s.reader) == s.read
  }

  predicate HoldsEnd(s: State) {
    (s.reader.Holding? && s.reader.d.End?) || (s.ender.Holding? && s.ender.d.End?)
  }

  /** How many deliveries have been made. */
  function Finished(s: State): int {
    if s.deliverer.Running? then s.popped - 1 else s.popped
  }

  predicate EndAt(s: State, p: nat) {
    p < |s.log| && s.log[p].End?
  }

  /**
   There is one end once the connection has ended: held, queued, or made. Nothing is queued behind it when the reader
   ended the connection itself.
   */
  ghost predicate OneEnd(s: State) {
    && (s.shared.ended ==> s.shared.pending == {})
    && (s.ender.Holding? ==> s.ender.d.End?)
    && (s.ender != Idle ==> s.shared.ended)
    && (s.reader.Holding? && s.reader.d.End? ==> s.byReader)
    && (s.byReader ==> s.shared.ended && s.stopped && s.ender == Idle && (s.reader.Holding? ==> s.reader.d.End?))
    && (s.shared.ended <==> HoldsEnd(s) || exists p: nat :: EndAt(s, p))
    && !(s.reader.Holding? && s.reader.d.End? && s.ender.Holding?)
    && (forall p: nat :: EndAt(s, p) ==> !HoldsEnd(s))
    && (forall p: nat, q: nat :: EndAt(s, p) && EndAt(s, q) ==> p == q)
    && (forall p: nat :: EndAt(s, p) && s.byReader ==> p == |s.log| - 1)
  }

  /** `drained` says the end has been delivered. */
  ghost predicate Drains(s: State) {
    && (forall p: nat :: EndAt(s, p) ==> (s.shared.drained <==> p < Finished(s)))
    && (s.shared.drained ==> exists p: nat :: EndAt(s, p))
  }

  predicate Parked(s: State) {
    && (s.deliverer == Exited ==> s.shared.drained)
    && (s.deliverer == Waiting ==> !s.shared.drained)
  }

  ghost predicate Inv(s: State) {
    Placed(s) && Queued(s) && Awake(s) && InOrder(s) && OneEnd(s) && Drains(s) && Parked(s)
  }

  // ---------------------------------------------------------------------------------------------------------------
  // Every step keeps the invariant
  // ---------------------------------------------------------------------------------------------------------------

  lemma StepKeepsQueued(s: State, a: Action)
    requires Queued(s)
    ensures Queued(Next(s, a))
  {
  }

  lemma StepKeepsAwake(s: State, a: Action)
    requires Awake(s) && Parked(s) && (s.ender != Idle ==> s.shared.ended)
    ensures Awake(Next(s, a)) && Parked(Next(s, a))
  {
  }

  lemma ReadersAppend(log: seq<Delivery>, d: Delivery)
    ensures FromReader(log + [d]) == if d.End? then FromReader(log) else FromReader(log) + [d]
  {
    FilterAppend(log, [d], (d: Delivery) => !d.End?);
  }

  lemma StepKeepsOrder(s: State, a: Action)
    requires InOrder(s) && (s.ender.Holding? ==> s.ender.d.End?)
    ensures InOrder(Next(s, a))
  {
    match a
    case ReaderAppends => if s.reader.Holding? { ReadersAppend(s.log, s.reader.d); }
    case EnderAppends => if s.ender.Holding? { ReadersAppend(s.log, s.ender.d); }
    case _ =>
  }

  /** A delivery that joins the log is its last; every earlier one stays where it was. */
  lemma AppendsEnd(s: State, t: State, d: Delivery)
    requires t.log == s.log + [d]
    ensures forall p: nat :: EndAt(t, p) <==> EndAt(s, p) || (d.End? && p == |s.log|)
  {
  }

  lemma AppendKeepsEnd(s: State, a: Action)
    requires OneEnd(s) && (a.ReaderAppends? || a.EnderAppends?)
    ensures OneEnd(Next(s, a))
  {
    var t := Next(s, a);
    if a.ReaderAppends? && s.reader.Holding? {
      AppendsEnd(s, t, s.reader.d);
      assert s.reader.d.End? ==> EndAt(t, |s.log|);
    } else if a.EnderAppends? && s.ender.Holding? {
      AppendsEnd(s, t, s.ender.d);
      assert EndAt(t, |s.log|);
    }
  }

  lemma ReadingKeepsEnd(s: State, a: Action)
    requires OneEnd(s) && (a.ReadNotice? || a.ReadReply? || a.ReadEnd? || a.ReaderWakes?)
    ensures OneEnd(Next(s, a))
  {
    assert forall p: nat :: EndAt(Next(s, a), p) <==> EndAt(s, p);
  }

  lemma StepKeepsEnd(s: State, a: Action)
    requires OneEnd(s)
    ensures OneEnd(Next(s, a))
  {
    if a.ReaderAppends? || a.EnderAppends? {
      AppendKeepsEnd(s, a);
    } else if a.ReadNotice? || a.ReadReply? || a.ReadEnd? || a.ReaderWakes? {
      ReadingKeepsEnd(s, a);
    } else {
      assert forall p: nat :: EndAt(Next(s, a), p) <==> EndAt(s, p);
    }
  }

  lemma AppendKeepsDrains(s: State, a: Action)
    requires Queued(s) && OneEnd(s) && Drains(s) && (a.ReaderAppends? || a.EnderAppends?)
    ensures Drains(Next(s, a))
  {
    var t := Next(s, a);
    if a.ReaderAppends? && s.reader.Holding? {
      AppendsEnd(s, t, s.reader.d);
    } else if a.EnderAppends? && s.ender.Holding? {
      AppendsEnd(s, t, s.ender.d);
    }
  }

  lemma DrainsStays(s: State, t: State)
    requires Drains(s) && t.log == s.log && t.shared.drained == s.shared.drained && Finished(t) == Finished(s)
    ensures Drains(t)
  {
    assert forall p: nat :: EndAt(t, p) <==> EndAt(s, p);
  }

  lemma DeliverKeepsDrains(s: State)
    requires Queued(s) && OneEnd(s) && Drains(s)
    ensures Drains(Next(s, Deliver))
  {
    assert forall p: nat :: EndAt(Next(s, Deliver), p) <==> EndAt(s, p);
    assert s.deliverer.Running? && s.deliverer.d.End? ==> EndAt(s, s.popped - 1);
  }

  lemma StepKeepsDrains(s: State, a: Action)
    requires Queued(s) && OneEnd(s) && Drains(s)
    ensures Drains(Next(s, a))
  {
    if a.ReaderAppends? || a.EnderAppends? {
      AppendKeepsDrains(s, a);
    } else if a.Deliver? {
      DeliverKeepsDrains(s);
    } else {
      DrainsStays(s, Next(s, a));
    }
  }

  /** Channels that move together from one place to a new one, before anything is sent to them. */
  ghost predicate Moved(s: State, t: State, moving: set<nat>, from: Place, to: Place) {
    && t.shared.nextID == s.shared.nextID && t.answered == s.answered
    && t.popped == s.popped && t.deliverer == s.deliverer
    && !from.Slot? && (to.Slot? ==> to.p >= s.popped)
    && (forall id :: id in moving ==> At(s, id, from))
    && (forall id, place :: At(t, id, place) <==> if id in moving then place == to else At(s, id, place))
  }

  lemma MovedIsPlaced(s: State, t: State, moving: set<nat>, from: Place, to: Place)
    requires Placed(s) && Moved(s, t, moving, from, to)
    ensures Placed(t)
  {
    forall id | Accepted(t, id) ensures Somewhere(t, id) {
      assert Somewhere(s, id);
      var place :| At(s, id, place);
      assert At(t, id, if id in moving then to else place);
    }
  }

  function Carried(d: Delivery): set<nat> {
    match d
    case Notice(_) => {}
    case Reply(id) => {id}
    case End(waiting) => waiting
  }

  /** Taken off `pending`: by a reply for one call, or by the end for all of them. */
  lemma TakingKeepsPlaced(s: State, t: State, moving: set<nat>, to: Place)
    requires Placed(s) && moving <= s.shared.pending && t.shared.pending == s.shared.pending - moving
    requires t.shared.nextID == s.shared.nextID && t.answered == s.answered && t.log == s.log
    requires t.popped == s.popped && t.deliverer == s.deliverer
    requires to == WithReader || to == WithEnder
    requires to == WithReader ==>
      && !s.reader.Holding? && t.ender == s.ender && t.reader.Holding?
      && Carried(t.reader.d) == moving
    requires to == WithEnder ==>
      && !s.ender.Holding? && t.reader == s.reader && t.ender.Holding?
      && Carried(t.ender.d) == moving
    ensures Placed(t)
  {
    forall id, place
      ensures At(t, id, place) <==> if id in moving then place == to else At(s, id, place)
    {
      assert id in moving ==> At(s, id, Pending) && (At(s, id, place) ==> place == Pending);
      match place
      case Pending =>
      case WithReader =>
      case WithEnder =>
      case Slot(p) => assert At(t, id, place) == At(s, id, place);
    }
    MovedIsPlaced(s, t, moving, Pending, to);
  }

  lemma QueueingKeepsPlaced(s: State, t: State, d: Delivery, from: Place)
    requires Placed(s) && Queued(s) && t.shared.pending == s.shared.pending && t.log == s.log + [d]
    requires t.shared.nextID == s.shared.nextID && t.answered == s.answered
    requires t.popped == s.popped && t.deliverer == s.deliverer
    requires from == WithReader || from == WithEnder
    requires from == WithReader ==> s.reader == Holding(d) && t.ender == s.ender && !t.reader.Holding?
    requires from == WithEnder ==> s.ender == Holding(d) && t.reader == s.reader && !t.ender.Holding?
    ensures Placed(t)
  {
    var moving, to := Carried(d), Slot(|s.log|);
    forall id, place
      ensures At(t, id, place) <==> if id in moving then place == to else At(s, id, place)
    {
      assert id in moving ==> At(s, id, from) && (At(s, id, place) ==> place == from);
      match place
      case Pending =>
      case WithReader =>
      case WithEnder =>
      case Slot(p) => assert p < |s.log| ==> At(t, id, place) == At(s, id, place);
    }
    MovedIsPlaced(s, t, moving, from, to);
  }

  lemma HandingKeepsPlaced(s: State, a: Action)
    requires Placed(s) && Queued(s) && OneEnd(s)
    requires a.ReadNotice? || a.ReadReply? || a.ReadEnd? || a.Fail? || a.ReaderAppends? || a.EnderAppends?
    ensures Placed(Next(s, a))
  {
    var t := Next(s, a);
    if t != s {
      match a
      case ReadNotice(_) => TakingKeepsPlaced(s, t, {}, WithReader);
      case ReadReply(id) => TakingKeepsPlaced(s, t, {id}, WithReader);
      case ReadEnd =>
        if s.shared.ended {
          MovedIsPlaced(s, t, {}, Pending, WithReader);
        } else {
          TakingKeepsPlaced(s, t, s.shared.pending, WithReader);
        }
      case Fail => TakingKeepsPlaced(s, t, s.shared.pending, WithEnder);
      case ReaderAppends => QueueingKeepsPlaced(s, t, s.reader.d, WithReader);
      case EnderAppends => QueueingKeepsPlaced(s, t, s.ender.d, WithEnder);
    }
  }

  lemma CallKeepsPlaced(s: State)
    requires Placed(s)
    ensures Placed(Next(s, Call))
  {
    var t := Next(s, Call);
    if !s.shared.ended {
      var newest := s.shared.nextID;
      assert forall id, place :: At(t, id, place) <==> At(s, id, place) || (id == newest && place == Pending);
      assert !Accepted(s, newest);
      forall id | Accepted(t, id) ensures Somewhere(t, id) {
        if id == newest {
          assert At(t, id, Pending);
        } else {
          assert Somewhere(s, id);
          var place :| At(s, id, place);
          assert At(t, id, place);
        }
      }
    }
  }

  /** What the deliverer does: it moves no channel, and sends to `now` those whose slot it then says were sent to. */
  ghost predicate Sends(s: State, t: State, now: set<nat>) {
    && t.shared.nextID == s.shared.nextID
    && (forall id, place :: At(t, id, place) <==> At(s, id, place))
    && (forall id, p: nat :: At(s, id, Slot(p)) ==> (Sent(t, id, p) <==> Sent(s, id, p) || id in now))
  }

  lemma SendsNothing(s: State, t: State)
    requires Placed(s) && Sends(s, t, {}) && t.answered == s.answered
    ensures Placed(t)
  {
    forall id | Accepted(t, id) ensures Somewhere(t, id) {
      assert Somewhere(s, id);
      var place :| At(s, id, place);
      assert At(t, id, place);
    }
  }

  /** A send never blocks: nothing was sent to that channel before. */
  lemma SendsOne(s: State, t: State, id: nat, p: nat)
    requires Placed(s) && Sends(s, t, {id}) && t.answered == s.answered + [id]
    requires At(s, id, Slot(p)) && !Sent(s, id, p)
    ensures Placed(t) && id !in s.answered
  {
    forall x | Accepted(t, x) ensures Somewhere(t, x) {
      assert Somewhere(s, x);
      var place :| At(s, x, place);
      assert At(t, x, place);
    }
  }

  lemma DeliverKeepsPlaced(s: State)
    requires Placed(s) && Queued(s) && s.deliverer.Running?
    ensures Placed(Next(s, Deliver))
  {
    var t, d, last := Next(s, Deliver), s.deliverer.d, s.popped - 1;
    assert forall id, place :: At(t, id, place) <==> At(s, id, place);
    if d.Reply? {
      assert At(s, d.id, Slot(last)) && !Sent(s, d.id, last);
      forall id, p: nat | At(s, id, Slot(p)) ensures Sent(t, id, p) <==> Sent(s, id, p) || id == d.id {
        assert id == d.id ==> Slot(p) == Slot(last);
      }
      SendsOne(s, t, d.id, last);
    } else {
      SendsNothing(s, t);
    }
  }

  lemma SendEndKeepsPlaced(s: State, id: nat)
    requires Placed(s) && Queued(s) && s.deliverer.Running? && id in s.deliverer.left
    ensures Placed(Next(s, SendEnd(id)))
  {
    var t, last := Next(s, SendEnd(id)), s.popped - 1;
    assert forall id, place :: At(t, id, place) <==> At(s, id, place);
    assert At(s, id, Slot(last)) && !Sent(s, id, last);
    forall x, p: nat | At(s, x, Slot(p)) ensures Sent(t, x, p) <==> Sent(s, x, p) || x == id {
      assert x == id ==> Slot(p) == Slot(last);
    }
    SendsOne(s, t, id, last);
  }

  lemma PopKeepsPlaced(s: State)
    requires Placed(s) && Queued(s)
    ensures Placed(Next(s, Pop))
  {
    var t := Next(s, Pop);
    assert forall id, place :: At(t, id, place) <==> At(s, id, place);
    SendsNothing(s, t);
  }

  /** A step that neither moves a channel nor sends to one. */
  lemma TokenKeepsPlaced(s: State, t: State)
    requires Placed(s) && t.shared.nextID == s.shared.nextID && t.shared.pending == s.shared.pending
    requires t.log == s.log && t.popped == s.popped && t.answered == s.answered
    requires t.deliverer == s.deliverer || (!t.deliverer.Running? && !s.deliverer.Running?)
    requires t.reader == s.reader || (!t.reader.Holding? && !s.reader.Holding?)
    requires t.ender == s.ender || (!t.ender.Holding? && !s.ender.Holding?)
    ensures Placed(t)
  {
    assert forall id, place :: At(t, id, place) <==> At(s, id, place);
    SendsNothing(s, t);
  }

  lemma DeliveringKeepsPlaced(s: State, a: Action)
    requires Placed(s) && Queued(s)
    requires a.TakeToken? || a.Pop? || a.Deliver? || a.SendEnd? || a.ReaderWakes? || a.EnderWakes?
    ensures Placed(Next(s, a))
  {
    if a.Deliver? && s.deliverer.Running? {
      DeliverKeepsPlaced(s);
    } else if a.SendEnd? && s.deliverer.Running? && a.id in s.deliverer.left {
      SendEndKeepsPlaced(s, a.id);
    } else if a.Pop? {
      PopKeepsPlaced(s);
    } else {
      TokenKeepsPlaced(s, Next(s, a));
    }
  }

  lemma StepIsSafe(s: State, a: Action)
    requires Inv(s)
    ensures Inv(Next(s, a))
  {
    StepKeepsQueued(s, a);
    StepKeepsAwake(s, a);
    StepKeepsOrder(s, a);
    StepKeepsEnd(s, a);
    StepKeepsDrains(s, a);
    if a.Call? {
      CallKeepsPlaced(s);
    } else if a.ReadNotice? || a.ReadReply? || a.ReadEnd? || a.Fail? || a.ReaderAppends? || a.EnderAppends? {
      HandingKeepsPlaced(s, a);
    } else {
      DeliveringKeepsPlaced(s, a);
    }
  }

  /** Whatever the order the goroutines run in. */
  lemma {:induction false} RunIsSafe(s: State, actions: seq<Action>)
    requires Inv(s)
    ensures Inv(Run(s, actions))
    decreases |actions|
  {
    if actions != [] {
      StepIsSafe(s, actions[0]);
      RunIsSafe(Next(s, actions[0]), actions[1..]);
    }
  }

  lemma StartIsSafe()
    ensures Inv(START)
  {
  }

  // ---------------------------------------------------------------------------------------------------------------
  // What that means for callers
  // ---------------------------------------------------------------------------------------------------------------

  ghost predicate Reachable(s: State) {
    exists actions :: s == Run(START, actions)
  }

  lemma ReachableIsSafe(s: State)
    requires Reachable(s)
    ensures Inv(s)
  {
    var actions :| s == Run(START, actions);
    StartIsSafe();
    RunIsSafe(START, actions);
  }

  /** A call's channel is in exactly one place, and is sent at most one value, so its one-slot buffer never blocks. */
  lemma OneReplyAtMost(s: State, id: nat)
    requires Reachable(s) && Accepted(s, id)
    ensures exists place :: At(s, id, place) && forall other :: At(s, id, other) ==> other == place
    ensures multiset(s.answered)[id] <= 1
    ensures s.deliverer.Running? && (s.deliverer.d == Reply(id) || id in s.deliverer.left) ==> id !in s.answered
  {
    ReachableIsSafe(s);
    assert Somewhere(s, id);
    var place :| At(s, id, place);
    DistinctOnce(s.answered, id);
    if s.deliverer.Running? && (s.deliverer.d == Reply(id) || id in s.deliverer.left) {
      assert At(s, id, Slot(s.popped - 1));
    }
  }

  lemma {:induction false} DistinctOnce(xs: seq<nat>, x: nat)
    requires Distinct(xs)
    ensures multiset(xs)[x] <= 1
  {
    if xs != [] {
      assert xs == [xs[0]] + xs[1..];
      DistinctOnce(xs[1..], x);
    }
  }

  /** Nothing the connection does by itself is left to do. */
  predicate Quiescent(s: State) {
    s.reader == Idle && s.ender == Idle && (s.deliverer == Exited || (s.deliverer == Waiting && !s.shared.token))
  }

  /** The deliverer never sleeps on a delivery, and does not sleep at all once the connection has ended. */
  lemma NoWakeUpIsLost(s: State)
    requires Reachable(s)
    ensures s.shared.queued != [] && s.deliverer == Waiting && !s.shared.token ==> s.reader == Owing || s.ender == Owing
    ensures Quiescent(s) && s.deliverer != Exited ==> s.shared.queued == [] && !s.shared.ended
  {
    ReachableIsSafe(s);
  }

  /** The deliverer is about to find the queue empty after the end, which is when it returns. */
  predicate LastLook(s: State) {
    s.deliverer == Looping && s.shared.queued == [] && s.shared.drained
  }

  lemma {:induction false} ExitedStays(s: State, actions: seq<Action>)
    requires s.deliverer == Exited && s.shared.ended
    ensures var t := Run(s, actions);
            && t.deliverer == Exited && t.answered == s.answered && t.shared.nextID == s.shared.nextID
            && t.shared.ended && t.byReader == s.byReader
    decreases |actions|
  {
    if actions != [] {
      ExitedStays(Next(s, actions[0]), actions[1..]);
    }
  }

  /** Whoever runs next, the calls left without a reply are the one whose reply the reader holds at the last look. */
  lemma LostAtTheLastLook(s: State, id: nat, later: seq<Action>)
    requires Reachable(s) && LastLook(s) && Accepted(s, id)
    ensures id !in Run(Next(s, Pop), later).answered <==> s.reader == Holding(Reply(id))
  {
    ReachableIsSafe(s);
    ExitedStays(Next(s, Pop), later);
    var e: nat :| EndAt(s, e);
    assert Somewhere(s, id);
    var place :| At(s, id, place);
    assert s.reader == Holding(Reply(id)) ==> At(s, id, WithReader);
  }

  /** Number `i` of the actions is the last look. */
  predicate LooksLastAt(s: State, actions: seq<Action>, i: nat) {
    i < |actions| && actions[i] == Pop && LastLook(Run(s, actions[..i]))
  }

  /** A run in which the deliverer returns has a last look. */
  lemma {:induction false} ReturnsAtALastLook(s: State, actions: seq<Action>)
    requires s.deliverer != Exited && Run(s, actions).deliverer == Exited
    ensures exists i: nat :: LooksLastAt(s, actions, i)
    decreases |actions|
  {
    var t := Next(s, actions[0]);
    if t.deliverer == Exited {
      assert LooksLastAt(s, actions, 0);
    } else {
      ReturnsAtALastLook(t, actions[1..]);
      var j: nat :| LooksLastAt(t, actions[1..], j);
      assert actions[..j + 1][1..] == actions[1..][..j];
      assert LooksLastAt(s, actions, j + 1);
    }
  }

  /** Whoever has no reply in `s` is whoever's reply the reader held at the last look. */
  ghost predicate SettledAt(last: State, s: State) {
    && Reachable(last) && LastLook(last) && last.byReader == s.byReader
    && forall id :: Accepted(s, id) ==> (id !in s.answered <==> last.reader == Holding(Reply(id)))
  }

  /** Of a whole run that ends with the deliverer returned: who has no reply is settled by what the reader then held. */
  lemma UnansweredWhenReturned(actions: seq<Action>)
    requires Run(START, actions).deliverer == Exited
    ensures exists last :: SettledAt(last, Run(START, actions))
  {
    ReturnsAtALastLook(START, actions);
    var i: nat :| LooksLastAt(START, actions, i);
    var last := Run(START, actions[..i]);
    var later := actions[i + 1..];
    assert actions == actions[..i] + ([Pop] + later) && ([Pop] + later)[1..] == later;
    RunAppend(START, actions[..i], [Pop] + later);
    ReachableIsSafe(last);
    ExitedStays(Next(last, Pop), later);
    var s := Run(START, actions);
    forall id | Accepted(s, id) ensures id !in s.answered <==> last.reader == Holding(Reply(id)) {
      LostAtTheLastLook(last, id, later);
    }
    assert SettledAt(last, s);
  }

  /** The reader holds one reply at a time, so at most one call is left without one. */
  lemma AllButOneAreAnswered(s: State, a: nat, b: nat)
    requires Reachable(s) && s.deliverer == Exited && Accepted(s, a) && Accepted(s, b) && a != b
    ensures a in s.answered || b in s.answered
  {
    var actions :| s == Run(START, actions);
    UnansweredWhenReturned(actions);
    var last :| SettledAt(last, s);
  }

  /** When the reader ended the connection every call has exactly one reply once the deliverer has returned. */
  lemma EveryCallIsAnswered(s: State, id: nat)
    requires Reachable(s) && s.byReader && (s.deliverer == Exited || Quiescent(s)) && Accepted(s, id)
    ensures s.deliverer == Exited && multiset(s.answered)[id] == 1
  {
    ReachableIsSafe(s);
    NoWakeUpIsLost(s);
    OneReplyAtMost(s, id);
    var actions :| s == Run(START, actions);
    UnansweredWhenReturned(actions);
    var last :| SettledAt(last, s);
    ReachableIsSafe(last);
  }

  lemma {:induction false} RunAppend(s: State, a: seq<Action>, b: seq<Action>)
    ensures Run(s, a + b) == Run(Run(s, a), b)
    decreases |a|
  {
    if a == [] {
      assert a + b == b;
    } else {
      assert (a + b)[1..] == a[1..] + b;
      RunAppend(Next(s, a[0]), a[1..], b);
    }
  }

  /** A message that cannot be written ends the connection from another goroutine, which can overtake a reply. */
  const FAILS := [Call, ReadReply(1), Fail, EnderAppends, EnderWakes]
  const DELIVERS := [TakeToken, Pop, Deliver, Pop]
  const OVERTAKING := State(
    Shared({}, 2, true, [End({})], false, true), Holding(Reply(1)), false, false, Idle, Waiting,
    [Reply(1)], [End({})], 0, [])

  lemma FailureOvertakes()
    ensures Run(START, FAILS) == OVERTAKING
  {
  }

  lemma EndsAheadOfIt()
    ensures Run(OVERTAKING, DELIVERS)
         == OVERTAKING.(shared := Shared({}, 2, true, [], true, false), deliverer := Exited, popped := 1)
  {
  }

  lemma FailureCanLoseAReply()
    ensures var s := Run(START, FAILS + DELIVERS);
            s.deliverer == Exited && Accepted(s, 1) && 1 !in s.answered && s.reader == Holding(Reply(1))
  {
    FailureOvertakes();
    RunAppend(START, FAILS, DELIVERS);
    EndsAheadOfIt();
  }

  lemma ReadersUpTo(log: seq<Delivery>, p: nat)
    requires p < |log| && !log[p].End?
    ensures var j := |FromReader(log[..p])|;
            j < |FromReader(log)| && FromReader(log)[j] == log[p] && FromReader(log)[..j] == FromReader(log[..p])
  {
    var before, after := log[..p + 1], log[p + 1..];
    assert log == before + after && before == log[..p] + [log[p]];
    FilterAppend(before, after, (d: Delivery) => !d.End?);
    ReadersAppend(log[..p], log[p]);
  }

  /** A reply is delivered only after everything the reader took before it. */
  lemma RepliesFollowWhatWasRead(s: State, p: nat)
    requires Reachable(s) && p < |s.log| && p < Finished(s) && s.log[p].Reply?
    ensures exists j :: 0 <= j < |s.read| && s.read[j] == s.log[p] && FromReader(s.log[..p]) == s.read[..j]
  {
    ReachableIsSafe(s);
    ReadersUpTo(s.log, p);
    var j := |FromReader(s.log[..p])|;
    assert s.read[j] == s.log[p] && s.read[..j] == FromReader(s.log[..p]);
  }

  /** What a step has the reader take: what arrives while it is free and goes on, of the replies those awaited. */
  function Takes(s: State, a: Action): seq<Delivery> {
    if s.reader != Idle || s.stopped then []
    else
      match a
      case ReadNotice(n) => [Notice(n)]
      case ReadReply(id) => if id in s.shared.pending then [Reply(id)] else []
      case _ => []
  }

  function Taken(s: State, actions: seq<Action>): seq<Delivery>
    decreases |actions|
  {
    if actions == [] then [] else Takes(s, actions[0]) + Taken(Next(s, actions[0]), actions[1..])
  }

  lemma ReadsWhatItTakes(s: State, a: Action)
    ensures Next(s, a).read == s.read + Takes(s, a)
  {
  }

  lemma {:induction false} ReadIsTaken(s: State, actions: seq<Action>)
    ensures Run(s, actions).read == s.read + Taken(s, actions)
    decreases |actions|
  {
    if actions != [] {
      ReadsWhatItTakes(s, actions[0]);
      ReadIsTaken(Next(s, actions[0]), actions[1..]);
    }
  }

  lemma {:induction false} StoppedTakesNothing(s: State, actions: seq<Action>)
    requires s.stopped
    ensures Taken(s, actions) == []
    decreases |actions|
  {
    if actions != [] {
      StoppedTakesNothing(Next(s, actions[0]), actions[1..]);
    }
  }

  /** A free reader that comes to the end takes nothing any more, whoever ended the connection first. */
  lemma NothingIsTakenPastTheEnd(s: State, later: seq<Action>)
    requires s.reader == Idle
    ensures Taken(Next(s, ReadEnd), later) == []
  {
    StoppedTakesNothing(Next(s, ReadEnd), later);
  }

  /** Once nothing is left to do on a connection still in use, all that arrived was delivered, in the order it came. */
  lemma WhatArrivesIsDelivered(actions: seq<Action>)
    requires Quiescent(Run(START, actions)) && Run(START, actions).deliverer != Exited
    ensures var s := Run(START, actions);
            FromReader(s.log) == Taken(START, actions) && s.popped == |s.log| && !s.deliverer.Running?
  {
    var s := Run(START, actions);
    ReachableIsSafe(s);
    NoWakeUpIsLost(s);
    ReadIsTaken(START, actions);
    assert FromReader(s.log) + [] == FromReader(s.log) && START.read + Taken(START, actions) == Taken(START, actions);
  }

  /**
   A message taken by a free reader is queued, behind what is there, and wakes the deliverer; then the reader is free.
   */
  lemma TakenIsQueued(s: State, a: Action)
    requires s.reader == Idle && !s.stopped
    requires a.ReadNotice? || (a.ReadReply? && a.id in s.shared.pending) || (a.ReadEnd? && !s.shared.ended)
    ensures var t, d := Run(s, [a, ReaderAppends, ReaderWakes]),
                        if a.ReadNotice? then Notice(a.n)
                        else if a.ReadReply? then Reply(a.id) else End(s.shared.pending);
            && t.log == s.log + [d] && t.shared.queued == s.shared.queued + [d]
            && t.shared.token && t.reader == Idle && t.stopped == a.ReadEnd?
            && t.shared.pending == s.shared.pending - Carried(d) && t.shared.ended == (s.shared.ended || d.End?)
  {
    assert [a, ReaderAppends, ReaderWakes][1..] == [ReaderAppends, ReaderWakes];
    assert [ReaderAppends, ReaderWakes][1..] == [ReaderWakes];
  }

  /** A call is accepted, and waits under the next number, exactly while the connection has not ended. */
  lemma CallIsAcceptedIff(s: State)
    ensures var t := Next(s, Call);
            if s.shared.ended then t == s
            else t.shared.pending == s.shared.pending + {s.shared.nextID} && t.shared.nextID == s.shared.nextID + 1
  {
  }

  /** A message that cannot be written ends the connection once: the end is queued with every call that waits. */
  lemma FailureIsQueued(s: State)
    requires s.ender == Idle && !s.shared.ended
    ensures var t, end := Run(s, [Fail, EnderAppends, EnderWakes]), End(s.shared.pending);
            && t.log == s.log + [end] && t.shared.queued == s.shared.queued + [end]
            && t.shared.token && t.shared.ended && t.shared.pending == {} && t.ender == Idle && t.byReader == s.byReader
    ensures Next(Run(s, [Fail, EnderAppends, EnderWakes]), Fail) == Run(s, [Fail, EnderAppends, EnderWakes])
  {
    assert [Fail, EnderAppends, EnderWakes][1..] == [EnderAppends, EnderWakes];
    assert [EnderAppends, EnderWakes][1..] == [EnderWakes];
  }

  /** What the connection does by itself, without a caller, a message or a failure. */
  predicate Inner(a: Action) {
    !a.Call? && !a.ReadNotice? && !a.ReadReply? && !a.ReadEnd? && !a.Fail?
  }

  function Ahead(p: Producer): nat {
    match p
    case Idle => 0
    case Owing => 1
    case Holding(_) => 2
  }

  function LeftToDo(d: Deliverer): nat {
    match d
    case Exited => 0
    case Waiting => 0
    case Looping => 1
    case Running(_, left) => 2 + |left|
  }

  predicate Nearer(s: State, t: State) {
    || |t.shared.queued| < |s.shared.queued|
    || (|t.shared.queued| == |s.shared.queued|
        && ((s.shared.token && !t.shared.token)
            || (s.shared.token == t.shared.token && LeftToDo(t.deliverer) < LeftToDo(s.deliverer))))
  }

  lemma DelivererGoesOn(s: State) returns (a: Action)
    requires s.deliverer == Looping || s.deliverer.Running? || (s.deliverer == Waiting && s.shared.token)
    ensures var t := Next(s, a); Inner(a) && t.reader == s.reader && t.ender == s.ender && Nearer(s, t)
  {
    if s.deliverer == Waiting {
      a := TakeToken;
    } else if s.deliverer == Looping {
      a := Pop;
    } else if s.deliverer.left == {} {
      a := Deliver;
    } else {
      var id :| id in s.deliverer.left;
      a := SendEnd(id);
    }
  }

  /** Something the connection can do by itself, if anything is left to do. */
  lemma GoesOn(s: State) returns (a: Action)
    requires !Quiescent(s)
    ensures var t := Next(s, a);
            && Inner(a) && Ahead(t.reader) <= Ahead(s.reader) && Ahead(t.ender) <= Ahead(s.ender)
            && (Ahead(t.reader) == Ahead(s.reader) && Ahead(t.ender) == Ahead(s.ender) ==> Nearer(s, t))
  {
    if s.reader != Idle {
      a := if s.reader.Holding? then ReaderAppends else ReaderWakes;
    } else if s.ender != Idle {
      a := if s.ender.Holding? then EnderAppends else EnderWakes;
    } else {
      a := DelivererGoesOn(s);
    }
  }

  /** No connection is ever stuck: from any state it can come, by itself, to where nothing is left to do. */
  lemma {:induction false} CanSettle(s: State) returns (actions: seq<Action>)
    ensures Quiescent(Run(s, actions)) && forall a :: a in actions ==> Inner(a)
    decreases Ahead(s.reader), Ahead(s.ender), |s.shared.queued|, s.shared.token, LeftToDo(s.deliverer)
  {
    if Quiescent(s) {
      actions := [];
    } else {
      var a := GoesOn(s);
      var rest := CanSettle(Next(s, a));
      actions := [a] + rest;
    }
  }

  // ---------------------------------------------------------------------------------------------------------------
  // The connection and its goroutines
  // ---------------------------------------------------------------------------------------------------------------

  /** What each goroutine holds between its locks; the shared state is the connection's own. */
  class Goroutines {
    const conn: Conn
    var reader: Producer
    var stopped: bool
    var ender: Producer
    var deliverer: Deliverer
    ghost var byReader: bool
    ghost var read: seq<Delivery>
    ghost var log: seq<Delivery>
    ghost var popped: nat
    ghost var answered: seq<nat>

    ghost function View(): State
      reads this, conn
    {
      State(conn.View(), reader, stopped, byReader, ender, deliverer, read, log, popped, answered)
    }

    constructor ()
      ensures fresh(conn) && View() == START
    {
      conn := new Conn();
      reader, stopped, ender, deliverer := Idle, false, Idle, Waiting;
      byReader, read, log, popped, answered := false, [], [], 0, [];
    }

    method ReaderTakes(a: Action)
      requires a.ReadNotice? || a.ReadReply? || a.ReadEnd? || a.ReaderAppends? || a.ReaderWakes?
      modifies this, conn
      ensures View() == Next(old(View()), a)
    {
      match a
      case ReadNotice(n) =>
        if reader == Idle && !stopped {
          reader, read := Holding(Notice(n)), read + [Notice(n)];
        }
      case ReadReply(id) =>
        if reader == Idle && !stopped {
          var found := conn.TakeWaiting(id);
          if found {
            reader, read := Holding(Reply(id)), read + [Reply(id)];
          }
        }
      case ReadEnd =>
        if reader == Idle && !stopped {
          var waiting := conn.Close();
          stopped := true;
          if waiting.Some? {
            reader, byReader := Holding(End(waiting.value)), true;
          }
        }
      case ReaderAppends =>
        if reader.Holding? {
          conn.Append(reader.d);
          reader, log := Owing, log + [reader.d];
        }
      case ReaderWakes =>
        if reader == Owing {
          conn.Wake();
          reader := Idle;
        }
    }

    method EnderTakes(a: Action)
      requires a.Fail? || a.EnderAppends? || a.EnderWakes?
      modifies this, conn
      ensures View() == Next(old(View()), a)
    {
      match a
      case Fail =>
        var waiting := conn.Close();
        if waiting.Some? {
          ender := Holding(End(waiting.value));
        }
      case EnderAppends =>
        if ender.Holding? {
          conn.Append(ender.d);
          ender, log := Owing, log + [ender.d];
        }
      case EnderWakes =>
        if ender == Owing {
          conn.Wake();
          ender := Idle;
        }
    }

    method DelivererTakes(a: Action)
      requires a.TakeToken? || a.Pop? || a.Deliver? || a.SendEnd?
      modifies this, conn
      ensures View() == Next(old(View()), a)
    {
      match a
      case TakeToken =>
        if deliverer == Waiting {
          var taken := conn.TakeToken();
          if taken {
            deliverer := Looping;
          }
        }
      case Pop =>
        if deliverer == Looping {
          var next, finished := conn.Pop();
          match next
          case Some(d) => deliverer, popped := Running(d, if d.End? then d.waiting else {}), popped + 1;
          case None => deliverer := if finished then Exited else Waiting;
        }
      case Deliver =>
        if deliverer.Running? {
          match deliverer.d
          case Notice(_) => deliverer := Looping;
          case Reply(id) => deliverer, answered := Looping, answered + [id];
          case End(_) =>
            if deliverer.left == {} {
              conn.MarkDrained();
              deliverer := Looping;
            }
        }
      case SendEnd(id) =>
        if deliverer.Running? && id in deliverer.left {
          deliverer, answered := deliverer.(left := deliverer.left - {id}), answered + [id];
        }
    }

    /** One step of whichever goroutine runs next, through the connection's own critical sections. */
    method Take(a: Action)
      modifies this, conn
      ensures View() == Next(old(View()), a)
    {
      if a.Call? {
        var id := conn.Register();
      } else if a.Fail? || a.EnderAppends? || a.EnderWakes? {
        EnderTakes(a);
      } else if a.TakeToken? || a.Pop? || a.Deliver? || a.SendEnd? {
        DelivererTakes(a);
      } else {
        ReaderTakes(a);
      }
    }

    /** Any interleaving, from any state the connection can be in, leaves it in one that keeps the invariant. */
    method Drive(actions: seq<Action>)
      requires Reachable(View())
      modifies this, conn
      ensures View() == Run(old(View()), actions)
      ensures Reachable(View()) && Inv(View())
    {
      ghost var start := View();
      ghost var before :| start == Run(START, before);
      for i := 0 to |actions|
        invariant Run(View(), actions[i..]) == Run(start, actions)
      {
        assert actions[i..][1..] == actions[i + 1..];
        Take(actions[i]);
      }
      RunAppend(START, before, actions);
      ReachableIsSafe(View());
    }
  }

  /** A new connection, driven through a whole run; when its reader ended it, every call was answered once. */
  method Serve(actions: seq<Action>) returns (g: Goroutines)
    ensures fresh(g) && g.View() == Run(START, actions) && Reachable(g.View())
    ensures g.deliverer == Exited && g.byReader ==>
              forall id :: Accepted(g.View(), id) ==> multiset(g.answered)[id] == 1
  {
    g := new Goroutines();
    assert START == Run(START, []);
    g.Drive(actions);
    if g.deliverer == Exited && g.byReader {
      forall id | Accepted(g.View(), id) ensures multiset(g.answered)[id] == 1 {
        EveryCallIsAnswered(g.View(), id);
      }
    }
  }
}
