/**
 A backtracking matcher in continuation-passing style, and the refinement: trying a continuation along the ends `Pyre`
 lists is what the backtracker does.
 */
module Backtracking {
  import opened Common
  import opened Pyre

  /** The rest of a pattern can be tried at every position from `low` on. */
  ghost predicate Defined<R>(k: nat --> Option<R>, text: seq<char>, low: nat) {
    forall e: nat :: low <= e <= |text| ==> k.requires(e)
  }

  /**
   Matches `p` and then whatever `k` stands for, as a backtracking engine does: take the first way through `p`, and
   come back for the next one only when `k` fails after it.
   */
  ghost function Backtrack<R>(p: Pat, text: seq<char>, at: nat, k: nat --> Option<R>): Option<R>
    requires at <= |text| && Defined(k, text, at)
    decreases p, 0
  {
    match p
    case Class(accepts) => if at < |text| && accepts(text[at]) then k(at + 1) else None
    case Lit(chars) => if LitAt(chars, text, at) then k(at + |chars|) else None
    case ILit(chars) => if ILitAt(chars, text, at) then k(at + |chars|) else None
    case Seq(parts) => SeqBacktrack(parts, text, at, k)
    case Alt(options) => AltBacktrack(options, text, at, k)
    case Rep(q, min, max, greedy) => RepBacktrack(q, min, max, greedy, 0, text, at, k)
    case Ahead(q, negate) => if Backtrack(q, text, at, (e: nat) => Some(e)).None? == negate then k(at) else None
    case Behind(accepts, negate) => if CharBefore(accepts, text, at) != negate then k(at) else None
    case Boundary(word) => if CharBefore(word, text, at) != CharAfter(word, text, at) then k(at) else None
  }

  ghost function SeqBacktrack<R>(parts: seq<Pat>, text: seq<char>, at: nat, k: nat --> Option<R>): Option<R>
    requires at <= |text| && Defined(k, text, at)
    decreases parts, 0
  {
    if parts == [] then k(at) else Backtrack(parts[0], text, at, SeqRest(parts[1..], text, at, k))
  }

  ghost function SeqRest<R>(rest: seq<Pat>, text: seq<char>, at: nat, k: nat --> Option<R>): nat --> Option<R>
    requires at <= |text| && Defined(k, text, at)
    decreases rest, 1
  {
    (e: nat) requires at <= e <= |text| => SeqBacktrack(rest, text, e, k)
  }

  ghost function AltBacktrack<R>(options: seq<Pat>, text: seq<char>, at: nat, k: nat --> Option<R>): Option<R>
    requires at <= |text| && Defined(k, text, at)
    decreases options, 0
  {
    if options == [] then None else OrElse(Backtrack(options[0], text, at, k), AltBacktrack(options[1..], text, at, k))
  }

  ghost function RepBacktrack<R>(
    p: Pat, min: nat, max: nat, greedy: bool, count: nat, text: seq<char>, at: nat, k: nat --> Option<R>): Option<R>
    requires at <= |text| && Defined(k, text, at)
    decreases p, 1, Owed(min, count), |text| - at, 1
  {
    var stop := if count >= min then k(at) else None;
    var more := if count < max then Backtrack(p, text, at, RepRest(p, min, max, greedy, count, text, at, k)) else None;
    if greedy then OrElse(more, stop) else OrElse(stop, more)
  }

  ghost function RepRest<R>(
    p: Pat, min: nat, max: nat, greedy: bool, count: nat, text: seq<char>, at: nat, k: nat --> Option<R>)
    : nat --> Option<R>
    requires at <= |text| && Defined(k, text, at)
    decreases p, 1, Owed(min, count), |text| - at, 0
  {
    (e: nat) requires at <= e <= |text| =>
      if e != at || count < min then RepBacktrack(p, min, max, greedy, count + 1, text, e, k) else None
  }

  function OrElse<R>(first: Option<R>, second: Option<R>): Option<R> {
    if first.Some? then first else second
  }

  /** The first success of `k` along `ends`. */
  ghost function First<R>(ends: seq<nat>, k: nat --> Option<R>): Option<R>
    requires forall i :: 0 <= i < |ends| ==> k.requires(ends[i])
  {
    if ends == [] then None else OrElse(k(ends[0]), First(ends[1..], k))
  }

  lemma {:induction false} FirstAppend<R>(a: seq<nat>, b: seq<nat>, k: nat --> Option<R>)
    requires forall i :: 0 <= i < |a| ==> k.requires(a[i])
    requires forall i :: 0 <= i < |b| ==> k.requires(b[i])
    ensures First(a + b, k) == OrElse(First(a, k), First(b, k))
  {
    if a == [] {
      assert a + b == b;
    } else {
      FirstAppend(a[1..], b, k);
      assert (a + b)[1..] == a[1..] + b;
    }
  }

  /** Trying the continuation along `Ends`, in order, is what the backtracker does: no end missing, none out of turn. */
  lemma {:induction false} BacktrackIsFirst<R>(p: Pat, text: seq<char>, at: nat, k: nat --> Option<R>)
    requires at <= |text| && Defined(k, text, at)
    ensures Backtrack(p, text, at, k) == First(Ends(p, text, at), k)
    decreases p, 0
  {
    match p
    case Seq(parts) => SeqIsFirst(parts, text, at, k);
    case Alt(options) => AltIsFirst(options, text, at, k);
    case Rep(q, min, max, greedy) => RepIsFirst(q, min, max, greedy, 0, text, at, k);
    case Ahead(q, negate) =>
      var found := (e: nat) => Some(e);
      BacktrackIsFirst(q, text, at, found);
    case _ =>
  }

  lemma {:induction false} SeqIsFirst<R>(parts: seq<Pat>, text: seq<char>, at: nat, k: nat --> Option<R>)
    requires at <= |text| && Defined(k, text, at)
    ensures SeqBacktrack(parts, text, at, k) == First(SeqEnds(parts, text, at), k)
    decreases parts, 0
  {
    if parts != [] {
      var starts := Ends(parts[0], text, at);
      BacktrackIsFirst(parts[0], text, at, SeqRest(parts[1..], text, at, k));
      SeqFromIsFirst(parts[1..], text, at, starts, k);
    }
  }

  lemma {:induction false} SeqFromIsFirst<R>(
    rest: seq<Pat>, text: seq<char>, at: nat, starts: seq<nat>, k: nat --> Option<R>)
    requires at <= |text| && Within(starts, at, |text|) && Defined(k, text, at)
    ensures First(starts, SeqRest(rest, text, at, k)) == First(SeqFrom(rest, text, at, starts), k)
    decreases rest, 1, |starts|
  {
    if starts != [] {
      SeqIsFirst(rest, text, starts[0], k);
      SeqFromIsFirst(rest, text, at, starts[1..], k);
      FirstAppend(SeqEnds(rest, text, starts[0]), SeqFrom(rest, text, at, starts[1..]), k);
    }
  }

  lemma {:induction false} AltIsFirst<R>(options: seq<Pat>, text: seq<char>, at: nat, k: nat --> Option<R>)
    requires at <= |text| && Defined(k, text, at)
    ensures AltBacktrack(options, text, at, k) == First(AltEnds(options, text, at), k)
    decreases options, 0
  {
    if options != [] {
      BacktrackIsFirst(options[0], text, at, k);
      AltIsFirst(options[1..], text, at, k);
      FirstAppend(Ends(options[0], text, at), AltEnds(options[1..], text, at), k);
    }
  }

  lemma {:induction false} RepIsFirst<R>(
    p: Pat, min: nat, max: nat, greedy: bool, count: nat, text: seq<char>, at: nat, k: nat --> Option<R>)
    requires at <= |text| && Defined(k, text, at)
    ensures RepBacktrack(p, min, max, greedy, count, text, at, k)
         == First(RepEnds(p, min, max, greedy, count, text, at), k)
    decreases p, 1, Owed(min, count), |text| - at, 1, 0
  {
    var stop := if count >= min then [at] else [];
    assert First(stop, k) == if count >= min then k(at) else None;
    var more: seq<nat> := [];
    if count < max {
      var starts := Ends(p, text, at);
      more := RepFrom(p, min, max, greedy, count, text, at, starts);
      BacktrackIsFirst(p, text, at, RepRest(p, min, max, greedy, count, text, at, k));
      RepFromIsFirst(p, min, max, greedy, count, text, at, starts, k);
    }
    FirstAppend(more, stop, k);
    FirstAppend(stop, more, k);
  }

  lemma {:induction false} RepFromIsFirst<R>(
    p: Pat, min: nat, max: nat, greedy: bool, count: nat, text: seq<char>, at: nat, starts: seq<nat>,
    k: nat --> Option<R>)
    requires at <= |text| && Within(starts, at, |text|) && Defined(k, text, at)
    ensures First(starts, RepRest(p, min, max, greedy, count, text, at, k))
         == First(RepFrom(p, min, max, greedy, count, text, at, starts), k)
    decreases p, 1, Owed(min, count), |text| - at, 0, |starts|
  {
    if starts != [] {
      var end, rest := starts[0], RepRest(p, min, max, greedy, count, text, at, k);
      var here: seq<nat> := [];
      if end != at || count < min {
        here := RepEnds(p, min, max, greedy, count + 1, text, end);
        RepIsFirst(p, min, max, greedy, count + 1, text, end, k);
      }
      assert rest(end) == First(here, k);
      var later := RepFrom(p, min, max, greedy, count, text, at, starts[1..]);
      RepFromIsFirst(p, min, max, greedy, count, text, at, starts[1..], k);
      FirstAppend(here, later, k);
      assert RepFrom(p, min, max, greedy, count, text, at, starts) == here + later;
    }
  }

  // ---------------------------------------------------------------------------------------------------------------
  // Matching
  // ---------------------------------------------------------------------------------------------------------------

  /** `re.match` takes the end the backtracker reaches first. */
  lemma MatchAtIsBacktracking(p: Pat, text: seq<char>, at: nat)
    requires at <= |text|
    ensures MatchAt(p, text, at) == Backtrack(p, text, at, (e: nat) => Some(e))
    ensures MatchAt(p, text, at).None? <==> forall j: nat :: !Matches(p, text, at, j)
  {
    var accept := (e: nat) => Some(e);
    BacktrackIsFirst(p, text, at, accept);
    EndsExact(p, text, at);
    var ends := Ends(p, text, at);
    if ends != [] {
      assert Matches(p, text, at, ends[0]);
    }
  }

  lemma {:induction false} FirstOfMember(ends: seq<nat>, goal: nat)
    ensures First(ends, (e: nat) => if e == goal then Some(e) else None).Some? <==> goal in ends
  {
    if ends != [] {
      FirstOfMember(ends[1..], goal);
      assert goal in ends <==> goal == ends[0] || goal in ends[1..];
    }
  }

  /** `re.fullmatch` backtracks until the end of the text, and succeeds exactly when the whole text matches. */
  lemma FullMatchIsBacktracking(p: Pat, text: seq<char>)
    ensures FullMatch(p, text)
       <==> Backtrack(p, text, 0, (e: nat) => if e == |text| then Some(e) else None).Some?
    ensures FullMatch(p, text) <==> Matches(p, text, 0, |text|)
  {
    var goal := |text|;
    var atEnd := (e: nat) => if e == goal then Some(e) else None;
    BacktrackIsFirst(p, text, 0, atEnd);
    FirstOfMember(Ends(p, text, 0), goal);
    EndsExact(p, text, 0);
  }
}
