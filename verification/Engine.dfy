/** The expressions as crates/fastbrowse-agent/src/pyre.rs runs them: every end is pushed onto one output vector. */
module Engine {
  import opened Pyre

  method PushEnds(p: Pat, text: seq<char>, at: nat, out: seq<nat>) returns (pushed: seq<nat>)
    requires at <= |text|
    ensures pushed == out + Ends(p, text, at)
    decreases p, 0
  {
    pushed := out;
    match p
    case Class(accepts) =>
      if at < |text| && accepts(text[at]) {
        pushed := out + [at + 1];
      }
    case Lit(chars) =>
      if LitAt(chars, text, at) {
        pushed := out + [at + |chars|];
      }
    case ILit(chars) =>
      if ILitAt(chars, text, at) {
        pushed := out + [at + |chars|];
      }
    case Seq(parts) =>
      pushed := PushSeq(parts, text, at, out);
    case Alt(options) =>
      pushed := PushAlt(options, text, at, out);
    case Rep(q, min, max, greedy) =>
      pushed := PushRep(q, min, max, greedy, 0, text, at, out);
    case Ahead(q, negate) =>
      var found := PushEnds(q, text, at, []);
      if (found == []) == negate {
        pushed := out + [at];
      }
    case Behind(accepts, negate) =>
      if CharBefore(accepts, text, at) != negate {
        pushed := out + [at];
      }
    case Boundary(word) =>
      if CharBefore(word, text, at) != CharAfter(word, text, at) {
        pushed := out + [at];
      }
  }

  method PushAlt(options: seq<Pat>, text: seq<char>, at: nat, out: seq<nat>) returns (pushed: seq<nat>)
    requires at <= |text|
    ensures pushed == out + AltEnds(options, text, at)
    decreases options, 0
  {
    pushed := out;
    ghost var listed: seq<nat> := [];
    for o := 0 to |options|
      invariant pushed == out + listed
      invariant listed + AltEnds(options[o..], text, at) == AltEnds(options, text, at)
    {
      pushed := PushEnds(options[o], text, at, pushed);
      assert options[o..][1..] == options[o + 1..];
      ghost var here := Ends(options[o], text, at);
      Reassociate(out, listed, here, AltEnds(options[o + 1..], text, at));
      listed := listed + here;
    }
  }

  method PushSeq(parts: seq<Pat>, text: seq<char>, at: nat, out: seq<nat>) returns (pushed: seq<nat>)
    requires at <= |text|
    ensures pushed == out + SeqEnds(parts, text, at)
    decreases parts, 0
  {
    if |parts| == 0 {
      return out + [at];
    }
    var ends := PushEnds(parts[0], text, at, []);
    pushed := out;
    ghost var listed: seq<nat> := [];
    for k := 0 to |ends|
      invariant Within(ends[k..], at, |text|)
      invariant pushed == out + listed
      invariant listed + SeqFrom(parts[1..], text, at, ends[k..]) == SeqFrom(parts[1..], text, at, ends)
    {
      pushed := PushSeq(parts[1..], text, ends[k], pushed);
      assert ends[k..][1..] == ends[k + 1..];
      ghost var here := SeqEnds(parts[1..], text, ends[k]);
      Reassociate(out, listed, here, SeqFrom(parts[1..], text, at, ends[k + 1..]));
      listed := listed + here;
    }
  }

  lemma Reassociate(a: seq<nat>, b: seq<nat>, c: seq<nat>, d: seq<nat>)
    ensures (a + b) + c == a + (b + c)
    ensures (b + c) + d == b + (c + d)
  {
  }

  method PushRep(
    p: Pat, min: nat, max: nat, greedy: bool, count: nat, text: seq<char>, at: nat, out: seq<nat>)
    returns (pushed: seq<nat>)
    requires at <= |text|
    ensures pushed == out + RepEnds(p, min, max, greedy, count, text, at)
    decreases p, 1, Owed(min, count), |text| - at, 2
  {
    ghost var more := RepMore(p, min, max, greedy, count, text, at);
    pushed := out;
    if !greedy && count >= min {
      pushed := pushed + [at];
    }
    if count < max {
      pushed := PushMore(p, min, max, greedy, count, text, at, pushed);
    }
    if greedy && count >= min {
      pushed := pushed + [at];
    }
    var stop := RepStop(min, count, at);
    Reassociate(out, if greedy then more else stop, if greedy then stop else more, []);
  }

  method PushMore(
    p: Pat, min: nat, max: nat, greedy: bool, count: nat, text: seq<char>, at: nat, out: seq<nat>)
    returns (pushed: seq<nat>)
    requires at <= |text| && count < max
    ensures pushed == out + RepMore(p, min, max, greedy, count, text, at)
    decreases p, 1, Owed(min, count), |text| - at, 1
  {
    var ends := PushEnds(p, text, at, []);
    assert ends == Ends(p, text, at);
    pushed := PushRepFrom(p, min, max, greedy, count, text, at, ends, out);
  }

  lemma RepFromStep(
    p: Pat, min: nat, max: nat, greedy: bool, count: nat, text: seq<char>, at: nat, ends: seq<nat>, k: nat)
    requires at <= |text| && Within(ends, at, |text|) && k < |ends|
    ensures RepFrom(p, min, max, greedy, count, text, at, ends[k..])
         == (if ends[k] != at || count < min then RepEnds(p, min, max, greedy, count + 1, text, ends[k]) else [])
            + RepFrom(p, min, max, greedy, count, text, at, ends[k + 1..])
  {
  }

  method PushRepFrom(
    p: Pat, min: nat, max: nat, greedy: bool, count: nat, text: seq<char>, at: nat, ends: seq<nat>, out: seq<nat>)
    returns (pushed: seq<nat>)
    requires at <= |text| && Within(ends, at, |text|)
    ensures pushed == out + RepFrom(p, min, max, greedy, count, text, at, ends)
    decreases p, 1, Owed(min, count), |text| - at, 0
  {
    pushed := out;
    ghost var listed: seq<nat> := [];
    for k := 0 to |ends|
      invariant Within(ends[k..], at, |text|)
      invariant pushed == out + listed
      invariant listed + RepFrom(p, min, max, greedy, count, text, at, ends[k..])
             == RepFrom(p, min, max, greedy, count, text, at, ends)
    {
      ghost var here: seq<nat> := [];
      ghost var later := RepFrom(p, min, max, greedy, count, text, at, ends[k + 1..]);
      RepFromStep(p, min, max, greedy, count, text, at, ends, k);
      if ends[k] != at || count < min {
        pushed := PushRep(p, min, max, greedy, count + 1, text, ends[k], pushed);
        here := RepEnds(p, min, max, greedy, count + 1, text, ends[k]);
      }
      Reassociate(out, listed, here, later);
      listed := listed + here;
    }
  }
}
