/**
 The backtracking pattern engine of crates/fastbrowse-agent/src/pyre.rs.

 `Ends` lists the ends a match can reach in backtracking order. Two independent definitions say what it should list:
 `Matches`, a relation with no order and no bound on empty iterations, and `Backtrack`, a matcher that passes the
 rest of the pattern along as a continuation and stops at its first success.
 */
module Pyre {
  import opened Common

  datatype Pat =
    | Class(accepts: char -> bool)
    | Lit(chars: seq<char>)
    | ILit(chars: seq<char>)
    | Seq(parts: seq<Pat>)
    | Alt(options: seq<Pat>)
    | Rep(pat: Pat, min: nat, max: nat, greedy: bool)
    | Ahead(pat: Pat, negate: bool)
    | Behind(accepts: char -> bool, negate: bool)
    | Boundary(word: char -> bool)

  // ---------------------------------------------------------------------------------------------------------------
  // The one-step patterns
  // ---------------------------------------------------------------------------------------------------------------

  predicate IsAsciiAlphabetic(c: char) {
    'a' <= c <= 'z' || 'A' <= c <= 'Z'
  }

  function ToAsciiLowercase(c: char): char {
    if 'A' <= c <= 'Z' then (c as int + 32) as char else c
  }

  predicate SameLetterIgnoringCase(c: char, letter: char) {
    || ToAsciiLowercase(c) == letter
    || (letter == 'i' && (c == '\U{130}' || c == '\U{131}'))
    || (letter == 's' && c == '\U{17f}')
    || (letter == 'k' && c == '\U{212a}')
  }

  predicate SameUnderIgnoreCase(want: char, got: char) {
    if IsAsciiAlphabetic(want) then SameLetterIgnoringCase(got, want) else want == got
  }

  predicate LitAt(chars: seq<char>, text: seq<char>, at: nat) {
    |text| >= at + |chars| && text[at..at + |chars|] == chars
  }

  predicate ILitAt(chars: seq<char>, text: seq<char>, at: nat) {
    |text| >= at + |chars| && forall i :: 0 <= i < |chars| ==> SameUnderIgnoreCase(chars[i], text[at + i])
  }

  predicate CharBefore(word: char -> bool, text: seq<char>, at: nat)
    requires at <= |text|
  {
    at > 0 && word(text[at - 1])
  }

  predicate CharAfter(word: char -> bool, text: seq<char>, at: nat) {
    at < |text| && word(text[at])
  }

  // ---------------------------------------------------------------------------------------------------------------
  // The engine
  // ---------------------------------------------------------------------------------------------------------------

  ghost predicate Within(ends: seq<nat>, low: nat, high: nat) {
    forall i :: 0 <= i < |ends| ==> low <= ends[i] <= high
  }

  /** Iterations a repeat still owes its minimum: with the characters left, what makes `RepEnds` terminate. */
  function Owed(min: nat, count: nat): nat {
    if count < min then min - count else 0
  }

  /** Where `p` can stop when it starts at `at`, the preferred places first, with repeats. */
  function Ends(p: Pat, text: seq<char>, at: nat): (ends: seq<nat>)
    requires at <= |text|
    ensures Within(ends, at, |text|)
    decreases p, 0
  {
    match p
    case Class(accepts) => if at < |text| && accepts(text[at]) then [at + 1] else []
    case Lit(chars) => if LitAt(chars, text, at) then [at + |chars|] else []
    case ILit(chars) => if ILitAt(chars, text, at) then [at + |chars|] else []
    case Seq(parts) => SeqEnds(parts, text, at)
    case Alt(options) => AltEnds(options, text, at)
    case Rep(q, min, max, greedy) => RepEnds(q, min, max, greedy, 0, text, at)
    case Ahead(q, negate) => if (Ends(q, text, at) == []) == negate then [at] else []
    case Behind(accepts, negate) => if CharBefore(accepts, text, at) != negate then [at] else []
    case Boundary(word) => if CharBefore(word, text, at) != CharAfter(word, text, at) then [at] else []
  }

  function SeqEnds(parts: seq<Pat>, text: seq<char>, at: nat): (ends: seq<nat>)
    requires at <= |text|
    ensures Within(ends, at, |text|)
    decreases parts, 0
  {
    if parts == [] then [at] else SeqFrom(parts[1..], text, at, Ends(parts[0], text, at))
  }

  function SeqFrom(rest: seq<Pat>, text: seq<char>, at: nat, starts: seq<nat>): (ends: seq<nat>)
    requires Within(starts, at, |text|)
    ensures Within(ends, at, |text|)
    decreases rest, 1, |starts|
  {
    if starts == [] then [] else SeqEnds(rest, text, starts[0]) + SeqFrom(rest, text, at, starts[1..])
  }

  function AltEnds(options: seq<Pat>, text: seq<char>, at: nat): (ends: seq<nat>)
    requires at <= |text|
    ensures Within(ends, at, |text|)
    decreases options, 0
  {
    if options == [] then [] else Ends(options[0], text, at) + AltEnds(options[1..], text, at)
  }

  function RepEnds(p: Pat, min: nat, max: nat, greedy: bool, count: nat, text: seq<char>, at: nat): (ends: seq<nat>)
    requires at <= |text|
    ensures Within(ends, at, |text|)
    decreases p, 1, Owed(min, count), |text| - at, 2
  {
    var stop, more := RepStop(min, count, at), RepMore(p, min, max, greedy, count, text, at);
    if greedy then more + stop else stop + more
  }

  function RepStop(min: nat, count: nat, at: nat): seq<nat> {
    if count >= min then [at] else []
  }

  function RepMore(p: Pat, min: nat, max: nat, greedy: bool, count: nat, text: seq<char>, at: nat): (ends: seq<nat>)
    requires at <= |text|
    ensures Within(ends, at, |text|)
    decreases p, 1, Owed(min, count), |text| - at, 1
  {
    if count < max then RepFrom(p, min, max, greedy, count, text, at, Ends(p, text, at)) else []
  }

  function RepFrom(p: Pat, min: nat, max: nat, greedy: bool, count: nat, text: seq<char>, at: nat, starts: seq<nat>)
    : (ends: seq<nat>)
    requires at <= |text| && Within(starts, at, |text|)
    ensures Within(ends, at, |text|)
    decreases p, 1, Owed(min, count), |text| - at, 0, |starts|
  {
    if starts == [] then []
    else
      // Past `min`, only an iteration that consumed something is followed by another.
      (if starts[0] != at || count < min then RepEnds(p, min, max, greedy, count + 1, text, starts[0]) else [])
      + RepFrom(p, min, max, greedy, count, text, at, starts[1..])
  }

  /** A part with at most one end passes the sequence on to the rest of it, or stops it. */
  lemma SeqStep(parts: seq<Pat>, text: seq<char>, at: nat)
    requires at <= |text| && parts != [] && |Ends(parts[0], text, at)| <= 1
    ensures SeqEnds(parts, text, at)
         == var ends := Ends(parts[0], text, at); if ends == [] then [] else SeqEnds(parts[1..], text, ends[0])
  {
    var ends := Ends(parts[0], text, at);
    if ends != [] {
      assert SeqFrom(parts[1..], text, at, ends[1..]) == [];
    }
  }

  /** A sequence of two parts, and a part before it, when each has at most one end. */
  lemma PairEnds(a: Pat, b: Pat, text: seq<char>, at: nat)
    requires at <= |text| && |Ends(a, text, at)| <= 1
    requires Ends(a, text, at) != [] ==> |Ends(b, text, Ends(a, text, at)[0])| <= 1
    ensures SeqEnds([a] + [b], text, at)
         == if Ends(a, text, at) == [] then [] else Ends(b, text, Ends(a, text, at)[0])
  {
    assert ([a] + [b])[1..] == [b] && [b][1..] == [];
    SeqStep([a] + [b], text, at);
    if Ends(a, text, at) != [] {
      SeqStep([b], text, Ends(a, text, at)[0]);
    }
  }

  lemma BeforeEnds(a: Pat, rest: seq<Pat>, text: seq<char>, at: nat)
    requires at <= |text| && |Ends(a, text, at)| <= 1
    ensures Ends(Seq([a] + rest), text, at)
         == if Ends(a, text, at) == [] then [] else SeqEnds(rest, text, Ends(a, text, at)[0])
  {
    assert ([a] + rest)[1..] == rest;
    SeqStep([a] + rest, text, at);
  }

  // ---------------------------------------------------------------------------------------------------------------
  // What the one-step patterns look at
  // ---------------------------------------------------------------------------------------------------------------

  /** A look behind sees the character just before: what a class would match from there. */
  lemma BehindSeesOneBack(accepts: char -> bool, negate: bool, text: seq<char>, at: nat)
    requires at <= |text|
    ensures Ends(Behind(accepts, negate), text, at)
         == if (at > 0 && Ends(Class(accepts), text, at - 1) != []) != negate then [at] else []
  {
  }

  /** A boundary is where a word character is behind or ahead, and not both. */
  lemma BoundaryIsBehindOrAhead(word: char -> bool, text: seq<char>, at: nat)
    requires at <= |text|
    ensures Ends(Boundary(word), text, at)
         == if (Ends(Behind(word, false), text, at) == []) == (Ends(Class(word), text, at) == []) then [] else [at]
  {
  }

  /** The characters of a literal one after the other. */
  function Letters(chars: seq<char>): seq<Pat> {
    if chars == [] then [] else [Class(c => c == chars[0])] + Letters(chars[1..])
  }

  lemma LitStep(chars: seq<char>, text: seq<char>, at: nat)
    requires at <= |text| && chars != []
    ensures LitAt(chars, text, at) <==> at < |text| && text[at] == chars[0] && LitAt(chars[1..], text, at + 1)
  {
    if at + |chars| <= |text| {
      assert text[at..at + |chars|] == [text[at]] + text[at + 1..at + |chars|];
      assert chars == [chars[0]] + chars[1..];
    }
  }

  /** A literal is its characters one after the other. */
  lemma {:induction false} LitIsItsLetters(chars: seq<char>, text: seq<char>, at: nat)
    requires at <= |text|
    ensures Ends(Lit(chars), text, at) == SeqEnds(Letters(chars), text, at)
  {
    if chars != [] {
      assert Letters(chars)[1..] == Letters(chars[1..]);
      SeqStep(Letters(chars), text, at);
      LitStep(chars, text, at);
      if at < |text| {
        LitIsItsLetters(chars[1..], text, at + 1);
      }
    }
  }

  /** And one under `IGNORECASE` is its characters one after the other, each alone under it. */
  function LettersAlone(chars: seq<char>): seq<Pat> {
    if chars == [] then [] else [ILit([chars[0]])] + LettersAlone(chars[1..])
  }

  lemma ILitStep(chars: seq<char>, text: seq<char>, at: nat)
    requires chars != []
    ensures ILitAt(chars, text, at) <==> ILitAt([chars[0]], text, at) && ILitAt(chars[1..], text, at + 1)
  {
    if ILitAt([chars[0]], text, at) && ILitAt(chars[1..], text, at + 1) {
      assert [chars[0]][0] == chars[0] && SameUnderIgnoreCase([chars[0]][0], text[at + 0]);
      forall i | 0 <= i < |chars| ensures SameUnderIgnoreCase(chars[i], text[at + i]) {
        if i > 0 {
          assert SameUnderIgnoreCase(chars[1..][i - 1], text[at + 1 + (i - 1)]);
        }
      }
    } else if ILitAt(chars, text, at) {
      assert SameUnderIgnoreCase(chars[0], text[at + 0]);
      forall i | 0 <= i < |chars[1..]| ensures SameUnderIgnoreCase(chars[1..][i], text[at + 1 + i]) {
        assert SameUnderIgnoreCase(chars[i + 1], text[at + (i + 1)]);
      }
    }
  }

  lemma {:induction false} ILitIsItsLetters(chars: seq<char>, text: seq<char>, at: nat)
    requires at <= |text|
    ensures Ends(ILit(chars), text, at) == SeqEnds(LettersAlone(chars), text, at)
  {
    if chars != [] {
      var first, rest := ILit([chars[0]]), LettersAlone(chars[1..]);
      BeforeEnds(first, rest, text, at);
      ILitStep(chars, text, at);
      if ILitAt([chars[0]], text, at) {
        assert Ends(first, text, at) == [at + 1];
        ILitIsItsLetters(chars[1..], text, at + 1);
      } else {
        assert Ends(first, text, at) == [];
      }
    }
  }

  /**
   Of ASCII characters a lower-case letter accepts itself and its capital, and no other; a capital accepts nothing,
   since only the text is lowered; and what is no letter accepts itself. The three letters with other cases accept those
   too.
   */
  lemma ILitAccepts(want: char, got: char)
    ensures var accepted := Ends(ILit([want]), [got], 0) != [];
            && ('a' <= want <= 'z' && got as int < 0x80 ==>
                  (accepted <==> got == want || got as int == want as int - 32))
            && ('A' <= want <= 'Z' ==> !accepted)
            && (!('a' <= want <= 'z' || 'A' <= want <= 'Z') ==> (accepted <==> got == want))
            && ('a' <= want <= 'z' && got as int >= 0x80 ==>
                  (accepted <==> [want, got] in ["i\U{130}", "i\U{131}", "s\U{17f}", "k\U{212a}"]))
  {
    assert ILitAt([want], [got], 0) <==> SameUnderIgnoreCase(want, got) by {
      assert [got][0] == got && [want][0] == want;
    }
    var others := ["i\U{130}", "i\U{131}", "s\U{17f}", "k\U{212a}"];
    assert [want, got] in others <==>
        [want, got] == others[0] || [want, got] == others[1] || [want, got] == others[2] || [want, got] == others[3];
    assert forall s: seq<char>, t: seq<char> :: |s| == 2 && |t| == 2 && s[0] == t[0] && s[1] == t[1] ==> s == t;
  }

  // ---------------------------------------------------------------------------------------------------------------
  // Against the relation: exactly the right ends are listed
  // ---------------------------------------------------------------------------------------------------------------

  /** `p` matches `text[i..j]` in place. Says nothing about order, and lets a repeat iterate emptily. */
  ghost predicate Matches(p: Pat, text: seq<char>, i: nat, j: nat)
    requires i <= |text|
    decreases p, 0
  {
    match p
    case Class(accepts) => i < |text| && accepts(text[i]) && j == i + 1
    case Lit(chars) => LitAt(chars, text, i) && j == i + |chars|
    case ILit(chars) => ILitAt(chars, text, i) && j == i + |chars|
    case Seq(parts) => SeqMatches(parts, text, i, j)
    case Alt(options) => exists o :: 0 <= o < |options| && Matches(options[o], text, i, j)
    case Rep(q, min, max, _) => exists path: seq<nat> :: Permitted(|path|, min, max) && Chain(q, text, i, path, j)
    case Ahead(q, negate) => (exists m: nat :: Matches(q, text, i, m)) != negate && j == i
    case Behind(accepts, negate) => CharBefore(accepts, text, i) != negate && j == i
    case Boundary(word) => CharBefore(word, text, i) != CharAfter(word, text, i) && j == i
  }

  ghost predicate Position(m: nat, text: seq<char>) {
    m <= |text|
  }

  /** The iteration counts a `{min,max}` repeat allows. */
  ghost predicate Permitted(n: nat, min: nat, max: nat) {
    min <= n <= max
  }

  ghost predicate SeqMatches(parts: seq<Pat>, text: seq<char>, i: nat, j: nat)
    requires i <= |text|
    decreases parts, 0
  {
    if parts == [] then i == j
    else exists m: nat :: Position(m, text) && Matches(parts[0], text, i, m) && SeqMatches(parts[1..], text, m, j)
  }

  /** A chain of matches of `p`, end to end, from `i` through the positions of `path` to `j`. */
  ghost predicate Chain(p: Pat, text: seq<char>, i: nat, path: seq<nat>, j: nat)
    requires i <= |text|
    decreases p, 1, |path|
  {
    if path == [] then i == j
    else path[0] <= |text| && Matches(p, text, i, path[0]) && Chain(p, text, path[0], path[1..], j)
  }

  /** The engine lists an end exactly when the pattern can match up to it. */
  lemma {:induction false} EndsExact(p: Pat, text: seq<char>, at: nat)
    requires at <= |text|
    ensures forall j: nat :: j in Ends(p, text, at) <==> Matches(p, text, at, j)
    decreases p, 0
  {
    match p
    case Seq(parts) => SeqExact(parts, text, at);
    case Alt(options) => AltExact(options, text, at);
    case Rep(q, min, max, greedy) =>
      forall j: nat ensures j in Ends(p, text, at) <==> Matches(p, text, at, j) {
        RepExact(q, min, max, greedy, text, at, j);
      }
    case Ahead(q, negate) =>
      EndsExact(q, text, at);
      assert Ends(q, text, at) != [] ==> Ends(q, text, at)[0] in Ends(q, text, at);
    case _ =>
  }

  lemma {:induction false} SeqFromMembers(rest: seq<Pat>, text: seq<char>, at: nat, starts: seq<nat>, j: nat)
    requires Within(starts, at, |text|)
    ensures j in SeqFrom(rest, text, at, starts) <==>
            exists k :: 0 <= k < |starts| && j in SeqEnds(rest, text, starts[k])
    decreases |starts|
  {
    if starts != [] {
      var tail := starts[1..];
      SeqFromMembers(rest, text, at, tail, j);
      if j in SeqFrom(rest, text, at, tail) {
        var k :| 0 <= k < |tail| && j in SeqEnds(rest, text, tail[k]);
        assert j in SeqEnds(rest, text, starts[k + 1]);
      }
      if k :| 0 < k < |starts| && j in SeqEnds(rest, text, starts[k]) {
        assert j in SeqEnds(rest, text, tail[k - 1]);
      }
    }
  }

  lemma {:induction false} SeqExact(parts: seq<Pat>, text: seq<char>, at: nat)
    requires at <= |text|
    ensures forall j: nat :: j in SeqEnds(parts, text, at) <==> SeqMatches(parts, text, at, j)
    decreases parts, 1
  {
    forall j: nat ensures j in SeqEnds(parts, text, at) <==> SeqMatches(parts, text, at, j) {
      SeqExactAt(parts, text, at, j);
    }
  }

  lemma {:induction false} SeqExactAt(parts: seq<Pat>, text: seq<char>, at: nat, j: nat)
    requires at <= |text|
    ensures j in SeqEnds(parts, text, at) <==> SeqMatches(parts, text, at, j)
    decreases parts, 0
  {
    if parts != [] {
      var starts := Ends(parts[0], text, at);
      SeqFromMembers(parts[1..], text, at, starts, j);
      if j in SeqEnds(parts, text, at) {
        var k :| 0 <= k < |starts| && j in SeqEnds(parts[1..], text, starts[k]);
        SeqExactAt(parts[1..], text, starts[k], j);
        assert Matches(parts[0], text, at, starts[k]) by {
          assert starts[k] in starts;
          EndsExact(parts[0], text, at);
        }
        assert Position(starts[k], text);
      }
      if SeqMatches(parts, text, at, j) {
        var m: nat :| Position(m, text) && Matches(parts[0], text, at, m) && SeqMatches(parts[1..], text, m, j);
        SeqExactAt(parts[1..], text, m, j);
        assert m in starts by { EndsExact(parts[0], text, at); }
      }
    }
  }

  lemma {:induction false} AltExact(options: seq<Pat>, text: seq<char>, at: nat)
    requires at <= |text|
    ensures forall j: nat :: j in AltEnds(options, text, at) <==>
                             exists o :: 0 <= o < |options| && Matches(options[o], text, at, j)
    decreases options, 0
  {
    if options != [] {
      var tail := options[1..];
      EndsExact(options[0], text, at);
      AltExact(tail, text, at);
      forall j: nat
        ensures j in AltEnds(options, text, at) <==>
                exists o :: 0 <= o < |options| && Matches(options[o], text, at, j)
      {
        if j in AltEnds(tail, text, at) {
          var o :| 0 <= o < |tail| && Matches(tail[o], text, at, j);
          assert Matches(options[o + 1], text, at, j);
        }
        if o :| 0 < o < |options| && Matches(options[o], text, at, j) {
          assert Matches(tail[o - 1], text, at, j);
        }
      }
    }
  }

  lemma {:induction false} RepFromMembers(
    p: Pat, min: nat, max: nat, greedy: bool, count: nat, text: seq<char>, at: nat, starts: seq<nat>, j: nat)
    requires at <= |text| && Within(starts, at, |text|)
    ensures j in RepFrom(p, min, max, greedy, count, text, at, starts) <==>
            exists k :: 0 <= k < |starts| && (starts[k] != at || count < min)
                        && j in RepEnds(p, min, max, greedy, count + 1, text, starts[k])
    decreases |starts|
  {
    if starts != [] {
      var tail := starts[1..];
      RepFromMembers(p, min, max, greedy, count, text, at, tail, j);
      if j in RepFrom(p, min, max, greedy, count, text, at, tail) {
        var k :| 0 <= k < |tail| && (tail[k] != at || count < min)
                 && j in RepEnds(p, min, max, greedy, count + 1, text, tail[k]);
        assert tail[k] == starts[k + 1];
      }
      if k :| 0 < k < |starts| && (starts[k] != at || count < min)
              && j in RepEnds(p, min, max, greedy, count + 1, text, starts[k]) {
        assert tail[k - 1] == starts[k];
      }
    }
  }

  /** A repeat either stops where it is, or goes on from an end of its body. */
  lemma {:induction false} RepEndsMembers(
    p: Pat, min: nat, max: nat, greedy: bool, count: nat, text: seq<char>, at: nat, j: nat)
    returns (m: nat)
    requires at <= |text| && j in RepEnds(p, min, max, greedy, count, text, at)
    ensures at <= m <= |text|
    ensures (m == at && j == at && count >= min)
         || (count < max && m in Ends(p, text, at) && (m != at || count < min)
             && j in RepEnds(p, min, max, greedy, count + 1, text, m))
  {
    m := at;
    if j != at || count < min {
      var starts := Ends(p, text, at);
      RepFromMembers(p, min, max, greedy, count, text, at, starts, j);
      var k :| 0 <= k < |starts| && (starts[k] != at || count < min)
               && j in RepEnds(p, min, max, greedy, count + 1, text, starts[k]);
      m := starts[k];
    }
  }

  /** Every end a repeat lists is reached by a chain of a permitted number of iterations. */
  lemma {:induction false} RepSound(
    p: Pat, min: nat, max: nat, greedy: bool, count: nat, text: seq<char>, at: nat, j: nat)
    returns (path: seq<nat>)
    requires at <= |text|
    requires j in RepEnds(p, min, max, greedy, count, text, at)
    ensures min <= count + |path| && (path == [] || count + |path| <= max) && Chain(p, text, at, path, j)
    decreases p, 1, Owed(min, count), |text| - at
  {
    var m := RepEndsMembers(p, min, max, greedy, count, text, at, j);
    if j == at && count >= min {
      path := [];
    } else {
      assert Matches(p, text, at, m) by { EndsExact(p, text, at); }
      var rest := RepSound(p, min, max, greedy, count + 1, text, m, j);
      path := [m] + rest;
      assert path[1..] == rest;
    }
  }

  /** Every chain of a permitted number of iterations reaches a listed end: those skipped for being empty lose none. */
  lemma {:induction false} RepComplete(
    p: Pat, min: nat, max: nat, greedy: bool, count: nat, text: seq<char>, at: nat, path: seq<nat>, j: nat)
    requires at <= |text|
    requires min <= count + |path| <= max && Chain(p, text, at, path, j)
    ensures j in RepEnds(p, min, max, greedy, count, text, at)
    decreases p, 1, |path|
  {
    if path != [] {
      var m := path[0];
      if m == at && count >= min {
        RepComplete(p, min, max, greedy, count, text, at, path[1..], j);
      } else {
        RepComplete(p, min, max, greedy, count + 1, text, m, path[1..], j);
        var starts := Ends(p, text, at);
        assert m in starts by { EndsExact(p, text, at); }
        RepFromMembers(p, min, max, greedy, count, text, at, starts, j);
      }
    }
  }

  lemma {:induction false} RepExact(p: Pat, min: nat, max: nat, greedy: bool, text: seq<char>, at: nat, j: nat)
    requires at <= |text|
    ensures j in RepEnds(p, min, max, greedy, 0, text, at) <==>
            exists path: seq<nat> :: Permitted(|path|, min, max) && Chain(p, text, at, path, j)
    decreases p, 2
  {
    if j in RepEnds(p, min, max, greedy, 0, text, at) {
      var path := RepSound(p, min, max, greedy, 0, text, at, j);
      assert Permitted(|path|, min, max);
    }
    if path: seq<nat> :| Permitted(|path|, min, max) && Chain(p, text, at, path, j) {
      RepComplete(p, min, max, greedy, 0, text, at, path, j);
    }
  }

  // ---------------------------------------------------------------------------------------------------------------
  // match, fullmatch, search, finditer
  // ---------------------------------------------------------------------------------------------------------------

  function MatchAt(p: Pat, text: seq<char>, at: nat): Option<nat>
    requires at <= |text|
  {
    var ends := Ends(p, text, at);
    if ends == [] then None else Some(ends[0])
  }

  predicate FullMatch(p: Pat, text: seq<char>) {
    |text| in Ends(p, text, 0)
  }

  /** Greed changes which end comes first, never which ends there are. */
  lemma GreedOnlyOrders(p: Pat, min: nat, max: nat, text: seq<char>, at: nat, j: nat)
    requires at <= |text|
    ensures j in Ends(Rep(p, min, max, true), text, at) <==> j in Ends(Rep(p, min, max, false), text, at)
  {
    RepExact(p, min, max, true, text, at, j);
    RepExact(p, min, max, false, text, at, j);
  }

  /** How many characters from `at` on a class accepts in a row, up to `limit`. */
  function RunOf(accepts: char -> bool, text: seq<char>, at: nat, limit: nat): nat
    decreases limit
  {
    if limit > 0 && at < |text| && accepts(text[at]) then 1 + RunOf(accepts, text, at + 1, limit - 1) else 0
  }

  /** One more character of a class, and then the rest of the repeat; or none. */
  lemma ClassRepeats(accepts: char -> bool, min: nat, max: nat, greedy: bool, count: nat, text: seq<char>, at: nat)
    requires at <= |text|
    ensures RepMore(Class(accepts), min, max, greedy, count, text, at)
         == if count < max && at < |text| && accepts(text[at])
            then RepEnds(Class(accepts), min, max, greedy, count + 1, text, at + 1) else []
  {
    var q := Class(accepts);
    var starts := Ends(q, text, at);
    if count < max && starts != [] {
      assert starts == [at + 1] && starts[1..] == [];
      var more := RepEnds(q, min, max, greedy, count + 1, text, at + 1);
      assert RepFrom(q, min, max, greedy, count, text, at, starts) == more + [] == more;
    }
  }

  lemma {:induction false} RunIsRepeated(
    accepts: char -> bool, min: nat, max: nat, greedy: bool, count: nat, text: seq<char>, at: nat)
    requires at <= |text| && count <= max
    ensures var ends := RepEnds(Class(accepts), min, max, greedy, count, text, at);
            var run, owed := RunOf(accepts, text, at, max - count), Owed(min, count);
            if run < owed then ends == []
            else ends != [] && ends[0] == at + if greedy then run else owed
    decreases max - count
  {
    ClassRepeats(accepts, min, max, greedy, count, text, at);
    if count < max && at < |text| && accepts(text[at]) {
      RunIsRepeated(accepts, min, max, greedy, count + 1, text, at + 1);
    }
  }

  /**
   A greedy repeat of a class takes as many characters as there are, up to its maximum, and a lazy one its minimum.
   */
  lemma GreedyTakesTheRun(accepts: char -> bool, min: nat, max: nat, greedy: bool, text: seq<char>, at: nat)
    requires at <= |text|
    ensures var run := RunOf(accepts, text, at, max);
            MatchAt(Rep(Class(accepts), min, max, greedy), text, at)
            == if run < min then None else Some(at + if greedy then run else min)
  {
    RunIsRepeated(accepts, min, max, greedy, 0, text, at);
  }

  /** Of alternatives the first that matches at all decides. */
  lemma {:induction false} FirstAlternativeDecides(options: seq<Pat>, text: seq<char>, at: nat, i: nat)
    requires at <= |text| && i < |options| && MatchAt(options[i], text, at).Some?
    requires forall j :: 0 <= j < i ==> MatchAt(options[j], text, at).None?
    ensures MatchAt(Alt(options), text, at) == MatchAt(options[i], text, at)
    decreases i
  {
    assert Ends(Alt(options), text, at) == AltEnds(options, text, at);
    if i > 0 {
      assert MatchAt(options[0], text, at).None?;
      FirstAlternativeDecides(options[1..], text, at, i - 1);
      assert Ends(Alt(options[1..]), text, at) == AltEnds(options[1..], text, at);
      assert Ends(options[0], text, at) == [] && AltEnds(options, text, at) == [] + AltEnds(options[1..], text, at);
    }
  }

  /** Where a match starts and where it ends. */
  datatype Span = Span(start: nat, end: nat)

  predicate NoMatchFrom(p: Pat, text: seq<char>, low: nat, high: nat)
    requires high <= |text| + 1
  {
    forall s: nat :: low <= s < high ==> MatchAt(p, text, s).None?
  }

  function Search(p: Pat, text: seq<char>, from: nat): (found: Option<Span>)
    ensures found.None? ==> NoMatchFrom(p, text, from, |text| + 1)
    ensures found.Some? ==>
              && from <= found.value.start <= |text|
              && NoMatchFrom(p, text, from, found.value.start)
              && MatchAt(p, text, found.value.start) == Some(found.value.end)
              && found.value.start <= found.value.end <= |text|
    decreases |text| + 1 - from
  {
    if from > |text| then None
    else match MatchAt(p, text, from)
      case Some(end) => Some(Span(from, end))
      case None => Search(p, text, from + 1)
  }

  /** Where the scan resumes after the first `i` spans: past an empty match by one, else where the match ended. */
  function Resume(spans: seq<Span>, i: nat): nat
    requires i <= |spans|
  {
    if i == 0 then 0
    else if spans[i - 1].start == spans[i - 1].end then spans[i - 1].end + 1
    else spans[i - 1].end
  }

  /** Each span is the first match at its start, and no start is passed over before it or after the last one. */
  ghost predicate IsScan(p: Pat, text: seq<char>, spans: seq<Span>) {
    && (forall i :: 0 <= i < |spans| ==> IsNext(p, text, spans, i))
    && NoMatchFrom(p, text, Resume(spans, |spans|), |text| + 1)
  }

  ghost predicate IsNext(p: Pat, text: seq<char>, spans: seq<Span>, i: nat)
    requires i < |spans|
  {
    && Resume(spans, i) <= spans[i].start <= spans[i].end <= |text|
    && MatchAt(p, text, spans[i].start) == Some(spans[i].end)
    && NoMatchFrom(p, text, Resume(spans, i), spans[i].start)
  }

  lemma ScanExtends(p: Pat, text: seq<char>, spans: seq<Span>, span: Span)
    requires forall i :: 0 <= i < |spans| ==> IsNext(p, text, spans, i)
    requires Resume(spans, |spans|) <= span.start <= span.end <= |text|
    requires MatchAt(p, text, span.start) == Some(span.end) && NoMatchFrom(p, text, Resume(spans, |spans|), span.start)
    ensures forall i :: 0 <= i <= |spans| ==> IsNext(p, text, spans + [span], i)
  {
    var extended := spans + [span];
    forall i | 0 <= i <= |spans| ensures IsNext(p, text, extended, i) {
      assert i < |spans| ==> IsNext(p, text, spans, i);
      assert Resume(extended, i) == Resume(spans, i);
    }
  }

  method FindIter(p: Pat, text: seq<char>) returns (found: seq<Span>)
    ensures IsScan(p, text, found)
  {
    found := [];
    var at := 0;
    while at <= |text|
      invariant at == Resume(found, |found|)
      invariant forall i :: 0 <= i < |found| ==> IsNext(p, text, found, i)
      decreases |text| + 1 - at
    {
      match Search(p, text, at)
      case Some(span) =>
        ScanExtends(p, text, found, span);
        found := found + [span];
        at := if span.end == span.start then span.end + 1 else span.end;
      case None =>
        break;
    }
  }

  /** The spans of a scan come in order and do not overlap. */
  lemma {:induction false} ScanIsOrdered(p: Pat, text: seq<char>, spans: seq<Span>, i: nat, j: nat)
    requires IsScan(p, text, spans) && i < j < |spans|
    ensures spans[i].end <= spans[j].start && spans[i].start < spans[j].start
    decreases j
  {
    assert IsNext(p, text, spans, j) && IsNext(p, text, spans, j - 1);
    if i < j - 1 {
      ScanIsOrdered(p, text, spans, i, j - 1);
    }
  }

  /**
   No match is skipped: none starts before the first span, after the last, or between two, an empty match at the end of
   one included unless that one was empty too.
   */
  lemma NoMatchIsSkipped(p: Pat, text: seq<char>, spans: seq<Span>, i: nat, at: nat)
    requires IsScan(p, text, spans) && i <= |spans| && at <= |text|
    requires i > 0 ==> spans[i - 1].end <= at && spans[i - 1].start < at
    requires i < |spans| ==> at < spans[i].start
    ensures MatchAt(p, text, at).None?
  {
    assert i < |spans| ==> IsNext(p, text, spans, i);
  }

  /** A text has one scan, so what `FindIter` promises fixes what it returns. */
  lemma {:induction false} ScanIsUnique(p: Pat, text: seq<char>, a: seq<Span>, b: seq<Span>)
    requires IsScan(p, text, a) && IsScan(p, text, b)
    ensures a == b
  {
    ScansAgree(p, text, a, b, |a|);
    assert |a| < |b| ==> IsNext(p, text, b, |a|);
  }

  lemma {:induction false} ScansAgree(p: Pat, text: seq<char>, a: seq<Span>, b: seq<Span>, n: nat)
    requires IsScan(p, text, a) && IsScan(p, text, b) && n <= |a|
    ensures n <= |b| && a[..n] == b[..n] && Resume(a, n) == Resume(b, n)
  {
    if n > 0 {
      ScansAgree(p, text, a, b, n - 1);
      assert IsNext(p, text, a, n - 1);
      assert n <= |b| ==> IsNext(p, text, b, n - 1);
    }
  }
}
