/**
 Packing questions into requests: `evaluate_batches` of crates/fastbrowse-agent/src/batches.rs, under the limits of
 `TokenBudget::input_chars` in crates/fastbrowse-core/src/config.rs.
 */
module Batches {
  import opened Common

  /** A question's key, and the JSON it is sent as. */
  datatype Question = Question(key: string, json: string)

  datatype TokenBudget = TokenBudget(
    statePlusLargest: int, statePlusAll: int, batchTokens: int, decisionChars: Option<(int, int)>)

  const JSON_CHARS_PER_TOKEN := 1.5

  /** The budget, how tokens are estimated, the most questions a request may ask, and the state's length. */
  datatype AnyLimits = Limits(tokens: TokenBudget, estimate: nat -> real, maxQuestions: Option<nat>, stateChars: nat)

  ghost predicate NeverNegative(estimate: nat -> real) {
    forall chars :: estimate(chars) >= 0.0
  }

  type Limits = l: AnyLimits | NeverNegative(l.estimate)
    ghost witness Limits(TokenBudget(1, 1, 1, None), _ => 0.0, None, 0)

  type Batch = seq<Question>

  function Biggest(batch: Batch): nat {
    if batch == [] then 0
    else if |batch[0].json| > Biggest(batch[1..]) then |batch[0].json| else Biggest(batch[1..])
  }

  function Total(batch: Batch): nat {
    if batch == [] then 0 else |batch[0].json| + Total(batch[1..])
  }

  /** What the two limits leave for the state: one counts the largest question beside it, the other all of them. */
  function InputChars(tokens: TokenBudget, biggest: nat, total: nat): (room: nat) {
    var (largest, all) :=
      match tokens.decisionChars
      case None =>
        (tokens.statePlusLargest as real * JSON_CHARS_PER_TOKEN, tokens.statePlusAll as real * JSON_CHARS_PER_TOKEN)
      case Some((most, all)) => (most as real, all as real);
    var beside, together := largest - biggest as real, all - total as real;
    var room := if beside <= together then beside else together;
    if room < 0.0 then 0 else room.Floor
  }

  lemma InputCharsShrinks(tokens: TokenBudget, biggest: nat, total: nat, bigger: nat, more: nat)
    requires biggest <= bigger && total <= more
    ensures InputChars(tokens, bigger, more) <= InputChars(tokens, biggest, total)
  {
  }

  predicate Together(l: Limits, batch: Batch) {
    l.stateChars <= InputChars(l.tokens, Biggest(batch), Total(batch))
  }

  /** A question that fits beside the state at all. */
  predicate Alone(l: Limits, q: Question) {
    l.stateChars <= InputChars(l.tokens, |q.json|, |q.json|)
  }

  function Cap(tokens: TokenBudget): real {
    (if tokens.batchTokens <= tokens.statePlusAll then tokens.batchTokens else tokens.statePlusAll) as real
  }

  /** The estimated size of a request's questions. */
  function Weight(l: Limits, batch: Batch): (size: real)
    ensures size >= 0.0
  {
    assert NeverNegative(l.estimate);
    if batch == [] then 0.0 else Weight(l, batch[..|batch| - 1]) + l.estimate(|batch[|batch| - 1].json|)
  }

  /** One request: within the model's limits, and within the batch limits when it asks more than one question. */
  predicate Sendable(l: Limits, batch: Batch)
  {
    && batch != [] && Together(l, batch)
    && (|batch| == 1 || ((l.maxQuestions.Some? ==> |batch| <= l.maxQuestions.value)
                         && Weight(l, batch) <= Cap(l.tokens)))
  }

  // ---------------------------------------------------------------------------------------------------------------
  // Sizes of parts
  // ---------------------------------------------------------------------------------------------------------------

  lemma {:induction false} SizesAppend(a: Batch, b: Batch)
    ensures Total(a + b) == Total(a) + Total(b)
    ensures Biggest(a + b) == if Biggest(a) >= Biggest(b) then Biggest(a) else Biggest(b)
  {
    if a == [] {
      assert a + b == b;
    } else {
      assert (a + b)[1..] == a[1..] + b;
      SizesAppend(a[1..], b);
    }
  }

  lemma {:induction false} WeightAppend(l: Limits, a: Batch, b: Batch)
    ensures Weight(l, a + b) == Weight(l, a) + Weight(l, b)
  {
    if b == [] {
      assert a + b == a;
    } else {
      assert (a + b)[..|a + b| - 1] == a + b[..|b| - 1];
      WeightAppend(l, a, b[..|b| - 1]);
    }
  }

  lemma PartIsLighter(l: Limits, before: Batch, part: Batch, after: Batch)
    ensures Weight(l, part) <= Weight(l, before + part + after)
  {
    WeightAppend(l, before + part, after);
    WeightAppend(l, before, part);
  }

  lemma PartIsTogether(l: Limits, before: Batch, part: Batch, after: Batch)
    requires Together(l, before + part + after)
    ensures Together(l, part)
  {
    SizesAppend(before + part, after);
    SizesAppend(before, part);
    var whole := before + part + after;
    InputCharsShrinks(l.tokens, Biggest(part), Total(part), Biggest(whole), Total(whole));
  }

  lemma SliceIsSendable(l: Limits, whole: Batch, i: nat, j: nat)
    requires i < j <= |whole| && Sendable(l, whole)
    ensures Sendable(l, whole[i..j])
  {
    assert whole == whole[..i] + whole[i..j] + whole[j..];
    PartIsLighter(l, whole[..i], whole[i..j], whole[j..]);
    PartIsTogether(l, whole[..i], whole[i..j], whole[j..]);
  }

  lemma OneIsSendable(l: Limits, q: Question)
    ensures Sendable(l, [q]) <==> Alone(l, q)
  {
    assert [q][1..] == [] && Biggest([]) == 0;
    assert Total([q]) == |q.json| + Total([]) && Biggest([q]) == |q.json|;
  }

  /** The largest of the questions, and all of them together. */
  lemma {:induction false} SizesAre(batch: Batch)
    ensures forall q :: q in batch ==> |q.json| <= Biggest(batch)
    ensures if batch == [] then Biggest(batch) == 0 else exists q :: q in batch && |q.json| == Biggest(batch)
    ensures Total(batch) == SumOf(seq(|batch|, i requires 0 <= i < |batch| => |batch[i].json|))
  {
    if batch != [] {
      SizesAre(batch[1..]);
      var sizes := seq(|batch|, i requires 0 <= i < |batch| => |batch[i].json|);
      assert sizes[1..] == seq(|batch[1..]|, i requires 0 <= i < |batch[1..]| => |batch[1..][i].json|);
      assert |batch[0].json| >= Biggest(batch[1..]) ==> batch[0] in batch && |batch[0].json| == Biggest(batch);
    }
  }

  function SumOf(sizes: seq<nat>): nat {
    if sizes == [] then 0 else sizes[0] + SumOf(sizes[1..])
  }

  /** The state fits beside the questions, unless it is empty, as long as both of the model's limits hold. */
  lemma TogetherIff(l: Limits, batch: Batch)
    ensures l.tokens.decisionChars.Some? ==>
              (Together(l, batch) <==>
                 || l.stateChars == 0
                 || (l.stateChars + Biggest(batch) <= l.tokens.decisionChars.value.0
                     && l.stateChars + Total(batch) <= l.tokens.decisionChars.value.1))
    ensures l.tokens.decisionChars.None? ==>
              (Together(l, batch) <==>
                 || l.stateChars == 0
                 || ((l.stateChars + Biggest(batch)) as real <= 1.5 * l.tokens.statePlusLargest as real
                     && (l.stateChars + Total(batch)) as real <= 1.5 * l.tokens.statePlusAll as real))
  {
  }

  /** What may be sent at once: some questions beside the state, and if more than one, few enough and small enough. */
  lemma SendableIff(l: Limits, batch: Batch)
    ensures Sendable(l, batch) <==>
              && batch != [] && Together(l, batch)
              && (|batch| > 1 ==>
                    && (l.maxQuestions.Some? ==> |batch| <= l.maxQuestions.value)
                    && Weight(l, batch) <= l.tokens.batchTokens as real
                    && Weight(l, batch) <= l.tokens.statePlusAll as real)
    ensures |batch| == 1 ==> Weight(l, batch) == l.estimate(|batch[0].json|)
  {
  }

  // ---------------------------------------------------------------------------------------------------------------
  // Packing from the front, for any rule that allows every part of what it allows
  // ---------------------------------------------------------------------------------------------------------------

  ghost predicate AllowsParts(ok: Batch -> bool) {
    forall whole, i: nat, j: nat :: i < j <= |whole| && ok(whole) ==> ok(whole[i..j])
  }

  ghost predicate Singly(ok: Batch -> bool, xs: Batch) {
    forall q :: q in xs ==> ok([q])
  }

  /** How many questions the first request takes, when it has taken `n`. */
  ghost function Reach(ok: Batch -> bool, xs: Batch, n: nat): (end: nat)
    requires 0 < n <= |xs| && ok(xs[..n])
    ensures n <= end <= |xs| && ok(xs[..end])
    ensures end < |xs| ==> !ok(xs[..end + 1])
    decreases |xs| - n
  {
    if n < |xs| && ok(xs[..n + 1]) then Reach(ok, xs, n + 1) else n
  }

  ghost function First(ok: Batch -> bool, xs: Batch): (end: nat)
    requires xs != [] && Singly(ok, xs)
    ensures 0 < end <= |xs| && ok(xs[..end])
    ensures end < |xs| ==> !ok(xs[..end + 1])
  {
    assert xs[0] in xs && xs[..1] == [xs[0]];
    Reach(ok, xs, 1)
  }

  /** Each request takes as many questions as can be sent together. */
  ghost function Packed(ok: Batch -> bool, xs: Batch): seq<Batch>
    requires Singly(ok, xs)
    decreases |xs|
  {
    if xs == [] then [] else [xs[..First(ok, xs)]] + Packed(ok, xs[First(ok, xs)..])
  }

  function Concat(batches: seq<Batch>): Batch {
    if batches == [] then [] else batches[0] + Concat(batches[1..])
  }

  /** The first request is the one prefix that can be sent and cannot take one more question. */
  lemma FirstIs(ok: Batch -> bool, xs: Batch, n: nat)
    requires AllowsParts(ok) && Singly(ok, xs) && 0 < n <= |xs| && ok(xs[..n])
    requires n < |xs| ==> !ok(xs[..n + 1])
    ensures First(ok, xs) == n
  {
    var f := First(ok, xs);
    if f < n {
      PrefixIsOk(ok, xs, n, f + 1);
    } else if n < f {
      PrefixIsOk(ok, xs, f, n + 1);
    }
  }

  lemma PrefixIsOk(ok: Batch -> bool, xs: Batch, n: nat, m: nat)
    requires AllowsParts(ok) && 0 < m <= n <= |xs| && ok(xs[..n])
    ensures ok(xs[..m])
  {
    assert xs[..m] == xs[..n][0..m];
  }

  ghost predicate AllOk(ok: Batch -> bool, batches: seq<Batch>) {
    forall i :: 0 <= i < |batches| ==> batches[i] != [] && ok(batches[i])
  }

  /** No request could have taken the first question of the next. */
  ghost predicate NoRoomLeft(ok: Batch -> bool, batches: seq<Batch>)
    requires AllOk(ok, batches)
  {
    forall i :: 0 <= i < |batches| - 1 ==> !ok(batches[i] + [batches[i + 1][0]])
  }

  lemma SoundFirst(ok: Batch -> bool, batch: Batch, rest: seq<Batch>)
    requires batch != [] && ok(batch) && AllOk(ok, rest) && NoRoomLeft(ok, rest)
    requires rest != [] ==> !ok(batch + [rest[0][0]])
    ensures AllOk(ok, [batch] + rest) && NoRoomLeft(ok, [batch] + rest)
  {
  }

  lemma PackedStarts(ok: Batch -> bool, xs: Batch)
    requires Singly(ok, xs) && xs != []
    ensures var packed := Packed(ok, xs); packed != [] && packed[0] != [] && packed[0][0] == xs[0]
  {
  }

  lemma {:induction false} PackedConcat(ok: Batch -> bool, xs: Batch)
    requires Singly(ok, xs)
    ensures Concat(Packed(ok, xs)) == xs
    decreases |xs|
  {
    if xs != [] {
      PackedConcat(ok, xs[First(ok, xs)..]);
    }
  }

  lemma {:induction false} PackedIsSound(ok: Batch -> bool, xs: Batch)
    requires Singly(ok, xs)
    ensures AllOk(ok, Packed(ok, xs)) && NoRoomLeft(ok, Packed(ok, xs))
    decreases |xs|
  {
    if xs != [] {
      var n := First(ok, xs);
      var rest := Packed(ok, xs[n..]);
      PackedIsSound(ok, xs[n..]);
      if n < |xs| {
        PackedStarts(ok, xs[n..]);
        assert xs[..n + 1] == xs[..n] + [xs[n]];
      }
      SoundFirst(ok, xs[..n], rest);
    }
  }

  /** Starting later never takes more requests. */
  lemma {:induction false} LaterIsNoWorse(ok: Batch -> bool, xs: Batch, j: nat)
    requires AllowsParts(ok) && Singly(ok, xs) && j <= |xs|
    ensures |Packed(ok, xs[j..])| <= |Packed(ok, xs)|
    decreases |xs|
  {
    if j < |xs| {
      var n := First(ok, xs);
      if n <= j {
        assert xs[n..][j - n..] == xs[j..];
        LaterIsNoWorse(ok, xs[n..], j - n);
      } else {
        var later := xs[j..];
        var m := First(ok, later);
        FirstReachesAsFar(ok, xs, j);
        assert later[m..] == xs[n..][j + m - n..];
        LaterIsNoWorse(ok, xs[n..], j + m - n);
      }
    }
  }

  lemma PartIsOk(ok: Batch -> bool, xs: Batch, n: nat, j: nat, k: nat)
    requires AllowsParts(ok) && n <= |xs| && ok(xs[..n]) && 0 < k && j + k <= n
    ensures ok(xs[j..][..k])
  {
    assert xs[j..][..k] == xs[..n][j..j + k];
  }

  lemma FirstReachesAsFar(ok: Batch -> bool, xs: Batch, j: nat)
    requires AllowsParts(ok) && Singly(ok, xs) && j < |xs| && j < First(ok, xs)
    ensures j + First(ok, xs[j..]) >= First(ok, xs)
  {
    var n, m := First(ok, xs), First(ok, xs[j..]);
    if j + m < n {
      PartIsOk(ok, xs, n, j, m + 1);
    }
  }

  lemma ConcatParts(other: seq<Batch>)
    requires other != []
    ensures var k := |other[0]|;
            k <= |Concat(other)| && Concat(other)[..k] == other[0] && Concat(other)[k..] == Concat(other[1..])
  {
  }

  /** No other way to send the questions in order takes fewer requests. */
  lemma {:induction false} PackedIsFewest(ok: Batch -> bool, xs: Batch, other: seq<Batch>)
    requires AllowsParts(ok) && Singly(ok, xs) && Concat(other) == xs && AllOk(ok, other)
    ensures |Packed(ok, xs)| <= |other|
    decreases |other|
  {
    if other != [] {
      ConcatParts(other);
      var n, k := First(ok, xs), |other[0]|;
      if n < k {
        PrefixIsOk(ok, xs, k, n + 1);
      }
      PackedIsFewest(ok, xs[k..], other[1..]);
      assert xs[k..][n - k..] == xs[n..];
      LaterIsNoWorse(ok, xs[k..], n - k);
    }
  }

  lemma PackedNext(ok: Batch -> bool, batch: Batch, q: Question, rest: Batch)
    requires AllowsParts(ok) && Singly(ok, batch + [q] + rest)
    requires batch != [] && ok(batch) && !ok(batch + [q])
    ensures Singly(ok, [q] + rest)
    ensures Packed(ok, batch + [q] + rest) == [batch] + Packed(ok, [q] + rest)
  {
    var xs := batch + [q] + rest;
    assert xs[..|batch|] == batch && xs[..|batch| + 1] == batch + [q] && xs[|batch|..] == [q] + rest;
    assert forall x :: x in [q] + rest ==> x in xs;
    FirstIs(ok, xs, |batch|);
  }

  lemma PackedLast(ok: Batch -> bool, batch: Batch)
    requires AllowsParts(ok) && Singly(ok, batch) && batch != [] && ok(batch)
    ensures Packed(ok, batch) == [batch]
  {
    assert batch[..|batch|] == batch;
    FirstIs(ok, batch, |batch|);
  }

  // ---------------------------------------------------------------------------------------------------------------
  // The packing loop
  // ---------------------------------------------------------------------------------------------------------------

  function Rule(l: Limits): Batch -> bool {
    batch => Sendable(l, batch)
  }

  lemma RuleAllowsParts(l: Limits)
    ensures AllowsParts(Rule(l))
  {
    forall whole, i: nat, j: nat | i < j <= |whole| && Rule(l)(whole) ensures Rule(l)(whole[i..j]) {
      SliceIsSendable(l, whole, i, j);
    }
  }

  ghost function ToSend(l: Limits, questions: Batch): (sent: Batch)
    ensures Singly(Rule(l), sent)
  {
    var sent := Filter(questions, q => Alone(l, q));
    assert Singly(Rule(l), sent) by {
      forall q | q in sent ensures Rule(l)([q]) {
        OneIsSendable(l, q);
      }
    }
    sent
  }

  /** What is sent: every question that fits alone, in as few requests as sending them in order can take. */
  ghost function Requests(l: Limits, questions: Batch): seq<Batch> {
    Packed(Rule(l), ToSend(l, questions))
  }

  lemma RequestsAreSound(l: Limits, questions: Batch, other: seq<Batch>)
    ensures Concat(Requests(l, questions)) == Filter(questions, q => Alone(l, q))
    ensures AllOk(Rule(l), Requests(l, questions)) && NoRoomLeft(Rule(l), Requests(l, questions))
    ensures AllOk(Rule(l), other) && Concat(other) == Concat(Requests(l, questions)) ==>
              |Requests(l, questions)| <= |other|
  {
    RuleAllowsParts(l);
    PackedIsSound(Rule(l), ToSend(l, questions));
    PackedConcat(Rule(l), ToSend(l, questions));
    if AllOk(Rule(l), other) && Concat(other) == ToSend(l, questions) {
      PackedIsFewest(Rule(l), ToSend(l, questions), other);
    }
  }

  lemma ToSendNext(l: Limits, questions: Batch, i: nat)
    requires i < |questions|
    ensures ToSend(l, questions[i..])
         == (if Alone(l, questions[i]) then [questions[i]] else []) + ToSend(l, questions[i + 1..])
  {
  }

  lemma TotalFirst(q: Question, rest: Batch)
    ensures Total([q] + rest) == |q.json| + Total(rest)
  {
  }

  /** Whether the request being filled has no room for one more question. */
  method IsFull(l: Limits, batch: Batch, batchSize: real, q: Question) returns (full: bool)
    requires batch != [] && Sendable(l, batch) && batchSize == Weight(l, batch)
    ensures full <==> !Sendable(l, batch + [q])
  {
    var longer := batch + [q];
    assert longer[..|longer| - 1] == batch;
    full :=
      || (l.maxQuestions.Some? && |batch| >= l.maxQuestions.value)
      || batchSize + l.estimate(|q.json|) > Cap(l.tokens)
      || l.stateChars > InputChars(l.tokens, Biggest(longer), Total(longer));
  }

  lemma Sized(l: Limits, batch: Batch, q: Question)
    ensures Weight(l, batch + [q]) == Weight(l, batch) + l.estimate(|q.json|)
  {
  }

  /** One question that fits alone joins the request being filled, or starts the next one. */
  method Place(l: Limits, batch: Batch, batchSize: real, q: Question)
    returns (done: seq<Batch>, next: Batch, nextSize: real)
    requires (batch == [] || Sendable(l, batch)) && Alone(l, q) && batchSize == Weight(l, batch)
    ensures Sendable(l, next) && next != [] && nextSize == Weight(l, next)
    ensures if batch == [] || Sendable(l, batch + [q]) then done == [] && next == batch + [q]
            else done == [batch] && next == [q]
  {
    OneIsSendable(l, q);
    var full := false;
    if batch != [] {
      full := IsFull(l, batch, batchSize, q);
    }
    if full {
      Sized(l, [], q);
      assert [] + [q] == [q];
      done, next, nextSize := [batch], [q], l.estimate(|q.json|);
    } else {
      Sized(l, batch, q);
      assert batch == [] ==> batch + [q] == [q];
      done, next, nextSize := [], batch + [q], batchSize + l.estimate(|q.json|);
    }
  }

  /** The question placed, what is still to be packed is packed as before. */
  lemma PlaceKeeps(ok: Batch -> bool, batch: Batch, q: Question, rest: Batch, done: seq<Batch>, next: Batch)
    requires AllowsParts(ok) && Singly(ok, batch + ([q] + rest)) && (batch == [] || ok(batch))
    requires if batch == [] || ok(batch + [q]) then done == [] && next == batch + [q]
             else done == [batch] && next == [q]
    ensures Singly(ok, next + rest)
    ensures done + Packed(ok, next + rest) == Packed(ok, batch + ([q] + rest))
  {
    assert batch + ([q] + rest) == batch + [q] + rest;
    if batch == [] || ok(batch + [q]) {
      assert done + Packed(ok, next + rest) == Packed(ok, next + rest);
    } else {
      PackedNext(ok, batch, q, rest);
    }
  }

  /** What the loop keeps: the closed requests, the open one and the rest still make up what is to be packed. */
  ghost predicate Packing(
    l: Limits, questions: Batch, i: nat, batches: seq<Batch>, batch: Batch, sentChars: nat)
  {
    && i <= |questions|
    && Singly(Rule(l), batch + ToSend(l, questions[i..]))
    && batches + Packed(Rule(l), batch + ToSend(l, questions[i..])) == Requests(l, questions)
    && sentChars + Total(ToSend(l, questions[i..])) == Total(ToSend(l, questions))
  }

  lemma PackingStarts(l: Limits, questions: Batch)
    ensures Packing(l, questions, 0, [], [], 0)
  {
    assert questions[0..] == questions && [] + ToSend(l, questions) == ToSend(l, questions);
    assert [] + Requests(l, questions) == Requests(l, questions);
  }

  lemma PackingSkips(l: Limits, questions: Batch, i: nat, batches: seq<Batch>, batch: Batch, sentChars: nat)
    requires Packing(l, questions, i, batches, batch, sentChars) && i < |questions| && !Alone(l, questions[i])
    ensures Packing(l, questions, i + 1, batches, batch, sentChars)
  {
    ToSendNext(l, questions, i);
    assert [] + ToSend(l, questions[i + 1..]) == ToSend(l, questions[i + 1..]);
  }

  lemma PackingPlaces(
    l: Limits, questions: Batch, i: nat, batches: seq<Batch>, batch: Batch, sentChars: nat,
    done: seq<Batch>, next: Batch)
    requires Packing(l, questions, i, batches, batch, sentChars) && i < |questions| && Alone(l, questions[i])
    requires batch == [] || Sendable(l, batch)
    requires if batch == [] || Sendable(l, batch + [questions[i]]) then done == [] && next == batch + [questions[i]]
             else done == [batch] && next == [questions[i]]
    ensures Packing(l, questions, i + 1, batches + done, next, sentChars + |questions[i].json|)
  {
    var q, rest, ok := questions[i], ToSend(l, questions[i + 1..]), Rule(l);
    RuleAllowsParts(l);
    ToSendNext(l, questions, i);
    PlaceKeeps(ok, batch, q, rest, done, next);
    assert batches + (done + Packed(ok, next + rest)) == batches + done + Packed(ok, next + rest);
    TotalFirst(q, rest);
  }

  lemma PackingEnds(l: Limits, questions: Batch, batches: seq<Batch>, batch: Batch, sentChars: nat)
    requires Packing(l, questions, |questions|, batches, batch, sentChars) && (batch == [] || Sendable(l, batch))
    ensures batches + (if batch == [] then [] else [batch]) == Requests(l, questions)
    ensures sentChars == Total(ToSend(l, questions))
  {
    RuleAllowsParts(l);
    assert questions[|questions|..] == [] && batch + [] == batch;
    if batch != [] {
      PackedLast(Rule(l), batch);
    }
  }

  /** The packing loop. */
  method Pack(l: Limits, questions: Batch) returns (batches: seq<Batch>, sentChars: nat)
    ensures batches == Requests(l, questions)
    ensures sentChars == Total(ToSend(l, questions))
  {
    batches, sentChars := [], 0;
    var batch: Batch, batchSize := [], 0.0;
    PackingStarts(l, questions);
    for i := 0 to |questions|
      invariant batch == [] || Sendable(l, batch)
      invariant batchSize == Weight(l, batch)
      invariant Packing(l, questions, i, batches, batch, sentChars)
    {
      var q := questions[i];
      if Alone(l, q) {
        var done, next, nextSize := Place(l, batch, batchSize, q);
        PackingPlaces(l, questions, i, batches, batch, sentChars, done, next);
        batches, batch, batchSize, sentChars := batches + done, next, nextSize, sentChars + |q.json|;
      } else {
        PackingSkips(l, questions, i, batches, batch, sentChars);
      }
    }
    PackingEnds(l, questions, batches, batch, sentChars);
    if batch != [] {
      batches := batches + [batch];
    }
    assert batches + [] == batches;
  }

  /** What is reserved before any request is sent: the calls to make and the tokens they send. */
  datatype Reservation = Reservation(calls: nat, tokens: real)

  /** The whole pass, priced before it starts; nothing when no question can be sent. */
  method Plan(l: Limits, questions: Batch) returns (batches: seq<Batch>, reserved: Option<Reservation>)
    ensures batches == Requests(l, questions)
    ensures reserved ==
      if batches == [] then None
      else Some(Reservation(
                  |batches|, |batches| as real * l.estimate(l.stateChars) + l.estimate(Total(Concat(batches)))))
  {
    var sentChars;
    batches, sentChars := Pack(l, questions);
    PackedConcat(Rule(l), ToSend(l, questions));
    if batches == [] {
      return batches, None;
    }
    reserved := Some(Reservation(|batches|, |batches| as real * l.estimate(l.stateChars) + l.estimate(sentChars)));
  }
}
