/**
 The relevance pass over a dense page: `shortlist` and `RelevanceCache` of crates/fastbrowse-agent/src/policy.rs. A
 question is the text it is sent as, so twin controls ask the same one.
 */
module Relevance {
  import opened Common
  import opened Controls

  type Question = string
  type Scores = map<Question, real>

  // ---------------------------------------------------------------------------------------------------------------
  // Scores kept between passes
  // ---------------------------------------------------------------------------------------------------------------

  /** The document and the state the scores are for, and the scores. */
  datatype Kept = Kept(context: Option<(string, string)>, answers: Scores)

  function Prepared(k: Kept, document: string, state: string): Kept {
    if k.context == Some((document, state)) then k else Kept(Some((document, state)), map[])
  }

  function Remembered(k: Kept, question: Question, score: real): Kept {
    k.(answers := k.answers[question := score])
  }

  class RelevanceCache {
    var context: Option<(string, string)>
    var answers: Scores

    ghost function View(): Kept
      reads this
    {
      Kept(context, answers)
    }

    constructor ()
      ensures View() == Kept(None, map[])
    {
      context, answers := None, map[];
    }

    /** Starts a pass: scores of another document or state are dropped, and those left are returned. */
    method Prepare(document: string, state: string) returns (cached: Scores)
      modifies this
      ensures View() == Prepared(old(View()), document, state) && cached == answers
    {
      if context != Some((document, state)) {
        context, answers := Some((document, state)), map[];
      }
      cached := answers;
    }

    method Remember(question: Question, score: real)
      modifies this`answers
      ensures View() == Remembered(old(View()), question, score)
    {
      answers := answers[question := score];
    }
  }

  /** A model whose score depends on the state and the question alone; none for a question it cannot be sent. */
  type Scorer = (string, Question) -> Option<real>

  /** Every score kept is the one the model gives. */
  ghost predicate Honest(k: Kept, scorer: Scorer) {
    k.context.Some? ==>
      forall q :: q in k.answers ==> scorer(k.context.value.1, q) == Some(k.answers[q])
  }

  /** What a pass does to the cache: it starts, and stores some of the answers before it ends or is cancelled. */
  datatype Event = Start(document: string, state: string) | Store(question: Question)

  function After(k: Kept, scorer: Scorer, e: Event): Kept {
    match e
    case Start(document, state) => Prepared(k, document, state)
    case Store(q) =>
      if k.context.None? then k
      else
        match scorer(k.context.value.1, q)
        case Some(score) => Remembered(k, q, score)
        case None => k
  }

  function AfterAll(k: Kept, scorer: Scorer, events: seq<Event>): Kept
    decreases |events|
  {
    if events == [] then k else AfterAll(After(k, scorer, events[0]), scorer, events[1..])
  }

  /** Whatever passes came before, finished or not. */
  lemma {:induction false} PassesStayHonest(k: Kept, scorer: Scorer, events: seq<Event>)
    requires Honest(k, scorer)
    ensures Honest(AfterAll(k, scorer, events), scorer)
    decreases |events|
  {
    if events != [] {
      assert Honest(After(k, scorer, events[0]), scorer);
      PassesStayHonest(After(k, scorer, events[0]), scorer, events[1..]);
    }
  }

  // ---------------------------------------------------------------------------------------------------------------
  // What is asked
  // ---------------------------------------------------------------------------------------------------------------

  type Writer = Control -> Question

  /** The controls there is a question about: those not offered unasked. */
  function Unprotected(controls: seq<Control>): seq<Control> {
    Filter(controls, (c: Control) => !Protected(c))
  }

  function Questions(asked: seq<Control>, write: Writer): set<Question> {
    set c | c in asked :: write(c)
  }

  /** The questions without a score, each once, in the order their first control comes in. */
  function Pending(asked: seq<Control>, write: Writer, cached: Scores): (pending: seq<Question>)
    ensures Distinct(pending)
  {
    if asked == [] then []
    else
      var last := |asked| - 1;
      var before, q := Pending(asked[..last], write, cached), write(asked[last]);
      if q in cached || q in before then before else before + [q]
  }

  lemma {:induction false} PendingAsksEach(asked: seq<Control>, write: Writer, cached: Scores, q: Question)
    ensures q in Pending(asked, write, cached) <==> q in Questions(asked, write) && q !in cached
  {
    if asked != [] {
      var last := |asked| - 1;
      PendingAsksEach(asked[..last], write, cached, q);
      assert asked == asked[..last] + [asked[last]];
      assert q in Questions(asked, write) <==> q in Questions(asked[..last], write) || q == write(asked[last]);
    }
  }

  method CollectPending(asked: seq<Control>, write: Writer, cached: Scores) returns (pending: seq<Question>)
    ensures pending == Pending(asked, write, cached)
  {
    pending := [];
    for k := 0 to |asked|
      invariant pending == Pending(asked[..k], write, cached)
    {
      assert asked[..k + 1][..k] == asked[..k];
      var q := write(asked[k]);
      if q !in cached && q !in pending {
        pending := pending + [q];
      }
    }
    assert asked[..|asked|] == asked;
  }

  /** The scores the questions end up with. */
  function Scored(asked: seq<Control>, write: Writer, cached: Scores, answered: Scores): Scores {
    map q | q in Questions(asked, write) && (q in cached || q in answered) ::
      if q in cached then cached[q] else answered[q]
  }

  /** What a model that answers every question it can be sent answers to `pending`. */
  function AllAnswered(scorer: Scorer, state: string, pending: seq<Question>): Scores {
    map q | q in pending && scorer(state, q).Some? :: scorer(state, q).value
  }

  /** The scores of a model that answers everything. */
  function ModelScores(asked: seq<Control>, write: Writer, scorer: Scorer, state: string): Scores {
    map q | q in Questions(asked, write) && scorer(state, q).Some? :: scorer(state, q).value
  }

  /** The scores are those the model gives, whatever was kept of earlier passes. */
  lemma CacheChangesNoScore(
    asked: seq<Control>, write: Writer, scorer: Scorer, document: string, state: string, k: Kept)
    requires Honest(k, scorer)
    ensures var cached := Prepared(k, document, state).answers;
            var answered := AllAnswered(scorer, state, Pending(asked, write, cached));
            Scored(asked, write, cached, answered) == ModelScores(asked, write, scorer, state)
  {
    var cached := Prepared(k, document, state).answers;
    forall q | q in Questions(asked, write)
      ensures q in Pending(asked, write, cached) <==> q !in cached
    {
      PendingAsksEach(asked, write, cached, q);
    }
    assert forall q :: q in cached ==> scorer(state, q) == Some(cached[q]);
  }

  // ---------------------------------------------------------------------------------------------------------------
  // Ranking
  // ---------------------------------------------------------------------------------------------------------------

  /** Without a score a control ranks as if it were certain. */
  function Likelihood(score: Option<real>): real {
    if score.Some? then score.value else 1.0
  }

  type Score = nat -> Option<real>

  predicate Ahead(score: Score, a: nat, b: nat) {
    || Likelihood(score(a)) > Likelihood(score(b))
    || (Likelihood(score(a)) == Likelihood(score(b))
        && ((score(a).None? && score(b).Some?) || (score(a).Some? == score(b).Some? && a < b)))
  }

  function Insert(score: Score, i: nat, ranked: seq<nat>): (more: seq<nat>)
    ensures |more| == |ranked| + 1
    ensures forall x :: x in more <==> x == i || x in ranked
  {
    if ranked == [] || Ahead(score, i, ranked[0]) then [i] + ranked
    else [ranked[0]] + Insert(score, i, ranked[1..])
  }

  /** The candidates, the likeliest first. */
  function Ranked(score: Score, candidates: seq<nat>): (ranked: seq<nat>)
    ensures |ranked| == |candidates|
    ensures forall x :: x in ranked <==> x in candidates
  {
    if candidates == [] then [] else Insert(score, candidates[0], Ranked(score, candidates[1..]))
  }

  ghost predicate InRank(score: Score, ranked: seq<nat>) {
    forall p, q :: 0 <= p < q < |ranked| ==> Ahead(score, ranked[p], ranked[q])
  }

  lemma {:induction false} InsertKeepsRank(score: Score, i: nat, ranked: seq<nat>)
    requires InRank(score, ranked) && i !in ranked
    ensures InRank(score, Insert(score, i, ranked))
  {
    if ranked != [] && !Ahead(score, i, ranked[0]) {
      var rest := Insert(score, i, ranked[1..]);
      InsertKeepsRank(score, i, ranked[1..]);
      assert ranked[0] in ranked && Ahead(score, ranked[0], i);
      forall q | 0 <= q < |rest| ensures Ahead(score, ranked[0], rest[q]) {
        assert rest[q] in rest;
        if rest[q] != i {
          assert rest[q] in ranked[1..];
        }
      }
    }
  }

  lemma {:induction false} RankedInRank(score: Score, candidates: seq<nat>)
    requires Distinct(candidates)
    ensures InRank(score, Ranked(score, candidates))
  {
    if candidates != [] {
      RankedInRank(score, candidates[1..]);
      InsertKeepsRank(score, candidates[0], Ranked(score, candidates[1..]));
    }
  }

  /** Of two candidates the one with the higher score comes first, or, of equal scores, the earlier on the page. */
  lemma HigherScoresGoFirst(score: Score, candidates: seq<nat>, p: nat, q: nat)
    requires Distinct(candidates) && p < q < |candidates|
    requires var ranked := Ranked(score, candidates); score(ranked[p]).Some? && score(ranked[q]).Some?
    ensures var ranked := Ranked(score, candidates);
            && score(ranked[p]).value >= score(ranked[q]).value
            && (score(ranked[p]).value == score(ranked[q]).value ==> ranked[p] < ranked[q])
  {
    RankedInRank(score, candidates);
    assert Ahead(score, Ranked(score, candidates)[p], Ranked(score, candidates)[q]);
  }

  /**
   A candidate without a score comes before every scored one that is not more than certain, and behind those that are.
   */
  lemma UnscoredGoFirst(score: Score, candidates: seq<nat>, p: nat, q: nat)
    requires Distinct(candidates) && p < q < |candidates|
    ensures var ranked := Ranked(score, candidates);
            && (score(ranked[q]).None? && score(ranked[p]).Some? ==> score(ranked[p]).value > 1.0)
            && (score(ranked[p]).None? && score(ranked[q]).Some? ==> score(ranked[q]).value <= 1.0)
            && (score(ranked[q]).None? && score(ranked[p]).None? ==> ranked[p] < ranked[q])
  {
    RankedInRank(score, candidates);
    assert Ahead(score, Ranked(score, candidates)[p], Ranked(score, candidates)[q]);
  }

  // ---------------------------------------------------------------------------------------------------------------
  // The shortlist
  // ---------------------------------------------------------------------------------------------------------------

  function ProtectedOf(controls: seq<Control>): set<nat> {
    set i | 0 <= i < |controls| && Protected(controls[i])
  }

  /** The controls there is a question about, by number. */
  function Candidates(controls: seq<Control>): seq<nat> {
    Filter(Numbers(|controls|), (i: nat) => i < |controls| && !Protected(controls[i]))
  }

  function ScoreOf(controls: seq<Control>, write: Writer, scored: Scores): Score {
    (i: nat) => if i < |controls| && write(controls[i]) in scored then Some(scored[write(controls[i])]) else None
  }

  /** What is offered unasked, and the first `prefix` of the others. */
  function KeptWith(controls: seq<Control>, ranked: seq<nat>, prefix: nat): seq<Control> {
    var front := if prefix <= |ranked| then ranked[..prefix] else ranked;
    Keep(controls, ProtectedOf(controls) + Members(front))
  }

  type Check = seq<Control> -> bool

  /** How many besides those offered unasked may be offered at all. */
  function Room(controls: seq<Control>, maxOffered: nat): (room: nat)
    ensures room <= |Candidates(controls)|
  {
    var spare := maxOffered - |ProtectedOf(controls)|;
    if spare < 0 then 0 else if spare < |Candidates(controls)| then spare else |Candidates(controls)|
  }

  function Prefixes(controls: seq<Control>, ranked: seq<nat>, fits: Check): nat -> bool {
    (prefix: nat) => fits(KeptWith(controls, ranked, prefix))
  }

  function Shortlisted(controls: seq<Control>, score: Score, fits: Check, maxOffered: nat): seq<Control> {
    var ranked := Ranked(score, Candidates(controls));
    KeptWith(controls, ranked, LastAccepted(Prefixes(controls, ranked, fits), 0, Room(controls, maxOffered)))
  }

  /** What a pass keeps, from the scores it starts with and the answers it gets; nothing when no control has a score. */
  function Outcome(
    controls: seq<Control>, write: Writer, cached: Scores, answered: Scores, fits: Check, maxOffered: nat)
    : Option<seq<Control>>
  {
    var scored := Scored(Unprotected(controls), write, cached, answered);
    if scored == map[] then None else Some(Shortlisted(controls, ScoreOf(controls, write, scored), fits, maxOffered))
  }

  /** A pass keeps everything, by making no list, exactly when no control that is asked about has a score. */
  lemma NoListIff(
    controls: seq<Control>, write: Writer, cached: Scores, answered: Scores, fits: Check, maxOffered: nat)
    ensures Outcome(controls, write, cached, answered, fits, maxOffered) == None <==>
              forall c :: c in controls && !Protected(c) ==> write(c) !in cached && write(c) !in answered
  {
    var asked := Unprotected(controls);
    var scored := Scored(asked, write, cached, answered);
    forall c | c in controls && !Protected(c) && (write(c) in cached || write(c) in answered)
      ensures write(c) in scored
    {
      assert c in asked;
    }
    if scored != map[] {
      var q :| q in scored;
      var c :| c in asked && write(c) == q;
    }
  }

  /** The controls offered unasked and those numbered in the first `prefix` of `ranked`. */
  predicate IsKept(controls: seq<Control>, ranked: seq<nat>, prefix: nat, kept: seq<Control>) {
    && prefix <= |ranked|
    && kept == Keep(controls, set i | 0 <= i < |controls| && (Protected(controls[i]) || i in ranked[..prefix]))
  }

  ghost predicate ListedTo(
    controls: seq<Control>, ranked: seq<nat>, fits: Check, maxOffered: nat, kept: seq<Control>, prefix: nat)
  {
    && IsKept(controls, ranked, prefix, kept)
    && (prefix > 0 ==> fits(kept) && prefix + |ProtectedOf(controls)| <= maxOffered)
    && (prefix < |ranked| && prefix + |ProtectedOf(controls)| < maxOffered ==>
          forall more :: IsKept(controls, ranked, prefix + 1, more) ==> !fits(more))
  }

  lemma KeptWithIsKept(controls: seq<Control>, ranked: seq<nat>, prefix: nat)
    requires prefix <= |ranked|
    ensures IsKept(controls, ranked, prefix, KeptWith(controls, ranked, prefix))
  {
    var kept := set i | 0 <= i < |controls| && (Protected(controls[i]) || i in ranked[..prefix]);
    KeepIgnores(controls, 0, ProtectedOf(controls) + Members(ranked[..prefix]), kept);
  }

  lemma SearchedPrefix(controls: seq<Control>, ranked: seq<nat>, fits: Check, maxOffered: nat) returns (prefix: nat)
    requires |ranked| == |Candidates(controls)|
    ensures prefix == LastAccepted(Prefixes(controls, ranked, fits), 0, Room(controls, maxOffered))
    ensures prefix <= |ranked| && (prefix > 0 ==> prefix + |ProtectedOf(controls)| <= maxOffered)
    ensures prefix > 0 ==> fits(KeptWith(controls, ranked, prefix))
    ensures prefix < |ranked| && prefix + |ProtectedOf(controls)| < maxOffered ==>
              !fits(KeptWith(controls, ranked, prefix + 1))
  {
    var accepted := Prefixes(controls, ranked, fits);
    prefix := LastAccepted(accepted, 0, Room(controls, maxOffered));
    assert forall p :: accepted(p) == fits(KeptWith(controls, ranked, p));
  }

  lemma SearchedToList(controls: seq<Control>, ranked: seq<nat>, fits: Check, maxOffered: nat)
    requires |ranked| == |Candidates(controls)|
    ensures var prefix := LastAccepted(Prefixes(controls, ranked, fits), 0, Room(controls, maxOffered));
            ListedTo(controls, ranked, fits, maxOffered, KeptWith(controls, ranked, prefix), prefix)
  {
    var prefix := SearchedPrefix(controls, ranked, fits, maxOffered);
    KeptWithIsKept(controls, ranked, prefix);
    if prefix < |ranked| {
      KeptWithIsKept(controls, ranked, prefix + 1);
    }
  }

  /**
   Otherwise it keeps what is offered unasked and the first of the ranking, so many that the request fits and, unless
   that is as many as may be offered, with one more it would not.
   */
  lemma ListIsOfTheRank(
    controls: seq<Control>, write: Writer, cached: Scores, answered: Scores, fits: Check, maxOffered: nat)
    requires Outcome(controls, write, cached, answered, fits, maxOffered).Some?
    ensures var kept := Outcome(controls, write, cached, answered, fits, maxOffered).value;
            var score := ScoreOf(controls, write, Scored(Unprotected(controls), write, cached, answered));
            exists prefix: nat ::
              ListedTo(controls, Ranked(score, Candidates(controls)), fits, maxOffered, kept, prefix)
  {
    var score := ScoreOf(controls, write, Scored(Unprotected(controls), write, cached, answered));
    SearchedToList(controls, Ranked(score, Candidates(controls)), fits, maxOffered);
  }

  /** With a model that answers by state and question alone, what was kept of earlier passes changes nothing. */
  lemma CacheIsTransparent(
    controls: seq<Control>, write: Writer, scorer: Scorer, document: string, state: string, k: Kept,
    fits: Check, maxOffered: nat)
    requires Honest(k, scorer)
    ensures var asked := Unprotected(controls);
            var cached := Prepared(k, document, state).answers;
            var answered := AllAnswered(scorer, state, Pending(asked, write, cached));
            var all := AllAnswered(scorer, state, Pending(asked, write, map[]));
            Outcome(controls, write, cached, answered, fits, maxOffered)
            == Outcome(controls, write, map[], all, fits, maxOffered)
  {
    CacheChangesNoScore(Unprotected(controls), write, scorer, document, state, k);
    CacheChangesNoScore(Unprotected(controls), write, scorer, document, state, Kept(None, map[]));
  }

  /** What a pass leaves in the cache, however much of it was stored, is what the model gave. */
  lemma StoredIsHonest(k: Kept, scorer: Scorer, document: string, state: string, pending: seq<Question>)
    requires Honest(k, scorer)
    ensures Honest(Stored(Prepared(k, document, state), pending, AllAnswered(scorer, state, pending)), scorer)
  {
  }

  /** The scores stored as a pass's answers come back. */
  function Stored(k: Kept, pending: seq<Question>, answered: Scores): Kept {
    k.(answers := k.answers + map q | q in pending && q in answered :: answered[q])
  }

  lemma StoredNext(k: Kept, pending: seq<Question>, i: nat, answered: Scores)
    requires i < |pending|
    ensures Stored(k, pending[..i + 1], answered)
         == if pending[i] in answered
            then Remembered(Stored(k, pending[..i], answered), pending[i], answered[pending[i]])
            else Stored(k, pending[..i], answered)
  {
    assert pending[..i + 1] == pending[..i] + [pending[i]];
  }

  method Store(cache: RelevanceCache, pending: seq<Question>, answered: Scores)
    modifies cache
    ensures cache.View() == Stored(old(cache.View()), pending, answered)
  {
    ghost var before := cache.View();
    for i := 0 to |pending|
      invariant cache.View() == Stored(before, pending[..i], answered)
    {
      StoredNext(before, pending, i, answered);
      if pending[i] in answered {
        cache.Remember(pending[i], answered[pending[i]]);
      }
    }
    assert pending[..|pending|] == pending;
  }

  // ---------------------------------------------------------------------------------------------------------------
  // What a shortlist keeps
  // ---------------------------------------------------------------------------------------------------------------

  lemma {:induction false} NumbersDistinct(n: nat)
    ensures Distinct(Numbers(n))
  {
  }

  lemma CandidatesAre(controls: seq<Control>, i: nat)
    ensures i in Candidates(controls) <==> i < |controls| && !Protected(controls[i])
    ensures Distinct(Candidates(controls))
  {
    InNumbers(|controls|, i);
    NumbersDistinct(|controls|);
    FilterDistinct(Numbers(|controls|), (i: nat) => i < |controls| && !Protected(controls[i]));
  }

  /** The numbers of the controls a shortlist of `prefix` keeps. */
  ghost function KeptNumbers(controls: seq<Control>, ranked: seq<nat>, prefix: nat): set<nat>
    requires prefix <= |ranked|
  {
    ProtectedOf(controls) + Members(ranked[..prefix])
  }

  lemma KeptWithSize(controls: seq<Control>, ranked: seq<nat>, prefix: nat)
    requires prefix <= |ranked| && forall i :: i in ranked ==> i < |controls|
    ensures Subseq(KeptWith(controls, ranked, prefix), controls)
    ensures |ProtectedOf(controls)| <= |KeptWith(controls, ranked, prefix)| <= |ProtectedOf(controls)| + prefix
  {
    var numbers := KeptNumbers(controls, ranked, prefix);
    SubsetSize(ProtectedOf(controls), numbers);
    KeepIsSubseq(controls, 0, numbers);
    forall i | i in numbers ensures i < |controls| {
      assert i in ranked[..prefix] ==> i in ranked;
    }
    KeepCount(controls, 0, numbers);
    MembersSize(ranked[..prefix]);
  }

  /** With no room for any other, what is kept is what is offered unasked. */
  lemma KeptAlone(controls: seq<Control>, ranked: seq<nat>)
    ensures KeptWith(controls, ranked, 0) == Filter(controls, Protected)
    ensures |Filter(controls, Protected)| == |ProtectedOf(controls)|
  {
    var numbers := ProtectedOf(controls) + Members(ranked[..0]);
    assert numbers == ProtectedOf(controls);
    KeepIsFilter(controls, 0, numbers, Protected);
    KeepCount(controls, 0, numbers);
  }

  lemma NoRoomKeepsProtected(controls: seq<Control>, ranked: seq<nat>, prefix: nat, maxOffered: nat)
    requires prefix <= Room(controls, maxOffered) && |ProtectedOf(controls)| >= maxOffered
    ensures KeptWith(controls, ranked, prefix) == Filter(controls, Protected)
  {
    KeptAlone(controls, ranked);
  }

  function MostKept(controls: seq<Control>, maxOffered: nat): nat {
    if |ProtectedOf(controls)| >= maxOffered then |ProtectedOf(controls)| else maxOffered
  }

  /** The controls of the page in their order, no more than may be offered unless more are offered unasked. */
  lemma ShortlistIsOfThePage(controls: seq<Control>, score: Score, fits: Check, maxOffered: nat)
    ensures var kept := Shortlisted(controls, score, fits, maxOffered);
            && Subseq(kept, controls)
            && |kept| <= MostKept(controls, maxOffered)
  {
    var ranked := Ranked(score, Candidates(controls));
    forall i | i in ranked ensures i < |controls| {
      CandidatesAre(controls, i);
    }
    KeptWithSize(controls, ranked, LastAccepted(Prefixes(controls, ranked, fits), 0, Room(controls, maxOffered)));
  }

  /** Whatever is left out is behind, in rank, everything that was asked about and kept. */
  lemma ShortlistFollowsRank(controls: seq<Control>, score: Score, prefix: nat, i: nat, j: nat)
    requires var ranked := Ranked(score, Candidates(controls));
             && prefix <= |ranked|
             && i in ranked[..prefix] && j < |controls| && !Protected(controls[j]) && j !in ranked[..prefix]
    ensures Ahead(score, i, j)
  {
    var ranked := Ranked(score, Candidates(controls));
    CandidatesAre(controls, j);
    RankedInRank(score, Candidates(controls));
    var p :| 0 <= p < prefix && ranked[..prefix][p] == i;
    var q :| 0 <= q < |ranked| && ranked[q] == j;
    assert forall k :: 0 <= k < prefix ==> ranked[k] in ranked[..prefix];
    assert Ahead(score, ranked[p], ranked[q]);
  }

  /**
   A question answered in one pass is asked again in the next exactly when that one is of another document or state;
   a pass of the same ones starts with all it kept.
   */
  lemma AskedAgainIff(
    k: Kept, document: string, state: string, asked: seq<Control>, answered: Scores, write: Writer, q: Question,
    nextDocument: string, nextState: string, more: seq<Control>)
    requires q in Pending(asked, write, Prepared(k, document, state).answers) && q in answered
    requires q in Questions(more, write)
    ensures var first := Prepared(k, document, state);
            var after := Stored(first, Pending(asked, write, first.answers), answered);
            q in Pending(more, write, Prepared(after, nextDocument, nextState).answers)
            <==> (nextDocument, nextState) != (document, state)
  {
    var first := Prepared(k, document, state);
    var after := Stored(first, Pending(asked, write, first.answers), answered);
    PendingAsksEach(more, write, Prepared(after, nextDocument, nextState).answers, q);
  }

  /** A second pass in the same context asks about nothing the first one was answered. */
  lemma AnsweredIsNotAskedAgain(
    asked: seq<Control>, more: seq<Control>, write: Writer, k: Kept, answered: Scores, q: Question)
    requires q in Pending(asked, write, k.answers) && q in answered
    ensures q !in Pending(more, write, Stored(k, Pending(asked, write, k.answers), answered).answers)
  {
  }

  /** The pass as written. */
  method Shortlist(
    cache: RelevanceCache?, document: string, state: string, controls: seq<Control>, write: Writer,
    answer: seq<Question> -> Scores, fits: Check, maxOffered: nat)
    returns (kept: Option<seq<Control>>)
    modifies if cache == null then {} else {cache}
    ensures var cached := if cache == null then map[] else Prepared(old(cache.View()), document, state).answers;
            var pending := Pending(Unprotected(controls), write, cached);
            && kept == Outcome(controls, write, cached, answer(pending), fits, maxOffered)
            && (cache != null ==>
                  cache.View() == Stored(Prepared(old(cache.View()), document, state), pending, answer(pending)))
    ensures kept.Some? ==> Subseq(kept.value, controls) && |kept.value| <= MostKept(controls, maxOffered)
  {
    var cached: Scores := map[];
    if cache != null {
      cached := cache.Prepare(document, state);
    }
    var asked := Unprotected(controls);
    var pending := CollectPending(asked, write, cached);
    var answered := answer(pending);
    if cache != null {
      Store(cache, pending, answered);
    }
    var scored := Scored(asked, write, cached, answered);
    if scored == map[] {
      return None;
    }
    var ranked := Ranked(ScoreOf(controls, write, scored), Candidates(controls));
    var low := SearchLast(Prefixes(controls, ranked, fits), 0, Room(controls, maxOffered));
    ShortlistIsOfThePage(controls, ScoreOf(controls, write, scored), fits, maxOffered);
    kept := Some(KeptWith(controls, ranked, low));
  }
}
