/**
 The per-step decision: `decide` of crates/fastbrowse-agent/src/policy.rs, which makes a request smaller until it fits
 and the provider takes it, and the rungs `cap`, `protected_first`, `onscreen_rung` and `shed`.
 */
module Ladder {
  import opened Common
  import opened Controls
  import opened Choices
  import opened Trim
  import Relevance

  // ---------------------------------------------------------------------------------------------------------------
  // Fewer controls
  // ---------------------------------------------------------------------------------------------------------------

  datatype Reduction = Unreduced | ByRelevance | OnscreenOnly | Capped | Trimmed

  /** The controls on screen, when that is not all of them and neither this nor a cap was tried. */
  function OnscreenRung(controls: seq<Control>, reduction: Reduction): (onscreen: Option<seq<Control>>)
    ensures onscreen.Some? ==> |onscreen.value| < |controls| && Subseq(onscreen.value, controls)
  {
    if reduction == OnscreenOnly || reduction == Capped || forall c :: c in controls ==> !c.offscreen then None
    else
      var keep := (c: Control) => !c.offscreen;
      FilterIsSubseq(controls, keep);
      SomeOffscreen(controls, keep);
      Some(Filter(controls, keep))
  }

  lemma SomeOffscreen(controls: seq<Control>, keep: Control -> bool)
    requires exists c :: c in controls && !keep(c)
    ensures |Filter(controls, keep)| < |controls|
  {
  }

  /** Exactly the controls on screen, unless that is all of them or they were dropped before. */
  lemma OnscreenRungIs(controls: seq<Control>, reduction: Reduction)
    ensures OnscreenRung(controls, reduction).Some? <==>
              reduction !in {OnscreenOnly, Capped} && exists c :: c in controls && c.offscreen
    ensures OnscreenRung(controls, reduction).Some? ==>
              OnscreenRung(controls, reduction).value == Filter(controls, (c: Control) => !c.offscreen)
  {
  }

  /** The controls on screen, for a request large enough that fewer may help. */
  function Shed(large: bool, controls: seq<Control>, reduction: Reduction): Option<seq<Control>> {
    if large then OnscreenRung(controls, reduction) else None
  }

  function Asked(controls: seq<Control>): nat -> bool {
    (i: nat) => i < |controls| && !Protected(controls[i])
  }

  /** The first `prefix` of the controls, those offered unasked before the others. */
  function CappedTo(controls: seq<Control>, prefix: nat): seq<Control> {
    Keep(controls, Front(|controls|, Asked(controls), prefix))
  }

  lemma CappedToSize(controls: seq<Control>, prefix: nat)
    requires prefix <= |controls|
    ensures |CappedTo(controls, prefix)| == prefix && Subseq(CappedTo(controls, prefix), controls)
  {
    FrontSize(|controls|, Asked(controls), prefix);
    KeepCount(controls, 0, Front(|controls|, Asked(controls), prefix));
    KeepIsSubseq(controls, 0, Front(|controls|, Asked(controls), prefix));
  }

  /** Nothing that is asked about is kept while something offered unasked is not. */
  lemma CappedProtectsFirst(controls: seq<Control>, prefix: nat, i: nat, j: nat)
    requires prefix <= |controls| && i in Front(|controls|, Asked(controls), prefix)
    requires j < |controls| && j !in Front(|controls|, Asked(controls), prefix)
    ensures i < |controls| && (Protected(controls[j]) ==> Protected(controls[i]) && i < j)
  {
    FrontPrecedes(|controls|, Asked(controls), prefix, i, j);
  }

  function Prefixes(excess: Excess, o: Observation, controls: seq<Control>, c: Context): nat -> bool {
    (prefix: nat) => Fits(excess, o, CappedTo(controls, prefix), c)
  }

  /** Fewer than all the controls, as many as the search finds to fit; nothing when not even an empty list does. */
  function CapOf(excess: Excess, o: Observation, controls: seq<Control>, c: Context): Option<seq<Control>> {
    if controls == [] || !Fits(excess, o, [], c) then None
    else Some(CappedTo(controls, LastAccepted(Prefixes(excess, o, controls, c), 0, |controls| - 1)))
  }

  /** What is kept fits and is less than there was, and one control more would not fit. */
  lemma CapKeepsWhatFits(excess: Excess, o: Observation, controls: seq<Control>, c: Context)
    ensures var capped := CapOf(excess, o, controls, c);
            capped.Some? ==>
              && Fits(excess, o, capped.value, c)
              && |capped.value| < |controls| && Subseq(capped.value, controls)
              && (|capped.value| + 1 < |controls| ==> !Fits(excess, o, CappedTo(controls, |capped.value| + 1), c))
  {
    if controls != [] {
      var low := LastAccepted(Prefixes(excess, o, controls, c), 0, |controls| - 1);
      CappedToSize(controls, low);
      CappedToSize(controls, 0);
      assert CappedTo(controls, 0) == [];
    }
  }

  method Cap(excess: Excess, o: Observation, controls: seq<Control>, c: Context) returns (capped: Option<seq<Control>>)
    ensures capped == CapOf(excess, o, controls, c)
  {
    CappedToSize(controls, 0);
    assert CappedTo(controls, 0) == [];
    if controls == [] || !Fits(excess, o, CappedTo(controls, 0), c) {
      return None;
    }
    var low := SearchLast(Prefixes(excess, o, controls, c), 0, |controls| - 1);
    capped := Some(CappedTo(controls, low));
  }

  /** All the protected controls, and as many of the rest, from the first on, as `limit` has room for. */
  function ProtectedFirst(controls: seq<Control>, limit: nat): seq<Control> {
    var candidates := Relevance.Candidates(controls);
    Relevance.KeptWith(controls, candidates, Relevance.Room(controls, limit))
  }

  /** No more than `limit` are left, unless more than that are offered unasked: those are never left out. */
  lemma ProtectedFirstSize(controls: seq<Control>, limit: nat)
    ensures Subseq(ProtectedFirst(controls, limit), controls)
    ensures |ProtectedFirst(controls, limit)| <= Relevance.MostKept(controls, limit)
    ensures |ProtectedFirst(controls, limit)| >= |Relevance.ProtectedOf(controls)|
  {
    forall i | i in Relevance.Candidates(controls) ensures i < |controls| {
      Relevance.CandidatesAre(controls, i);
    }
    Relevance.KeptWithSize(controls, Relevance.Candidates(controls), Relevance.Room(controls, limit));
  }

  lemma CandidatesInOrder(controls: seq<Control>, p: nat, q: nat)
    requires p < q < |Relevance.Candidates(controls)|
    ensures Relevance.Candidates(controls)[p] < Relevance.Candidates(controls)[q]
  {
    var candidates := Relevance.Candidates(controls);
    var asked := (i: nat) => i < |controls| && !Protected(controls[i]);
    Relevance.NumbersDistinct(|controls|);
    Relevance.CandidatesAre(controls, candidates[p]);
    Relevance.CandidatesAre(controls, candidates[q]);
    assert candidates[p] in candidates && candidates[q] in candidates;
    FilterInOrder(Numbers(|controls|), asked, p, q, candidates[p], candidates[q]);
  }

  lemma EarlierIsKept(controls: seq<Control>, prefix: nat, i: nat, j: nat)
    requires prefix <= |Relevance.Candidates(controls)| && i < j && j in Relevance.Candidates(controls)[..prefix]
    requires i in Relevance.Candidates(controls)
    ensures i in Relevance.Candidates(controls)[..prefix]
  {
    var candidates := Relevance.Candidates(controls);
    var p :| 0 <= p < |candidates| && candidates[p] == i;
    var q :| 0 <= q < prefix && candidates[..prefix][q] == j;
    if p > q {
      CandidatesInOrder(controls, q, p);
    }
    assert candidates[..prefix][p] == i;
  }

  lemma NumbersAre(controls: seq<Control>)
    ensures |Relevance.Candidates(controls)| + |Relevance.ProtectedOf(controls)| == |controls|
  {
    var candidates, unasked := Relevance.Candidates(controls), Relevance.ProtectedOf(controls);
    Relevance.CandidatesAre(controls, 0);
    DistinctSize(candidates);
    NumbersSize(|controls|);
    AskedAreTheOthers(controls);
  }

  lemma AskedAreTheOthers(controls: seq<Control>)
    ensures var asked, unasked := Members(Relevance.Candidates(controls)), Relevance.ProtectedOf(controls);
            Members(Numbers(|controls|)) == asked + unasked && asked * unasked == {}
  {
    var asked, unasked := Members(Relevance.Candidates(controls)), Relevance.ProtectedOf(controls);
    forall i: nat ensures i in Numbers(|controls|) <==> i in asked + unasked {
      InNumbers(|controls|, i);
      Relevance.CandidatesAre(controls, i);
    }
    forall i | i in asked ensures i !in unasked {
      Relevance.CandidatesAre(controls, i);
    }
  }

  /** All that are offered unasked, then the earliest of the others, as many as there is room for. */
  lemma ProtectedFirstIs(controls: seq<Control>, limit: nat) returns (kept: set<nat>)
    ensures ProtectedFirst(controls, limit) == Keep(controls, kept)
    ensures forall i :: 0 <= i < |controls| && Protected(controls[i]) ==> i in kept
    ensures forall i: nat, j :: i < j && j in kept && j < |controls| && !Protected(controls[j]) ==> i in kept
    ensures var unasked := |Relevance.ProtectedOf(controls)|;
            |kept| == if unasked >= limit then unasked else if |controls| <= limit then |controls| else limit
  {
    var candidates, unasked := Relevance.Candidates(controls), Relevance.ProtectedOf(controls);
    var room := Relevance.Room(controls, limit);
    kept := unasked + Members(candidates[..room]);
    forall i: nat, j | i < j && j in kept && j < |controls| && !Protected(controls[j]) ensures i in kept {
      if !Protected(controls[i]) {
        Relevance.CandidatesAre(controls, i);
        EarlierIsKept(controls, room, i, j);
      }
    }
    NumbersAre(controls);
    Relevance.CandidatesAre(controls, 0);
    DistinctSize(candidates[..room]);
    forall i | i in Members(candidates[..room]) ensures i !in unasked {
      assert i in candidates;
      Relevance.CandidatesAre(controls, i);
    }
  }

  // ---------------------------------------------------------------------------------------------------------------
  // The ladder
  // ---------------------------------------------------------------------------------------------------------------

  /** How requests are measured and what the relevance pass is told, whatever these are. */
  datatype Host = Host(
    excess: Excess, large: (Observation, seq<Control>, Context) -> bool, document: Observation -> string,
    state: (Observation, Context) -> string, write: Control -> string,
    answer: (string, seq<string>) -> map<string, real>)

  /** The page and context of a request as reduced so far, and the controls it offers. */
  datatype Rung = Rung(observation: Observation, context: Context, controls: seq<Control>, reduction: Reduction)

  datatype Verdict = Decided(decision: Decision, at: Rung) | Failed(failure: Failure) | ObservationTooLarge

  function MaxOffered(page: Page): nat {
    GroupSize(page) * page.options
  }

  /** The most controls a request can come to offer. */
  function MostOffered(page: Page): nat {
    Relevance.MostKept(page.observation.controls, MaxOffered(page))
  }

  function PageOf(page: Page, rung: Rung): Page {
    page.(observation := rung.observation, context := rung.context)
  }

  /** Not even an empty list of controls fits beside the page's texts as they are. */
  predicate TooBare(page: Page, host: Host) {
    !Fits(host.excess, page.observation, [], page.context)
  }

  /**
   What every request of a step keeps of the page it was read from. One that calls itself unreduced offers every
   control, or all that may be offered at once, beside the texts as they are, unless those were too long for an empty
   list.
   */
  ghost predicate Reduces(page: Page, host: Host, rung: Rung) {
    && SamePage(page.observation, page.context, rung.observation, rung.context)
    && HistoryKept(page.context, rung.context)
    && Subseq(rung.controls, page.observation.controls) && |rung.controls| <= MostOffered(page)
    && (rung.reduction == Unreduced ==>
          && ((rung.observation == page.observation && rung.context == page.context) || TooBare(page, host))
          && rung.controls == if |page.observation.controls| <= MaxOffered(page) then page.observation.controls
                              else ProtectedFirst(page.observation.controls, MaxOffered(page)))
  }

  predicate RungFits(host: Host, rung: Rung) {
    Fits(host.excess, rung.observation, rung.controls, rung.context)
  }

  lemma ReducesControls(page: Page, host: Host, rung: Rung, controls: seq<Control>, reduction: Reduction)
    requires Reduces(page, host, rung) && Subseq(controls, rung.controls) && reduction != Unreduced
    ensures Reduces(page, host, rung.(controls := controls, reduction := reduction))
  {
    SubseqTrans(controls, rung.controls, page.observation.controls);
    SubseqLength(controls, rung.controls);
  }

  lemma ReducesTexts(page: Page, host: Host, rung: Rung, o: Observation, c: Context, reduction: Reduction)
    requires Reduces(page, host, rung) && SamePage(rung.observation, rung.context, o, c) && HistoryKept(rung.context, c)
    requires reduction == Unreduced ==> rung.reduction == Unreduced && TooBare(page, host)
    ensures Reduces(page, host, rung.(observation := o, context := c, reduction := reduction))
  {
    SubseqTrans(c.history, rung.context.history, page.context.history);
  }

  function Checks(host: Host, o: Observation, c: Context): Relevance.Check {
    controls => Fits(host.excess, o, controls, c)
  }

  /** What the relevance pass makes of a rung, from the scores known before it; nothing when it scores nothing. */
  function ByRelevanceOf(page: Page, host: Host, known: Relevance.Kept, rung: Rung): Option<Rung> {
    var o, c := rung.observation, rung.context;
    var cached := Relevance.Prepared(known, host.document(o), host.state(o, c)).answers;
    var pending := Relevance.Pending(Relevance.Unprotected(rung.controls), host.write, cached);
    var answered := host.answer(host.state(o, c), pending);
    match Relevance.Outcome(rung.controls, host.write, cached, answered, Checks(host, o, c), MaxOffered(page))
    case Some(kept) => Some(rung.(controls := kept, reduction := ByRelevance))
    case None => None
  }

  lemma ShortlistIsSome(page: Page, host: Host, known: Relevance.Kept, rung: Rung)
    requires ByRelevanceOf(page, host, known, rung).Some?
    ensures var next := ByRelevanceOf(page, host, known, rung).value;
            && next == rung.(controls := next.controls, reduction := ByRelevance)
            && Subseq(next.controls, rung.controls)
            && |next.controls| <= Relevance.MostKept(rung.controls, MaxOffered(page))
  {
    var o, c := rung.observation, rung.context;
    var cached := Relevance.Prepared(known, host.document(o), host.state(o, c)).answers;
    var asked := Relevance.Unprotected(rung.controls);
    var answered := host.answer(host.state(o, c), Relevance.Pending(asked, host.write, cached));
    var score := Relevance.ScoreOf(rung.controls, host.write, Relevance.Scored(asked, host.write, cached, answered));
    Relevance.ShortlistIsOfThePage(rung.controls, score, Checks(host, o, c), MaxOffered(page));
  }

  lemma ByRelevanceReduces(page: Page, host: Host, known: Relevance.Kept, rung: Rung)
    requires SamePage(page.observation, page.context, rung.observation, rung.context)
    requires HistoryKept(page.context, rung.context)
    requires Subseq(rung.controls, page.observation.controls)
    requires rung.controls == page.observation.controls || |page.observation.controls| <= MaxOffered(page)
    ensures var next := ByRelevanceOf(page, host, known, rung); next.Some? ==> Reduces(page, host, next.value)
  {
    if ByRelevanceOf(page, host, known, rung).Some? {
      var kept := ByRelevanceOf(page, host, known, rung).value.controls;
      ShortlistIsSome(page, host, known, rung);
      SubseqTrans(kept, rung.controls, page.observation.controls);
      SubseqLength(kept, page.observation.controls);
    }
  }

  /** Where the ladder starts: all the controls, or as many as may be offered at once. */
  function FirstOf(page: Page, host: Host, known: Relevance.Kept): Rung {
    var controls := page.observation.controls;
    var all := Rung(page.observation, page.context, controls, Unreduced);
    if |controls| <= MaxOffered(page) then all
    else
      match ByRelevanceOf(page, host, known, all)
      case Some(rung) => rung
      case None => all.(controls := ProtectedFirst(controls, MaxOffered(page)))
  }

  lemma FirstReduces(page: Page, host: Host, known: Relevance.Kept)
    ensures Reduces(page, host, FirstOf(page, host, known))
  {
    var controls := page.observation.controls;
    SubseqSelf(controls);
    SubseqSelf(page.context.history);
    ByRelevanceReduces(page, host, known, Rung(page.observation, page.context, controls, Unreduced));
    ProtectedFirstSize(controls, MaxOffered(page));
  }

  /** Whichever way the first controls are chosen, they are those offered unasked and some of the others, if any fit. */
  lemma FirstKeeps(page: Page, host: Host, known: Relevance.Kept) returns (ranked: seq<nat>, prefix: nat)
    requires |page.observation.controls| > MaxOffered(page)
    ensures var controls := page.observation.controls;
            && prefix <= |ranked| && (forall i :: i in ranked ==> i < |controls|)
            && prefix <= Relevance.Room(controls, MaxOffered(page))
            && FirstOf(page, host, known).controls == Relevance.KeptWith(controls, ranked, prefix)
  {
    var controls := page.observation.controls;
    var rung := Rung(page.observation, page.context, controls, Unreduced);
    forall i | i in Relevance.Candidates(controls) ensures i < |controls| {
      Relevance.CandidatesAre(controls, i);
    }
    ranked, prefix := Relevance.Candidates(controls), Relevance.Room(controls, MaxOffered(page));
    if ByRelevanceOf(page, host, known, rung).Some? {
      var o, c := rung.observation, rung.context;
      var cached := Relevance.Prepared(known, host.document(o), host.state(o, c)).answers;
      var asked := Relevance.Unprotected(controls);
      var answered := host.answer(host.state(o, c), Relevance.Pending(asked, host.write, cached));
      var score :=
        Relevance.ScoreOf(controls, host.write, Relevance.Scored(asked, host.write, cached, answered));
      ranked := Relevance.Ranked(score, Relevance.Candidates(controls));
      prefix := LastAccepted(Relevance.Prefixes(controls, ranked, Checks(host, o, c)), 0, prefix);
    }
  }

  /** Some control of the page that is asked about has a score, known before or given now. */
  ghost predicate SomeScored(page: Page, host: Host, known: Relevance.Kept) {
    var o, c, controls := page.observation, page.context, page.observation.controls;
    var cached := Relevance.Prepared(known, host.document(o), host.state(o, c)).answers;
    var pending := Relevance.Pending(Relevance.Unprotected(controls), host.write, cached);
    exists x :: x in controls && !Protected(x)
                && (host.write(x) in cached || host.write(x) in host.answer(host.state(o, c), pending))
  }

  /**
   Of a page with more controls than may be offered a step starts with a shortlist exactly when something is scored.
   */
  lemma FirstIsShortlistedIff(page: Page, host: Host, known: Relevance.Kept)
    ensures FirstOf(page, host, known).reduction == ByRelevance
       <==> |page.observation.controls| > MaxOffered(page) && SomeScored(page, host, known)
    ensures FirstOf(page, host, known).observation == page.observation
    ensures FirstOf(page, host, known).context == page.context
    ensures |page.observation.controls| <= MaxOffered(page) ==>
              FirstOf(page, host, known).controls == page.observation.controls
  {
    var o, c, controls := page.observation, page.context, page.observation.controls;
    var cached := Relevance.Prepared(known, host.document(o), host.state(o, c)).answers;
    var answered :=
      host.answer(host.state(o, c), Relevance.Pending(Relevance.Unprotected(controls), host.write, cached));
    Relevance.NoListIff(controls, host.write, cached, answered, Checks(host, o, c), MaxOffered(page));
  }

  /** Of a page with more controls than may be offered, no more are left exactly when no more are offered unasked. */
  lemma LimitHeldIff(page: Page, host: Host, known: Relevance.Kept)
    requires |page.observation.controls| > MaxOffered(page)
    ensures |FirstOf(page, host, known).controls| <= MaxOffered(page)
       <==> |Relevance.ProtectedOf(page.observation.controls)| <= MaxOffered(page)
  {
    var ranked, prefix := FirstKeeps(page, host, known);
    Relevance.KeptWithSize(page.observation.controls, ranked, prefix);
  }

  /** An operation's groups are few enough to choose among exactly when its candidates are. */
  lemma GroupsHeldIff(page: Page, candidates: seq<Control>)
    ensures |Chunks(candidates, GroupSize(page))| <= page.options
       <==> |candidates| <= AtLeastOne(GroupSize(page)) * page.options
  {
    ChunkCount(candidates, GroupSize(page), page.options);
  }

  /** Where more are offered unasked than may be offered at all, nothing else is. */
  lemma OnlyProtectedIsKept(page: Page, host: Host, known: Relevance.Kept)
    requires |page.observation.controls| > MaxOffered(page)
    requires |Relevance.ProtectedOf(page.observation.controls)| >= MaxOffered(page)
    ensures FirstOf(page, host, known).controls == Filter(page.observation.controls, Protected)
  {
    var ranked, prefix := FirstKeeps(page, host, known);
    Relevance.NoRoomKeepsProtected(page.observation.controls, ranked, prefix, MaxOffered(page));
  }

  /** The groups of an operation are more than there are options to choose them by. */
  predicate GroupsExceed(page: Page, controls: seq<Control>, op: Operation) {
    |Chunks(Candidates(controls, page.context, op), GroupSize(page))| > page.options
  }

  /**
   The request a step starts with asks of an operation more groups than may be offered exactly when the controls offered
   unasked are too many for that operation by themselves.
   */
  lemma GroupsExceedIff(page: Page, host: Host, known: Relevance.Kept, op: Operation)
    ensures GroupsExceed(page, FirstOf(page, host, known).controls, op)
       <==> GroupsExceed(page, Filter(page.observation.controls, Protected), op)
    ensures GroupsExceed(page, Filter(page.observation.controls, Protected), op)
       <==> |Candidates(Filter(page.observation.controls, Protected), page.context, op)|
            > AtLeastOne(GroupSize(page)) * page.options
  {
    var controls := page.observation.controls;
    var first, unasked := FirstOf(page, host, known).controls, Filter(controls, Protected);
    GroupsHeldIff(page, Candidates(first, page.context, op));
    GroupsHeldIff(page, Candidates(unasked, page.context, op));
    AtLeastMaxOffered(page);
    if |controls| > MaxOffered(page) {
      LimitHeldIff(page, host, known);
      Relevance.KeptAlone(controls, []);
      if |Relevance.ProtectedOf(controls)| >= MaxOffered(page) {
        OnlyProtectedIsKept(page, host, known);
      }
    }
  }

  lemma AtLeastMaxOffered(page: Page)
    ensures AtLeastOne(GroupSize(page)) * page.options >= MaxOffered(page)
  {
  }

  const BOX := Control("b", "Option", "checkbox", {Click}, None, None, None, Some(true), None, None, None, false)
  const TICKED := [BOX.(id := "b1"), BOX.(id := "b2"), BOX.(id := "b3"), BOX.(id := "b4"), BOX.(id := "b5")]

  lemma TickedAreAll(c: Context)
    ensures Filter(TICKED, Protected) == TICKED && Candidates(TICKED, c, Click) == TICKED
  {
    forall x | x in TICKED ensures Protected(x) && Lists(c, x, Click) {
      assert x.checked == Some(true) && x.operations == {Click};
    }
    FilterAll(TICKED, Protected);
    FilterAll(TICKED, x => Lists(c, x, Click));
  }

  /** Five ticked boxes, where two groups of two are all there should be: whatever is scored, there are three. */
  lemma TickedBoxesExceed(o: Observation, c: Context, host: Host, known: Relevance.Kept)
    requires o.controls == TICKED
    ensures GroupsExceed(Page(o, c, [], 2, 2), FirstOf(Page(o, c, [], 2, 2), host, known).controls, Click)
  {
    TickedAreAll(c);
    GroupsExceedIff(Page(o, c, [], 2, 2), host, known, Click);
  }

  predicate BareFits(host: Host, rung: Rung) {
    Fits(host.excess, rung.observation, [], rung.context)
  }

  /** A rung of the ladder, which of the things tried once were tried, and the number of the next reply. */
  datatype Step = Step(rung: Rung, trimmed: bool, shortlisted: bool, asked: nat)

  /** The trim, tried once: texts and history cut until the controls offered fit. */
  function TrimStep(host: Host, s: Step): Option<Step> {
    if s.trimmed then None
    else
      match TrimOf(host.excess, s.rung.observation, s.rung.controls, s.rung.context)
      case Some((o, c)) =>
        Some(s.(rung := s.rung.(observation := o, context := c, reduction := Trimmed), trimmed := true))
      case None => None
  }

  /** The shortlist, tried once. */
  function ShortlistStep(page: Page, host: Host, known: Relevance.Kept, s: Step): Option<Step> {
    if s.shortlisted then None
    else
      match ByRelevanceOf(page, host, known, s.rung)
      case Some(rung) => Some(Step(rung, true, true, s.asked))
      case None => None
  }

  /** Fewer controls: without those off screen, else as many as fit. */
  function FewerStep(host: Host, rung: Rung): Option<Rung> {
    match OnscreenRung(rung.controls, rung.reduction)
    case Some(onscreen) => Some(rung.(controls := onscreen, reduction := OnscreenOnly))
    case None =>
      match CapOf(host.excess, rung.observation, rung.controls, rung.context)
      case Some(capped) => Some(rung.(controls := capped, reduction := Capped))
      case None => None
  }

  /** The last resort: texts cut until an empty list fits, to make room for some of the controls. */
  function BareStep(host: Host, rung: Rung): Option<Rung> {
    if BareFits(host, rung) then None
    else
      match TrimOf(host.excess, rung.observation, [], rung.context)
      case Some((o, c)) => Some(rung.(observation := o, context := c))
      case None => None
  }

  /** What is asked next when a request does not fit, or the provider finds it too large. */
  function NextOf(page: Page, host: Host, known: Relevance.Kept, s: Step): Option<Step> {
    match TrimStep(host, s)
    case Some(next) => Some(next)
    case None =>
      match ShortlistStep(page, host, known, s)
      case Some(next) => Some(next)
      case None =>
        match FewerStep(host, s.rung)
        case Some(rung) => Some(Step(rung, true, true, s.asked))
        case None =>
          match BareStep(host, s.rung)
          case Some(rung) => Some(Step(rung, true, true, s.asked))
          case None => None
  }

  /** `b` is further down: something was tried, or texts were cut so an empty list fits, or there are fewer controls. */
  predicate Lower(host: Host, a: Step, b: Step) {
    || (!a.trimmed && b.trimmed)
    || (a.trimmed == b.trimmed
        && ((!a.shortlisted && b.shortlisted)
            || (a.shortlisted == b.shortlisted
                && ((!BareFits(host, a.rung) && BareFits(host, b.rung))
                    || (BareFits(host, a.rung) == BareFits(host, b.rung)
                        && |b.rung.controls| < |a.rung.controls|)))))
  }

  ghost predicate OnLadder(page: Page, host: Host, s: Step) {
    Reduces(page, host, s.rung) && (s.shortlisted || |page.observation.controls| <= MaxOffered(page))
  }

  lemma TrimStepIsLower(page: Page, host: Host, s: Step)
    requires OnLadder(page, host, s) && TrimStep(host, s).Some?
    ensures OnLadder(page, host, TrimStep(host, s).value) && Lower(host, s, TrimStep(host, s).value)
  {
    var next := TrimStep(host, s).value.rung;
    TrimmedKeepsThePage(host.excess, s.rung.observation, s.rung.controls, s.rung.context);
    ReducesTexts(page, host, s.rung, next.observation, next.context, Trimmed);
  }

  lemma FewerStepIsLower(page: Page, host: Host, rung: Rung)
    requires Reduces(page, host, rung) && FewerStep(host, rung).Some?
    ensures var next := FewerStep(host, rung).value;
            Reduces(page, host, next) && |next.controls| < |rung.controls|
            && next.observation == rung.observation && next.context == rung.context
  {
    var next := FewerStep(host, rung).value;
    CapKeepsWhatFits(host.excess, rung.observation, rung.controls, rung.context);
    ReducesControls(page, host, rung, next.controls, next.reduction);
  }

  lemma BareStepIsLower(page: Page, host: Host, rung: Rung)
    requires Reduces(page, host, rung) && BareStep(host, rung).Some?
    ensures var next := BareStep(host, rung).value;
            Reduces(page, host, next) && !BareFits(host, rung) && BareFits(host, next)
  {
    var next := BareStep(host, rung).value;
    TrimmedKeepsThePage(host.excess, rung.observation, [], rung.context);
    ReducesTexts(page, host, rung, next.observation, next.context, rung.reduction);
  }

  /** Every step goes down, so the ladder ends; and it stays on the page. */
  lemma NextIsLower(page: Page, host: Host, known: Relevance.Kept, s: Step)
    requires OnLadder(page, host, s) && NextOf(page, host, known, s).Some?
    ensures var next := NextOf(page, host, known, s).value; OnLadder(page, host, next) && Lower(host, s, next)
  {
    if TrimStep(host, s).Some? {
      TrimStepIsLower(page, host, s);
    } else if ShortlistStep(page, host, known, s).Some? {
      ByRelevanceReduces(page, host, known, s.rung);
    } else if FewerStep(host, s.rung).Some? {
      FewerStepIsLower(page, host, s.rung);
    } else {
      BareStepIsLower(page, host, s.rung);
    }
  }

  /**
   What comes next, by what changed. Texts change only to make room: for the controls there are, or for any at all.
   Controls change only where texts cannot make room for them, and then by relevance first, if anything is scored.
   */
  lemma NextChanges(page: Page, host: Host, known: Relevance.Kept, s: Step)
    requires NextOf(page, host, known, s).Some?
    ensures var next := NextOf(page, host, known, s).value;
            var texts := next.rung.observation == s.rung.observation && next.rung.context == s.rung.context;
            && next.trimmed
            && (!texts ==> next.rung.controls == s.rung.controls
                           && (RungFits(host, next.rung) || (!BareFits(host, s.rung) && BareFits(host, next.rung))))
            && (next.rung.controls != s.rung.controls ==>
                  texts &&
                  (s.trimmed || TrimOf(host.excess, s.rung.observation, s.rung.controls, s.rung.context) == None))
            && (next.rung.controls != s.rung.controls && next.rung.reduction != ByRelevance ==>
                  s.shortlisted || ByRelevanceOf(page, host, known, s.rung) == None)
  {
    if TrimStep(host, s).Some? {
      TrimmedKeepsThePage(host.excess, s.rung.observation, s.rung.controls, s.rung.context);
    } else if ShortlistStep(page, host, known, s).None? && FewerStep(host, s.rung).None? {
      TrimmedKeepsThePage(host.excess, s.rung.observation, [], s.rung.context);
    }
  }

  /** Of fewer controls, those on screen come before as many as fit, and before cutting texts for any at all. */
  lemma FewerInTurn(page: Page, host: Host, known: Relevance.Kept, s: Step)
    requires TrimStep(host, s).None? && ShortlistStep(page, host, known, s).None?
    ensures var next := NextOf(page, host, known, s);
            if s.rung.reduction !in {OnscreenOnly, Capped} && exists c :: c in s.rung.controls && c.offscreen
            then next == Some(s.(trimmed := true, shortlisted := true, rung := s.rung.(
                                  controls := Filter(s.rung.controls, (c: Control) => !c.offscreen),
                                  reduction := OnscreenOnly)))
            else if s.rung.controls != [] && BareFits(host, s.rung)
            then next.Some? && next.value.rung.reduction == Capped && RungFits(host, next.value.rung)
                 && |next.value.rung.controls| < |s.rung.controls|
            else if BareFits(host, s.rung) then next == None
            else next.Some? <==> TrimOf(host.excess, s.rung.observation, [], s.rung.context).Some?
  {
    OnscreenRungIs(s.rung.controls, s.rung.reduction);
    CapKeepsWhatFits(host.excess, s.rung.observation, s.rung.controls, s.rung.context);
  }

  /** The ladder has no step left only where no control is offered any more or not even an empty list fits. */
  lemma NoStepLeft(page: Page, host: Host, known: Relevance.Kept, s: Step)
    requires NextOf(page, host, known, s).None?
    ensures s.rung.controls == [] || !BareFits(host, s.rung)
  {
  }

  // ---------------------------------------------------------------------------------------------------------------
  // Asking
  // ---------------------------------------------------------------------------------------------------------------

  /** What comes of asking: a verdict, a smaller request to ask again with, or a request too large. */
  datatype Reaction = Ends(verdict: Verdict) | Smaller(controls: seq<Control>) | TooLarge

  /** Too large is the next step's business; out of retries, the shed list is tried; any other failure stands. */
  function OnFailure(host: Host, rung: Rung, failure: Failure): Reaction {
    if failure == Provider(InputTooLarge) then TooLarge
    else if failure == Provider(RetriesExhausted) then
      match Shed(host.large(rung.observation, rung.controls, rung.context), rung.controls, rung.reduction)
      case Some(fewer) => Smaller(fewer)
      case None => Ends(Failed(failure))
    else Ends(Failed(failure))
  }

  function ReactionTo(host: Host, rung: Rung, result: Result<Decision, Failure>): Reaction {
    match result
    case Ok(d) => Ends(Decided(d, rung))
    case Err(failure) => OnFailure(host, rung, failure)
  }

  ghost predicate ReactsTo(
    page: Page, host: Host, rung: Rung, model: Model, n: nat, reaction: Reaction, next: nat,
    r: Request, result: Result<Decision, Failure>)
  {
    && Offers(PageOf(page, rung), rung.controls, r) && ComesTo(r, model, n, result)
    && reaction == ReactionTo(host, rung, result) && next == NextReply(r, model, n)
  }

  /** What comes of a request that offers the rung's controls, and the number of the reply after those it took. */
  ghost predicate Reacts(page: Page, host: Host, rung: Rung, model: Model, n: nat, reaction: Reaction, next: nat) {
    exists r, result :: ReactsTo(page, host, rung, model, n, reaction, next, r, result)
  }

  /** One thing comes of a rung and the replies to it. */
  lemma ReactsOnce(
    page: Page, host: Host, rung: Rung, model: Model, n: nat, a: Reaction, x: nat, b: Reaction, y: nat)
    requires Reacts(page, host, rung, model, n, a, x) && Reacts(page, host, rung, model, n, b, y)
    ensures a == b && x == y
  {
    var r, result :| ReactsTo(page, host, rung, model, n, a, x, r, result);
    var q, other :| ReactsTo(page, host, rung, model, n, b, y, q, other);
    OffersOnce(PageOf(page, rung), rung.controls, r, q);
    ComesToOnce(r, q.offered, model, n, result, other);
  }

  method AskRung(page: Page, host: Host, rung: Rung, model: Model, n: nat) returns (reaction: Reaction, next: nat)
    ensures Reacts(page, host, rung, model, n, reaction, next)
  {
    var request := BuildRequest(PageOf(page, rung), rung.controls);
    var result;
    result, next := Evaluate(request, model, n);
    reaction := ReactionTo(host, rung, result);
    assert ReactsTo(page, host, rung, model, n, reaction, next, request, result);
  }

  /** What came of a step: the reaction to its request, when that fits, and the number of the next reply. */
  datatype Came = Came(reaction: Option<Reaction>, asked: nat)

  /** A request that fits is asked, and takes the replies from the step's number on; any other takes none. */
  ghost predicate Answers(page: Page, host: Host, model: Model, s: Step, came: Came) {
    if RungFits(host, s.rung) then
      came.reaction.Some? && Reacts(page, host, s.rung, model, s.asked, came.reaction.value, came.asked)
    else came == Came(None, s.asked)
  }

  predicate Settles(came: Came) {
    came.reaction.Some? && came.reaction.value.Ends?
  }

  /** What a step comes to: what is asked next, or nothing more to try. */
  function After(page: Page, host: Host, known: Relevance.Kept, s: Step, came: Came): Option<Step> {
    match came.reaction
    case Some(Smaller(controls)) =>
      Some(s.(rung := s.rung.(controls := controls, reduction := OnscreenOnly), asked := came.asked))
    case _ => NextOf(page, host, known, s.(asked := came.asked))
  }

  ghost predicate Turns(page: Page, host: Host, known: Relevance.Kept, model: Model, s: Step, came: Came, next: Step) {
    && Answers(page, host, model, s, came) && !Settles(came)
    && After(page, host, known, s, came) == Some(next)
  }

  ghost function TurningOf(page: Page, host: Host, known: Relevance.Kept, model: Model): (Step, Came, Step) -> bool {
    (s, came, next) => Turns(page, host, known, model, s, came, next)
  }

  function FirstStep(page: Page, host: Host, known: Relevance.Kept): Step {
    Step(FirstOf(page, host, known), false, |page.observation.controls| > MaxOffered(page), 0)
  }

  /** One way down the ladder: at each step a request that fits is asked, and the next step is what comes of it. */
  ghost predicate Descends(
    page: Page, host: Host, known: Relevance.Kept, model: Model, steps: seq<Step>, came: seq<Came>)
  {
    IsPath(TurningOf(page, host, known, model), steps, came) && steps[0] == FirstStep(page, host, known)
  }

  /** Where a descent ends: with the verdict of what was asked last, or with nothing left to try. */
  ghost predicate Concludes(
    page: Page, host: Host, known: Relevance.Kept, model: Model, s: Step, last: Came, verdict: Verdict)
  {
    && Answers(page, host, model, s, last)
    && if Settles(last) then verdict == last.reaction.value.verdict
       else After(page, host, known, s, last) == None && verdict == ObservationTooLarge
  }

  lemma AfterIsLower(page: Page, host: Host, known: Relevance.Kept, s: Step, came: Came)
    requires OnLadder(page, host, s) && After(page, host, known, s, came).Some?
    requires came.reaction.Some? && came.reaction.value.Smaller? ==> Shrinks(s.rung, came.reaction.value.controls)
    ensures var next := After(page, host, known, s, came).value; OnLadder(page, host, next) && Lower(host, s, next)
  {
    if came.reaction.Some? && came.reaction.value.Smaller? {
      ReducesControls(page, host, s.rung, came.reaction.value.controls, OnscreenOnly);
    } else {
      NextIsLower(page, host, known, s.(asked := came.asked));
    }
  }

  ghost predicate Shrinks(rung: Rung, controls: seq<Control>) {
    |controls| < |rung.controls| && Subseq(controls, rung.controls)
  }

  lemma FromResult(
    page: Page, host: Host, rung: Rung, model: Model, n: nat, reaction: Reaction, next: nat, r: Request,
    result: Result<Decision, Failure>)
    requires ReactsTo(page, host, rung, model, n, reaction, next, r, result)
    ensures reaction == ReactionTo(host, rung, result) && next > n
    ensures result.Err? ==> result.error == Why(model, next - 1)
  {
  }

  lemma SomeResult(page: Page, host: Host, rung: Rung, model: Model, n: nat, reaction: Reaction, next: nat)
    returns (result: Result<Decision, Failure>)
    requires Reacts(page, host, rung, model, n, reaction, next)
    ensures reaction == ReactionTo(host, rung, result) && next > n
    ensures result.Err? ==> result.error == Why(model, next - 1)
  {
    var r;
    r, result :| ReactsTo(page, host, rung, model, n, reaction, next, r, result);
    FromResult(page, host, rung, model, n, reaction, next, r, result);
  }

  lemma SmallerIsOnscreen(page: Page, host: Host, rung: Rung, model: Model, n: nat, controls: seq<Control>, next: nat)
    requires Reacts(page, host, rung, model, n, Smaller(controls), next)
    ensures OnscreenRung(rung.controls, rung.reduction) == Some(controls)
  {
    var result := SomeResult(page, host, rung, model, n, Smaller(controls), next);
  }

  lemma TurnIsLower(page: Page, host: Host, known: Relevance.Kept, model: Model, s: Step, came: Came, next: Step)
    requires OnLadder(page, host, s) && Turns(page, host, known, model, s, came, next)
    ensures OnLadder(page, host, next) && Lower(host, s, next)
  {
    if came.reaction.Some? && came.reaction.value.Smaller? {
      SmallerIsOnscreen(page, host, s.rung, model, s.asked, came.reaction.value.controls, came.asked);
    }
    AfterIsLower(page, host, known, s, came);
  }

  /** Nothing that is tried takes a reply. */
  lemma AfterAsks(page: Page, host: Host, known: Relevance.Kept, s: Step, came: Came)
    requires After(page, host, known, s, came).Some?
    ensures After(page, host, known, s, came).value.asked == came.asked
  {
  }

  function View(cache: Relevance.RelevanceCache?): Relevance.Kept
    reads cache
  {
    if cache == null then NOTHING_KNOWN else Relevance.Kept(cache.context, cache.answers)
  }

  const NOTHING_KNOWN := Relevance.Kept(None, map[])

  // ---------------------------------------------------------------------------------------------------------------
  // The loop as written
  // ---------------------------------------------------------------------------------------------------------------

  /** The relevance pass is answered by a model that goes by the state and the question alone. */
  ghost predicate Steady(host: Host, scorer: Relevance.Scorer) {
    forall state, pending :: host.answer(state, pending) == Relevance.AllAnswered(scorer, state, pending)
  }

  /** Scores that were the model's stay so. */
  ghost predicate StaysHonest(host: Host, scorer: Relevance.Scorer, before: Relevance.Kept, after: Relevance.Kept) {
    Steady(host, scorer) && Relevance.Honest(before, scorer) ==> Relevance.Honest(after, scorer)
  }

  method ShortlistRung(
    page: Page, host: Host, cache: Relevance.RelevanceCache?, rung: Rung, ghost scorer: Relevance.Scorer)
    returns (next: Option<Rung>)
    modifies if cache == null then {} else {cache}
    ensures next == ByRelevanceOf(page, host, old(View(cache)), rung)
    ensures StaysHonest(host, scorer, old(View(cache)), View(cache))
  {
    var o, c := rung.observation, rung.context;
    var state := host.state(o, c);
    ghost var before := View(cache);
    var kept := Relevance.Shortlist(
      cache, host.document(o), state, rung.controls, host.write, pending => host.answer(state, pending),
      Checks(host, o, c), MaxOffered(page));
    next := if kept.Some? then Some(rung.(controls := kept.value, reduction := ByRelevance)) else None;
    if cache != null && Steady(host, scorer) && Relevance.Honest(before, scorer) {
      var cached := Relevance.Prepared(before, host.document(o), state).answers;
      Relevance.StoredIsHonest(
        before, scorer, host.document(o), state,
        Relevance.Pending(Relevance.Unprotected(rung.controls), host.write, cached));
    }
  }

  method FirstRung(page: Page, host: Host, cache: Relevance.RelevanceCache?, ghost scorer: Relevance.Scorer)
    returns (rung: Rung)
    modifies if cache == null then {} else {cache}
    ensures rung == FirstOf(page, host, old(View(cache)))
    ensures |page.observation.controls| <= MaxOffered(page) ==> View(cache) == old(View(cache))
    ensures StaysHonest(host, scorer, old(View(cache)), View(cache))
  {
    rung := Rung(page.observation, page.context, page.observation.controls, Unreduced);
    if |page.observation.controls| > MaxOffered(page) {
      var shorter := ShortlistRung(page, host, cache, rung, scorer);
      rung :=
        if shorter.Some? then shorter.value
        else rung.(controls := ProtectedFirst(page.observation.controls, MaxOffered(page)));
    }
  }

  method NextStep(
    page: Page, host: Host, cache: Relevance.RelevanceCache?, s: Step, ghost scorer: Relevance.Scorer)
    returns (next: Option<Step>)
    modifies if cache == null then {} else {cache}
    ensures next == NextOf(page, host, old(View(cache)), s)
    ensures next.Some? && !next.value.shortlisted ==> View(cache) == old(View(cache))
    ensures StaysHonest(host, scorer, old(View(cache)), View(cache))
  {
    var rung := s.rung;
    if !s.trimmed {
      var shorter := Trim.Trim(host.excess, rung.observation, rung.controls, rung.context);
      if shorter.Some? {
        var (o, c) := shorter.value;
        return Some(Step(rung.(observation := o, context := c, reduction := Trimmed), true, s.shortlisted, s.asked));
      }
    }
    if !s.shortlisted {
      var fewer := ShortlistRung(page, host, cache, rung, scorer);
      if fewer.Some? {
        return Some(Step(fewer.value, true, true, s.asked));
      }
    }
    var onscreen := OnscreenRung(rung.controls, rung.reduction);
    if onscreen.Some? {
      return Some(Step(rung.(controls := onscreen.value, reduction := OnscreenOnly), true, true, s.asked));
    }
    var capped := Cap(host.excess, rung.observation, rung.controls, rung.context);
    if capped.Some? {
      return Some(Step(rung.(controls := capped.value, reduction := Capped), true, true, s.asked));
    }
    if BareFits(host, rung) {
      return None;
    }
    var bare := Trim.Trim(host.excess, rung.observation, [], rung.context);
    if bare.None? {
      return None;
    }
    var (o, c) := bare.value;
    next := Some(Step(rung.(observation := o, context := c), true, true, s.asked));
  }

  /** A shortlist is made at most once, so what was known before the step is all that matters of the cache. */
  lemma ShortlistedOnce(page: Page, host: Host, a: Relevance.Kept, b: Relevance.Kept, s: Step)
    requires s.shortlisted
    ensures NextOf(page, host, a, s) == NextOf(page, host, b, s)
  {
  }

  /** One turn of the loop: the request asked if it fits, and the next step unless that settled it. */
  method StepDown(
    page: Page, host: Host, cache: Relevance.RelevanceCache?, model: Model, s: Step,
    ghost known: Relevance.Kept, ghost scorer: Relevance.Scorer)
    returns (came: Came, next: Option<Step>)
    requires s.shortlisted || View(cache) == known
    modifies if cache == null then {} else {cache}
    ensures Answers(page, host, model, s, came)
    ensures next == if Settles(came) then None else After(page, host, known, s, came)
    ensures next.Some? ==> next.value.shortlisted || View(cache) == known
    ensures StaysHonest(host, scorer, old(View(cache)), View(cache))
  {
    came, next := Came(None, s.asked), None;
    if RungFits(host, s.rung) {
      var reaction, asked := AskRung(page, host, s.rung, model, s.asked);
      came := Came(Some(reaction), asked);
      if reaction.Ends? {
        return;
      }
      if reaction.Smaller? {
        next := Some(s.(rung := s.rung.(controls := reaction.controls, reduction := OnscreenOnly), asked := asked));
        return;
      }
    }
    var onward := s.(asked := came.asked);
    if s.shortlisted {
      ShortlistedOnce(page, host, known, View(cache), onward);
    }
    next := NextStep(page, host, cache, onward, scorer);
    NextShortlisted(page, host, known, onward);
  }

  lemma NextShortlisted(page: Page, host: Host, known: Relevance.Kept, s: Step)
    ensures var next := NextOf(page, host, known, s); s.shortlisted && next.Some? ==> next.value.shortlisted
  {
  }

  lemma DescendsFurther(
    page: Page, host: Host, known: Relevance.Kept, model: Model, steps: seq<Step>, came: seq<Came>,
    last: Came, next: Step)
    requires Descends(page, host, known, model, steps, came)
    requires Turns(page, host, known, model, steps[|steps| - 1], last, next)
    ensures Descends(page, host, known, model, steps + [next], came + [last])
  {
    PathFurther(TurningOf(page, host, known, model), steps, came, last, next);
  }

  lemma DescentStarts(page: Page, host: Host, known: Relevance.Kept, model: Model)
    ensures Descends(page, host, known, model, [FirstStep(page, host, known)], [])
    ensures OnLadder(page, host, FirstStep(page, host, known))
  {
    FirstReduces(page, host, known);
  }

  /** A turn, and what it comes to for the way down so far. */
  method Turn(
    page: Page, host: Host, cache: Relevance.RelevanceCache?, model: Model, s: Step, ghost known: Relevance.Kept,
    ghost scorer: Relevance.Scorer, ghost steps: seq<Step>, ghost came: seq<Came>)
    returns (next: Option<Step>, verdict: Verdict, ghost last: Came)
    requires Descends(page, host, known, model, steps, came) && steps[|steps| - 1] == s
    requires OnLadder(page, host, s) && (s.shortlisted || View(cache) == known)
    modifies if cache == null then {} else {cache}
    ensures next.None? ==> Concludes(page, host, known, model, s, last, verdict)
    ensures next.Some? ==>
              && OnLadder(page, host, next.value) && Lower(host, s, next.value)
              && (next.value.shortlisted || View(cache) == known)
              && Descends(page, host, known, model, steps + [next.value], came + [last])
    ensures StaysHonest(host, scorer, old(View(cache)), View(cache))
  {
    var now;
    now, next := StepDown(page, host, cache, model, s, known, scorer);
    last := now;
    verdict := if Settles(now) then now.reaction.value.verdict else ObservationTooLarge;
    if next.Some? {
      TurnIsLower(page, host, known, model, s, now, next.value);
      DescendsFurther(page, host, known, model, steps, came, now, next.value);
    }
  }

  /**
   The whole decision is one way down the ladder, and ends as that does. It leaves in the cache only what the scorer, if
   there is one, would answer.
   */
  method Decide(
    page: Page, host: Host, cache: Relevance.RelevanceCache?, model: Model, ghost scorer: Relevance.Scorer)
    returns (verdict: Verdict, ghost steps: seq<Step>, ghost came: seq<Came>, ghost last: Came)
    modifies if cache == null then {} else {cache}
    ensures Descends(page, host, old(View(cache)), model, steps, came)
    ensures Concludes(page, host, old(View(cache)), model, steps[|steps| - 1], last, verdict)
    ensures StaysHonest(host, scorer, old(View(cache)), View(cache))
  {
    ghost var known := View(cache);
    var first := FirstRung(page, host, cache, scorer);
    var s := Step(first, false, |page.observation.controls| > MaxOffered(page), 0);
    DescentStarts(page, host, known, model);
    steps, came := [s], [];
    while true
      invariant Descends(page, host, known, model, steps, came) && steps[|steps| - 1] == s
      invariant OnLadder(page, host, s) && (s.shortlisted || View(cache) == known)
      invariant StaysHonest(host, scorer, known, View(cache))
      decreases !s.trimmed, !s.shortlisted, !BareFits(host, s.rung), |s.rung.controls|
    {
      var next;
      next, verdict, last := Turn(page, host, cache, model, s, known, scorer, steps, came);
      if next.None? {
        return;
      }
      s, steps, came := next.value, steps + [next.value], came + [last];
    }
  }

  // ---------------------------------------------------------------------------------------------------------------
  // What every decision keeps
  // ---------------------------------------------------------------------------------------------------------------

  lemma EveryStepIsOnThePage(
    page: Page, host: Host, known: Relevance.Kept, model: Model, steps: seq<Step>, came: seq<Came>, i: nat)
    requires Descends(page, host, known, model, steps, came) && i < |steps|
    ensures OnLadder(page, host, steps[i])
  {
    var turn, good := TurningOf(page, host, known, model), s => OnLadder(page, host, s);
    FirstReduces(page, host, known);
    forall s, c, next | good(s) && turn(s, c, next) ensures good(next) {
      TurnIsLower(page, host, known, model, s, c, next);
    }
    PathKeeps(turn, good, steps, came, 0, i);
  }

  /** However the page was reduced, what is chosen is on the page that was read, or an address supplied with it. */
  lemma PicksFromThePage(page: Page, host: Host, rung: Rung, d: Decision)
    requires Reduces(page, host, rung) && OnlyOffered(PageOf(page, rung), rung.controls, d)
    ensures OnlyOffered(page, page.observation.controls, d)
  {
    if d.target.Some? {
      SubseqMember(rung.controls, page.observation.controls, d.target.value);
    }
    if d.destination.Some? {
      SubseqMember(rung.controls, page.observation.controls, d.destination.value);
    }
  }

  ghost predicate FollowsOn(page: Page, rung: Rung, model: Model, n: nat, d: Decision) {
    exists r :: Offers(PageOf(page, rung), rung.controls, r) && Follows(r, model, n, d)
  }

  lemma DecidedByAnswers(page: Page, host: Host, rung: Rung, model: Model, n: nat, d: Decision, at: Rung, next: nat)
    requires Reacts(page, host, rung, model, n, Ends(Decided(d, at)), next)
    ensures at == rung && FollowsOn(page, rung, model, n, d)
  {
  }

  lemma FollowsFromThePage(page: Page, host: Host, rung: Rung, model: Model, n: nat, d: Decision)
    requires Reduces(page, host, rung) && FollowsOn(page, rung, model, n, d)
    ensures OnlyOffered(page, page.observation.controls, d)
  {
    var r :| Offers(PageOf(page, rung), rung.controls, r) && Follows(r, model, n, d);
    PicksOnlyWhatIsOffered(PageOf(page, rung), rung.controls, r, Ask(model, n).value, model, n + 1, d);
    PicksFromThePage(page, host, rung, d);
  }

  /**
   A decision was made of a request that fits, is what the replies to that request come to, and names only what the page
   and the caller offered.
   */
  lemma DecisionIsOfThePage(
    page: Page, host: Host, known: Relevance.Kept, model: Model, steps: seq<Step>, came: seq<Came>, last: Came,
    verdict: Verdict)
    requires Descends(page, host, known, model, steps, came)
    requires Concludes(page, host, known, model, steps[|steps| - 1], last, verdict) && verdict.Decided?
    ensures var s := steps[|steps| - 1];
            && verdict.at == s.rung && RungFits(host, s.rung)
            && FollowsOn(page, s.rung, model, s.asked, verdict.decision)
    ensures OnlyOffered(page, page.observation.controls, verdict.decision)
  {
    var s := steps[|steps| - 1];
    EveryStepIsOnThePage(page, host, known, model, steps, came, |steps| - 1);
    DecidedByAnswers(page, host, s.rung, model, s.asked, verdict.decision, verdict.at, last.asked);
    FollowsFromThePage(page, host, s.rung, model, s.asked, verdict.decision);
  }

  /** A step gives up on the page only where not even an empty list fits, or where an empty list was refused. */
  lemma GivesUpOnlyWithNothingLeft(
    page: Page, host: Host, known: Relevance.Kept, model: Model, s: Step, last: Came, verdict: Verdict)
    requires Concludes(page, host, known, model, s, last, verdict) && verdict == ObservationTooLarge
    ensures !BareFits(host, s.rung) || (s.rung.controls == [] && last.reaction.Some?)
  {
    NoStepLeft(page, host, known, s.(asked := last.asked));
    assert s.rung.controls == [] ==> RungFits(host, s.rung) == BareFits(host, s.rung);
  }

  predicate AllOnscreen(s: Step) {
    forall c :: c in s.rung.controls ==> !c.offscreen
  }

  lemma SomeStayOnscreen(before: Step, after: Step)
    requires AllOnscreen(before) && Subseq(after.rung.controls, before.rung.controls)
    ensures AllOnscreen(after)
  {
    forall c | c in after.rung.controls ensures !c.offscreen {
      SubseqMember(after.rung.controls, before.rung.controls, c);
    }
  }

  /** Whatever is tried next offers some of the controls there were. */
  lemma NextIsSome(page: Page, host: Host, known: Relevance.Kept, s: Step)
    requires NextOf(page, host, known, s).Some?
    ensures Subseq(NextOf(page, host, known, s).value.rung.controls, s.rung.controls)
  {
    SubseqSelf(s.rung.controls);
    if TrimStep(host, s).None? {
      if ShortlistStep(page, host, known, s).Some? {
        ShortlistIsSome(page, host, known, s.rung);
      } else if FewerStep(host, s.rung).Some? {
        CapKeepsWhatFits(host.excess, s.rung.observation, s.rung.controls, s.rung.context);
      }
    }
  }

  lemma TurnIsSome(page: Page, host: Host, known: Relevance.Kept, model: Model, s: Step, came: Came, next: Step)
    requires Turns(page, host, known, model, s, came, next)
    ensures Subseq(next.rung.controls, s.rung.controls)
  {
    if came.reaction.Some? && came.reaction.value.Smaller? {
      SmallerIsOnscreen(page, host, s.rung, model, s.asked, came.reaction.value.controls, came.asked);
    } else {
      NextIsSome(page, host, known, s.(asked := came.asked));
    }
  }

  predicate Sheds(came: Came) {
    came.reaction.Some? && came.reaction.value.Smaller?
  }

  /** A shed changes nothing but the controls: texts, history and what was tried are as they were. */
  lemma ShedKeepsTheRest(
    page: Page, host: Host, known: Relevance.Kept, model: Model, s: Step, came: Came, next: Step)
    requires Turns(page, host, known, model, s, came, next) && Sheds(came)
    ensures next == s.(rung := s.rung.(controls := next.rung.controls, reduction := OnscreenOnly), asked := next.asked)
    ensures next.rung.controls == Filter(s.rung.controls, (c: Control) => !c.offscreen)
  {
    SmallerIsOnscreen(page, host, s.rung, model, s.asked, came.reaction.value.controls, came.asked);
    OnscreenRungIs(s.rung.controls, s.rung.reduction);
  }

  /** A decision starts with nothing tried but the shortlist that a page with too many controls starts with. */
  lemma StartsUntried(
    page: Page, host: Host, known: Relevance.Kept, model: Model, steps: seq<Step>, came: seq<Came>)
    requires Descends(page, host, known, model, steps, came)
    ensures steps[0].asked == 0 && !steps[0].trimmed
    ensures steps[0].shortlisted <==> |page.observation.controls| > MaxOffered(page)
    ensures steps[0].rung == FirstOf(page, host, known)
  {
  }

  /** A shed leaves only controls on screen, and where there are only those nothing can be shed. */
  lemma ShedLeavesOnscreen(rung: Rung, controls: seq<Control>)
    requires OnscreenRung(rung.controls, rung.reduction) == Some(controls)
    ensures (forall c :: c in controls ==> !c.offscreen) && exists c :: c in rung.controls && c.offscreen
  {
  }

  lemma TurnStaysOnscreen(page: Page, host: Host, known: Relevance.Kept, model: Model, s: Step, came: Came, next: Step)
    requires Turns(page, host, known, model, s, came, next)
    ensures Sheds(came) ==> !AllOnscreen(s)
    ensures AllOnscreen(s) || Sheds(came) ==> AllOnscreen(next)
  {
    if Sheds(came) {
      SmallerIsOnscreen(page, host, s.rung, model, s.asked, came.reaction.value.controls, came.asked);
      ShedLeavesOnscreen(s.rung, came.reaction.value.controls);
    } else if AllOnscreen(s) {
      TurnIsSome(page, host, known, model, s, came, next);
      SomeStayOnscreen(s, next);
    }
  }

  lemma OnscreenAfterShed(
    page: Page, host: Host, known: Relevance.Kept, model: Model, steps: seq<Step>, came: seq<Came>, i: nat, j: nat)
    requires Descends(page, host, known, model, steps, came) && i < j < |steps| && Sheds(came[i])
    ensures AllOnscreen(steps[j])
  {
    var turn := TurningOf(page, host, known, model);
    assert turn(steps[i], came[i], steps[i + 1]);
    TurnStaysOnscreen(page, host, known, model, steps[i], came[i], steps[i + 1]);
    forall s, c, next | AllOnscreen(s) && turn(s, c, next) ensures AllOnscreen(next) {
      TurnStaysOnscreen(page, host, known, model, s, c, next);
    }
    PathKeeps(turn, AllOnscreen, steps, came, i + 1, j);
  }

  /** At most one turn of a decision sheds controls, however often the provider gives up. */
  lemma ShedsOnce(
    page: Page, host: Host, known: Relevance.Kept, model: Model, steps: seq<Step>, came: seq<Came>, i: nat, j: nat)
    requires Descends(page, host, known, model, steps, came) && i < j < |came|
    ensures !(Sheds(came[i]) && Sheds(came[j]))
  {
    if Sheds(came[i]) {
      OnscreenAfterShed(page, host, known, model, steps, came, i, j);
      assert TurningOf(page, host, known, model)(steps[j], came[j], steps[j + 1]);
      TurnStaysOnscreen(page, host, known, model, steps[j], came[j], steps[j + 1]);
    }
  }

  /** A verdict comes of a request that fits, and the replies to it. */
  lemma SettledByReplies(
    page: Page, host: Host, known: Relevance.Kept, model: Model, s: Step, last: Came, verdict: Verdict)
    requires Concludes(page, host, known, model, s, last, verdict) && !verdict.ObservationTooLarge?
    ensures RungFits(host, s.rung) && last.reaction == Some(Ends(verdict))
    ensures Reacts(page, host, s.rung, model, s.asked, Ends(verdict), last.asked)
  {
  }

  lemma FailedFor(host: Host, rung: Rung, failure: Failure, verdict: Verdict)
    requires OnFailure(host, rung, failure) == Ends(verdict)
    ensures verdict == Failed(failure) && failure != Provider(InputTooLarge)
    ensures failure == Provider(RetriesExhausted) ==>
              || !host.large(rung.observation, rung.controls, rung.context)
              || (forall c :: c in rung.controls ==> !c.offscreen)
              || rung.reduction in {OnscreenOnly, Capped}
  {
    OnscreenRungIs(rung.controls, rung.reduction);
  }

  lemma FailedByReplies(page: Page, host: Host, rung: Rung, model: Model, n: nat, verdict: Verdict, next: nat)
    requires Reacts(page, host, rung, model, n, Ends(verdict), next) && verdict.Failed?
    ensures next > 0 && verdict.failure == Why(model, next - 1) && verdict.failure != Provider(InputTooLarge)
    ensures verdict.failure == Provider(RetriesExhausted) ==>
              || !host.large(rung.observation, rung.controls, rung.context)
              || (forall c :: c in rung.controls ==> !c.offscreen)
              || rung.reduction in {OnscreenOnly, Capped}
  {
    var result := SomeResult(page, host, rung, model, n, Ends(verdict), next);
    FailedFor(host, rung, result.error, verdict);
  }

  /**
   A decision that fails does so for the refusal of its last reply, or for one that names nothing offered. It is never
   that the request was too large, since something smaller is tried; and an outage is reported only of a request that is
   not large, or cannot be shed: with every control on screen, or those dropped before.
   */
  lemma FailsOnlyFor(
    page: Page, host: Host, known: Relevance.Kept, model: Model, s: Step, last: Came, verdict: Verdict)
    requires Concludes(page, host, known, model, s, last, verdict) && verdict.Failed?
    ensures last.asked > 0 && verdict.failure == Why(model, last.asked - 1)
    ensures verdict.failure != Provider(InputTooLarge)
    ensures verdict.failure == Provider(RetriesExhausted) ==>
              || !host.large(s.rung.observation, s.rung.controls, s.rung.context)
              || (forall c :: c in s.rung.controls ==> !c.offscreen)
              || s.rung.reduction in {OnscreenOnly, Capped}
  {
    SettledByReplies(page, host, known, model, s, last, verdict);
    FailedByReplies(page, host, s.rung, model, s.asked, verdict, last.asked);
  }

  /**
   What each reaction follows from: a shed from an outage of a large request, and the next try from a size refused.
   */
  lemma ReactionFollows(page: Page, host: Host, rung: Rung, model: Model, n: nat, reaction: Reaction, next: nat)
    requires Reacts(page, host, rung, model, n, reaction, next) && next > 0
    ensures reaction.Smaller? ==>
              && Why(model, next - 1) == Provider(RetriesExhausted)
              && host.large(rung.observation, rung.controls, rung.context)
              && reaction.controls == Filter(rung.controls, (c: Control) => !c.offscreen)
    ensures reaction.TooLarge? ==> Why(model, next - 1) == Provider(InputTooLarge)
    ensures reaction.Ends? && reaction.verdict.Decided? ==> FollowsOn(page, rung, model, n, reaction.verdict.decision)
    ensures reaction.Ends? ==> reaction.verdict.Decided? || reaction.verdict.Failed?
  {
    var result := SomeResult(page, host, rung, model, n, reaction, next);
    OnscreenRungIs(rung.controls, rung.reduction);
    if reaction.Ends? && reaction.verdict.Decided? {
      DecidedByAnswers(page, host, rung, model, n, reaction.verdict.decision, reaction.verdict.at, next);
    }
  }

  /** A request is called one of on-screen controls only when it is. */
  lemma OnscreenLabelIsTrue(
    page: Page, host: Host, known: Relevance.Kept, model: Model, steps: seq<Step>, came: seq<Came>, i: nat)
    requires Descends(page, host, known, model, steps, came) && i < |steps|
    ensures steps[i].rung.reduction == OnscreenOnly ==> AllOnscreen(steps[i])
  {
    var turn := TurningOf(page, host, known, model);
    var good := (s: Step) => s.rung.reduction == OnscreenOnly ==> AllOnscreen(s);
    forall s, c, next | good(s) && turn(s, c, next) ensures good(next) {
      TurnKeepsTheLabel(page, host, known, model, s, c, next);
    }
    PathKeeps(turn, good, steps, came, 0, i);
  }

  lemma NextLabel(page: Page, host: Host, known: Relevance.Kept, s: Step, next: Step)
    requires NextOf(page, host, known, s) == Some(next) && next.rung.reduction == OnscreenOnly
    ensures AllOnscreen(next) || (s.rung.reduction == OnscreenOnly && next.rung.controls == s.rung.controls)
  {
    OnscreenRungIs(s.rung.controls, s.rung.reduction);
  }

  lemma TurnKeepsTheLabel(page: Page, host: Host, known: Relevance.Kept, model: Model, s: Step, came: Came, next: Step)
    requires Turns(page, host, known, model, s, came, next)
    requires s.rung.reduction == OnscreenOnly ==> AllOnscreen(s)
    ensures next.rung.reduction == OnscreenOnly ==> AllOnscreen(next)
  {
    if Sheds(came) {
      TurnStaysOnscreen(page, host, known, model, s, came, next);
    } else if next.rung.reduction == OnscreenOnly {
      NextLabel(page, host, known, s.(asked := came.asked), next);
    }
  }

  // ---------------------------------------------------------------------------------------------------------------
  // One verdict
  // ---------------------------------------------------------------------------------------------------------------

  /** A request that fits takes between one and three replies from the step's number on; any other takes none. */
  predicate TakesItsReplies(host: Host, s: Step, came: Came) {
    if RungFits(host, s.rung) then came.reaction.Some? && s.asked < came.asked <= s.asked + 3
    else came.reaction.None? && came.asked == s.asked
  }

  /** The provider is asked exactly what does not run over, one that fills the limit included. */
  lemma AskedIff(page: Page, host: Host, model: Model, s: Step, came: Came)
    requires Answers(page, host, model, s, came)
    ensures came.reaction.Some? <==> host.excess(s.rung.observation, s.rung.controls, s.rung.context) <= 0
  {
  }

  lemma AnswersTake(page: Page, host: Host, model: Model, s: Step, came: Came)
    requires Answers(page, host, model, s, came)
    ensures TakesItsReplies(host, s, came)
  {
  }

  lemma TurnTakes(page: Page, host: Host, known: Relevance.Kept, model: Model, s: Step, came: Came, next: Step)
    requires Turns(page, host, known, model, s, came, next)
    ensures TakesItsReplies(host, s, came) && next.asked == came.asked
  {
    AnswersTake(page, host, model, s, came);
    AfterAsks(page, host, known, s, came);
  }

  /**
   The requests of a decision are those that fit, the last one included. They take the replies in turn, from the first
   on, and each starts where the one before left off.
   */
  lemma RepliesAreTakenInTurn(
    page: Page, host: Host, known: Relevance.Kept, model: Model, steps: seq<Step>, came: seq<Came>, last: Came,
    verdict: Verdict, i: nat)
    requires Descends(page, host, known, model, steps, came) && i < |steps|
    requires Concludes(page, host, known, model, steps[|steps| - 1], last, verdict)
    ensures TakesItsReplies(host, steps[i], if i < |came| then came[i] else last)
    ensures steps[i].asked == if i == 0 then 0 else came[i - 1].asked
  {
    var turn := TurningOf(page, host, known, model);
    if i < |came| {
      assert turn(steps[i], came[i], steps[i + 1]);
      TurnTakes(page, host, known, model, steps[i], came[i], steps[i + 1]);
    } else {
      AnswersTake(page, host, model, steps[i], last);
    }
    if i > 0 {
      assert turn(steps[i - 1], came[i - 1], steps[i - 1 + 1]);
      TurnTakes(page, host, known, model, steps[i - 1], came[i - 1], steps[i]);
    }
  }

  lemma AnswersOnce(page: Page, host: Host, model: Model, s: Step, a: Came, b: Came)
    requires Answers(page, host, model, s, a) && Answers(page, host, model, s, b)
    ensures a == b
  {
    if RungFits(host, s.rung) {
      ReactsOnce(page, host, s.rung, model, s.asked, a.reaction.value, a.asked, b.reaction.value, b.asked);
    }
  }

  lemma TurnsAreSettled(page: Page, host: Host, known: Relevance.Kept, model: Model)
    ensures Settled(TurningOf(page, host, known, model))
  {
    var turn := TurningOf(page, host, known, model);
    forall s, a, b, t, u | turn(s, a, t) && turn(s, b, u) ensures a == b && t == u {
      AnswersOnce(page, host, model, s, a, b);
    }
  }

  lemma ConcludedIsStuck(
    page: Page, host: Host, known: Relevance.Kept, model: Model, s: Step, last: Came, verdict: Verdict)
    requires Concludes(page, host, known, model, s, last, verdict)
    ensures Stuck(TurningOf(page, host, known, model), s)
  {
    var turn := TurningOf(page, host, known, model);
    forall c, next ensures !turn(s, c, next) {
      if turn(s, c, next) {
        AnswersOnce(page, host, model, s, c, last);
      }
    }
  }

  /** The page, the replies and what was known settle the whole way down, and the verdict. */
  lemma OneVerdict(
    page: Page, host: Host, known: Relevance.Kept, model: Model,
    steps: seq<Step>, came: seq<Came>, last: Came, verdict: Verdict,
    otherSteps: seq<Step>, otherCame: seq<Came>, otherLast: Came, otherVerdict: Verdict)
    requires Descends(page, host, known, model, steps, came)
    requires Concludes(page, host, known, model, steps[|steps| - 1], last, verdict)
    requires Descends(page, host, known, model, otherSteps, otherCame)
    requires Concludes(page, host, known, model, otherSteps[|otherSteps| - 1], otherLast, otherVerdict)
    ensures steps == otherSteps && came == otherCame && last == otherLast && verdict == otherVerdict
  {
    var turn := TurningOf(page, host, known, model);
    TurnsAreSettled(page, host, known, model);
    ConcludedIsStuck(page, host, known, model, steps[|steps| - 1], last, verdict);
    ConcludedIsStuck(page, host, known, model, otherSteps[|otherSteps| - 1], otherLast, otherVerdict);
    PathsEndTogether(turn, steps, came, otherSteps, otherCame);
    AnswersOnce(page, host, model, steps[|steps| - 1], last, otherLast);
  }

  lemma RelevanceIsTransparent(
    page: Page, host: Host, scorer: Relevance.Scorer, known: Relevance.Kept, rung: Rung)
    requires Steady(host, scorer) && Relevance.Honest(known, scorer)
    ensures ByRelevanceOf(page, host, known, rung) == ByRelevanceOf(page, host, NOTHING_KNOWN, rung)
  {
    var o, c := rung.observation, rung.context;
    Relevance.CacheIsTransparent(
      rung.controls, host.write, scorer, host.document(o), host.state(o, c), known, Checks(host, o, c),
      MaxOffered(page));
  }

  lemma NextIsTransparent(page: Page, host: Host, scorer: Relevance.Scorer, known: Relevance.Kept, s: Step)
    requires Steady(host, scorer) && Relevance.Honest(known, scorer)
    ensures NextOf(page, host, known, s) == NextOf(page, host, NOTHING_KNOWN, s)
  {
    RelevanceIsTransparent(page, host, scorer, known, s.rung);
    assert ShortlistStep(page, host, known, s) == ShortlistStep(page, host, NOTHING_KNOWN, s);
  }

  lemma DescentIsTransparent(
    page: Page, host: Host, scorer: Relevance.Scorer, known: Relevance.Kept, model: Model, steps: seq<Step>,
    came: seq<Came>)
    requires Steady(host, scorer) && Relevance.Honest(known, scorer)
    requires Descends(page, host, known, model, steps, came)
    ensures Descends(page, host, NOTHING_KNOWN, model, steps, came)
  {
    RelevanceIsTransparent(
      page, host, scorer, known, Rung(page.observation, page.context, page.observation.controls, Unreduced));
    assert FirstStep(page, host, known) == FirstStep(page, host, NOTHING_KNOWN);
    forall i | 0 <= i < |came|
      ensures TurningOf(page, host, NOTHING_KNOWN, model)(steps[i], came[i], steps[i + 1])
    {
      assert TurningOf(page, host, known, model)(steps[i], came[i], steps[i + 1]);
      NextIsTransparent(page, host, scorer, known, steps[i].(asked := came[i].asked));
    }
  }

  /** Scores kept of earlier decisions change nothing: the way down and the verdict are those of an empty cache. */
  lemma CacheDecidesNothing(
    page: Page, host: Host, scorer: Relevance.Scorer, known: Relevance.Kept, model: Model,
    steps: seq<Step>, came: seq<Came>, last: Came, verdict: Verdict,
    plainSteps: seq<Step>, plainCame: seq<Came>, plainLast: Came, plainVerdict: Verdict)
    requires Steady(host, scorer) && Relevance.Honest(known, scorer)
    requires Descends(page, host, known, model, steps, came)
    requires Concludes(page, host, known, model, steps[|steps| - 1], last, verdict)
    requires Descends(page, host, NOTHING_KNOWN, model, plainSteps, plainCame)
    requires Concludes(page, host, NOTHING_KNOWN, model, plainSteps[|plainSteps| - 1], plainLast, plainVerdict)
    ensures steps == plainSteps && came == plainCame && last == plainLast && verdict == plainVerdict
  {
    DescentIsTransparent(page, host, scorer, known, model, steps, came);
    NextIsTransparent(page, host, scorer, known, steps[|steps| - 1].(asked := last.asked));
    OneVerdict(page, host, NOTHING_KNOWN, model, steps, came, last, verdict,
               plainSteps, plainCame, plainLast, plainVerdict);
  }
}
