/**
 Making room in a step's request: `trim` of crates/fastbrowse-agent/src/policy.rs. How far a request runs over its limit
 is the argument `excess`, whatever it is.
 */
module Trim {
  import opened Common
  import opened Controls
  import opened Cutting

  /** A request's size less its limit, however both are measured. */
  type Excess = (Observation, seq<Control>, Context) -> int

  predicate Fits(excess: Excess, o: Observation, controls: seq<Control>, c: Context) {
    excess(o, controls, c) <= 0
  }

  // ---------------------------------------------------------------------------------------------------------------
  // An order by kind
  // ---------------------------------------------------------------------------------------------------------------

  /** The numbers below `n`, those that `last` accepts after those it does not, each kind in order. */
  function Sorted(n: nat, last: nat -> bool): seq<nat> {
    Filter(Numbers(n), Not(last)) + Filter(Numbers(n), last)
  }

  function Not(last: nat -> bool): nat -> bool {
    (i: nat) => !last(i)
  }

  /** `a` comes before `b` in the order. */
  predicate Precedes(last: nat -> bool, a: nat, b: nat) {
    (!last(a) && last(b)) || (last(a) == last(b) && a < b)
  }

  ghost predicate Rising(xs: seq<nat>) {
    forall i, j :: 0 <= i < j < |xs| ==> xs[i] < xs[j]
  }

  lemma {:induction false} FilterRising(xs: seq<nat>, keep: nat -> bool)
    requires Rising(xs)
    ensures Rising(Filter(xs, keep))
  {
    if xs != [] {
      FilterRising(xs[1..], keep);
      var rest := Filter(xs[1..], keep);
      forall i | 0 <= i < |rest| ensures xs[0] < rest[i] {
        assert rest[i] in rest && rest[i] in xs[1..];
      }
    }
  }

  lemma JoinOrder(first: seq<nat>, second: seq<nat>, last: nat -> bool)
    requires Rising(first) && Rising(second)
    requires (forall i :: i in first ==> !last(i)) && (forall i :: i in second ==> last(i))
    ensures InOrder(first + second, last)
  {
  }

  ghost predicate InOrder(order: seq<nat>, last: nat -> bool) {
    forall p, q :: 0 <= p < q < |order| ==> Precedes(last, order[p], order[q])
  }

  lemma InSorted(n: nat, last: nat -> bool, i: nat)
    ensures i in Sorted(n, last) <==> i < n
  {
    InNumbers(n, i);
  }

  lemma SortedIsOrder(n: nat, last: nat -> bool)
    ensures |Sorted(n, last)| == n && InOrder(Sorted(n, last), last)
  {
    FilterSplits(Numbers(n), last, Not(last));
    FilterRising(Numbers(n), Not(last));
    FilterRising(Numbers(n), last);
    JoinOrder(Filter(Numbers(n), Not(last)), Filter(Numbers(n), last), last);
  }

  /** The first `count` in the order. */
  function Front(n: nat, last: nat -> bool, count: nat): set<nat> {
    var order := Sorted(n, last);
    var front := if count <= |order| then order[..count] else order;
    set i | i in front
  }

  lemma FrontSize(n: nat, last: nat -> bool, count: nat)
    requires count <= n
    ensures |Front(n, last, count)| == count
    ensures forall i :: i in Front(n, last, count) ==> i < n
  {
    SortedIsOrder(n, last);
    var order := Sorted(n, last);
    var front := order[..count];
    forall i | i in front ensures i < n {
      InSorted(n, last, i);
    }
    forall p, q | 0 <= p < q < count ensures front[p] != front[q] {
      assert Precedes(last, order[p], order[q]);
    }
    DistinctSize(front);
    assert Front(n, last, count) == Members(front);
  }

  /** What is in front comes first: before any of the last kind the others, and of one kind the lower numbers. */
  lemma FrontPrecedes(n: nat, last: nat -> bool, count: nat, i: nat, j: nat)
    requires count <= n && i in Front(n, last, count) && j < n && j !in Front(n, last, count)
    ensures i < n && Precedes(last, i, j)
  {
    SortedIsOrder(n, last);
    InSorted(n, last, i);
    InSorted(n, last, j);
    var order := Sorted(n, last);
    var p :| 0 <= p < count && order[..count][p] == i;
    var q :| 0 <= q < n && order[q] == j;
    assert forall k :: 0 <= k < count ==> order[k] in order[..count];
    assert Precedes(last, order[p], order[q]);
  }

  // ---------------------------------------------------------------------------------------------------------------
  // Dropping actions
  // ---------------------------------------------------------------------------------------------------------------

  /** The entries that are dropped after all others: those with a text, and those that set something. */
  function Valued(history: seq<Entry>): nat -> bool {
    (i: nat) => i < |history| && (history[i].text.Some? || history[i].setting == Some(true))
  }

  function Gone(history: seq<Entry>, dropped: nat): set<nat> {
    Front(|history|, Valued(history), dropped)
  }

  function Rest(n: nat, gone: set<nat>): set<nat> {
    set i | 0 <= i < n && i !in gone
  }

  function Remaining(history: seq<Entry>, dropped: nat): seq<Entry> {
    Keep(history, Rest(|history|, Gone(history, dropped)))
  }

  /** `c` with all of `history` but what is dropped. */
  function Without(c: Context, history: seq<Entry>, dropped: nat): Context {
    c.(history := Remaining(history, dropped), omittedActions := c.omittedActions + dropped)
  }

  lemma RestSize(n: nat, gone: set<nat>)
    requires forall i :: i in gone ==> i < n
    ensures |Rest(n, gone)| + |gone| == n
  {
    var all := Members(Numbers(n));
    NumbersSize(n);
    forall i: nat ensures i in all <==> i < n {
      InNumbers(n, i);
    }
    assert Rest(n, gone) == all - gone && gone <= all;
  }

  /** Every action is kept, in its order, or counted. */
  lemma DroppingKeepsCount(history: seq<Entry>, dropped: nat)
    requires dropped <= |history|
    ensures |Remaining(history, dropped)| + dropped == |history| && Subseq(Remaining(history, dropped), history)
  {
    FrontSize(|history|, Valued(history), dropped);
    var kept := Rest(|history|, Gone(history, dropped));
    RestSize(|history|, Gone(history, dropped));
    KeepCount(history, 0, kept);
    KeepIsSubseq(history, 0, kept);
  }

  /**
   While an action without a value is kept no typed or set value is dropped, and of two of a kind the older goes first.
   */
  lemma DroppingGoesByAge(history: seq<Entry>, dropped: nat, i: nat, j: nat)
    requires dropped <= |history| && i in Gone(history, dropped) && j < |history| && j !in Gone(history, dropped)
    ensures i < |history| && Precedes(Valued(history), i, j) && history[j] in Remaining(history, dropped)
  {
    FrontPrecedes(|history|, Valued(history), dropped, i, j);
    KeepMember(history, 0, Rest(|history|, Gone(history, dropped)), j);
  }

  /** An action that typed something, or chose an option or ticked a box. */
  predicate SetSomething(entry: Entry) {
    entry.text.Some? || entry.setting == Some(true)
  }

  /** An action is dropped before any that set something, unless it did itself, and before later ones of its kind. */
  lemma DroppedGoFirst(history: seq<Entry>, dropped: nat, i: nat, j: nat)
    requires dropped <= |history| && i in Gone(history, dropped) && j < |history| && j !in Gone(history, dropped)
    ensures i < |history|
    ensures SetSomething(history[i]) ==> SetSomething(history[j])
    ensures SetSomething(history[i]) == SetSomething(history[j]) ==> i < j
  {
    DroppingGoesByAge(history, dropped, i, j);
  }

  function DroppingFits(
    excess: Excess, o: Observation, controls: seq<Control>, c: Context, history: seq<Entry>): nat -> bool
  {
    (dropped: nat) => Fits(excess, o, controls, Without(c, history, dropped))
  }

  /** Where the search over how many entries to drop ends. */
  function Fewest(
    excess: Excess, o: Observation, controls: seq<Control>, c: Context, history: seq<Entry>): (dropped: nat)
    ensures dropped <= |history|
    ensures dropped < |history| ==> Fits(excess, o, controls, Without(c, history, dropped))
    ensures dropped > 0 ==> !Fits(excess, o, controls, Without(c, history, dropped - 1))
  {
    FirstAccepted(DroppingFits(excess, o, controls, c, history), 0, |history|)
  }

  /** When dropping more never makes a request larger, no smaller number would have fitted. */
  lemma FewestIsFewest(
    excess: Excess, o: Observation, controls: seq<Control>, c: Context, history: seq<Entry>, fewer: nat)
    requires fewer < Fewest(excess, o, controls, c, history)
    requires forall d: nat :: d < |history| ==>
               excess(o, controls, Without(c, history, d + 1)) <= excess(o, controls, Without(c, history, d))
    ensures !Fits(excess, o, controls, Without(c, history, fewer))
  {
    ExcessFalls(excess, o, controls, c, history, fewer, Fewest(excess, o, controls, c, history) - 1);
  }

  lemma {:induction false} ExcessFalls(
    excess: Excess, o: Observation, controls: seq<Control>, c: Context, history: seq<Entry>, a: nat, b: nat)
    requires a <= b <= |history|
    requires forall d: nat :: d < |history| ==>
               excess(o, controls, Without(c, history, d + 1)) <= excess(o, controls, Without(c, history, d))
    ensures excess(o, controls, Without(c, history, b)) <= excess(o, controls, Without(c, history, a))
    decreases b
  {
    if a < b {
      ExcessFalls(excess, o, controls, c, history, a, b - 1);
      assert excess(o, controls, Without(c, history, b - 1 + 1)) <= excess(o, controls, Without(c, history, b - 1));
    }
  }

  // ---------------------------------------------------------------------------------------------------------------
  // Cutting texts
  // ---------------------------------------------------------------------------------------------------------------

  const FACT := Marker("\n[Page fact cut: ", " characters omitted to fit Jev's input limit]")
  const NOTES := Marker("\n[Notes cut: ", " characters omitted to fit the request]")
  const PAGE := Marker("\n[Viewport text cut: ", " characters omitted; read the page for the rest]")

  /** `text` cut by what the request runs over. */
  function Shortened(text: string, over: int, m: Marker): string {
    var room := Text.Size(text, true) - over;
    if over <= 0 then text else CutTo(text, if room < 0 then 0 else room, true, m)
  }

  /** The page facts up to number `n` cut from the last, for as long as the request runs over. */
  function FactsCut(excess: Excess, o: Observation, controls: seq<Control>, c: Context, n: nat): Context
    requires n <= |c.pageFacts|
    decreases n
  {
    if n == 0 || Fits(excess, o, controls, c) then c
    else
      var shorter := Shortened(c.pageFacts[n - 1], excess(o, controls, c), FACT);
      FactsCut(excess, o, controls, c.(pageFacts := c.pageFacts[n - 1 := shorter]), n - 1)
  }

  function OffscreenCut(excess: Excess, o: Observation, controls: seq<Control>, c: Context): Observation {
    o.(offscreenText := Shortened(o.offscreenText, excess(o, controls, c), PAGE))
  }

  function ViewportCut(excess: Excess, o: Observation, controls: seq<Control>, c: Context): Observation {
    o.(viewportText := Shortened(o.viewportText, excess(o, controls, c), PAGE))
  }

  function NotesCut(excess: Excess, o: Observation, controls: seq<Control>, c: Context): Context {
    c.(notes := Shortened(c.notes, excess(o, controls, c), NOTES))
  }

  /** The recovery memory, the page's text and the notes cut in turn. */
  function TextsCut(excess: Excess, o: Observation, controls: seq<Control>, c: Context): (Observation, Context) {
    var facts := FactsCut(excess, o, controls, c, |c.pageFacts|);
    var page := ViewportCut(excess, OffscreenCut(excess, o, controls, facts), controls, facts);
    (page, NotesCut(excess, page, controls, facts))
  }

  /** Nothing after the point where the request fits is cut. */
  lemma NothingCutOnceItFits(excess: Excess, o: Observation, controls: seq<Control>, c: Context)
    ensures var (page, context) := TextsCut(excess, o, controls, c);
            var facts := FactsCut(excess, o, controls, c, |c.pageFacts|);
            && (Fits(excess, o, controls, c) ==> page == o && context == c)
            && (Fits(excess, o, controls, facts) ==> page == o && context == facts)
            && (page.viewportText != o.viewportText ==>
                  !Fits(excess, page.(viewportText := o.viewportText), controls, facts))
            && (context.notes != c.notes ==> !Fits(excess, page, controls, facts))
  {
    FactsCutKeeps(excess, o, controls, c, |c.pageFacts|);
  }

  /** Cutting page facts leaves their number and everything else of the context. */
  lemma {:induction false} FactsCutKeeps(excess: Excess, o: Observation, controls: seq<Control>, c: Context, n: nat)
    requires n <= |c.pageFacts|
    ensures var cut := FactsCut(excess, o, controls, c, n);
            cut == c.(pageFacts := cut.pageFacts) && |cut.pageFacts| == |c.pageFacts|
    decreases n
  {
    if n > 0 && !Fits(excess, o, controls, c) {
      var shorter := Shortened(c.pageFacts[n - 1], excess(o, controls, c), FACT);
      FactsCutKeeps(excess, o, controls, c.(pageFacts := c.pageFacts[n - 1 := shorter]), n - 1);
    }
  }

  /** A text is left when the request does not run over, and else cut to what it may still take of it. */
  lemma ShortenedIs(text: string, over: int, m: Marker)
    ensures over <= 0 ==> Shortened(text, over, m) == text
    ensures over > 0 && over <= Text.Size(text, true) ==>
              Shortened(text, over, m) == CutTo(text, Text.Size(text, true) - over, true, m)
              && Text.Size(Shortened(text, over, m), true) <= Text.Size(text, true) - over
    ensures over > Text.Size(text, true) && text != "" ==> Shortened(text, over, m) == ""
  {
    if over > Text.Size(text, true) && text != "" {
      assert Text.Size(Shortened(text, over, m), true) == 0;
    }
  }

  /** The page facts with those from number `from` on as they are in `cut`. */
  function CutFrom(c: Context, cut: seq<string>, from: nat): Context
    requires from <= |c.pageFacts| == |cut|
  {
    c.(pageFacts := c.pageFacts[..from] + cut[from..])
  }

  lemma SameBefore(c: Context, k: nat, fact: string, cut: seq<string>, i: nat)
    requires i <= k < |c.pageFacts| == |cut|
    ensures CutFrom(c.(pageFacts := c.pageFacts[k := fact]), cut, i) == CutFrom(c, cut, i)
  {
    assert c.pageFacts[k := fact][..i] == c.pageFacts[..i];
  }

  lemma NothingCutFrom(c: Context, cut: seq<string>, n: nat)
    requires n <= |c.pageFacts| == |cut| && cut[n..] == c.pageFacts[n..]
    ensures CutFrom(c, cut, n) == c
  {
    assert c.pageFacts[..n] + c.pageFacts[n..] == c.pageFacts;
  }

  /**
   The facts from `from` on are cut as the loop cuts them, and those before it are left, since the request fits by then.
   */
  ghost predicate CutAsWritten(
    excess: Excess, o: Observation, controls: seq<Control>, c: Context, n: nat, cut: seq<string>, from: nat)
  {
    && from <= n <= |c.pageFacts| == |cut| && cut[n..] == c.pageFacts[n..] && cut[..from] == c.pageFacts[..from]
    && (from > 0 ==> Fits(excess, o, controls, CutFrom(c, cut, from)))
    && forall i :: from <= i < n ==> CutByTheExcess(excess, o, controls, c, cut, i)
  }

  /** Fact number `i` is cut by what the request runs over when those after it are cut and it is not. */
  predicate CutByTheExcess(
    excess: Excess, o: Observation, controls: seq<Control>, c: Context, cut: seq<string>, i: nat)
  {
    && i < |c.pageFacts| == |cut|
    && !Fits(excess, o, controls, CutFrom(c, cut, i + 1))
    && cut[i] == Shortened(c.pageFacts[i], excess(o, controls, CutFrom(c, cut, i + 1)), FACT)
  }

  lemma CutStepsBack(
    excess: Excess, o: Observation, controls: seq<Control>, c: Context, n: nat, cut: seq<string>, from: nat)
    requires 0 < n <= |c.pageFacts| && !Fits(excess, o, controls, c)
    requires var shorter := Shortened(c.pageFacts[n - 1], excess(o, controls, c), FACT);
             CutAsWritten(excess, o, controls, c.(pageFacts := c.pageFacts[n - 1 := shorter]), n - 1, cut, from)
    ensures CutAsWritten(excess, o, controls, c, n, cut, from)
  {
    var shorter := Shortened(c.pageFacts[n - 1], excess(o, controls, c), FACT);
    var next := c.(pageFacts := c.pageFacts[n - 1 := shorter]);
    assert cut[n - 1] == cut[n - 1..][0] == next.pageFacts[n - 1..][0] == shorter;
    assert cut[n..] == cut[n - 1..][1..] == next.pageFacts[n - 1..][1..] == c.pageFacts[n..];
    assert next.pageFacts[..from] == c.pageFacts[..from];
    NothingCutFrom(c, cut, n);
    SameBefore(c, n - 1, shorter, cut, from);
    forall i | from <= i < n - 1 ensures CutByTheExcess(excess, o, controls, c, cut, i) {
      assert CutByTheExcess(excess, o, controls, next, cut, i);
      SameBefore(c, n - 1, shorter, cut, i + 1);
    }
  }

  lemma {:induction false} FactsAreCutFromTheLast(
    excess: Excess, o: Observation, controls: seq<Control>, c: Context, n: nat)
    requires n <= |c.pageFacts|
    ensures var cut := FactsCut(excess, o, controls, c, n);
            cut == c.(pageFacts := cut.pageFacts)
            && exists from :: CutAsWritten(excess, o, controls, c, n, cut.pageFacts, from)
    decreases n
  {
    FactsCutKeeps(excess, o, controls, c, n);
    var cut := FactsCut(excess, o, controls, c, n).pageFacts;
    if n == 0 || Fits(excess, o, controls, c) {
      NothingCutFrom(c, cut, n);
      assert CutAsWritten(excess, o, controls, c, n, cut, n);
    } else {
      var shorter := Shortened(c.pageFacts[n - 1], excess(o, controls, c), FACT);
      var next := c.(pageFacts := c.pageFacts[n - 1 := shorter]);
      FactsAreCutFromTheLast(excess, o, controls, next, n - 1);
      var from :| CutAsWritten(excess, o, controls, next, n - 1, cut, from);
      CutStepsBack(excess, o, controls, c, n, cut, from);
    }
  }

  /**
   After the facts, the off-screen text, the text on screen and the notes are each cut by what is then still too much.
   */
  lemma TextsAreCutInTurn(excess: Excess, o: Observation, controls: seq<Control>, c: Context)
    ensures var facts := FactsCut(excess, o, controls, c, |c.pageFacts|);
            var (page, context) := TextsCut(excess, o, controls, c);
            var before := page.(viewportText := o.viewportText);
            && before == o.(offscreenText := page.offscreenText) && context == facts.(notes := context.notes)
            && page.offscreenText == Shortened(o.offscreenText, excess(o, controls, facts), PAGE)
            && page.viewportText == Shortened(o.viewportText, excess(before, controls, facts), PAGE)
            && context.notes == Shortened(c.notes, excess(page, controls, facts), NOTES)
  {
    FactsCutKeeps(excess, o, controls, c, |c.pageFacts|);
    var facts := FactsCut(excess, o, controls, c, |c.pageFacts|);
    var (page, context) := TextsCut(excess, o, controls, c);
    assert page.(viewportText := o.viewportText) == OffscreenCut(excess, o, controls, facts);
  }

  method Shorten(text: string, over: int, m: Marker) returns (shorter: string)
    ensures shorter == Shortened(text, over, m)
  {
    if over <= 0 {
      return text;
    }
    var room := Text.Size(text, true) - over;
    shorter := CutWith(text, if room < 0 then 0 else room, true, m);
  }

  /** One fact cut when the request runs over, and whether there is more to do. */
  method CutFact(excess: Excess, o: Observation, controls: seq<Control>, c: Context, n: nat)
    returns (cut: Context, over: bool)
    requires 0 < n <= |c.pageFacts|
    ensures over <==> !Fits(excess, o, controls, c)
    ensures if over then |cut.pageFacts| == |c.pageFacts| &&
                         FactsCut(excess, o, controls, c, n) == FactsCut(excess, o, controls, cut, n - 1)
            else cut == c == FactsCut(excess, o, controls, c, n)
  {
    cut, over := c, !Fits(excess, o, controls, c);
    if over {
      var shorter := Shorten(c.pageFacts[n - 1], excess(o, controls, c), FACT);
      cut := c.(pageFacts := c.pageFacts[n - 1 := shorter]);
    }
  }

  method CutFacts(excess: Excess, o: Observation, controls: seq<Control>, c: Context) returns (cut: Context)
    ensures cut == FactsCut(excess, o, controls, c, |c.pageFacts|)
  {
    cut := c;
    var n: nat, over := |c.pageFacts|, true;
    while n > 0 && over
      invariant n <= |cut.pageFacts|
      invariant if over then FactsCut(excess, o, controls, cut, n) == FactsCut(excess, o, controls, c, |c.pageFacts|)
                else cut == FactsCut(excess, o, controls, c, |c.pageFacts|)
      decreases n, over
    {
      cut, over := CutFact(excess, o, controls, cut, n);
      if over {
        n := n - 1;
      }
    }
  }

  method CutTexts(excess: Excess, o: Observation, controls: seq<Control>, c: Context)
    returns (page: Observation, context: Context)
    ensures (page, context) == TextsCut(excess, o, controls, c)
  {
    page := o;
    context := CutFacts(excess, o, controls, c);
    var offscreen := Shorten(page.offscreenText, excess(page, controls, context), PAGE);
    page := page.(offscreenText := offscreen);
    var viewport := Shorten(page.viewportText, excess(page, controls, context), PAGE);
    page := page.(viewportText := viewport);
    var notes := Shorten(context.notes, excess(page, controls, context), NOTES);
    context := context.(notes := notes);
  }

  // ---------------------------------------------------------------------------------------------------------------
  // Trimming
  // ---------------------------------------------------------------------------------------------------------------

  /** The texts before any entry is dropped: left alone when dropping every entry would be enough. */
  function TextsFor(excess: Excess, o: Observation, controls: seq<Control>, c: Context): (Observation, Context) {
    if Fits(excess, o, controls, Without(c, c.history, |c.history|)) then (o, c) else TextsCut(excess, o, controls, c)
  }

  /** Something was cut or dropped, and what is left fits. */
  predicate Trims(
    excess: Excess, o: Observation, controls: seq<Control>, c: Context, page: Observation, context: Context)
  {
    && (page.viewportText != o.viewportText || page.offscreenText != o.offscreenText || context.notes != c.notes
        || context.pageFacts != c.pageFacts || |context.history| < |c.history|)
    && Fits(excess, page, controls, context)
  }

  function TrimOf(excess: Excess, o: Observation, controls: seq<Control>, c: Context): Option<(Observation, Context)> {
    var (page, texts) := TextsFor(excess, o, controls, c);
    var context := Without(texts, c.history, Fewest(excess, page, controls, texts, c.history));
    if Trims(excess, o, controls, c, page, context) then Some((page, context)) else None
  }

  /** The trim as written. */
  method Trim(excess: Excess, o: Observation, controls: seq<Control>, c: Context)
    returns (trimmed: Option<(Observation, Context)>)
    ensures trimmed == TrimOf(excess, o, controls, c)
  {
    var page, texts := o, c;
    if !Fits(excess, o, controls, Without(c, c.history, |c.history|)) {
      page, texts := CutTexts(excess, o, controls, c);
    }
    var fewest := SearchFirst(DroppingFits(excess, page, controls, texts, c.history), 0, |c.history|);
    var context := Without(texts, c.history, fewest);
    var cut :=
      || context.pageFacts != c.pageFacts || |context.history| < |c.history| || context.notes != c.notes
      || page.viewportText != o.viewportText || page.offscreenText != o.offscreenText;
    trimmed := if cut && Fits(excess, page, controls, context) then Some((page, context)) else None;
  }

  /** The same page and the same task, with texts that may be shorter. */
  predicate SamePage(o: Observation, c: Context, page: Observation, context: Context) {
    && page == o.(viewportText := page.viewportText, offscreenText := page.offscreenText)
    && context == c.(history := context.history, omittedActions := context.omittedActions, notes := context.notes,
                     pageFacts := context.pageFacts)
  }

  /** Every earlier action is still in the history, in its order, or counted as left out. */
  ghost predicate HistoryKept(c: Context, context: Context) {
    && Subseq(context.history, c.history)
    && |context.history| + context.omittedActions == |c.history| + c.omittedActions
  }

  /** What a trim leaves is the same page with every action kept or counted, fits, and is not all there was. */
  lemma TrimmedKeepsThePage(excess: Excess, o: Observation, controls: seq<Control>, c: Context)
    ensures var trimmed := TrimOf(excess, o, controls, c);
            trimmed.Some? ==>
              && SamePage(o, c, trimmed.value.0, trimmed.value.1) && HistoryKept(c, trimmed.value.1)
              && excess(trimmed.value.0, controls, trimmed.value.1) <= 0 && trimmed.value != (o, c)
  {
    var (page, texts) := TextsFor(excess, o, controls, c);
    FactsCutKeeps(excess, o, controls, c, |c.pageFacts|);
    DroppingKeepsCount(c.history, Fewest(excess, page, controls, texts, c.history));
  }

  /** Where dropping actions is enough no text is cut, and there is a result unless nothing need be dropped. */
  lemma DroppingComesFirst(excess: Excess, o: Observation, controls: seq<Control>, c: Context)
    requires excess(o, controls, Without(c, c.history, |c.history|)) <= 0
    ensures var trimmed := TrimOf(excess, o, controls, c);
            if trimmed.Some? then trimmed.value.0 == o && trimmed.value.1.notes == c.notes
                                  && trimmed.value.1.pageFacts == c.pageFacts
            else excess(o, controls, Without(c, c.history, 0)) <= 0
  {
    assert TextsFor(excess, o, controls, c) == (o, c);
    var n := Fewest(excess, o, controls, c, c.history);
    assert c == Without(c, c.history, n).(history := c.history, omittedActions := c.omittedActions);
    DroppingKeepsCount(c.history, n);
  }

  /**
   Where dropping actions is not enough, a trim fails only when cutting the texts and dropping every action is not.
   */
  lemma TrimFailsOnlyWhen(excess: Excess, o: Observation, controls: seq<Control>, c: Context)
    requires excess(o, controls, Without(c, c.history, |c.history|)) > 0
    requires TrimOf(excess, o, controls, c).None?
    ensures var (page, texts) := TextsCut(excess, o, controls, c);
            excess(page, controls, Without(texts, c.history, |c.history|)) > 0
  {
    var (page, texts) := TextsCut(excess, o, controls, c);
    FactsCutKeeps(excess, o, controls, c, |c.pageFacts|);
    DroppingKeepsCount(c.history, Fewest(excess, page, controls, texts, c.history));
  }
}
