/**
 The notes as a prompt shows them: `render` of crates/fastbrowse-agent/src/memory.rs, which drops facts until the text
 fits a budget.
 */
module Render {
  import opened Common
  import opened Text
  import opened Notes

  // ---------------------------------------------------------------------------------------------------------------
  // Lines and groups
  // ---------------------------------------------------------------------------------------------------------------

  function Url(s: Store, key: Id): Option<string>
    requires key in s.facts
  {
    match s.facts[key].evidence
    case Some(e) => Some(e.url)
    case None => None
  }

  function Source(host: Host, fact: Fact, shared: bool): string {
    match fact.evidence
    case None => "derived"
    case Some(e) =>
      (if shared then "" else "url=" + host.quoted(e.url, true) + " ") + "quote=" + host.quoted(e.quote, false)
      + (match e.control case Some(control) => " control_context=" + control.dump case None => "")
  }

  function Line(host: Host, s: Store, key: Id, shared: bool): (line: string)
    requires key in s.facts
    ensures |line| >= |key| + 3
  {
    var fact := s.facts[key];
    var plain := fact.evidence.Some? && fact.text == fact.evidence.value.quote;
    "[" + key + "] "
    + ((if plain then "" else host.quoted(fact.text, false) + " ")
       + (if key in s.answering then "answers=true " else "")
       + Source(host, fact, shared)
       + (if fact.basis == [] then "" else " basis=" + host.dumpIds(fact.basis)))
  }

  /** A fact as it can be listed: with its address inline, or as an item under a heading that carries the address. */
  datatype Row = Row(url: Option<string>, inline: string, item: string, heading: string)

  function RowOf(host: Host, s: Store, key: Id): (row: Row)
    requires key in s.facts
    ensures |row.item| >= |key| + 3 && |row.inline| >= |key| + 3
  {
    var url := Url(s, key);
    Row(
      url,
      Line(host, s, key, false),
      Line(host, s, key, true),
      "# Source URL: " + if url.Some? then host.quoted(url.value, true) else "")
  }

  function RowsOf(host: Host, s: Store, entries: seq<Id>): (rows: seq<Row>)
    requires forall i :: 0 <= i < |entries| ==> entries[i] in s.facts
    ensures |rows| == |entries|
  {
    if entries == [] then [] else [RowOf(host, s, entries[0])] + RowsOf(host, s, entries[1..])
  }

  lemma {:induction false} RowsAt(host: Host, s: Store, entries: seq<Id>, i: nat)
    requires forall i :: 0 <= i < |entries| ==> entries[i] in s.facts
    requires i < |entries|
    ensures RowsOf(host, s, entries)[i] == RowOf(host, s, entries[i])
  {
    if i > 0 {
      RowsAt(host, s, entries[1..], i - 1);
    }
  }

  // ---------------------------------------------------------------------------------------------------------------
  // Layout
  // ---------------------------------------------------------------------------------------------------------------

  function Inline(group: seq<Row>): string {
    if group == [] then ""
    else if |group| == 1 then group[0].inline
    else group[0].inline + "\n" + Inline(group[1..])
  }

  function Items(group: seq<Row>): string {
    if group == [] then "" else "\n- " + group[0].item + Items(group[1..])
  }

  function Shared(group: seq<Row>): string
    requires group != []
  {
    group[0].heading + Items(group)
  }

  /** A group is listed under its address when that is shorter. */
  predicate UseShared(group: seq<Row>, json: bool)
    requires group != []
  {
    group[0].url.Some? && Size(Shared(group), json) < Size(Inline(group), json)
  }

  const OTHER := "# Other evidence\n"

  function Block(group: seq<Row>, afterShared: bool, json: bool): string
    requires group != []
  {
    if UseShared(group, json) then Shared(group)
    else if afterShared then OTHER + Inline(group)
    else Inline(group)
  }

  /** A group with an address takes the shorter of its two forms, and its own lines when they are as short. */
  lemma BlockIsTheShorter(group: seq<Row>, json: bool)
    requires group != []
    ensures group[0].url.Some? ==>
              Size(Block(group, false, json), json)
              == if Size(Inline(group), json) <= Size(Shared(group), json) then Size(Inline(group), json)
                 else Size(Shared(group), json)
    ensures group[0].url.None? || Size(Inline(group), json) == Size(Shared(group), json) ==>
              Block(group, false, json) == Inline(group)
  {
  }

  /** How many rows in front are from one address. */
  function GroupLen(rows: seq<Row>): (n: nat)
    requires rows != []
    ensures 1 <= n <= |rows|
    ensures forall i :: 0 <= i < n ==> rows[i].url == rows[0].url
    ensures n < |rows| ==> rows[n].url != rows[0].url
  {
    if |rows| == 1 || rows[1].url != rows[0].url then 1 else 1 + GroupLen(rows[1..])
  }

  function Pieces(rows: seq<Row>, afterShared: bool, json: bool): seq<string>
    decreases |rows|
  {
    if rows == [] then []
    else
      var n := GroupLen(rows);
      [Block(rows[..n], afterShared, json)] + Pieces(rows[n..], UseShared(rows[..n], json), json)
  }

  function Join(pieces: seq<string>): string {
    if pieces == [] then ""
    else if |pieces| == 1 then pieces[0]
    else pieces[0] + "\n" + Join(pieces[1..])
  }

  function Layout(rows: seq<Row>, json: bool): string {
    Join(Pieces(rows, false, json))
  }

  function Marker(omitted: nat): string {
    "[" + Decimal(omitted) + " facts omitted]"
  }

  /** The first `count` rows and how many are left out. */
  function Cut(rows: seq<Row>, count: nat, json: bool): string
    requires count <= |rows|
  {
    if Layout(rows[..count], json) == "" then Marker(|rows| - count)
    else Layout(rows[..count], json) + "\n" + Marker(|rows| - count)
  }

  // ---------------------------------------------------------------------------------------------------------------
  // A longer cut is a larger one
  // ---------------------------------------------------------------------------------------------------------------

  function LineBreak(json: bool): nat {
    if json then 2 else 1
  }

  lemma FixedSizes(json: bool)
    ensures Size("\n", json) == LineBreak(json)
    ensures Size("\n- ", json) == LineBreak(json) + 2
  {
    assert "\n- " == "\n" + "- ";
    SizeAppend("\n", "- ", json);
    SizePlain("- ", json);
  }

  lemma OtherSize(json: bool)
    ensures Size(OTHER, json) == LineBreak(json) + 16
  {
    var heading := "# Other evidence";
    assert OTHER == heading + "\n";
    SizeAppend(heading, "\n", json);
    SizePlain(heading, json);
    FixedSizes(json);
  }

  lemma SizeAppend3(a: string, b: string, c: string, json: bool)
    ensures Size(a + b + c, json) == Size(a, json) + Size(b, json) + Size(c, json)
  {
    SizeAppend(a + b, c, json);
    SizeAppend(a, b, json);
  }

  lemma {:induction false} InlineAppend(group: seq<Row>, e: Row, json: bool)
    requires group != []
    ensures Size(Inline(group + [e]), json) == Size(Inline(group), json) + LineBreak(json) + Size(e.inline, json)
  {
    var longer := group + [e];
    assert longer[1..] == group[1..] + [e];
    FixedSizes(json);
    SizeAppend3(group[0].inline, "\n", Inline(longer[1..]), json);
    if |group| > 1 {
      InlineAppend(group[1..], e, json);
      SizeAppend3(group[0].inline, "\n", Inline(group[1..]), json);
    }
  }

  lemma {:induction false} ItemsAppend(group: seq<Row>, e: Row, json: bool)
    ensures Size(Items(group + [e]), json) == Size(Items(group), json) + LineBreak(json) + 2 + Size(e.item, json)
  {
    var longer := group + [e];
    FixedSizes(json);
    SizeAppend3("\n- ", longer[0].item, Items(longer[1..]), json);
    if group != [] {
      assert longer[1..] == group[1..] + [e];
      ItemsAppend(group[1..], e, json);
      SizeAppend3("\n- ", group[0].item, Items(group[1..]), json);
    }
  }

  lemma SharedAppend(group: seq<Row>, e: Row, json: bool)
    requires group != []
    ensures Size(Shared(group + [e]), json) == Size(Shared(group), json) + LineBreak(json) + 2 + Size(e.item, json)
  {
    ItemsAppend(group, e, json);
    SizeAppend(group[0].heading, Items(group), json);
    SizeAppend(group[0].heading, Items(group + [e]), json);
  }

  /** The sizes of a block and of a layout, from the sizes of their parts. */
  function BlockLen(group: seq<Row>, afterShared: bool, json: bool): nat
    requires group != []
  {
    if UseShared(group, json) then Size(Shared(group), json)
    else (if afterShared then LineBreak(json) + 16 else 0) + Size(Inline(group), json)
  }

  function LayoutLen(rows: seq<Row>, afterShared: bool, json: bool): nat
    decreases |rows|
  {
    if rows == [] then 0
    else
      var n := GroupLen(rows);
      BlockLen(rows[..n], afterShared, json)
      + if n == |rows| then 0 else LineBreak(json) + LayoutLen(rows[n..], UseShared(rows[..n], json), json)
  }

  lemma BlockSize(group: seq<Row>, afterShared: bool, json: bool)
    requires group != []
    ensures Size(Block(group, afterShared, json), json) == BlockLen(group, afterShared, json)
  {
    OtherSize(json);
    SizeAppend(OTHER, Inline(group), json);
  }

  lemma {:induction false} LayoutSize(rows: seq<Row>, afterShared: bool, json: bool)
    ensures Size(Join(Pieces(rows, afterShared, json)), json) == LayoutLen(rows, afterShared, json)
    decreases |rows|
  {
    if rows != [] {
      var n := GroupLen(rows);
      var block, rest := Block(rows[..n], afterShared, json), Pieces(rows[n..], UseShared(rows[..n], json), json);
      BlockSize(rows[..n], afterShared, json);
      LayoutSize(rows[n..], UseShared(rows[..n], json), json);
      JoinSize(block, rest, json);
    }
  }

  lemma JoinSize(block: string, rest: seq<string>, json: bool)
    ensures Size(Join([block] + rest), json)
         == Size(block, json) + if rest == [] then 0 else LineBreak(json) + Size(Join(rest), json)
  {
    FixedSizes(json);
    assert ([block] + rest)[1..] == rest;
    SizeAppend3(block, "\n", Join(rest), json);
  }

  /**
   One more row of the same address makes a group's block larger, whichever form it had and takes. A group that gives
   up "# Other evidence" by turning to its shared form makes up for it: that form was not shorter before the new item.
   */
  lemma BlockGrows(group: seq<Row>, e: Row, afterShared: bool, json: bool)
    requires group != [] && |e.item| >= 16 && |e.inline| >= 16
    ensures BlockLen(group + [e], afterShared, json) >= BlockLen(group, afterShared, json) + 2
  {
    InlineAppend(group, e, json);
    SharedAppend(group, e, json);
  }

  lemma {:induction false} GroupLenAppend(rows: seq<Row>, e: Row)
    requires rows != []
    ensures var n := GroupLen(rows);
            GroupLen(rows + [e]) == if n == |rows| && e.url == rows[0].url then n + 1 else n
  {
    var longer := rows + [e];
    if |rows| > 1 && rows[1].url == rows[0].url {
      assert longer[1..] == rows[1..] + [e];
      GroupLenAppend(rows[1..], e);
    }
  }

  lemma BlockAlone(e: Row, afterShared: bool, json: bool)
    requires |e.item| >= 16 && |e.inline| >= 16
    ensures BlockLen([e], afterShared, json) >= 2
  {
  }

  lemma {:induction false} LayoutGrows(rows: seq<Row>, e: Row, afterShared: bool, json: bool)
    requires |e.item| >= 16 && |e.inline| >= 16
    ensures LayoutLen(rows + [e], afterShared, json) >= LayoutLen(rows, afterShared, json) + 2
    decreases |rows|
  {
    var longer := rows + [e];
    if rows == [] {
      assert longer[..1] == [e];
      BlockAlone(e, afterShared, json);
    } else {
      GroupLenAppend(rows, e);
      var n := GroupLen(rows);
      if n == |rows| && e.url == rows[0].url {
        assert rows[..n] == rows && longer[..n + 1] == longer;
        BlockGrows(rows, e, afterShared, json);
      } else {
        assert longer[..n] == rows[..n] && longer[n..] == rows[n..] + [e];
        LayoutGrows(rows[n..], e, UseShared(rows[..n], json), json);
      }
    }
  }

  lemma MarkerSize(omitted: nat, json: bool)
    ensures Size(Marker(omitted), json) == |Decimal(omitted)| + 16
  {
    DecimalSize(omitted, json);
    SizeAppend3("[", Decimal(omitted), " facts omitted]", json);
    SizePlain("[", json);
    SizePlain(" facts omitted]", json);
  }

  function CutLen(rows: seq<Row>, count: nat, json: bool): nat
    requires count <= |rows|
  {
    var body := LayoutLen(rows[..count], false, json);
    |Decimal(|rows| - count)| + 16 + if body == 0 then 0 else body + LineBreak(json)
  }

  lemma CutSize(rows: seq<Row>, count: nat, json: bool)
    requires count <= |rows|
    ensures Size(Cut(rows, count, json), json) == CutLen(rows, count, json)
  {
    var body := Layout(rows[..count], json);
    LayoutSize(rows[..count], false, json);
    MarkerSize(|rows| - count, json);
    FixedSizes(json);
    SizeAppend3(body, "\n", Marker(|rows| - count), json);
    assert body == "" <==> Size(body, json) == 0;
  }

  ghost predicate LongRows(rows: seq<Row>) {
    forall i :: 0 <= i < |rows| ==> |rows[i].item| >= 16 && |rows[i].inline| >= 16
  }

  /** Keeping one fact more makes the whole cut strictly larger, though its marker may lose a digit. */
  lemma CutGrows(rows: seq<Row>, count: nat, json: bool)
    requires count < |rows| && LongRows(rows)
    ensures CutLen(rows, count, json) < CutLen(rows, count + 1, json)
  {
    DecimalStep(|rows| - count - 1);
    assert rows[..count + 1] == rows[..count] + [rows[count]];
    LayoutGrows(rows[..count], rows[count], false, json);
  }

  lemma {:induction false} CutMonotone(rows: seq<Row>, a: nat, b: nat, json: bool)
    requires a < b <= |rows| && LongRows(rows)
    ensures CutLen(rows, a, json) < CutLen(rows, b, json)
    decreases b - a
  {
    CutGrows(rows, a, json);
    if a + 1 < b {
      CutMonotone(rows, a + 1, b, json);
    }
  }

  /** No cut is as large as a longer one, whatever forms its groups take. */
  lemma LongerCutIsLarger(rows: seq<Row>, a: nat, b: nat, json: bool)
    requires a < b <= |rows| && LongRows(rows)
    ensures Size(Cut(rows, a, json), json) < Size(Cut(rows, b, json), json)
  {
    CutMonotone(rows, a, b, json);
    CutSize(rows, a, json);
    CutSize(rows, b, json);
  }

  // ---------------------------------------------------------------------------------------------------------------
  // The layout as written: two nested scans over the entries
  // ---------------------------------------------------------------------------------------------------------------

  lemma GroupLenIs(rows: seq<Row>, n: nat)
    requires 1 <= n <= |rows|
    requires forall i :: 0 <= i < n ==> rows[i].url == rows[0].url
    requires n < |rows| ==> rows[n].url != rows[0].url
    ensures GroupLen(rows) == n
  {
  }

  method GroupEnd(rows: seq<Row>, start: nat) returns (end: nat)
    requires start < |rows|
    ensures end == start + GroupLen(rows[start..]) <= |rows|
  {
    end := start + 1;
    while end < |rows| && rows[end].url == rows[start].url
      invariant start < end <= |rows|
      invariant forall i :: start <= i < end ==> rows[i].url == rows[start].url
    {
      end := end + 1;
    }
    GroupLenIs(rows[start..], end - start);
  }

  /** The block of the group at `start`, where it ends, and whether it took its shared form. */
  method NextPiece(rows: seq<Row>, start: nat, previousShared: bool, json: bool)
    returns (block: string, end: nat, shared: bool)
    requires start < |rows|
    ensures start < end <= |rows|
    ensures Pieces(rows[start..], previousShared, json) == [block] + Pieces(rows[end..], shared, json)
  {
    end := GroupEnd(rows, start);
    ghost var todo, n := rows[start..], end - start;
    assert rows[start..end] == todo[..n] && rows[end..] == todo[n..];
    PiecesOf(todo, previousShared, json);
    block, shared := Block(rows[start..end], previousShared, json), UseShared(rows[start..end], json);
  }

  lemma PiecesOf(rows: seq<Row>, afterShared: bool, json: bool)
    requires rows != []
    ensures var n := GroupLen(rows);
            Pieces(rows, afterShared, json)
            == [Block(rows[..n], afterShared, json)] + Pieces(rows[n..], UseShared(rows[..n], json), json)
  {
  }

  method Split(rows: seq<Row>, json: bool) returns (rendered: seq<string>)
    ensures rendered == Pieces(rows, false, json)
  {
    rendered := [];
    var previousShared, start := false, 0;
    assert rows[0..] == rows;
    while start < |rows|
      invariant start <= |rows|
      invariant rendered + Pieces(rows[start..], previousShared, json) == Pieces(rows, false, json)
    {
      var block;
      block, start, previousShared := NextPiece(rows, start, previousShared, json);
      rendered := rendered + [block];
    }
    assert rendered + [] == rendered;
  }

  method LayOut(rows: seq<Row>, json: bool) returns (text: string)
    ensures text == Layout(rows, json)
  {
    var rendered := Split(rows, json);
    text := Join(rendered);
  }

  // ---------------------------------------------------------------------------------------------------------------
  // Dropping facts until the notes fit
  // ---------------------------------------------------------------------------------------------------------------

  datatype Refusal = NegativeBudget | AnswerTooLarge | CannotReportOmitted | TooSmallToReport

  type Rendered = Result<string, Refusal>

  /**
   What a cut needs to know of each count of facts kept, from none up to `most`: the text and its size, whether every
   kept fact has its basis, and whether everything the answer needs is kept.
   */
  datatype Cuts = Cuts(
    most: nat, text: nat -> string, size: nat -> nat, basisKept: nat -> bool, answerKept: nat -> bool, preserve: bool)

  /** A longer prefix is larger and keeps at least as much of the answer. */
  ghost predicate Growing(cuts: Cuts) {
    SizesGrow(cuts.most, cuts.size) && KeepsGrow(cuts.most, cuts.answerKept)
  }

  ghost predicate SizesGrow(most: nat, size: nat -> nat) {
    forall a: nat, b: nat :: a < b <= most ==> size(a) < size(b)
  }

  ghost predicate KeepsGrow(most: nat, kept: nat -> bool) {
    forall a: nat, b: nat :: a < b <= most && kept(a) ==> kept(b)
  }

  /** The plain way: try every count from `count` down. */
  function ScanDown(cuts: Cuts, budget: nat, count: nat): Rendered {
    if cuts.preserve && !cuts.answerKept(count) then Err(AnswerTooLarge)
    else if cuts.basisKept(count) && cuts.size(count) <= budget then Ok(cuts.text(count))
    else if count > 0 then ScanDown(cuts, budget, count - 1)
    else if cuts.preserve then Err(CannotReportOmitted)
    else Err(TooSmallToReport)
  }

  /** Counts that do not fit can be passed over: none of them could have been returned. */
  lemma {:induction false} ScanSkips(cuts: Cuts, budget: nat, fits: nat, count: nat)
    requires Growing(cuts) && fits <= count <= cuts.most
    requires forall c: nat :: fits < c <= count ==> cuts.size(c) > budget
    ensures ScanDown(cuts, budget, count) == ScanDown(cuts, budget, fits)
  {
    if fits < count {
      ScanSkips(cuts, budget, fits, count - 1);
      assert cuts.answerKept(fits) ==> cuts.answerKept(count);
    }
  }

  /**
   The binary search for the largest count that fits, then the scan down from it. The search takes for granted that all
   the facts do not fit, so what it does is scan down from all but one of them.
   */
  method SearchAndScan(cuts: Cuts, budget: nat) returns (result: Rendered)
    requires Growing(cuts) && cuts.most > 0
    ensures result == ScanDown(cuts, budget, cuts.most - 1)
  {
    var fits, over := 0, cuts.most;
    while over - fits > 1
      invariant 0 <= fits < over <= cuts.most
      invariant over == cuts.most || cuts.size(over) > budget
    {
      var middle := (fits + over) / 2;
      if cuts.size(middle) <= budget {
        fits := middle;
      } else {
        over := middle;
      }
    }
    ScanSkips(cuts, budget, fits, cuts.most - 1);
    var count := fits;
    while true
      invariant 0 <= count <= fits
      invariant ScanDown(cuts, budget, count) == ScanDown(cuts, budget, cuts.most - 1)
      decreases count
    {
      if cuts.preserve && !cuts.answerKept(count) {
        return Err(AnswerTooLarge);
      }
      if cuts.basisKept(count) && cuts.size(count) <= budget {
        return Ok(cuts.text(count));
      }
      if count == 0 {
        break;
      }
      count := count - 1;
    }
    result := Err(if cuts.preserve then CannotReportOmitted else TooSmallToReport);
  }

  /**
   What a scan returns is the longest prefix that fits and leaves no kept fact without its basis; an answer that must
   be kept is kept whole.
   */
  lemma {:induction false} ScanKeepsMost(cuts: Cuts, budget: nat, count: nat) returns (kept: nat)
    requires ScanDown(cuts, budget, count).Ok?
    ensures kept <= count && ScanDown(cuts, budget, count) == Ok(cuts.text(kept))
    ensures cuts.basisKept(kept) && cuts.size(kept) <= budget && (cuts.preserve ==> cuts.answerKept(kept))
    ensures forall c: nat :: kept < c <= count ==> !(cuts.basisKept(c) && cuts.size(c) <= budget)
  {
    if cuts.basisKept(count) && cuts.size(count) <= budget {
      kept := count;
    } else {
      kept := ScanKeepsMost(cuts, budget, count - 1);
    }
  }

  /**
   Nothing is returned only where no count could be. It is the answer's size when the answer must be kept and is more
   than nothing, and else the omission that cannot be reported.
   */
  lemma {:induction false} RefusedOnlyWithoutACount(cuts: Cuts, budget: nat, count: nat)
    requires Growing(cuts) && count <= cuts.most && ScanDown(cuts, budget, count).Err?
    ensures forall c: nat :: c <= count ==>
              !(cuts.basisKept(c) && cuts.size(c) <= budget && (cuts.preserve ==> cuts.answerKept(c)))
    ensures ScanDown(cuts, budget, count).error
         == if !cuts.preserve then TooSmallToReport
            else if cuts.answerKept(0) then CannotReportOmitted else AnswerTooLarge
  {
    if cuts.preserve && !cuts.answerKept(count) {
      assert forall c: nat :: c < count && cuts.answerKept(c) ==> cuts.answerKept(count);
    } else if count > 0 {
      RefusedOnlyWithoutACount(cuts, budget, count - 1);
    }
  }

  /** All the facts could be returned: they fit, and none is missing its basis. */
  predicate AllReturnable(cuts: Cuts, budget: nat) {
    && cuts.size(cuts.most) <= budget
    && cuts.basisKept(cuts.most)
    && (cuts.preserve ==> cuts.answerKept(cuts.most))
  }

  /** Starting the scan one short changes what it returns exactly when all the facts could be returned. */
  lemma StartingShortMatters(cuts: Cuts, budget: nat)
    requires Growing(cuts) && cuts.most > 0
    requires forall c: nat :: c < cuts.most ==> cuts.text(c) != cuts.text(cuts.most)
    ensures ScanDown(cuts, budget, cuts.most - 1) == ScanDown(cuts, budget, cuts.most) <==> !AllReturnable(cuts, budget)
  {
    assert cuts.answerKept(cuts.most - 1) ==> cuts.answerKept(cuts.most);
    if ScanDown(cuts, budget, cuts.most - 1).Ok? {
      var kept := ScanKeepsMost(cuts, budget, cuts.most - 1);
      assert cuts.text(kept) != cuts.text(cuts.most);
    }
  }

  // ---------------------------------------------------------------------------------------------------------------
  // Rendering the notes
  // ---------------------------------------------------------------------------------------------------------------

  /** Facts the answer needs first, both kinds in read order. */
  function Ordered(keys: seq<Id>, required: seq<Id>): (ordered: seq<Id>)
    ensures forall k :: k in ordered <==> k in keys
  {
    Filter(keys, k => k in required) + Filter(keys, k => k !in required)
  }

  /** No kept fact rests on one left out. */
  predicate BasisKept(s: Store, ordered: seq<Id>, count: nat) {
    count <= |ordered| && forall k :: k in ordered[..count] && k in s.facts ==>
      forall b :: b in s.facts[k].basis ==> b in ordered[..count]
  }

  predicate AnswerKept(ordered: seq<Id>, required: seq<Id>, count: nat) {
    count <= |ordered| && forall k :: k in required ==> k in ordered[..count]
  }

  function CutsOf(host: Host, s: Store, ordered: seq<Id>, required: seq<Id>, preserve: bool, json: bool): Cuts
    requires forall k :: k in ordered ==> k in s.facts
  {
    var rows := RowsOf(host, s, ordered);
    Cuts(
      |ordered|,
      (count: nat) => CutText(rows, count, json),
      CutSizes(rows, json),
      (count: nat) => BasisKept(s, ordered, count),
      AnswersKept(ordered, required),
      preserve)
  }

  function CutSizes(rows: seq<Row>, json: bool): nat -> nat {
    (count: nat) => Size(CutText(rows, count, json), json)
  }

  function AnswersKept(ordered: seq<Id>, required: seq<Id>): nat -> bool {
    (count: nat) => AnswerKept(ordered, required, count)
  }

  function CutText(rows: seq<Row>, count: nat, json: bool): string {
    if count <= |rows| then Cut(rows, count, json) else ""
  }

  lemma RowsAreLong(host: Host, s: Store, entries: seq<Id>)
    requires forall k :: k in entries ==> k in s.facts && |k| >= 21
    ensures LongRows(RowsOf(host, s, entries))
  {
    var rows := RowsOf(host, s, entries);
    forall i | 0 <= i < |rows| ensures |rows[i].item| >= 16 && |rows[i].inline| >= 16 {
      RowsAt(host, s, entries, i);
      assert entries[i] in entries;
    }
  }

  lemma CutSizesGrow(rows: seq<Row>, json: bool)
    requires LongRows(rows)
    ensures SizesGrow(|rows|, CutSizes(rows, json))
  {
    forall a: nat, b: nat | a < b <= |rows| ensures CutSizes(rows, json)(a) < CutSizes(rows, json)(b) {
      LongerCutIsLarger(rows, a, b, json);
    }
  }

  lemma AnswersKeptGrow(ordered: seq<Id>, required: seq<Id>)
    ensures KeepsGrow(|ordered|, AnswersKept(ordered, required))
  {
  }

  lemma CutsGrow(host: Host, s: Store, ordered: seq<Id>, required: seq<Id>, preserve: bool, json: bool)
    requires forall k :: k in ordered ==> k in s.facts && |k| >= 21
    ensures Growing(CutsOf(host, s, ordered, required, preserve, json))
  {
    RowsAreLong(host, s, ordered);
    CutSizesGrow(RowsOf(host, s, ordered), json);
    AnswersKeptGrow(ordered, required);
  }

  /** The facts in the order a cut keeps them: the ids the answer needs, then the rest. */
  ghost function KeptOrder(s: Store): (ordered: seq<Id>)
    ensures forall k :: k in ordered <==> k in s.keys
  {
    Ordered(s.keys, SupportingIds(s))
  }

  ghost function NotesCuts(host: Host, s: Store, preserve: bool, json: bool): Cuts
    requires Sound(s)
  {
    CutsOf(host, s, KeptOrder(s), SupportingIds(s), preserve, json)
  }

  /** The text of all the notes' facts, in the order of their keys. */
  function Complete(host: Host, s: Store, json: bool): string
    requires forall i :: 0 <= i < |s.keys| ==> s.keys[i] in s.facts
  {
    Layout(RowsOf(host, s, s.keys), json)
  }

  /** Everything when it fits, else the first cut that does, going down from `count` facts. */
  function Outcome(maxChars: int, complete: string, json: bool, cuts: Cuts, count: nat): Rendered {
    if maxChars < 0 then Err(NegativeBudget)
    else if Size(complete, json) <= maxChars then Ok(complete)
    else ScanDown(cuts, maxChars, count)
  }

  /** A budget is refused for being negative exactly when it is: none at all is as good as another. */
  lemma RefusedAsNegativeIff(maxChars: int, complete: string, json: bool, cuts: Cuts, count: nat)
    requires Growing(cuts) && count <= cuts.most
    ensures Outcome(maxChars, complete, json, cuts, count) == Err(NegativeBudget) <==> maxChars < 0
  {
    if maxChars >= 0 && ScanDown(cuts, maxChars, count).Err? {
      RefusedOnlyWithoutACount(cuts, maxChars, count);
    }
  }

  /** One short of everything, where the scan starts. */
  function ScanFrom(most: nat): nat {
    if most == 0 then 0 else most - 1
  }

  /** What `render` promises: `complete` when it fits, else a scan down from all the facts. */
  ghost function Promised(host: Host, s: Store, complete: string, maxChars: int, preserve: bool, json: bool): Rendered
    requires Sound(s)
  {
    Outcome(maxChars, complete, json, NotesCuts(host, s, preserve, json), |s.keys|)
  }

  /** What `render` returns: the scan goes down from all the facts but one. */
  ghost function Returned(host: Host, s: Store, complete: string, maxChars: int, preserve: bool, json: bool): Rendered
    requires Sound(s)
  {
    Outcome(maxChars, complete, json, NotesCuts(host, s, preserve, json), ScanFrom(|s.keys|))
  }

  lemma OrderedLength(keys: seq<Id>, required: seq<Id>)
    ensures |Ordered(keys, required)| == |keys|
  {
    FilterSplits(keys, k => k in required, k => k !in required);
  }

  method FitCuts(maxChars: int, complete: string, json: bool, cuts: Cuts) returns (rendered: Rendered)
    requires Growing(cuts) && (cuts.most == 0 ==> complete == "")
    ensures rendered == Outcome(maxChars, complete, json, cuts, ScanFrom(cuts.most))
  {
    if maxChars < 0 {
      return Err(NegativeBudget);
    }
    if Size(complete, json) <= maxChars {
      return Ok(complete);
    }
    rendered := SearchAndScan(cuts, maxChars);
  }

  method Fit(
    host: Host, s: Store, maxChars: int, complete: string, required: seq<Id>, preserve: bool, json: bool)
    returns (rendered: Rendered)
    requires forall k :: k in s.keys ==> k in s.facts && |k| >= 21
    requires s.keys == [] ==> complete == ""
    ensures var cuts := CutsOf(host, s, Ordered(s.keys, required), required, preserve, json);
            rendered == Outcome(maxChars, complete, json, cuts, ScanFrom(|s.keys|))
  {
    var ordered := Ordered(s.keys, required);
    OrderedLength(s.keys, required);
    CutsGrow(host, s, ordered, required, preserve, json);
    rendered := FitCuts(maxChars, complete, json, CutsOf(host, s, ordered, required, preserve, json));
  }

  /** A text cut to one count is never the text cut to another. */
  ghost predicate TextsDiffer(cuts: Cuts) {
    forall c: nat :: c < cuts.most ==> cuts.text(c) != cuts.text(cuts.most)
  }

  lemma CutsDiffer(host: Host, s: Store, ordered: seq<Id>, required: seq<Id>, preserve: bool, json: bool)
    requires forall k :: k in ordered ==> k in s.facts && |k| >= 21
    ensures TextsDiffer(CutsOf(host, s, ordered, required, preserve, json))
  {
    var rows := RowsOf(host, s, ordered);
    RowsAreLong(host, s, ordered);
    forall c: nat | c < |rows| ensures CutText(rows, c, json) != CutText(rows, |rows|, json) {
      LongerCutIsLarger(rows, c, |rows|, json);
    }
  }

  lemma OutcomesAgreeIff(maxChars: int, complete: string, json: bool, cuts: Cuts)
    requires Growing(cuts) && TextsDiffer(cuts) && cuts.most > 0
    ensures Outcome(maxChars, complete, json, cuts, ScanFrom(cuts.most))
         == Outcome(maxChars, complete, json, cuts, cuts.most)
       <==> (maxChars >= 0 && AllReturnable(cuts, maxChars) ==> Size(complete, json) <= maxChars)
  {
    if maxChars >= 0 {
      StartingShortMatters(cuts, maxChars);
    }
  }

  /** What the search relies on, of the cuts `render` makes. */
  lemma NotesCutsReady(host: Host, s: Store, preserve: bool, json: bool)
    requires Sound(s)
    ensures var cuts := NotesCuts(host, s, preserve, json);
            Growing(cuts) && TextsDiffer(cuts) && cuts.most == |s.keys|
  {
    OrderedLength(s.keys, SupportingIds(s));
    CutsGrow(host, s, KeptOrder(s), SupportingIds(s), preserve, json);
    CutsDiffer(host, s, KeptOrder(s), SupportingIds(s), preserve, json);
  }

  /**
   `render` keeps its promise exactly when what it leaves untried could not have been returned: all the facts in the
   order a cut keeps them. They can fit when the notes in read order do not, because the order decides which facts share
   an address line.
   */
  lemma RenderKeepsItsPromiseIff(
    host: Host, s: Store, complete: string, maxChars: int, preserve: bool, json: bool)
    requires Sound(s) && s.keys != []
    ensures Returned(host, s, complete, maxChars, preserve, json)
         == Promised(host, s, complete, maxChars, preserve, json)
       <==> (maxChars >= 0 && AllReturnable(NotesCuts(host, s, preserve, json), maxChars)
             ==> Size(complete, json) <= maxChars)
  {
    NotesCutsReady(host, s, preserve, json);
    OutcomesAgreeIff(maxChars, complete, json, NotesCuts(host, s, preserve, json));
  }

  lemma WholeCutSize(rows: seq<Row>, json: bool)
    ensures Size(Cut(rows, |rows|, json), json) > Size(Layout(rows, json), json)
  {
    assert rows[..|rows|] == rows;
    SizeAppend3(Layout(rows, json), "\n", Marker(0), json);
  }

  /** The cut that keeps every fact is larger than the text without its marker, when both are in read order. */
  lemma WholeCutIsLarger(host: Host, s: Store, preserve: bool, json: bool)
    requires Sound(s) && KeptOrder(s) == s.keys
    ensures NotesCuts(host, s, preserve, json).size(|s.keys|) > Size(Complete(host, s, json), json)
  {
    WholeCutSize(RowsOf(host, s, s.keys), json);
  }

  /** When read order already has the answer's facts first, nothing is left untried that could fit. */
  lemma ReadOrderKeepsThePromise(
    host: Host, s: Store, complete: string, maxChars: int, preserve: bool, json: bool)
    requires Sound(s) && s.keys != [] && KeptOrder(s) == s.keys
    requires NotesCuts(host, s, preserve, json).size(|s.keys|) > Size(complete, json)
    ensures Returned(host, s, complete, maxChars, preserve, json)
         == Promised(host, s, complete, maxChars, preserve, json)
  {
    NotesCutsReady(host, s, preserve, json);
    RenderKeepsItsPromiseIff(host, s, complete, maxChars, preserve, json);
  }
}
