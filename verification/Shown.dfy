/** What a reader of the rendered notes sees: `render` of crates/fastbrowse-agent/src/memory.rs from its text's side. */
module Shown {
  import opened Common
  import opened Text
  import opened Notes
  import opened Render

  // ---------------------------------------------------------------------------------------------------------------
  // Lines in a text
  // ---------------------------------------------------------------------------------------------------------------

  predicate Around(text: string, before: string, line: string, after: string) {
    text == before + line + after
  }

  /** The lines stand in the text one after the other, none inside another. */
  ghost predicate InOrder(text: string, lines: seq<string>)
    decreases |lines|
  {
    lines == [] || exists before, after :: Around(text, before, lines[0], after) && InOrder(after, lines[1..])
  }

  lemma InOrderAfter(before: string, text: string, lines: seq<string>)
    requires InOrder(text, lines)
    ensures InOrder(before + text, lines)
  {
    if lines != [] {
      var a, b :| Around(text, a, lines[0], b) && InOrder(b, lines[1..]);
      assert before + (a + lines[0] + b) == (before + a) + lines[0] + b;
      assert Around(before + text, before + a, lines[0], b);
    }
  }

  lemma {:induction false} InOrderJoin(text: string, more: string, lines: seq<string>, rest: seq<string>)
    requires InOrder(text, lines) && InOrder(more, rest)
    ensures InOrder(text + more, lines + rest)
    decreases |lines|
  {
    if lines == [] {
      assert lines + rest == rest;
      InOrderAfter(text, more, rest);
    } else {
      var a, b :| Around(text, a, lines[0], b) && InOrder(b, lines[1..]);
      InOrderJoin(b, more, lines[1..], rest);
      assert (lines + rest)[1..] == lines[1..] + rest;
      assert (a + lines[0] + b) + more == a + lines[0] + (b + more);
      assert Around(text + more, a, (lines + rest)[0], b + more);
    }
  }

  lemma OneInOrder(before: string, line: string, after: string)
    ensures InOrder(before + line + after, [line])
  {
    assert Around(before + line + after, before, [line][0], after);
    assert [line][1..] == [] && InOrder(after, []);
  }

  // ---------------------------------------------------------------------------------------------------------------
  // The lines of a layout
  // ---------------------------------------------------------------------------------------------------------------

  function Inlines(rows: seq<Row>): (lines: seq<string>)
    ensures |lines| == |rows| && forall i :: 0 <= i < |rows| ==> lines[i] == rows[i].inline
  {
    if rows == [] then [] else [rows[0].inline] + Inlines(rows[1..])
  }

  function ItemLines(rows: seq<Row>): (lines: seq<string>)
    ensures |lines| == |rows| && forall i :: 0 <= i < |rows| ==> lines[i] == rows[i].item
  {
    if rows == [] then [] else [rows[0].item] + ItemLines(rows[1..])
  }

  lemma {:induction false} InlineShows(group: seq<Row>)
    requires group != []
    ensures InOrder(Inline(group), Inlines(group))
  {
    var first := group[0].inline;
    if |group| == 1 {
      OneInOrder("", first, "");
      assert "" + first + "" == first && Inlines(group) == [first];
    } else {
      InlineShows(group[1..]);
      OneInOrder("", first, "\n");
      InOrderJoin("" + first + "\n", Inline(group[1..]), [first], Inlines(group[1..]));
      assert "" + first + "\n" + Inline(group[1..]) == Inline(group);
    }
  }

  lemma LastInOrder(before: string, line: string)
    ensures InOrder(before + line, [line])
  {
    OneInOrder(before, line, "");
    assert before + line + "" == before + line;
  }

  lemma {:induction false} ItemsShow(group: seq<Row>)
    ensures InOrder(Items(group), ItemLines(group))
  {
    if group != [] {
      ItemsShow(group[1..]);
      LastInOrder("\n- ", group[0].item);
      InOrderJoin("\n- " + group[0].item, Items(group[1..]), [group[0].item], ItemLines(group[1..]));
    }
  }

  /** The lines a group is listed by. */
  function GroupLines(group: seq<Row>, json: bool): (lines: seq<string>)
    requires group != []
    ensures |lines| == |group|
  {
    if UseShared(group, json) then ItemLines(group) else Inlines(group)
  }

  lemma BlockShows(group: seq<Row>, afterShared: bool, json: bool)
    requires group != []
    ensures InOrder(Block(group, afterShared, json), GroupLines(group, json))
  {
    if UseShared(group, json) {
      ItemsShow(group);
      InOrderAfter(group[0].heading, Items(group), ItemLines(group));
    } else {
      InlineShows(group);
      InOrderAfter(OTHER, Inline(group), Inlines(group));
    }
  }

  function Lines(rows: seq<Row>, json: bool): (lines: seq<string>)
    ensures |lines| == |rows|
    decreases |rows|
  {
    if rows == [] then []
    else
      var n := GroupLen(rows);
      GroupLines(rows[..n], json) + Lines(rows[n..], json)
  }

  /** What follows a block in a joined text. */
  function Tail(rest: seq<string>): string {
    if rest == [] then "" else "\n" + Join(rest)
  }

  lemma JoinIs(block: string, rest: seq<string>)
    ensures Join([block] + rest) == block + Tail(rest)
  {
    assert ([block] + rest)[1..] == rest;
    assert rest != [] ==> block + ("\n" + Join(rest)) == block + "\n" + Join(rest);
  }

  lemma TailShows(rest: seq<string>, lines: seq<string>)
    requires InOrder(Join(rest), lines) && (rest == [] ==> lines == [])
    ensures InOrder(Tail(rest), lines)
  {
    if rest != [] {
      InOrderAfter("\n", Join(rest), lines);
    }
  }

  lemma {:induction false} PiecesShow(rows: seq<Row>, afterShared: bool, json: bool)
    ensures InOrder(Join(Pieces(rows, afterShared, json)), Lines(rows, json))
    decreases |rows|
  {
    if rows != [] {
      var n := GroupLen(rows);
      var block, shared := Block(rows[..n], afterShared, json), UseShared(rows[..n], json);
      var rest := Pieces(rows[n..], shared, json);
      PiecesOf(rows, afterShared, json);
      BlockShows(rows[..n], afterShared, json);
      PiecesShow(rows[n..], shared, json);
      TailShows(rest, Lines(rows[n..], json));
      InOrderJoin(block, Tail(rest), GroupLines(rows[..n], json), Lines(rows[n..], json));
      JoinIs(block, rest);
    }
  }

  /** A block under the heading lists the item. */
  ghost predicate Headed(text: string, heading: string, item: string) {
    exists block :: Contains(text, block) && heading <= block && Contains(block, "\n- " + item)
  }

  lemma HeadedWithin(before: string, text: string, after: string, heading: string, item: string)
    requires Headed(text, heading, item)
    ensures Headed(before + text + after, heading, item)
  {
    var block :| Contains(text, block) && heading <= block && Contains(block, "\n- " + item);
    ContainsWithin(before, text, after, block);
  }

  lemma {:induction false} ItemWithin(group: seq<Row>, i: nat)
    requires i < |group|
    ensures Contains(Items(group), "\n- " + group[i].item)
  {
    var first := "\n- " + group[0].item;
    if i == 0 {
      ContainsSelf(first);
      ContainsWithin("", first, Items(group[1..]), first);
      assert "" + first + Items(group[1..]) == Items(group);
    } else {
      ItemWithin(group[1..], i - 1);
      ContainsWithin(first, Items(group[1..]), "", "\n- " + group[i].item);
      assert first + Items(group[1..]) + "" == Items(group);
    }
  }

  /** Rows of one address have one heading. */
  ghost predicate OneHeading(rows: seq<Row>) {
    forall i, j :: 0 <= i < |rows| && 0 <= j < |rows| && rows[i].url == rows[j].url ==>
      rows[i].heading == rows[j].heading
  }

  /** A row is listed with its address inline, or under its heading. */
  ghost predicate Listed(text: string, row: Row, line: string) {
    line == row.inline || (row.url.Some? && line == row.item && Headed(text, row.heading, row.item))
  }

  lemma ListedWithin(before: string, text: string, after: string, row: Row, line: string)
    requires Listed(text, row, line)
    ensures Listed(before + text + after, row, line)
  {
    if line != row.inline {
      HeadedWithin(before, text, after, row.heading, row.item);
    }
  }

  lemma GroupIsListed(group: seq<Row>, afterShared: bool, json: bool, i: nat)
    requires i < |group| && OneHeading(group) && forall k :: 0 <= k < |group| ==> group[k].url == group[0].url
    ensures Listed(Block(group, afterShared, json), group[i], GroupLines(group, json)[i])
  {
    if UseShared(group, json) {
      var block := Shared(group);
      ContainsSelf(block);
      ItemWithin(group, i);
      ContainsWithin(group[0].heading, Items(group), "", "\n- " + group[i].item);
      assert group[0].heading + Items(group) + "" == block;
      assert Headed(block, group[i].heading, group[i].item);
    }
  }

  lemma FirstIsListed(block: string, rest: seq<string>, row: Row, line: string)
    requires Listed(block, row, line)
    ensures Listed(Join([block] + rest), row, line)
  {
    JoinIs(block, rest);
    ListedWithin("", block, Tail(rest), row, line);
    assert "" + block + Tail(rest) == block + Tail(rest);
  }

  lemma LaterIsListed(block: string, rest: seq<string>, row: Row, line: string)
    requires rest != [] && Listed(Join(rest), row, line)
    ensures Listed(Join([block] + rest), row, line)
  {
    JoinIs(block, rest);
    ListedWithin(block + "\n", Join(rest), "", row, line);
    assert block + "\n" + Join(rest) + "" == block + Tail(rest);
  }

  lemma {:induction false} PiecesAreListed(rows: seq<Row>, afterShared: bool, json: bool, i: nat)
    requires OneHeading(rows) && i < |rows|
    ensures Listed(Join(Pieces(rows, afterShared, json)), rows[i], Lines(rows, json)[i])
    decreases |rows|
  {
    var n := GroupLen(rows);
    var block, shared := Block(rows[..n], afterShared, json), UseShared(rows[..n], json);
    PiecesOf(rows, afterShared, json);
    if i < n {
      GroupIsListed(rows[..n], afterShared, json, i);
      FirstIsListed(block, Pieces(rows[n..], shared, json), rows[i], GroupLines(rows[..n], json)[i]);
    } else {
      PiecesAreListed(rows[n..], shared, json, i - n);
      LaterIsListed(block, Pieces(rows[n..], shared, json), rows[i], Lines(rows[n..], json)[i - n]);
    }
  }

  // ---------------------------------------------------------------------------------------------------------------
  // The lines of the facts
  // ---------------------------------------------------------------------------------------------------------------

  function Together(parts: seq<string>): string {
    if parts == [] then "" else parts[0] + Together(parts[1..])
  }

  /**
   What the line of a fact is put together from: its id; the claim, unless that is the quote; whether it stands as the
   answer; its address, unless a heading has it; the quote and the control, or that it is derived; and what it rests on.
   */
  function Parts(host: Host, s: Store, key: Id, headed: bool): seq<string>
    requires key in s.facts
  {
    var fact := s.facts[key];
    ["[" + key + "] "]
    + (match fact.evidence
       case None => [host.quoted(fact.text, false) + " "]
       case Some(e) => if e.quote == fact.text then [] else [host.quoted(fact.text, false) + " "])
    + (if key in s.answering then ["answers=true "] else [])
    + (match fact.evidence
       case None => ["derived"]
       case Some(e) =>
         (if headed then [] else ["url=" + host.quoted(e.url, true) + " "])
         + ["quote=" + host.quoted(e.quote, false)]
         + (if e.control.Some? then [" control_context=" + e.control.value.dump] else []))
    + (if fact.basis == [] then [] else [" basis=" + host.dumpIds(fact.basis)])
  }

  lemma {:induction false} TogetherAppend(a: seq<string>, b: seq<string>)
    ensures Together(a + b) == Together(a) + Together(b)
  {
    if a == [] {
      assert a + b == b;
    } else {
      assert (a + b)[1..] == a[1..] + b;
      TogetherAppend(a[1..], b);
    }
  }

  lemma TogetherOne(part: string)
    ensures Together([part]) == part && Together([]) == ""
  {
    assert [part][1..] == [];
  }

  lemma SourceIsItsParts(host: Host, e: Evidence, headed: bool)
    ensures Together(
              (if headed then [] else ["url=" + host.quoted(e.url, true) + " "])
              + ["quote=" + host.quoted(e.quote, false)]
              + (if e.control.Some? then [" control_context=" + e.control.value.dump] else []))
         == (if headed then "" else "url=" + host.quoted(e.url, true) + " ") + "quote=" + host.quoted(e.quote, false)
            + (if e.control.Some? then " control_context=" + e.control.value.dump else "")
  {
    var url := if headed then [] else ["url=" + host.quoted(e.url, true) + " "];
    var quote := ["quote=" + host.quoted(e.quote, false)];
    var control := if e.control.Some? then [" control_context=" + e.control.value.dump] else [];
    TogetherAppend(url + quote, control);
    TogetherAppend(url, quote);
    TogetherOne("url=" + host.quoted(e.url, true) + " ");
    TogetherOne(quote[0]);
    TogetherOne(if e.control.Some? then control[0] else "");
  }

  lemma FiveTogether(a: seq<string>, b: seq<string>, c: seq<string>, d: seq<string>, e: seq<string>)
    ensures Together(a + b + c + d + e) == Together(a) + Together(b) + Together(c) + Together(d) + Together(e)
  {
    TogetherAppend(a + b + c + d, e);
    TogetherAppend(a + b + c, d);
    TogetherAppend(a + b, c);
    TogetherAppend(a, b);
  }

  lemma OneOrNone(some: bool, part: string)
    ensures Together(if some then [part] else []) == if some then part else ""
  {
    TogetherOne(part);
  }

  lemma LineIsItsParts(host: Host, s: Store, key: Id, headed: bool)
    requires key in s.facts
    ensures Line(host, s, key, headed) == Together(Parts(host, s, key, headed))
  {
    var fact := s.facts[key];
    var claimed := fact.evidence.None? || fact.evidence.value.quote != fact.text;
    var claim, mark := host.quoted(fact.text, false) + " ", "answers=true ";
    var source :=
      if fact.evidence.None? then ["derived"]
      else
        (if headed then [] else ["url=" + host.quoted(fact.evidence.value.url, true) + " "])
        + ["quote=" + host.quoted(fact.evidence.value.quote, false)]
        + (if fact.evidence.value.control.Some?
           then [" control_context=" + fact.evidence.value.control.value.dump] else []);
    var basis := " basis=" + host.dumpIds(fact.basis);
    FiveTogether(["[" + key + "] "], if claimed then [claim] else [], if key in s.answering then [mark] else [], source,
                 if fact.basis != [] then [basis] else []);
    TogetherOne("[" + key + "] ");
    OneOrNone(claimed, claim);
    OneOrNone(key in s.answering, mark);
    OneOrNone(fact.basis != [], basis);
    if fact.evidence.Some? {
      SourceIsItsParts(host, fact.evidence.value, headed);
    } else {
      TogetherOne("derived");
    }
    assert Together(source) == Source(host, fact, headed);
    AllAssociate("[" + key + "] ", if claimed then claim else "", if key in s.answering then mark else "",
                 Source(host, fact, headed), if fact.basis != [] then basis else "");
  }

  lemma AllAssociate(a: string, b: string, c: string, d: string, e: string)
    ensures a + (b + c + d + e) == a + b + c + d + e
  {
  }

  /** A fact's two lines: with its address, and without it for under the heading that has it. */
  lemma RowIsItsParts(host: Host, s: Store, key: Id)
    requires key in s.facts
    ensures var row := RowOf(host, s, key);
            && row.inline == Together(Parts(host, s, key, false)) && row.item == Together(Parts(host, s, key, true))
            && (s.facts[key].evidence.Some? ==>
                  row.heading == "# Source URL: " + host.quoted(s.facts[key].evidence.value.url, true))
  {
    LineIsItsParts(host, s, key, false);
    LineIsItsParts(host, s, key, true);
  }

  /** The fact's line is in the text as it should be, its address on it or in a heading over it. */
  ghost predicate Told(host: Host, s: Store, text: string, key: Id, line: string)
    requires key in s.facts
  {
    || line == Together(Parts(host, s, key, false))
    || (s.facts[key].evidence.Some? && line == Together(Parts(host, s, key, true))
        && Headed(text, "# Source URL: " + host.quoted(s.facts[key].evidence.value.url, true), line))
  }

  /** The text lists just these facts' lines so far as it goes, in this order. */
  ghost predicate Tells(host: Host, s: Store, text: string, kept: seq<Id>) {
    && (forall i :: 0 <= i < |kept| ==> kept[i] in s.facts)
    && exists lines :: TellsBy(host, s, text, kept, lines)
  }

  ghost predicate TellsBy(host: Host, s: Store, text: string, kept: seq<Id>, lines: seq<string>)
    requires forall i :: 0 <= i < |kept| ==> kept[i] in s.facts
  {
    && |lines| == |kept| && InOrder(text, lines)
    && forall i :: 0 <= i < |kept| ==> Told(host, s, text, kept[i], lines[i])
  }

  lemma RowsHaveOneHeading(host: Host, s: Store, entries: seq<Id>)
    requires forall i :: 0 <= i < |entries| ==> entries[i] in s.facts
    ensures OneHeading(RowsOf(host, s, entries))
  {
    var rows := RowsOf(host, s, entries);
    forall i, j | 0 <= i < |rows| && 0 <= j < |rows| && rows[i].url == rows[j].url
      ensures rows[i].heading == rows[j].heading
    {
      RowsAt(host, s, entries, i);
      RowsAt(host, s, entries, j);
    }
  }

  lemma ListedIsTold(host: Host, s: Store, text: string, key: Id, line: string)
    requires key in s.facts && Listed(text, RowOf(host, s, key), line)
    ensures Told(host, s, text, key, line)
  {
    LineIsItsParts(host, s, key, false);
    LineIsItsParts(host, s, key, true);
  }

  lemma LayoutTells(host: Host, s: Store, entries: seq<Id>, json: bool)
    requires forall i :: 0 <= i < |entries| ==> entries[i] in s.facts
    ensures Tells(host, s, Layout(RowsOf(host, s, entries), json), entries)
  {
    var rows := RowsOf(host, s, entries);
    var text, lines := Layout(rows, json), Lines(rows, json);
    PiecesShow(rows, false, json);
    RowsHaveOneHeading(host, s, entries);
    forall i | 0 <= i < |entries| ensures Told(host, s, text, entries[i], lines[i]) {
      PiecesAreListed(rows, false, json, i);
      RowsAt(host, s, entries, i);
      ListedIsTold(host, s, text, entries[i], lines[i]);
    }
    assert TellsBy(host, s, text, entries, lines);
  }

  lemma TellsWithin(host: Host, s: Store, text: string, after: string, kept: seq<Id>)
    requires Tells(host, s, text, kept)
    ensures Tells(host, s, text + after, kept)
  {
    var lines :| TellsBy(host, s, text, kept, lines);
    InOrderJoin(text, after, lines, []);
    assert lines + [] == lines;
    forall i | 0 <= i < |kept| ensures Told(host, s, text + after, kept[i], lines[i]) {
      assert Told(host, s, text, kept[i], lines[i]);
      if lines[i] != Together(Parts(host, s, kept[i], false)) {
        HeadedWithin(
          "", text, after, "# Source URL: " + host.quoted(s.facts[kept[i]].evidence.value.url, true), lines[i]);
        assert "" + text + after == text + after;
      }
    }
    assert TellsBy(host, s, text + after, kept, lines);
  }

  // ---------------------------------------------------------------------------------------------------------------
  // What `render` returns
  // ---------------------------------------------------------------------------------------------------------------

  /** What is required comes before the rest, and each kind in its order. */
  lemma OrderedIs(keys: seq<Id>, required: seq<Id>, i: nat, j: nat, p: nat, q: nat)
    requires Distinct(keys) && i < j < |Ordered(keys, required)| && p < |keys| && q < |keys|
    requires Ordered(keys, required)[i] == keys[p] && Ordered(keys, required)[j] == keys[q]
    ensures keys[q] in required ==> keys[p] in required
    ensures (keys[p] in required <==> keys[q] in required) ==> p < q
  {
    var first, second := Filter(keys, k => k in required), Filter(keys, k => k !in required);
    if j < |first| {
      assert first[i] in first && first[j] in first;
      FilterInOrder(keys, k => k in required, i, j, p, q);
    } else if i < |first| {
      assert first[i] in first && second[j - |first|] in second;
    } else {
      assert second[i - |first|] in second && second[j - |first|] in second;
      FilterInOrder(keys, k => k !in required, i - |first|, j - |first|, p, q);
    }
  }

  predicate EndsWith(text: string, end: string) {
    |text| >= |end| && text[|text| - |end|..] == end
  }

  /**
   The text of notes cut short: it tells the first facts in the order they are kept by, with all that any of them rests
   on, and everything required when that is asked for, and it ends by saying how many it leaves out.
   */
  ghost predicate CutShort(
    host: Host, s: Store, ordered: seq<Id>, required: seq<Id>, preserve: bool, text: string, kept: seq<Id>)
  {
    && kept <= ordered && Tells(host, s, text, kept)
    && (forall k, b :: k in kept && b in s.facts[k].basis ==> b in kept)
    && (preserve ==> forall k :: k in required ==> k in kept)
    && EndsWith(text, "[" + Decimal(|ordered| - |kept|) + " facts omitted]")
  }

  lemma {:induction false} RowsPrefix(host: Host, s: Store, entries: seq<Id>, count: nat)
    requires (forall i :: 0 <= i < |entries| ==> entries[i] in s.facts) && count <= |entries|
    ensures RowsOf(host, s, entries)[..count] == RowsOf(host, s, entries[..count])
  {
    forall i | 0 <= i < count
      ensures RowsOf(host, s, entries)[..count][i] == RowsOf(host, s, entries[..count])[i]
    {
      RowsAt(host, s, entries, i);
      RowsAt(host, s, entries[..count], i);
    }
  }

  lemma CutTells(host: Host, s: Store, entries: seq<Id>, count: nat, json: bool)
    requires (forall i :: 0 <= i < |entries| ==> entries[i] in s.facts) && count <= |entries|
    ensures var text := Cut(RowsOf(host, s, entries), count, json);
            && Tells(host, s, text, entries[..count])
            && EndsWith(text, "[" + Decimal(|entries| - count) + " facts omitted]")
  {
    var rows, marker := RowsOf(host, s, entries), "[" + Decimal(|entries| - count) + " facts omitted]";
    RowsPrefix(host, s, entries, count);
    var body := Layout(rows[..count], json);
    LayoutTells(host, s, entries[..count], json);
    if body == "" {
      TellsWithin(host, s, body, marker, entries[..count]);
      assert body + marker == marker;
    } else {
      TellsWithin(host, s, body, "\n" + marker, entries[..count]);
      assert body + ("\n" + marker) == body + "\n" + marker;
    }
  }

  lemma KeptWithTheirBasis(s: Store, ordered: seq<Id>, count: nat)
    requires BasisKept(s, ordered, count) && forall k :: k in ordered ==> k in s.facts
    ensures forall k, b :: k in ordered[..count] && b in s.facts[k].basis ==> b in ordered[..count]
  {
    forall k, b | k in ordered[..count] && b in s.facts[k].basis ensures b in ordered[..count] {
      assert k in ordered;
    }
  }

  lemma KeptIsShort(
    host: Host, s: Store, ordered: seq<Id>, required: seq<Id>, preserve: bool, text: string, count: nat)
    requires (forall k :: k in ordered ==> k in s.facts) && count <= |ordered|
    requires BasisKept(s, ordered, count) && (preserve ==> AnswerKept(ordered, required, count))
    requires Tells(host, s, text, ordered[..count])
    requires EndsWith(text, "[" + Decimal(|ordered| - count) + " facts omitted]")
    ensures CutShort(host, s, ordered, required, preserve, text, ordered[..count])
  {
    KeptWithTheirBasis(s, ordered, count);
  }

  lemma ScanTells(
    host: Host, s: Store, ordered: seq<Id>, required: seq<Id>, maxChars: nat, preserve: bool, json: bool, count: nat,
    text: string)
    requires (forall k :: k in ordered ==> k in s.facts) && count <= |ordered|
    requires ScanDown(CutsOf(host, s, ordered, required, preserve, json), maxChars, count) == Ok(text)
    ensures Size(text, json) <= maxChars
    ensures exists kept :: CutShort(host, s, ordered, required, preserve, text, kept)
  {
    var n := ScanKeepsMost(CutsOf(host, s, ordered, required, preserve, json), maxChars, count);
    assert forall i :: 0 <= i < |ordered| ==> ordered[i] in ordered;
    CutTells(host, s, ordered, n, json);
    KeptIsShort(host, s, ordered, required, preserve, text, n);
  }

  /** What a text of the notes within `maxChars` shows: every fact in read order, or those of a text cut short. */
  ghost predicate Renders(host: Host, s: Store, text: string, maxChars: int, preserve: bool, json: bool)
    requires Sound(s)
  {
    && Size(text, json) <= maxChars
    && (Tells(host, s, text, s.keys)
        || exists kept :: CutShort(host, s, KeptOrder(s), SupportingIds(s), preserve, text, kept))
  }

  /**
   Whatever `render` returns tells facts by their own claims, quotes, addresses and links: every fact in read order when
   the text that does so fits, and else those of a text cut short.
   */
  lemma RenderTells(host: Host, s: Store, complete: string, maxChars: int, preserve: bool, json: bool, text: string)
    requires Sound(s) && Tells(host, s, complete, s.keys)
    requires Returned(host, s, complete, maxChars, preserve, json) == Ok(text)
    ensures Renders(host, s, text, maxChars, preserve, json)
    ensures Size(complete, json) <= maxChars ==> text == complete
  {
    if Size(complete, json) > maxChars {
      OrderedLength(s.keys, SupportingIds(s));
      ScanTells(
        host, s, KeptOrder(s), SupportingIds(s), maxChars, preserve, json, ScanFrom(|s.keys|), text);
    }
  }
}
