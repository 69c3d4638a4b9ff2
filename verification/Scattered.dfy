/**
 Notes whose rendering leaves a fact out although everything would have fitted: the answer's two quotes come from one
 page and a quote from another page was read between them, so only the order a cut keeps lists them under one address.
 */
module Scattered {
  import opened Common
  import opened Text
  import opened Notes
  import opened Render

  lemma {:induction false} PlainSize(text: string)
    ensures Size(text, false) == |text|
  {
    if text != [] {
      PlainSize(text[1..]);
    }
  }

  /** A row too short to gain anything from a heading of its own. */
  predicate BetterInline(row: Row) {
    |row.inline| <= |row.heading| + 3 + |row.item|
  }

  lemma AloneLen(row: Row, afterShared: bool)
    requires BetterInline(row)
    ensures !UseShared([row], false)
    ensures BlockLen([row], afterShared, false) == |row.inline| + if afterShared then 17 else 0
  {
    assert Items([row]) == "\n- " + row.item + Items([]);
    PlainSize(Shared([row]));
    PlainSize(row.inline);
  }

  lemma ApartLen(a: Row, b: Row, c: Row)
    requires a.url != b.url && b.url != c.url && BetterInline(a) && BetterInline(b) && BetterInline(c)
    ensures LayoutLen([a, b, c], false, false) == |a.inline| + 1 + |b.inline| + 1 + |c.inline|
  {
    AloneLen(a, false);
    AloneLen(b, false);
    AloneLen(c, false);
    assert GroupLen([a, b, c]) == 1 && [a, b, c][..1] == [a] && [a, b, c][1..] == [b, c];
    assert GroupLen([b, c]) == 1 && [b, c][..1] == [b] && [b, c][1..] == [c];
    assert [c][..1] == [c];
    assert LayoutLen([b, c], false, false) == |b.inline| + 1 + LayoutLen([c], false, false);
  }

  lemma PairLen(a: Row, c: Row)
    requires a.url.Some? && |a.heading| + |a.item| + |c.item| + 6 < |a.inline| + 1 + |c.inline|
    ensures UseShared([a, c], false)
    ensures BlockLen([a, c], false, false) == |a.heading| + |a.item| + |c.item| + 6
  {
    assert [a, c][1..] == [c] && [c][1..] == [];
    assert Items([a, c]) == "\n- " + a.item + Items([c]) && Items([c]) == "\n- " + c.item + Items([]);
    assert Inline([a, c]) == a.inline + "\n" + Inline([c]);
    PlainSize(Shared([a, c]));
    PlainSize(Inline([a, c]));
  }

  lemma TogetherLen(a: Row, b: Row, c: Row)
    requires a.url.Some? && a.url == c.url && a.url != b.url && BetterInline(b)
    requires |a.heading| + |a.item| + |c.item| + 6 < |a.inline| + 1 + |c.inline|
    ensures LayoutLen([a, c, b], false, false) == |a.heading| + |a.item| + |c.item| + 6 + 1 + 17 + |b.inline|
  {
    PairLen(a, c);
    AloneLen(b, true);
    assert [a, c, b][1..] == [c, b] && GroupLen([c, b]) == 1;
    assert [a, c, b][..2] == [a, c] && [a, c, b][2..] == [b] && [b][..1] == [b];
  }

  /** A quote that is its own claim and rests on nothing. */
  predicate Quoted(fact: Fact) {
    && fact.evidence.Some? && fact.evidence.value.quote == fact.text
    && fact.evidence.value.control == None && fact.basis == []
  }

  /** The answer's two facts were quoted from one page, with a fact from another page read between them. */
  ghost predicate Scattered(host: Host, s: Store) {
    && Sound(s) && |s.keys| == 3 && s.answering == [s.keys[0], s.keys[2]]
    && (forall i :: 0 <= i < 3 ==> Quoted(s.facts[s.keys[i]]))
    && !s.facts[s.keys[1]].answers
    && Url(s, s.keys[0]) == Url(s, s.keys[2]) && Url(s, s.keys[0]) != Url(s, s.keys[1])
    && |host.quoted(Url(s, s.keys[0]).value, true)| > 44
  }

  lemma QuotedRow(host: Host, s: Store, key: Id)
    requires key in s.facts && Quoted(s.facts[key])
    ensures var fact, row := s.facts[key], RowOf(host, s, key);
            var mark := if key in s.answering then 13 else 0;
            var url := |host.quoted(fact.evidence.value.url, true)|;
            && row.url == Some(fact.evidence.value.url) && |row.heading| == 14 + url
            && |row.item| == |key| + 9 + mark + |host.quoted(fact.text, false)|
            && |row.inline| == |row.item| + 5 + url && BetterInline(row)
  {
  }

  lemma FilterThree(a: Id, b: Id, c: Id, keep: Id -> bool)
    ensures Filter([a, b, c], keep)
         == (if keep(a) then [a] else []) + ((if keep(b) then [b] else []) + (if keep(c) then [c] else []))
  {
    assert [a, b, c][1..] == [b, c] && [b, c][1..] == [c] && [c][1..] == [];
    assert Filter([c], keep) == (if keep(c) then [c] else []) + Filter([], keep);
    assert Filter([b, c], keep) == (if keep(b) then [b] else []) + Filter([c], keep);
  }

  lemma OrderOfThree(a: Id, b: Id, c: Id, required: seq<Id>)
    requires a in required && b !in required && c in required
    ensures Ordered([a, b, c], required) == [a, c, b]
  {
    FilterThree(a, b, c, k => k in required);
    FilterThree(a, b, c, k => k !in required);
  }

  lemma ReachedFromTwo(facts: Facts, a: Id, c: Id, k: Id)
    requires a in facts && c in facts && facts[a].basis == [] && facts[c].basis == []
    ensures ReachedFrom(facts, [a, c], k) <==> k == a || k == c
  {
    OnlyItself(facts, a);
    OnlyItself(facts, c);
    assert a in [a, c] && c in [a, c];
  }

  /** What the answer rests on is what it was read from. */
  lemma ScatteredSupport(host: Host, s: Store, k: Id)
    requires Scattered(host, s)
    ensures k in SupportingIds(s) <==> k == s.keys[0] || k == s.keys[2]
  {
    var a, c := s.keys[0], s.keys[2];
    assert a in s.keys && c in s.keys;
    ReachedFromTwo(s.facts, a, c, k);
    assert k in s.answering <==> k == a || k == c;
  }

  lemma ScatteredSupports(host: Host, s: Store)
    requires Scattered(host, s)
    ensures s.keys[0] in SupportingIds(s) && s.keys[1] !in SupportingIds(s) && s.keys[2] in SupportingIds(s)
  {
    ScatteredSupport(host, s, s.keys[0]);
    ScatteredSupport(host, s, s.keys[1]);
    ScatteredSupport(host, s, s.keys[2]);
  }

  lemma ThreeKeys(keys: seq<Id>, required: seq<Id>)
    requires |keys| == 3 && keys[0] in required && keys[1] !in required && keys[2] in required
    ensures keys == [keys[0], keys[1], keys[2]] && Ordered(keys, required) == [keys[0], keys[2], keys[1]]
  {
    assert keys == [keys[0], keys[1], keys[2]];
    OrderOfThree(keys[0], keys[1], keys[2], required);
  }

  lemma ScatteredOrder(host: Host, s: Store)
    requires Scattered(host, s)
    ensures KeptOrder(s) == [s.keys[0], s.keys[2], s.keys[1]] && s.keys == [s.keys[0], s.keys[1], s.keys[2]]
  {
    ScatteredSupports(host, s);
    ThreeKeys(s.keys, SupportingIds(s));
  }

  /** Written in read order the page's address is there twice; in the kept order, once. */
  lemma ApartIsLonger(x: Row, y: Row, z: Row)
    requires x.url.Some? && x.url == z.url && x.url != y.url
    requires BetterInline(x) && BetterInline(y) && BetterInline(z)
    requires |x.heading| + |x.item| + |z.item| + 40 < |x.inline| + |z.inline|
    ensures CutLen([x, z, y], 3, false) < LayoutLen([x, y, z], false, false)
  {
    ApartLen(x, y, z);
    TogetherLen(x, y, z);
    assert [x, z, y][..3] == [x, z, y];
  }

  /** Three quotes, the first and the last of them from one page with an address longer than what a heading costs. */
  predicate Split(host: Host, s: Store, a: Id, b: Id, c: Id) {
    && a in s.facts && b in s.facts && c in s.facts
    && Quoted(s.facts[a]) && Quoted(s.facts[b]) && Quoted(s.facts[c])
    && Url(s, a) == Url(s, c) && Url(s, a) != Url(s, b)
    && |host.quoted(Url(s, a).value, true)| > 44
  }

  lemma RowsOfThree(host: Host, s: Store, a: Id, b: Id, c: Id)
    requires a in s.facts && b in s.facts && c in s.facts
    ensures RowsOf(host, s, [a, b, c]) == [RowOf(host, s, a), RowOf(host, s, b), RowOf(host, s, c)]
  {
    RowsAt(host, s, [a, b, c], 0);
    RowsAt(host, s, [a, b, c], 1);
    RowsAt(host, s, [a, b, c], 2);
  }

  lemma SplitRows(host: Host, s: Store, a: Id, b: Id, c: Id) returns (x: Row, y: Row, z: Row)
    requires Split(host, s, a, b, c)
    ensures RowsOf(host, s, [a, b, c]) == [x, y, z] && RowsOf(host, s, [a, c, b]) == [x, z, y]
    ensures CutLen([x, z, y], 3, false) < LayoutLen([x, y, z], false, false)
  {
    x, y, z := RowOf(host, s, a), RowOf(host, s, b), RowOf(host, s, c);
    QuotedRow(host, s, a);
    QuotedRow(host, s, b);
    QuotedRow(host, s, c);
    RowsOfThree(host, s, a, b, c);
    RowsOfThree(host, s, a, c, b);
    ApartIsLonger(x, y, z);
  }

  lemma SplitSizes(host: Host, s: Store, a: Id, b: Id, c: Id)
    requires Split(host, s, a, b, c)
    ensures Size(CutText(RowsOf(host, s, [a, c, b]), 3, false), false)
          < Size(Layout(RowsOf(host, s, [a, b, c]), false), false)
  {
    var x, y, z := SplitRows(host, s, a, b, c);
    CutSize([x, z, y], 3, false);
    LayoutSize([x, y, z], false, false);
  }

  /** No fact is missing its basis, and the answer's facts are all there. */
  lemma SplitKept(s: Store, a: Id, b: Id, c: Id, required: seq<Id>)
    requires a in s.facts && b in s.facts && c in s.facts
    requires Quoted(s.facts[a]) && Quoted(s.facts[b]) && Quoted(s.facts[c])
    requires forall k :: k in required ==> k == a || k == c
    ensures BasisKept(s, [a, c, b], 3) && AnswerKept([a, c, b], required, 3)
  {
    assert [a, c, b][..3] == [a, c, b];
  }

  /** The cut that keeps all three is smaller than the notes in read order, and could be returned. */
  lemma SplitFits(host: Host, s: Store, a: Id, b: Id, c: Id, required: seq<Id>, preserve: bool)
    requires Split(host, s, a, b, c)
    requires forall k :: k in required ==> k == a || k == c
    ensures var cuts := CutsOf(host, s, [a, c, b], required, preserve, false);
            AllReturnable(cuts, cuts.size(3)) && cuts.size(3) < Size(Layout(RowsOf(host, s, [a, b, c]), false), false)
  {
    SplitSizes(host, s, a, b, c);
    SplitKept(s, a, b, c, required);
  }

  lemma ScatteredIsSplit(host: Host, s: Store)
    requires Scattered(host, s)
    ensures Split(host, s, s.keys[0], s.keys[1], s.keys[2])
  {
    assert forall i :: 0 <= i < 3 ==> s.keys[i] in s.keys;
  }

  lemma ScatteredRoom(host: Host, s: Store, preserve: bool) returns (maxChars: nat)
    requires Scattered(host, s)
    ensures AllReturnable(NotesCuts(host, s, preserve, false), maxChars)
    ensures maxChars < Size(Layout(RowsOf(host, s, s.keys), false), false)
  {
    ScatteredIsSplit(host, s);
    ScatteredOrder(host, s);
    var a, b, c := s.keys[0], s.keys[1], s.keys[2];
    forall k | k in SupportingIds(s) ensures k == a || k == c {
      ScatteredSupport(host, s, k);
    }
    SplitFits(host, s, a, b, c, SupportingIds(s), preserve);
    maxChars := CutsOf(host, s, [a, c, b], SupportingIds(s), preserve, false).size(3);
  }

  /** All three facts fit a budget that the notes in read order do not, so `render` drops one it had room for. */
  lemma ScatteredBreaksThePromise(host: Host, s: Store, complete: string, preserve: bool) returns (maxChars: nat)
    requires Scattered(host, s) && complete == Complete(host, s, false)
    ensures Returned(host, s, complete, maxChars, preserve, false)
         != Promised(host, s, complete, maxChars, preserve, false)
  {
    maxChars := ScatteredRoom(host, s, preserve);
    RenderKeepsItsPromiseIff(host, s, complete, maxChars, preserve, false);
  }

  // ---------------------------------------------------------------------------------------------------------------
  // Such notes come from three reads
  // ---------------------------------------------------------------------------------------------------------------

  const PRICES := "https://shop.example/catalogue/2024/autumn/prices"
  const TERMS := "https://shop.example/terms"

  function Quote(url: string, at: nat, answers: bool): Fact {
    Fact(answers, "42", Some(Evidence(url, seq(64, _ => '0'), at, at + 2, "42", None)), [], JevChoice)
  }

  const READS := [Add(Quote(PRICES, 1, true)), Add(Quote(TERMS, 2, false)), Add(Quote(PRICES, 3, true))]

  lemma IdsDiffer(host: Host, url: string, other: string, a: nat, b: nat, answers: bool, otherAnswers: bool)
    requires a < 10 && b < 10 && a != b
    ensures FactId(host, Quote(url, a, answers)) != FactId(host, Quote(other, b, otherAnswers))
  {
    assert FactId(host, Quote(url, a, answers))[65] == ('0' as int + a) as char;
    assert FactId(host, Quote(other, b, otherAnswers))[65] == ('0' as int + b) as char;
  }

  /** What three adds of facts with different ids leave. */
  lemma ThreeAdds(host: Host, a: Fact, b: Fact, c: Fact)
    requires a.answers && !b.answers && c.answers
    requires FactId(host, a) != FactId(host, b)
    requires FactId(host, a) != FactId(host, c) && FactId(host, b) != FactId(host, c)
    ensures var i, j, k := FactId(host, a), FactId(host, b), FactId(host, c);
            Run(host, EMPTY, [Add(a), Add(b), Add(c)])
            == Store([i, j, k], map[i := a, j := b, k := c], [i, k], {})
  {
    var i, j, k := FactId(host, a), FactId(host, b), FactId(host, c);
    var one, two := AddStep(host, EMPTY, a), AddStep(host, AddStep(host, EMPTY, a), b);
    assert one == Store([i], map[i := a], [i], {});
    assert two == Store([i, j], map[i := a, j := b], [i], {});
    assert [Add(a), Add(b), Add(c)][1..] == [Add(b), Add(c)];
    assert [Add(b), Add(c)][1..] == [Add(c)] && [Add(c)][1..] == [];
    assert Run(host, EMPTY, [Add(a), Add(b), Add(c)]) == Run(host, one, [Add(b), Add(c)]);
    assert Run(host, one, [Add(b), Add(c)]) == Run(host, two, [Add(c)]);
    assert Run(host, two, [Add(c)]) == AddStep(host, two, c);
  }

  lemma ThreeAreScattered(host: Host, s: Store, i: Id, j: Id, k: Id, a: Fact, b: Fact, c: Fact)
    requires Sound(s) && i != j && i != k && j != k
    requires s == Store([i, j, k], map[i := a, j := b, k := c], [i, k], {})
    requires Quoted(a) && Quoted(b) && Quoted(c) && !b.answers
    requires a.evidence.value.url == c.evidence.value.url && a.evidence.value.url != b.evidence.value.url
    requires |host.quoted(a.evidence.value.url, true)| > 44
    ensures Scattered(host, s)
  {
  }

  /** Any JSON writer writes at least the characters it is given, which is all the example needs of one. */
  lemma ReadsAreScattered(host: Host)
    requires |host.quoted(PRICES, true)| >= |PRICES|
    ensures Scattered(host, Run(host, EMPTY, READS))
  {
    var a, b, c := Quote(PRICES, 1, true), Quote(TERMS, 2, false), Quote(PRICES, 3, true);
    IdsDiffer(host, PRICES, TERMS, 1, 2, true, false);
    IdsDiffer(host, PRICES, PRICES, 1, 3, true, true);
    IdsDiffer(host, TERMS, PRICES, 2, 3, false, true);
    ThreeAdds(host, a, b, c);
    RunIsSound(host, EMPTY, READS);
    ThreeAreScattered(host, Run(host, EMPTY, READS), FactId(host, a), FactId(host, b), FactId(host, c), a, b, c);
  }
}
