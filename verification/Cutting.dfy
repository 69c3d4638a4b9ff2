/** Cutting one text to a budget: `cut_with` of crates/fastbrowse-core/src/page.rs. */
module Cutting {
  import opened Text

  /** The words around the count of characters left out. */
  datatype Marker = Marker(before: string, after: string)

  function MarkerText(m: Marker, omitted: nat): string {
    m.before + Decimal(omitted) + m.after
  }

  /** The first `keep` characters and how many follow them. */
  function CutAt(text: string, keep: nat, m: Marker): string
    requires keep <= |text|
  {
    text[..keep] + MarkerText(m, |text| - keep)
  }

  predicate CutFits(text: string, keep: nat, maxChars: nat, json: bool, m: Marker)
    requires keep <= |text|
  {
    Size(CutAt(text, keep, m), json) <= maxChars
  }

  lemma CutAtSize(text: string, keep: nat, json: bool, m: Marker)
    requires keep <= |text|
    ensures Size(CutAt(text, keep, m), json)
         == Size(text[..keep], json) + Size(m.before, json) + |Decimal(|text| - keep)| + Size(m.after, json)
  {
    var omitted := |text| - keep;
    SizeAppend(text[..keep], MarkerText(m, omitted), json);
    SizeAppend(m.before + Decimal(omitted), m.after, json);
    SizeAppend(m.before, Decimal(omitted), json);
    DecimalSize(omitted, json);
  }

  /** One character more is never smaller, though the count it leaves may lose a digit. */
  lemma CutGrows(text: string, keep: nat, maxChars: nat, json: bool, m: Marker)
    requires keep < |text| && CutFits(text, keep + 1, maxChars, json, m)
    ensures CutFits(text, keep, maxChars, json, m)
  {
    CutAtSize(text, keep, json, m);
    CutAtSize(text, keep + 1, json, m);
    DecimalStep(|text| - keep - 1);
    assert text[..keep + 1] == text[..keep] + [text[keep]];
    SizeAppend(text[..keep], [text[keep]], json);
  }

  lemma {:induction false} ShorterFits(text: string, less: nat, keep: nat, maxChars: nat, json: bool, m: Marker)
    requires less <= keep <= |text| && CutFits(text, keep, maxChars, json, m)
    ensures CutFits(text, less, maxChars, json, m)
    decreases keep
  {
    if less < keep {
      CutGrows(text, keep - 1, maxChars, json, m);
      ShorterFits(text, less, keep - 1, maxChars, json, m);
    }
  }

  /** The most characters, up to `keep`, that can be kept; none when not even one fits with its marker. */
  function Longest(text: string, keep: nat, maxChars: nat, json: bool, m: Marker): (longest: nat)
    requires keep <= |text|
    ensures longest <= keep && (longest > 0 ==> CutFits(text, longest, maxChars, json, m))
    ensures forall k: nat :: longest < k <= keep ==> !CutFits(text, k, maxChars, json, m)
  {
    if keep == 0 || CutFits(text, keep, maxChars, json, m) then keep else Longest(text, keep - 1, maxChars, json, m)
  }

  /** The text when it fits, else the longest start of it that fits with its marker, else nothing. */
  function CutTo(text: string, maxChars: nat, json: bool, m: Marker): (cut: string)
    ensures Size(cut, json) <= maxChars
  {
    if Size(text, json) <= maxChars then text
    else
      var keep := Longest(text, |text|, maxChars, json, m);
      if keep == 0 then "" else CutAt(text, keep, m)
  }

  /** `cut` is the first `keep` characters and the words that count what follows them. */
  predicate IsCut(text: string, keep: nat, m: Marker, cut: string) {
    keep <= |text| && cut == text[..keep] + (m.before + Decimal(|text| - keep) + m.after)
  }

  ghost predicate SomeCutFits(text: string, keep: nat, maxChars: nat, json: bool, m: Marker) {
    exists cut :: IsCut(text, keep, m, cut) && Size(cut, json) <= maxChars
  }

  /** A text that fits is left; of any other the longest start that fits is kept, or nothing when none does. */
  lemma CutToIsLongest(text: string, maxChars: nat, json: bool, m: Marker)
    ensures var cut := CutTo(text, maxChars, json, m);
            if Size(text, json) <= maxChars then cut == text
            else if exists k: nat :: 0 < k && SomeCutFits(text, k, maxChars, json, m)
            then exists keep: nat :: 0 < keep && IsCut(text, keep, m, cut)
                                     && forall k: nat :: k > keep ==> !SomeCutFits(text, k, maxChars, json, m)
            else cut == ""
  {
    var keep := Longest(text, |text|, maxChars, json, m);
    forall k: nat
      ensures SomeCutFits(text, k, maxChars, json, m) <==> k <= |text| && CutFits(text, k, maxChars, json, m)
    {
      if k <= |text| {
        assert IsCut(text, k, m, CutAt(text, k, m));
      }
    }
    if keep > 0 {
      assert IsCut(text, keep, m, CutAt(text, keep, m)) && SomeCutFits(text, keep, maxChars, json, m);
    }
  }

  /** More than `most` characters cannot be kept. */
  ghost predicate NoneAbove(text: string, most: nat, maxChars: nat, json: bool, m: Marker) {
    forall k: nat :: most < k <= |text| ==> !CutFits(text, k, maxChars, json, m)
  }

  lemma NoneAboveBudget(text: string, maxChars: nat, json: bool, m: Marker)
    ensures NoneAbove(text, maxChars, maxChars, json, m)
  {
  }

  lemma NoneAboveMiss(text: string, miss: nat, maxChars: nat, json: bool, m: Marker)
    requires 0 < miss <= |text| && !CutFits(text, miss, maxChars, json, m)
    ensures NoneAbove(text, miss - 1, maxChars, json, m)
  {
    forall k: nat | miss - 1 < k <= |text| ensures !CutFits(text, k, maxChars, json, m) {
      if CutFits(text, k, maxChars, json, m) {
        ShorterFits(text, miss, k, maxChars, json, m);
      }
    }
  }

  lemma LongestIs(text: string, keep: nat, from: nat, maxChars: nat, json: bool, m: Marker)
    requires keep <= from <= |text| && (keep == 0 || CutFits(text, keep, maxChars, json, m))
    requires NoneAbove(text, keep, maxChars, json, m)
    ensures Longest(text, from, maxChars, json, m) == keep
  {
  }

  /** The search as written: between nothing and as many characters as the budget has. */
  method Search(text: string, maxChars: nat, json: bool, m: Marker) returns (low: nat)
    ensures low == Longest(text, |text|, maxChars, json, m)
  {
    low := 0;
    var high: nat := if |text| <= maxChars then |text| else maxChars;
    NoneAboveBudget(text, maxChars, json, m);
    while low < high
      invariant low <= high <= |text|
      invariant low == 0 || CutFits(text, low, maxChars, json, m)
      invariant NoneAbove(text, high, maxChars, json, m)
    {
      var middle: nat := (low + high + 1) / 2;
      if Size(CutAt(text, middle, m), json) <= maxChars {
        low := middle;
      } else {
        NoneAboveMiss(text, middle, maxChars, json, m);
        high := middle - 1;
      }
    }
    LongestIs(text, low, |text|, maxChars, json, m);
  }

  method CutWith(text: string, maxChars: nat, json: bool, m: Marker) returns (cut: string)
    ensures cut == CutTo(text, maxChars, json, m)
  {
    if Size(text, json) <= maxChars {
      return text;
    }
    var keep := Search(text, maxChars, json, m);
    cut := if keep > 0 then CutAt(text, keep, m) else "";
  }
}
