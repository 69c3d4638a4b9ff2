/** The controls of a page and what a step keeps of them: the data of crates/fastbrowse-agent/src/policy.rs. */
module Controls {
  import opened Common

  datatype Operation =
    | Click | Hover | Drag | Fill | Blur | Select | Enter | Escape | Scroll | ScrollUp | Back | SwitchTab | Upload
    | Dialog | Wait | Read | Done | Navigate

  /** The operations that take a control. */
  predicate Targeted(op: Operation) {
    op.Click? || op.Hover? || op.Drag? || op.Fill? || op.Blur? || op.Select? || op.Enter? || op.Upload?
  }

  datatype Control = Control(
    id: string, name: string, role: string, operations: set<Operation>, value: Option<string>, href: Option<string>,
    focused: Option<bool>, checked: Option<bool>, selected: Option<bool>, expanded: Option<bool>,
    nextPage: Option<bool>, offscreen: bool)

  /** A link marked as leading to the next page, which can be clicked and has an address. */
  predicate PagerLink(c: Control) {
    c.role == "link" && c.nextPage == Some(true) && Click in c.operations && c.href.Some? && c.href.value != ""
  }

  /** The focused editable field. */
  predicate Leavable(c: Control) {
    c.focused == Some(true) && Fill in c.operations
  }

  /** Offered without a relevance question: such a link, or a control that is filled in, ticked, selected or open. */
  predicate Protected(c: Control) {
    || PagerLink(c)
    || (c.value.Some? && c.value.value != "")
    || c.checked == Some(true) || c.selected == Some(true) || c.expanded == Some(true)
  }

  /** What is asked about: a control that is empty, and not ticked, selected or open, and no link to a next page. */
  lemma AskedAboutIff(c: Control)
    ensures !Protected(c) <==>
              && c.value in {None, Some("")}
              && Some(true) !in {c.checked, c.selected, c.expanded}
              && (c.nextPage != Some(true) || c.role != "link" || Click !in c.operations || c.href in {None, Some("")})
  {
  }

  /** An action of the history: the two fields its place in the order of dropping depends on, and the rest. */
  datatype Entry = Entry(text: Option<string>, setting: Option<bool>, record: string)

  datatype Observation = Observation(
    controls: seq<Control>, viewportText: string, offscreenText: string, dialog: bool, tabs: nat, canGoBack: bool)

  datatype Context = Context(
    history: seq<Entry>, omittedActions: nat, notes: string, pageFacts: seq<string>,
    withheld: set<Operation>, withheldTargets: set<(Operation, string)>, hasAttachments: bool)

  // ---------------------------------------------------------------------------------------------------------------
  // Some of a sequence, in its order
  // ---------------------------------------------------------------------------------------------------------------

  ghost predicate Subseq<T>(some: seq<T>, all: seq<T>) {
    some == [] ||
    (all != [] && ((some[0] == all[0] && Subseq(some[1..], all[1..])) || Subseq(some, all[1..])))
  }

  lemma {:induction false} SubseqSelf<T>(xs: seq<T>)
    ensures Subseq(xs, xs)
  {
    if xs != [] {
      SubseqSelf(xs[1..]);
    }
  }

  lemma {:induction false} SubseqMember<T>(some: seq<T>, all: seq<T>, x: T)
    requires Subseq(some, all) && x in some
    ensures x in all
  {
    if Subseq(some, all[1..]) {
      SubseqMember(some, all[1..], x);
    } else if x != some[0] {
      SubseqMember(some[1..], all[1..], x);
    }
  }

  lemma {:induction false} SubseqLength<T>(some: seq<T>, all: seq<T>)
    requires Subseq(some, all)
    ensures |some| <= |all| && (|some| == |all| ==> some == all)
  {
    if some != [] {
      if Subseq(some, all[1..]) {
        SubseqLength(some, all[1..]);
      } else {
        SubseqLength(some[1..], all[1..]);
        assert some == [some[0]] + some[1..] && all == [all[0]] + all[1..];
      }
    }
  }

  lemma {:induction false} SubseqTrans<T>(a: seq<T>, b: seq<T>, c: seq<T>)
    requires Subseq(a, b) && Subseq(b, c)
    ensures Subseq(a, c)
    decreases |a| + |b| + |c|
  {
    if a != [] {
      if b[0] == c[0] && Subseq(b[1..], c[1..]) {
        if a[0] == b[0] && Subseq(a[1..], b[1..]) {
          SubseqTrans(a[1..], b[1..], c[1..]);
        } else {
          SubseqTrans(a, b[1..], c[1..]);
        }
      } else {
        SubseqTrans(a, b, c[1..]);
      }
    }
  }

  lemma {:induction false} FilterIsSubseq<T(!new)>(xs: seq<T>, keep: T -> bool)
    ensures Subseq(Filter(xs, keep), xs)
  {
    if xs != [] {
      FilterIsSubseq(xs[1..], keep);
      assert keep(xs[0]) ==> Filter(xs, keep)[1..] == Filter(xs[1..], keep);
      assert !keep(xs[0]) ==> Filter(xs, keep) == Filter(xs[1..], keep);
    }
  }

  /** The elements at `indices`, in order; the first of `xs` is number `from`. */
  function KeepFrom<T>(xs: seq<T>, from: nat, indices: set<nat>): seq<T> {
    if xs == [] then [] else (if from in indices then [xs[0]] else []) + KeepFrom(xs[1..], from + 1, indices)
  }

  function Keep<T>(xs: seq<T>, indices: set<nat>): seq<T> {
    KeepFrom(xs, 0, indices)
  }

  lemma {:induction false} KeepIsSubseq<T>(xs: seq<T>, from: nat, indices: set<nat>)
    ensures Subseq(KeepFrom(xs, from, indices), xs)
  {
    if xs != [] {
      KeepIsSubseq(xs[1..], from + 1, indices);
      var rest := KeepFrom(xs[1..], from + 1, indices);
      assert from in indices ==> KeepFrom(xs, from, indices)[1..] == rest;
      assert from !in indices ==> KeepFrom(xs, from, indices) == rest;
    }
  }

  lemma {:induction false} KeepCount<T>(xs: seq<T>, from: nat, indices: set<nat>)
    requires forall i :: i in indices ==> from <= i < from + |xs|
    ensures |KeepFrom(xs, from, indices)| == |indices|
  {
    if xs == [] {
      assert indices == {};
    } else {
      var rest := indices - {from};
      KeepCount(xs[1..], from + 1, rest);
      KeepIgnores(xs[1..], from + 1, indices, rest);
    }
  }

  lemma {:induction false} KeepIgnores<T>(xs: seq<T>, from: nat, a: set<nat>, b: set<nat>)
    requires forall i :: from <= i < from + |xs| ==> (i in a <==> i in b)
    ensures KeepFrom(xs, from, a) == KeepFrom(xs, from, b)
  {
    if xs != [] {
      KeepIgnores(xs[1..], from + 1, a, b);
    }
  }

  lemma {:induction false} KeepMember<T>(xs: seq<T>, from: nat, indices: set<nat>, i: nat)
    requires from <= i < from + |xs| && i in indices
    ensures xs[i - from] in KeepFrom(xs, from, indices)
  {
    if i > from {
      KeepMember(xs[1..], from + 1, indices, i);
    }
  }

  lemma {:induction false} KeepIsFilter<T(!new)>(xs: seq<T>, from: nat, indices: set<nat>, keep: T -> bool)
    requires forall i: nat :: i < |xs| ==> (from + i in indices <==> keep(xs[i]))
    ensures KeepFrom(xs, from, indices) == Filter(xs, keep)
  {
    if xs != [] {
      assert from in indices <==> keep(xs[0]) by {
        assert from + 0 == from;
      }
      forall i: nat | i < |xs[1..]| ensures from + 1 + i in indices <==> keep(xs[1..][i]) {
        assert from + (i + 1) == from + 1 + i;
      }
      KeepIsFilter(xs[1..], from + 1, indices, keep);
    }
  }
}
