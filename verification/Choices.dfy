/**
 What a step asks the model to choose among, and what its answers come to: `index_controls`, `build_request`,
 `evaluate`, `destination_pick` and `find_control` of crates/fastbrowse-agent/src/policy.rs.
 */
module Choices {
  import opened Common
  import opened Controls
  import Text

  // ---------------------------------------------------------------------------------------------------------------
  // Groups
  // ---------------------------------------------------------------------------------------------------------------

  function AtLeastOne(size: nat): nat {
    if size == 0 then 1 else size
  }

  /** `items` in runs of `size`; the last may be shorter. */
  function Chunks<T>(items: seq<T>, size: nat): (chunks: seq<seq<T>>)
    ensures forall g :: 0 <= g < |chunks| ==> 0 < |chunks[g]| <= AtLeastOne(size)
  {
    var n := AtLeastOne(size);
    if |items| <= n then (if items == [] then [] else [items]) else [items[..n]] + Chunks(items[n..], size)
  }

  /** Which run of `n` item number `k` falls in. */
  function RunOf(k: nat, n: nat): nat
    requires n > 0
  {
    if k < n then 0 else 1 + RunOf(k - n, n)
  }

  /** Item number `k` is in its group, and the groups hold nothing else. */
  lemma {:induction false} ChunkAt<T>(items: seq<T>, size: nat, k: nat)
    requires k < |items|
    ensures var g := RunOf(k, AtLeastOne(size));
            g < |Chunks(items, size)| && items[k] in Chunks(items, size)[g]
  {
    var n := AtLeastOne(size);
    if |items| > n && k >= n {
      ChunkAt(items[n..], size, k - n);
      assert Chunks(items, size)[RunOf(k, n)] == Chunks(items[n..], size)[RunOf(k - n, n)];
    } else {
      assert items[k] == Chunks(items, size)[0][k];
    }
  }

  lemma {:induction false} ChunkFrom<T>(items: seq<T>, size: nat, g: nat, i: nat) returns (k: nat)
    requires g < |Chunks(items, size)| && i < |Chunks(items, size)[g]|
    ensures k < |items| && RunOf(k, AtLeastOne(size)) == g && Chunks(items, size)[g][i] == items[k]
  {
    var n := AtLeastOne(size);
    if |items| <= n || g == 0 {
      k := i;
    } else {
      var j := ChunkFrom(items[n..], size, g - 1, i);
      k := j + n;
      assert Chunks(items, size)[g] == Chunks(items[n..], size)[g - 1];
    }
  }

  /** Where group `g` starts. */
  function Start(g: nat, n: nat): nat {
    if g == 0 then 0 else n + Start(g - 1, n)
  }

  lemma {:induction false} StartIs(g: nat, n: nat)
    ensures Start(g, n) == g * n
  {
    if g > 0 {
      StartIs(g - 1, n);
    }
  }

  lemma DropThenTake<T>(items: seq<T>, n: nat, from: nat, to: nat)
    requires n <= |items| && from <= to <= |items| - n
    ensures items[n..][from..to] == items[n + from..n + to]
  {
  }

  function EndOf(count: nat, start: nat, n: nat): nat {
    if start + n <= count then start + n else count
  }

  /** Group `g` holds the items from its start on, as many as the size unless they run out. */
  lemma {:induction false} ChunkHolds<T>(items: seq<T>, size: nat, g: nat)
    requires g < |Chunks(items, size)|
    ensures var start := Start(g, AtLeastOne(size)); var end := EndOf(|items|, start, AtLeastOne(size));
            start < |items| && Chunks(items, size)[g] == items[start..end]
    decreases g
  {
    var n := AtLeastOne(size);
    if g > 0 {
      var start := Start(g - 1, n);
      ChunkHolds(items[n..], size, g - 1);
      assert Chunks(items, size)[g] == Chunks(items[n..], size)[g - 1];
      DropThenTake(items, n, start, EndOf(|items| - n, start, n));
    }
  }

  /** The groups are few enough to be offered exactly when the items are. */
  lemma {:induction false} ChunkCount<T>(items: seq<T>, size: nat, limit: nat)
    ensures |Chunks(items, size)| <= limit <==> |items| <= AtLeastOne(size) * limit
    decreases |items|
  {
    var n := AtLeastOne(size);
    if |items| > n {
      if limit > 0 {
        ChunkCount(items[n..], size, limit - 1);
        assert n * limit == n * (limit - 1) + n;
      }
    } else if limit > 0 {
      assert n * limit >= n;
    }
  }

  ghost predicate DistinctIds(controls: seq<Control>) {
    forall i, j :: 0 <= i < j < |controls| ==> controls[i].id != controls[j].id
  }

  /** Every candidate is in one group and no other, so one pair of answers leads to it. */
  lemma EachInOneGroup(candidates: seq<Control>, size: nat, k: nat) returns (g: nat)
    requires DistinctIds(candidates) && k < |candidates|
    ensures g < |Chunks(candidates, size)|
    ensures FindControl(Chunks(candidates, size)[g], candidates[k].id) == Ok(candidates[k])
    ensures forall other :: 0 <= other < |Chunks(candidates, size)| && other != g ==>
              FindControl(Chunks(candidates, size)[other], candidates[k].id) == Err(Invalid)
  {
    var n, chunks := AtLeastOne(size), Chunks(candidates, size);
    ChunkAt(candidates, size, k);
    g := RunOf(k, n);
    FoundInGroup(candidates, size, g, k);
    forall other | 0 <= other < |chunks| && other != g
      ensures FindControl(chunks[other], candidates[k].id) == Err(Invalid)
    {
      forall i: nat | i < |chunks[other]| ensures chunks[other][i].id != candidates[k].id {
        var at := ChunkFrom(candidates, size, other, i);
      }
      FindControlIs(chunks[other], candidates[k].id);
    }
  }

  lemma FoundInGroup(candidates: seq<Control>, size: nat, g: nat, k: nat)
    requires DistinctIds(candidates) && k < |candidates| && g < |Chunks(candidates, size)|
    requires candidates[k] in Chunks(candidates, size)[g]
    ensures FindControl(Chunks(candidates, size)[g], candidates[k].id) == Ok(candidates[k])
  {
    var group := Chunks(candidates, size)[g];
    FindControlIs(group, candidates[k].id);
    forall i: nat | i < |group| && group[i].id == candidates[k].id ensures group[i] == candidates[k] {
      var at := ChunkFrom(candidates, size, g, i);
    }
  }

  // ---------------------------------------------------------------------------------------------------------------
  // Finding what was chosen
  // ---------------------------------------------------------------------------------------------------------------

  datatype Refusal = InputTooLarge | RetriesExhausted | Refused

  /** A refusal of the provider's, or an answer that names nothing offered. */
  datatype Failure = Provider(refusal: Refusal) | Invalid

  function FindControl(candidates: seq<Control>, id: string): Result<Control, Failure> {
    if candidates == [] then Err(Invalid)
    else if candidates[0].id == id then Ok(candidates[0])
    else FindControl(candidates[1..], id)
  }

  lemma {:induction false} FindControlIs(candidates: seq<Control>, id: string)
    ensures FindControl(candidates, id).Ok? ==>
              FindControl(candidates, id).value in candidates && FindControl(candidates, id).value.id == id
    ensures FindControl(candidates, id) == Err(Invalid) <==>
              forall i :: 0 <= i < |candidates| ==> candidates[i].id != id
    ensures FindControl(candidates, id).Ok? || FindControl(candidates, id) == Err(Invalid)
  {
    if candidates != [] {
      FindControlIs(candidates[1..], id);
      if candidates[0].id != id {
        assert forall i :: 1 <= i < |candidates| ==> candidates[i] == candidates[1..][i - 1];
      }
    }
  }

  /** A number read as Python reads a list index: one below zero counts from the end. */
  function GroupIndex(number: Option<int>, count: nat): (index: Result<nat, Failure>)
    ensures index.Ok? ==> index.value < count && (number == Some(index.value) || number == Some(index.value - count))
    ensures index.Err? <==> number == None || !(0 - count <= number.value < count)
  {
    if number == None then Err(Invalid)
    else
      var index := if number.value < 0 then number.value + count else number.value;
      if 0 <= index < count then Ok(index) else Err(Invalid)
  }

  // ---------------------------------------------------------------------------------------------------------------
  // Links to one address share their votes
  // ---------------------------------------------------------------------------------------------------------------

  datatype ChoiceAnswer = ChoiceAnswer(choice: string, confidence: real, probabilities: map<string, real>)

  function Chance(answer: ChoiceAnswer, c: Control): real {
    if c.id in answer.probabilities then answer.probabilities[c.id] else 0.0
  }

  /** What the candidates that lead to `href` hold between them. */
  function Votes(candidates: seq<Control>, answer: ChoiceAnswer, href: string): real {
    if candidates == [] then 0.0
    else
      var last := candidates[|candidates| - 1];
      Votes(candidates[..|candidates| - 1], answer, href)
      + if last.href == Some(href) then Chance(answer, last) else 0.0
  }

  function Sum(chances: seq<real>): real {
    if chances == [] then 0.0 else Sum(chances[..|chances| - 1]) + chances[|chances| - 1]
  }

  /** The probability the model gave each candidate, and none to one it left out. */
  function Chances(candidates: seq<Control>, answer: ChoiceAnswer): seq<real> {
    seq(|candidates|, i requires 0 <= i < |candidates| =>
      if candidates[i].id in answer.probabilities then answer.probabilities[candidates[i].id] else 0.0)
  }

  lemma SumNext(kept: seq<Control>, answer: ChoiceAnswer, c: Control)
    ensures Sum(Chances(kept + [c], answer)) == Sum(Chances(kept, answer)) + Chance(answer, c)
  {
    assert Chances(kept + [c], answer)[..|kept|] == Chances(kept, answer);
  }

  lemma FilterLast(before: seq<Control>, c: Control, keep: Control -> bool)
    ensures Filter(before + [c], keep) == if keep(c) then Filter(before, keep) + [c] else Filter(before, keep)
  {
    FilterAppend(before, [c], keep);
    assert Filter([c], keep) == if keep(c) then [c] else [];
  }

  /** The candidates that lead to an address. */
  function Leading(candidates: seq<Control>, href: string): seq<Control> {
    Filter(candidates, (c: Control) => c.href == Some(href))
  }

  lemma LeadingNext(before: seq<Control>, c: Control, href: string)
    ensures Leading(before + [c], href)
         == if c.href == Some(href) then Leading(before, href) + [c] else Leading(before, href)
  {
    FilterLast(before, c, (c: Control) => c.href == Some(href));
  }

  /** An address holds the probabilities of the candidates that lead to it, added up. */
  lemma {:induction false} VotesAre(candidates: seq<Control>, answer: ChoiceAnswer, href: string)
    ensures Votes(candidates, answer, href) == Sum(Chances(Leading(candidates, href), answer))
  {
    if candidates != [] {
      var before, last := candidates[..|candidates| - 1], candidates[|candidates| - 1];
      assert candidates == before + [last];
      VotesAre(before, answer, href);
      LeadingNext(before, last, href);
      SumNext(Leading(before, href), answer, last);
    }
  }

  function Share(candidates: seq<Control>, answer: ChoiceAnswer, c: Control): real {
    match c.href
    case Some(href) => Votes(candidates, answer, href)
    case None => Chance(answer, c)
  }

  /** What the model's own choice holds, and nothing when that was not offered. */
  function ChosenShare(candidates: seq<Control>, answer: ChoiceAnswer): real {
    match FindControl(candidates, answer.choice)
    case Ok(c) => Share(candidates, answer, c)
    case Err(_) => 0.0
  }

  function VoteFor(votes: map<string, real>, href: string): real {
    if href in votes then votes[href] else 0.0
  }

  ghost predicate Counted(votes: map<string, real>, candidates: seq<Control>, answer: ChoiceAnswer) {
    && (forall href :: VoteFor(votes, href) == Votes(candidates, answer, href))
    && (forall c :: c in candidates && c.href.Some? ==> c.href.value in votes)
  }

  lemma CountedNext(votes: map<string, real>, candidates: seq<Control>, answer: ChoiceAnswer, c: Control)
    requires Counted(votes, candidates, answer)
    ensures c.href.Some? ==>
              Counted(votes[c.href.value := VoteFor(votes, c.href.value) + Chance(answer, c)], candidates + [c], answer)
    ensures c.href.None? ==> Counted(votes, candidates + [c], answer)
  {
    var longer := candidates + [c];
    assert longer[..|candidates|] == candidates;
    if c.href.Some? {
      var more := votes[c.href.value := VoteFor(votes, c.href.value) + Chance(answer, c)];
      forall href ensures VoteFor(more, href) == Votes(longer, answer, href) {
        assert c.href == Some(href) <==> c.href.value == href;
        assert VoteFor(votes, href) == Votes(candidates, answer, href);
      }
    }
  }

  method CountVotes(candidates: seq<Control>, answer: ChoiceAnswer) returns (votes: map<string, real>)
    ensures Counted(votes, candidates, answer)
  {
    votes := map[];
    for i := 0 to |candidates|
      invariant Counted(votes, candidates[..i], answer)
    {
      var c := candidates[i];
      CountedNext(votes, candidates[..i], answer, c);
      assert candidates[..i + 1] == candidates[..i] + [c];
      if c.href.Some? {
        votes := votes[c.href.value := VoteFor(votes, c.href.value) + Chance(answer, c)];
      }
    }
    assert candidates[..|candidates|] == candidates;
  }

  function ShareAt(candidates: seq<Control>, answer: ChoiceAnswer, i: nat): real
    requires i < |candidates|
  {
    Share(candidates, answer, candidates[i])
  }

  /** The last of the first `n` candidates that hold the most. */
  ghost predicate HoldsMost(candidates: seq<Control>, answer: ChoiceAnswer, best: nat, n: nat)
    requires n <= |candidates|
  {
    best < n && forall i: nat :: i < n ==>
      && ShareAt(candidates, answer, i) <= ShareAt(candidates, answer, best)
      && (i > best ==> ShareAt(candidates, answer, i) < ShareAt(candidates, answer, best))
  }

  /** What an answer comes to: the model's choice, unless another candidate's address holds more than the choice's. */
  ghost predicate IsPick(candidates: seq<Control>, answer: ChoiceAnswer, id: string) {
    var chosen := ChosenShare(candidates, answer);
    if forall i: nat :: i < |candidates| ==> ShareAt(candidates, answer, i) <= chosen
    then id == answer.choice
    else exists best: nat :: HoldsMost(candidates, answer, best, |candidates|) && id == candidates[best].id
  }

  /** There is one pick. */
  lemma PickIsUnique(candidates: seq<Control>, answer: ChoiceAnswer, a: string, b: string)
    requires IsPick(candidates, answer, a) && IsPick(candidates, answer, b)
    ensures a == b
  {
  }

  /** A choice that was not offered gives way to any candidate that holds something. */
  lemma UnofferedGivesWay(candidates: seq<Control>, answer: ChoiceAnswer, id: string, i: nat)
    requires IsPick(candidates, answer, id) && i < |candidates| && ShareAt(candidates, answer, i) > 0.0
    requires forall j :: 0 <= j < |candidates| ==> candidates[j].id != answer.choice
    ensures exists best :: 0 <= best < |candidates| && candidates[best].id == id
  {
    FindControlIs(candidates, answer.choice);
  }

  method ShareOf(votes: map<string, real>, ghost candidates: seq<Control>, answer: ChoiceAnswer, c: Control)
    returns (share: real)
    requires Counted(votes, candidates, answer) && c in candidates
    ensures share == Share(candidates, answer, c)
  {
    if c.href.Some? {
      assert VoteFor(votes, c.href.value) == Votes(candidates, answer, c.href.value);
      return votes[c.href.value];
    }
    share := Chance(answer, c);
  }

  method DestinationPick(candidates: seq<Control>, answer: ChoiceAnswer) returns (id: string)
    ensures IsPick(candidates, answer, id)
  {
    var votes := CountVotes(candidates, answer);
    var chosen := 0.0;
    FindControlIs(candidates, answer.choice);
    var found := FindControl(candidates, answer.choice);
    if found.Ok? {
      chosen := ShareOf(votes, candidates, answer, found.value);
    }
    if candidates == [] {
      return answer.choice;
    }
    var best, most := 0, 0.0;
    most := ShareOf(votes, candidates, answer, candidates[0]);
    for i := 1 to |candidates|
      invariant HoldsMost(candidates, answer, best, i) && most == ShareAt(candidates, answer, best)
    {
      var share := ShareOf(votes, candidates, answer, candidates[i]);
      assert share == ShareAt(candidates, answer, i);
      if share >= most {
        best, most := i, share;
      }
    }
    id := if most > chosen then candidates[best].id else answer.choice;
  }

  // ---------------------------------------------------------------------------------------------------------------
  // What is offered
  // ---------------------------------------------------------------------------------------------------------------

  /** `Blur` goes by focus and by what was withheld, any other operation by the operations the control has. */
  predicate Lists(context: Context, c: Control, op: Operation) {
    if op == Blur then Leavable(c) && (Blur, c.id) !in context.withheldTargets else op in c.operations
  }

  function Candidates(controls: seq<Control>, context: Context, op: Operation): seq<Control> {
    Filter(controls, c => Lists(context, c, op))
  }

  /**
   An operation's targets: to leave a field, the focused editable ones not withheld; else the controls that list it.
   */
  lemma CandidatesIff(controls: seq<Control>, context: Context, op: Operation, c: Control)
    ensures c in Candidates(controls, context, op) <==>
              c in controls &&
              if op == Blur
              then Fill in c.operations && c.focused == Some(true) && (Blur, c.id) !in context.withheldTargets
              else op in c.operations
  {
  }

  method Joined(indexed: map<Operation, seq<Control>>, op: Operation, c: Control)
    returns (more: map<Operation, seq<Control>>)
    ensures more == indexed[op := (if op in indexed then indexed[op] else []) + [c]]
  {
    more := indexed[op := (if op in indexed then indexed[op] else []) + [c]];
  }

  function Listed(indexed: map<Operation, seq<Control>>, op: Operation): seq<Control> {
    if op in indexed then indexed[op] else []
  }

  /** The index agrees with `Candidates` for every operation, and holds no empty list. */
  ghost predicate Indexes(indexed: map<Operation, seq<Control>>, controls: seq<Control>, context: Context) {
    forall op :: Listed(indexed, op) == Candidates(controls, context, op) && (op in indexed ==> indexed[op] != [])
  }

  lemma CandidatesNext(controls: seq<Control>, i: nat, context: Context, op: Operation)
    requires i < |controls|
    ensures Candidates(controls[..i + 1], context, op)
         == Candidates(controls[..i], context, op) + if Lists(context, controls[i], op) then [controls[i]] else []
  {
    assert controls[..i + 1] == controls[..i] + [controls[i]];
    FilterAppend(controls[..i], [controls[i]], c => Lists(context, c, op));
    assert [controls[i]][1..] == [];
  }

  /** One control joins the list of every operation it can be the target of. */
  method IndexOne(indexed: map<Operation, seq<Control>>, c: Control, context: Context)
    returns (more: map<Operation, seq<Control>>)
    ensures forall op :: Listed(more, op) == Listed(indexed, op) + if Lists(context, c, op) then [c] else []
    ensures forall op :: op in more && op !in indexed ==> more[op] != []
    ensures forall op :: op in indexed ==> op in more
  {
    more := indexed;
    var todo := c.operations - {Blur};
    while todo != {}
      invariant todo <= c.operations - {Blur}
      invariant forall op ::
        Listed(more, op) == Listed(indexed, op) + if op in c.operations - {Blur} - todo then [c] else []
      invariant forall op :: op in more && op !in indexed ==> more[op] != []
      invariant forall op :: op in indexed ==> op in more
      decreases todo
    {
      var op :| op in todo;
      todo := todo - {op};
      more := Joined(more, op, c);
    }
    if Leavable(c) && (Blur, c.id) !in context.withheldTargets {
      more := Joined(more, Blur, c);
    }
  }

  method IndexControls(controls: seq<Control>, context: Context) returns (indexed: map<Operation, seq<Control>>)
    ensures Indexes(indexed, controls, context)
  {
    indexed := map[];
    for i := 0 to |controls|
      invariant Indexes(indexed, controls[..i], context)
    {
      ghost var before := indexed;
      indexed := IndexOne(indexed, controls[i], context);
      forall op
        ensures Listed(indexed, op) == Candidates(controls[..i + 1], context, op)
        ensures op in indexed ==> indexed[op] != []
      {
        CandidatesNext(controls, i, context, op);
        assert op in before ==> before[op] != [];
      }
    }
    assert controls[..|controls|] == controls;
  }

  predicate IsOffered(
    observation: Observation, context: Context, indexed: set<Operation>, urls: seq<string>, op: Operation)
  {
    if observation.dialog then op == Dialog
    else
      op !in context.withheld &&
      match op
      case Navigate => urls != []
      case Click | Hover | Fill | Blur | Select | Enter | Drag => op in indexed
      case Upload => context.hasAttachments && op in indexed
      case SwitchTab => observation.tabs > 1
      case Back => observation.canGoBack
      case Escape | Scroll | ScrollUp | Wait | Read | Done => true
      case Dialog => false
  }

  const ALL := [
    Click, Hover, Drag, Fill, Blur, Select, Enter, Escape, Scroll, ScrollUp, Back, SwitchTab, Upload, Dialog, Wait,
    Read, Done, Navigate]

  /** A step's choices: `addresses` and `drops` are asked in one question, or in groups when there are too many. */
  datatype Request = Request(
    offered: seq<Operation>, targets: map<Operation, seq<Control>>, groups: map<Operation, seq<seq<Control>>>,
    destinations: seq<Control>, destinationGroups: seq<seq<Control>>,
    addresses: seq<string>, addressGroups: seq<seq<string>>)

  datatype Page = Page(observation: Observation, context: Context, urls: seq<string>, groupSize: nat, options: nat)

  function GroupSize(page: Page): nat {
    if page.groupSize <= page.options then page.groupSize else page.options
  }

  /** Every group but the last is as large as the configuration and the options to choose by allow, and one at least. */
  lemma GroupsAreFull<T>(page: Page, items: seq<T>, g: nat)
    requires g + 1 < |Chunks(items, GroupSize(page))|
    ensures |Chunks(items, GroupSize(page))[g]|
         == if page.groupSize == 0 || page.options == 0 then 1
            else if page.groupSize <= page.options then page.groupSize else page.options
  {
    ChunkHolds(items, GroupSize(page), g);
    ChunkHolds(items, GroupSize(page), g + 1);
  }

  /** The operations that have a target. */
  ghost function Targets(controls: seq<Control>, context: Context): set<Operation> {
    set op: Operation | Candidates(controls, context, op) != []
  }

  /** Each operation offered with its targets, in one list or in groups. */
  ghost predicate Splits(
    page: Page, controls: seq<Control>, offered: seq<Operation>,
    targets: map<Operation, seq<Control>>, groups: map<Operation, seq<seq<Control>>>)
  {
    && (forall op :: op in offered && Targeted(op) ==>
          SplitFor(page, Candidates(controls, page.context, op), op, targets, groups))
    && (forall op :: op in targets || op in groups ==> op in offered && Targeted(op))
  }

  predicate SplitFor(
    page: Page, candidates: seq<Control>, op: Operation,
    targets: map<Operation, seq<Control>>, groups: map<Operation, seq<seq<Control>>>)
  {
    if |candidates| <= page.options then op in targets && targets[op] == candidates && op !in groups
    else op in groups && groups[op] == Chunks(candidates, GroupSize(page)) && op !in targets
  }

  /** What a request offers the model when it is asked about `controls`. */
  ghost predicate Offers(page: Page, controls: seq<Control>, r: Request) {
    && (forall op :: op in r.offered <==>
          IsOffered(page.observation, page.context, Targets(controls, page.context), page.urls, op))
    && Splits(page, controls, r.offered, r.targets, r.groups)
    && r.destinations == Filter(controls, (c: Control) => c.name != "")
    && r.destinationGroups ==
       (if Drag in r.offered && |r.destinations| > page.options then Chunks(r.destinations, GroupSize(page)) else [])
    && r.addresses == (if Navigate in r.offered && |page.urls| <= page.options then page.urls else [])
    && r.addressGroups ==
       (if Navigate in r.offered && |page.urls| > page.options then Chunks(page.urls, GroupSize(page)) else [])
  }

  /**
   Every target of an operation offered can be chosen in one way: in one question when they are as few as the options to
   choose by, and else in groups, the group first. The places to drop something are split the same way, and addresses.
   */
  lemma SplitWhenTooMany(page: Page, controls: seq<Control>, r: Request, op: Operation)
    requires Offers(page, controls, r) && op in r.offered
    ensures Targeted(op) ==>
              var targets := Candidates(controls, page.context, op);
              if |targets| <= page.options then op in r.targets && r.targets[op] == targets && op !in r.groups
              else op !in r.targets && op in r.groups && Flat(r.groups[op]) == targets
    ensures !Targeted(op) ==> op !in r.targets && op !in r.groups
    ensures op == Drag ==>
              && (forall c :: c in r.destinations <==> c in controls && c.name != "")
              && (if |r.destinations| <= page.options then r.destinationGroups == []
                  else Flat(r.destinationGroups) == r.destinations)
    ensures op == Navigate ==>
              if |page.urls| <= page.options then r.addresses == page.urls && r.addressGroups == []
              else r.addresses == [] && Flat(r.addressGroups) == page.urls
  {
    ChunksJoin(Candidates(controls, page.context, op), GroupSize(page));
    ChunksJoin(r.destinations, GroupSize(page));
    ChunksJoin(page.urls, GroupSize(page));
  }

  function Flat<T>(groups: seq<seq<T>>): seq<T> {
    if groups == [] then [] else groups[0] + Flat(groups[1..])
  }

  /** The groups hold the items, in order. */
  lemma {:induction false} ChunksJoin<T>(items: seq<T>, size: nat)
    ensures Flat(Chunks(items, size)) == items
    decreases |items|
  {
    var n := AtLeastOne(size);
    if |items| > n {
      ChunksJoin(items[n..], size);
      assert Chunks(items, size)[1..] == Chunks(items[n..], size);
    } else if items != [] {
      assert Flat([items]) == items + [];
    }
  }

  lemma IsOfferedIff(
    observation: Observation, context: Context, indexed: set<Operation>, urls: seq<string>, op: Operation)
    ensures IsOffered(observation, context, indexed, urls, op) <==>
              if observation.dialog then op == Dialog
              else
                && op != Dialog && op !in context.withheld && (Targeted(op) ==> op in indexed)
                && (op == Upload ==> context.hasAttachments) && (op == Navigate ==> urls != [])
                && (op == SwitchTab ==> observation.tabs > 1) && (op == Back ==> observation.canGoBack)
  {
  }

  /**
   While a dialog is open nothing but it is offered; otherwise what is not withheld and the page has the means for.
   */
  lemma OfferedIff(page: Page, controls: seq<Control>, r: Request, op: Operation)
    requires Offers(page, controls, r)
    ensures page.observation.dialog ==> (op in r.offered <==> op == Dialog)
    ensures !page.observation.dialog ==>
              (op in r.offered <==>
                 && op != Dialog && op !in page.context.withheld
                 && (Targeted(op) ==> Candidates(controls, page.context, op) != [])
                 && (op == Upload ==> page.context.hasAttachments) && (op == Navigate ==> page.urls != [])
                 && (op == SwitchTab ==> page.observation.tabs > 1) && (op == Back ==> page.observation.canGoBack))
  {
    IsOfferedIff(page.observation, page.context, Targets(controls, page.context), page.urls, op);
  }

  /** The operation's question, put beside those there are. */
  method SplitOne(
    page: Page, candidates: seq<Control>, op: Operation,
    targets: map<Operation, seq<Control>>, groups: map<Operation, seq<seq<Control>>>)
    returns (moreTargets: map<Operation, seq<Control>>, moreGroups: map<Operation, seq<seq<Control>>>)
    requires op !in targets && op !in groups
    ensures SplitFor(page, candidates, op, moreTargets, moreGroups)
    ensures moreTargets - {op} == targets && moreGroups - {op} == groups
  {
    moreTargets, moreGroups := targets, groups;
    if |candidates| <= page.options {
      moreTargets := targets[op := candidates];
    } else {
      moreGroups := groups[op := Chunks(candidates, GroupSize(page))];
    }
  }

  lemma SplitsNext(
    page: Page, controls: seq<Control>, done: seq<Operation>, op: Operation,
    targets: map<Operation, seq<Control>>, groups: map<Operation, seq<seq<Control>>>,
    moreTargets: map<Operation, seq<Control>>, moreGroups: map<Operation, seq<seq<Control>>>)
    requires Splits(page, controls, done, targets, groups) && op !in done && Targeted(op)
    requires SplitFor(page, Candidates(controls, page.context, op), op, moreTargets, moreGroups)
    requires moreTargets - {op} == targets && moreGroups - {op} == groups
    ensures Splits(page, controls, done + [op], moreTargets, moreGroups)
  {
  }

  method SplitTargets(
    page: Page, ghost controls: seq<Control>, indexed: map<Operation, seq<Control>>, offered: seq<Operation>)
    returns (targets: map<Operation, seq<Control>>, groups: map<Operation, seq<seq<Control>>>)
    requires Indexes(indexed, controls, page.context)
    requires Distinct(offered) && forall op :: op in offered && Targeted(op) ==> op in indexed
    ensures Splits(page, controls, offered, targets, groups)
  {
    targets, groups := map[], map[];
    for i := 0 to |offered|
      invariant Splits(page, controls, offered[..i], targets, groups)
    {
      var op := offered[i];
      assert offered[..i + 1] == offered[..i] + [op];
      if Targeted(op) {
        assert indexed[op] == Listed(indexed, op);
        var moreTargets, moreGroups := SplitOne(page, indexed[op], op, targets, groups);
        SplitsNext(page, controls, offered[..i], op, targets, groups, moreTargets, moreGroups);
        targets, groups := moreTargets, moreGroups;
      }
    }
    assert offered[..|offered|] == offered;
  }

  lemma IndexedAreTargets(indexed: map<Operation, seq<Control>>, controls: seq<Control>, context: Context)
    requires Indexes(indexed, controls, context)
    ensures indexed.Keys == Targets(controls, context)
  {
  }

  function Number(op: Operation): nat {
    match op
    case Click => 0
    case Hover => 1
    case Drag => 2
    case Fill => 3
    case Blur => 4
    case Select => 5
    case Enter => 6
    case Escape => 7
    case Scroll => 8
    case ScrollUp => 9
    case Back => 10
    case SwitchTab => 11
    case Upload => 12
    case Dialog => 13
    case Wait => 14
    case Read => 15
    case Done => 16
    case Navigate => 17
  }

  /** A list of all eighteen, each once. */
  lemma EveryOperation()
    ensures (forall op :: op in ALL) && Distinct(ALL)
  {
    forall op ensures op in ALL {
      assert ALL[Number(op)] == op;
    }
    forall i | 0 <= i < |ALL| ensures Number(ALL[i]) == i {
      assert i < 9 || i >= 9;
    }
    assert forall i, j :: 0 <= i < j < |ALL| ==> Number(ALL[i]) != Number(ALL[j]);
  }

  method OfferedOperations(
    all: seq<Operation>, page: Page, ghost controls: seq<Control>, indexed: map<Operation, seq<Control>>)
    returns (offered: seq<Operation>)
    requires (forall op :: op in all) && Distinct(all)
    requires indexed.Keys == Targets(controls, page.context)
    ensures Distinct(offered)
    ensures forall op :: op in offered <==>
              IsOffered(page.observation, page.context, Targets(controls, page.context), page.urls, op)
  {
    if page.observation.dialog {
      return [Dialog];
    }
    var keys := indexed.Keys;
    FilterDistinct(all, op => IsOffered(page.observation, page.context, keys, page.urls, op));
    offered := Filter(all, op => IsOffered(page.observation, page.context, keys, page.urls, op));
  }

  method BuildRequest(page: Page, controls: seq<Control>) returns (r: Request)
    ensures Offers(page, controls, r)
  {
    EveryOperation();
    r := RequestFor(ALL, page, controls);
  }

  method RequestFor(all: seq<Operation>, page: Page, controls: seq<Control>) returns (r: Request)
    requires (forall op :: op in all) && Distinct(all)
    ensures Offers(page, controls, r)
  {
    var indexed := IndexControls(controls, page.context);
    IndexedAreTargets(indexed, controls, page.context);
    var offered := OfferedOperations(all, page, controls, indexed);
    forall op | op in offered && Targeted(op) ensures op in indexed {
      assert op in Targets(controls, page.context);
    }
    var targets, groups := SplitTargets(page, controls, indexed, offered);
    var drops := Filter(controls, (c: Control) => c.name != "");
    r := Request(
      offered, targets, groups, drops,
      if Drag in offered && |drops| > page.options then Chunks(drops, GroupSize(page)) else [],
      if Navigate in offered && |page.urls| <= page.options then page.urls else [],
      if Navigate in offered && |page.urls| > page.options then Chunks(page.urls, GroupSize(page)) else []);
  }

  // ---------------------------------------------------------------------------------------------------------------
  // What the model's answers come to
  // ---------------------------------------------------------------------------------------------------------------

  /** The questions of a step, and the answers, whatever they are. */
  datatype Key =
    | TheOperation | TargetOf(op: Operation) | GroupOf(op: Operation) | TheDestination | DestinationGroup | TheTab
    | TheAddress | AddressGroup

  datatype Answer = Choice(answer: ChoiceAnswer) | Probability(p: real)

  type Answers = map<Key, Answer>

  datatype Reply = Answered(answers: Answers) | Refusal(refusal: Refusal)

  /** The replies the provider makes to a run's requests, by their number, and how a choice is read as a number. */
  datatype Model = Model(replies: nat -> Reply, operation: string -> Option<Operation>, number: string -> Option<int>)

  datatype Decision = Decision(
    operation: Operation, url: Option<string>, target: Option<Control>, tabId: Option<string>,
    destination: Option<Control>, operationConfidence: real, targetConfidence: Option<real>)

  function ChoiceOf(answers: Answers, key: Key): (answer: Result<ChoiceAnswer, Failure>)
    ensures answer.Ok? <==> key in answers && answers[key].Choice?
  {
    if key in answers && answers[key].Choice? then Ok(answers[key].answer) else Err(Invalid)
  }

  function Ask(model: Model, n: nat): Result<Answers, Failure> {
    match model.replies(n)
    case Answered(answers) => Ok(answers)
    case Refusal(refusal) => Err(Provider(refusal))
  }

  /** The address an answer names: they are offered under their numbers. */
  function AddressNamed(urls: seq<string>, from: nat, choice: string): (url: Option<string>)
    ensures url.Some? ==> url.value in urls
  {
    if urls == [] then None
    else if Text.Decimal(from) == choice then Some(urls[0])
    else AddressNamed(urls[1..], from + 1, choice)
  }

  /** An answer that gives a number. */
  predicate Gives(choice: string, n: nat) {
    choice == Text.Decimal(n)
  }

  lemma {:induction false} AddressIsNumbered(urls: seq<string>, from: nat, choice: string)
    ensures forall n: nat :: from <= n < from + |urls| && Gives(choice, n) ==>
              AddressNamed(urls, from, choice) == Some(urls[n - from])
    ensures AddressNamed(urls, from, choice).Some? ==> exists n: nat :: from <= n < from + |urls| && Gives(choice, n)
    decreases |urls|
  {
    if urls != [] {
      AddressIsNumbered(urls[1..], from + 1, choice);
      forall n: nat | from <= n < from + |urls| && Gives(choice, n)
        ensures AddressNamed(urls, from, choice) == Some(urls[n - from])
      {
        if Gives(choice, from) {
          Text.DecimalOnce(from, n);
        }
      }
      if !Gives(choice, from) && AddressNamed(urls, from, choice).Some? {
        var n: nat :| from + 1 <= n < from + 1 + |urls[1..]| && Gives(choice, n);
        assert from <= n < from + |urls| && Gives(choice, n);
      } else if Gives(choice, from) {
        assert from <= from < from + |urls| && Gives(choice, from);
      }
    }
  }

  /** An answer names the address at the number it gives, and no other answer names one. */
  lemma AddressNamedIff(urls: seq<string>, choice: string, url: string)
    ensures AddressNamed(urls, 0, choice) == Some(url) <==>
              exists n: nat :: n < |urls| && Gives(choice, n) && urls[n] == url
  {
    AddressIsNumbered(urls, 0, choice);
  }

  /** What was chosen, and how sure the model was of it. */
  datatype Picked<T> = Picked(value: T, confidence: real)

  function ConfidenceIn(answers: Answers, key: Key): real {
    if key in answers && answers[key].Choice? then answers[key].answer.confidence else 0.0
  }

  /** Of a choice in two requests, the product of its two answers' confidences. */
  function Confidence(grouped: bool, answers: Answers, group: Key, inner: Key, model: Model, n: nat): real {
    if !grouped then ConfidenceIn(answers, inner)
    else
      match Ask(model, n)
      case Ok(second) => ConfidenceIn(answers, group) * ConfidenceIn(second, inner)
      case Err(_) => 0.0
  }

  /** Why nothing comes of the replies up to number `n`: the provider refused that one, or it names nothing offered. */
  function Why(model: Model, n: nat): Failure {
    match Ask(model, n)
    case Ok(_) => Invalid
    case Err(failure) => failure
  }

  /** The answers name one of `count` groups. */
  predicate GroupNamed(answers: Answers, group: Key, count: nat, model: Model) {
    ChoiceOf(answers, group).Ok? && GroupIndex(model.number(ChoiceOf(answers, group).value.choice), count).Ok?
  }

  /** The number of the next reply: a group that was named is asked about in a request of its own. */
  function AskedBy(grouped: bool, answers: Answers, group: Key, count: nat, model: Model, n: nat): nat {
    if grouped && GroupNamed(answers, group, count, model) then n + 1 else n
  }

  /** A choice among groups: the group by its number, then one of its members, asked for in a request of its own. */
  method PickGroup<T>(groups: seq<seq<T>>, answers: Answers, group: Key, inner: Key, model: Model, n: nat)
    returns (members: Result<seq<T>, Failure>, answer: ChoiceAnswer, groupConfidence: real, asked: nat)
    ensures asked == AskedBy(true, answers, group, |groups|, model, n)
    ensures members.Ok? <==>
              && GroupNamed(answers, group, |groups|, model)
              && Ask(model, n).Ok? && ChoiceOf(Ask(model, n).value, inner).Ok?
    ensures members.Ok? ==>
              && members.value
                 == groups[GroupIndex(model.number(ChoiceOf(answers, group).value.choice), |groups|).value]
              && groupConfidence == ChoiceOf(answers, group).value.confidence
              && ChoiceOf(Ask(model, n).value, inner) == Ok(answer)
    ensures members.Err? ==> members.error == if asked == n then Invalid else Why(model, n)
  {
    answer, groupConfidence, asked := ChoiceAnswer("", 0.0, map[]), 0.0, n;
    var chosen := ChoiceOf(answers, group);
    if chosen.Err? {
      return Err(chosen.error), answer, groupConfidence, asked;
    }
    var index := GroupIndex(model.number(chosen.value.choice), |groups|);
    if index.Err? {
      return Err(index.error), answer, groupConfidence, asked;
    }
    var second := Ask(model, n);
    asked := n + 1;
    if second.Err? {
      return Err(second.error), answer, groupConfidence, asked;
    }
    var member := ChoiceOf(second.value, inner);
    if member.Err? {
      return Err(member.error), answer, groupConfidence, asked;
    }
    members, answer, groupConfidence := Ok(groups[index.value]), member.value, chosen.value.confidence;
  }

  /** `c` is the member that a group's own request names, of the group the first answers name. */
  predicate NamedInGroup(
    groups: seq<seq<Control>>, answers: Answers, group: Key, inner: Key, model: Model, n: nat, c: Control)
  {
    && ChoiceOf(answers, group).Ok? && Ask(model, n).Ok? && ChoiceOf(Ask(model, n).value, inner).Ok?
    && var index := GroupIndex(model.number(ChoiceOf(answers, group).value.choice), |groups|);
       index.Ok? && FindControl(groups[index.value], ChoiceOf(Ask(model, n).value, inner).value.choice) == Ok(c)
  }

  /** What the answers come to as the target of `op`. */
  ghost predicate IsTarget(r: Request, op: Operation, answers: Answers, model: Model, n: nat, c: Control) {
    if op in r.targets then
      && ChoiceOf(answers, TargetOf(op)).Ok?
      && exists id ::
           IsPick(r.targets[op], ChoiceOf(answers, TargetOf(op)).value, id) && FindControl(r.targets[op], id) == Ok(c)
    else op in r.groups && NamedInGroup(r.groups[op], answers, GroupOf(op), TargetOf(op), model, n, c)
  }

  ghost predicate HasTarget(r: Request, op: Operation, answers: Answers, model: Model, n: nat) {
    exists c :: IsTarget(r, op, answers, model, n, c)
  }

  function TargetAskedBy(r: Request, op: Operation, answers: Answers, model: Model, n: nat): nat {
    if op !in r.targets && op in r.groups then AskedBy(true, answers, GroupOf(op), |r.groups[op]|, model, n) else n
  }

  lemma NoOtherPick(candidates: seq<Control>, answer: ChoiceAnswer, id: string)
    requires IsPick(candidates, answer, id) && FindControl(candidates, id).Err?
    ensures forall other, c :: IsPick(candidates, answer, other) ==> FindControl(candidates, other) != Ok(c)
  {
  }

  method PickTarget(r: Request, op: Operation, answers: Answers, model: Model, n: nat)
    returns (picked: Result<Option<Picked<Control>>, Failure>, asked: nat)
    ensures asked == TargetAskedBy(r, op, answers, model, n)
    ensures picked.Ok? ==> (picked.value.Some? <==> op in r.targets || op in r.groups)
    ensures picked.Ok? && picked.value.Some? ==>
              && IsTarget(r, op, answers, model, n, picked.value.value.value)
              && picked.value.value.confidence
                 == Confidence(op !in r.targets, answers, GroupOf(op), TargetOf(op), model, n)
    ensures picked.Err? ==>
              && picked.error == (if asked == n then Invalid else Why(model, n))
              && (op in r.targets || op in r.groups) && !HasTarget(r, op, answers, model, n)
  {
    asked := n;
    if op in r.targets {
      var answer := ChoiceOf(answers, TargetOf(op));
      if answer.Err? {
        return Err(answer.error), asked;
      }
      var id := DestinationPick(r.targets[op], answer.value);
      var found := FindControl(r.targets[op], id);
      FindControlIs(r.targets[op], id);
      if found.Err? {
        NoOtherPick(r.targets[op], answer.value, id);
        return Err(found.error), asked;
      }
      return Ok(Some(Picked(found.value, answer.value.confidence))), asked;
    }
    if op in r.groups {
      var group, answer, doubt;
      group, answer, doubt, asked := PickGroup(r.groups[op], answers, GroupOf(op), TargetOf(op), model, n);
      if group.Err? {
        return Err(group.error), asked;
      }
      var found := FindControl(group.value, answer.choice);
      FindControlIs(group.value, answer.choice);
      if found.Err? {
        return Err(found.error), asked;
      }
      return Ok(Some(Picked(found.value, doubt * answer.confidence))), asked;
    }
    picked := Ok(None);
  }

  /** What the answers come to as the place a drag ends. */
  predicate IsDestination(r: Request, answers: Answers, model: Model, n: nat, c: Control) {
    if r.destinationGroups == [] then
      ChoiceOf(answers, TheDestination).Ok?
      && FindControl(r.destinations, ChoiceOf(answers, TheDestination).value.choice) == Ok(c)
    else NamedInGroup(r.destinationGroups, answers, DestinationGroup, TheDestination, model, n, c)
  }

  method PickDestination(r: Request, answers: Answers, model: Model, n: nat)
    returns (picked: Result<Picked<Control>, Failure>, asked: nat)
    ensures asked
         == AskedBy(r.destinationGroups != [], answers, DestinationGroup, |r.destinationGroups|, model, n)
    ensures picked.Ok? ==>
              && IsDestination(r, answers, model, n, picked.value.value)
              && picked.value.confidence
                 == Confidence(r.destinationGroups != [], answers, DestinationGroup, TheDestination, model, n)
    ensures picked.Err? ==>
              && picked.error == (if asked == n then Invalid else Why(model, n))
              && forall c :: !IsDestination(r, answers, model, n, c)
  {
    asked := n;
    if r.destinationGroups == [] {
      var answer := ChoiceOf(answers, TheDestination);
      if answer.Err? {
        return Err(answer.error), asked;
      }
      var found := FindControl(r.destinations, answer.value.choice);
      FindControlIs(r.destinations, answer.value.choice);
      return if found.Ok? then Ok(Picked(found.value, answer.value.confidence)) else Err(found.error), asked;
    }
    var group, answer, doubt;
    group, answer, doubt, asked :=
      PickGroup(r.destinationGroups, answers, DestinationGroup, TheDestination, model, n);
    if group.Err? {
      return Err(group.error), asked;
    }
    var found := FindControl(group.value, answer.choice);
    FindControlIs(group.value, answer.choice);
    picked := if found.Ok? then Ok(Picked(found.value, doubt * answer.confidence)) else Err(found.error);
  }

  /** What the answers come to as the address to open. */
  predicate IsAddress(r: Request, answers: Answers, model: Model, n: nat, url: string) {
    if r.addressGroups == [] then
      ChoiceOf(answers, TheAddress).Ok?
      && AddressNamed(r.addresses, 0, ChoiceOf(answers, TheAddress).value.choice) == Some(url)
    else
      && ChoiceOf(answers, AddressGroup).Ok? && Ask(model, n).Ok? && ChoiceOf(Ask(model, n).value, TheAddress).Ok?
      && var index := GroupIndex(model.number(ChoiceOf(answers, AddressGroup).value.choice), |r.addressGroups|);
         index.Ok?
         && AddressNamed(r.addressGroups[index.value], 0, ChoiceOf(Ask(model, n).value, TheAddress).value.choice)
            == Some(url)
  }

  method PickAddress(r: Request, answers: Answers, model: Model, n: nat)
    returns (picked: Result<Picked<string>, Failure>, asked: nat)
    ensures asked == AskedBy(r.addressGroups != [], answers, AddressGroup, |r.addressGroups|, model, n)
    ensures picked.Ok? ==>
              && IsAddress(r, answers, model, n, picked.value.value)
              && picked.value.confidence
                 == Confidence(r.addressGroups != [], answers, AddressGroup, TheAddress, model, n)
    ensures picked.Err? ==>
              && picked.error == (if asked == n then Invalid else Why(model, n))
              && forall url :: !IsAddress(r, answers, model, n, url)
  {
    asked := n;
    if r.addressGroups == [] {
      var answer := ChoiceOf(answers, TheAddress);
      if answer.Err? {
        return Err(answer.error), asked;
      }
      var url := AddressNamed(r.addresses, 0, answer.value.choice);
      return if url.Some? then Ok(Picked(url.value, answer.value.confidence)) else Err(Invalid), asked;
    }
    var group, answer, doubt;
    group, answer, doubt, asked := PickGroup(r.addressGroups, answers, AddressGroup, TheAddress, model, n);
    if group.Err? {
      return Err(group.error), asked;
    }
    var url := AddressNamed(group.value, 0, answer.choice);
    picked := if url.Some? then Ok(Picked(url.value, doubt * answer.confidence)) else Err(Invalid);
  }

  /** The number of the reply after those the operation's target or address takes. */
  function AimAskedBy(r: Request, op: Operation, answers: Answers, model: Model, n: nat): nat {
    if op in r.targets || op in r.groups then TargetAskedBy(r, op, answers, model, n)
    else if op == Navigate then AskedBy(r.addressGroups != [], answers, AddressGroup, |r.addressGroups|, model, n)
    else n
  }

  /** The operation the answers name. */
  function Named(answers: Answers, model: Model): Option<Operation> {
    match ChoiceOf(answers, TheOperation)
    case Ok(answer) => model.operation(answer.choice)
    case Err(_) => None
  }

  /** What an operation is aimed at, and how sure the model was of that: a control, a tab or an address. */
  datatype Aim = Aim(target: Option<Control>, tabId: Option<string>, url: Option<string>, confidence: Option<real>)

  function AimConfidence(r: Request, op: Operation, answers: Answers, model: Model, n: nat): Option<real> {
    if op in r.targets || op in r.groups
    then Some(Confidence(op !in r.targets, answers, GroupOf(op), TargetOf(op), model, n))
    else if op == SwitchTab then Some(ConfidenceIn(answers, TheTab))
    else if op == Navigate
    then Some(Confidence(r.addressGroups != [], answers, AddressGroup, TheAddress, model, n))
    else None
  }

  /** Exactly what the operation is aimed at, each what the answers come to. */
  ghost predicate IsAim(r: Request, op: Operation, answers: Answers, model: Model, n: nat, a: Aim) {
    && (a.target.Some? <==> op in r.targets || op in r.groups)
    && (a.target.Some? ==> IsTarget(r, op, answers, model, n, a.target.value))
    && (a.tabId.Some? <==> op == SwitchTab && a.target.None?)
    && (a.tabId.Some? ==> ChoiceOf(answers, TheTab).Ok? && a.tabId.value == ChoiceOf(answers, TheTab).value.choice)
    && (a.url.Some? <==> op == Navigate && a.target.None?)
    && (a.url.Some? ==> IsAddress(r, answers, model, n, a.url.value))
    && a.confidence == AimConfidence(r, op, answers, model, n)
  }

  function DropConfidence(r: Request, answers: Answers, model: Model, n: nat): real {
    Confidence(r.destinationGroups != [], answers, DestinationGroup, TheDestination, model, n)
  }

  function Weaker(start: Option<real>, end: real): real {
    if start.Some? && start.value <= end then start.value else end
  }

  /** `d` has just the parts its operation calls for, and a drag the smaller of the confidences of its two. */
  ghost predicate FollowsAnswers(r: Request, answers: Answers, model: Model, n: nat, d: Decision) {
    && Named(answers, model) == Some(d.operation)
    && d.operationConfidence == ConfidenceIn(answers, TheOperation)
    && var start := AimConfidence(r, d.operation, answers, model, n);
       var m := AimAskedBy(r, d.operation, answers, model, n);
    && IsAim(r, d.operation, answers, model, n, Aim(d.target, d.tabId, d.url, start))
    && (d.destination.Some? <==> d.operation == Drag)
    && (d.destination.Some? ==> IsDestination(r, answers, model, m, d.destination.value))
    && d.targetConfidence
       == if d.operation == Drag then Some(Weaker(start, DropConfidence(r, answers, model, m))) else start
  }

  /** `d` is what the replies from number `n` on come to. */
  ghost predicate Follows(r: Request, model: Model, n: nat, d: Decision) {
    Ask(model, n).Ok? && FollowsAnswers(r, Ask(model, n).value, model, n + 1, d)
  }

  /** The number of the reply after the last one that answers naming `op` take. */
  ghost function NextAfter(r: Request, op: Operation, answers: Answers, model: Model, n: nat): (next: nat)
    ensures n <= next <= n + 2
  {
    var m := AimAskedBy(r, op, answers, model, n);
    if op == Drag && (op in r.targets || op in r.groups ==> HasTarget(r, op, answers, model, n)) then
      AskedBy(r.destinationGroups != [], answers, DestinationGroup, |r.destinationGroups|, model, m)
    else m
  }

  /** The number of the reply after the last one a request takes: a group is asked about only once it was named. */
  ghost function NextReply(r: Request, model: Model, n: nat): (next: nat)
    ensures n < next <= n + 3
  {
    match Ask(model, n)
    case Err(_) => n + 1
    case Ok(answers) =>
      match Named(answers, model)
      case None => n + 1
      case Some(op) => NextAfter(r, op, answers, model, n + 1)
  }

  /** What a request's replies come to: the decision that follows from them, or why none does. */
  ghost predicate ComesTo(r: Request, model: Model, n: nat, result: Result<Decision, Failure>) {
    match result
    case Ok(d) => Follows(r, model, n, d)
    case Err(failure) => (forall d :: !Follows(r, model, n, d)) && failure == Why(model, NextReply(r, model, n) - 1)
  }

  method PickAim(r: Request, op: Operation, answers: Answers, model: Model, n: nat)
    returns (aim: Result<Aim, Failure>, asked: nat)
    ensures asked == AimAskedBy(r, op, answers, model, n)
    ensures aim.Ok? ==> IsAim(r, op, answers, model, n, aim.value)
    ensures aim.Err? ==>
              && aim.error == (if asked == n then Invalid else Why(model, n))
              && (op in r.targets || op in r.groups || op == SwitchTab || op == Navigate)
              && (op in r.targets || op in r.groups ==> !HasTarget(r, op, answers, model, n))
              && forall a :: !IsAim(r, op, answers, model, n, a)
  {
    var target;
    target, asked := PickTarget(r, op, answers, model, n);
    if target.Err? {
      return Err(target.error), asked;
    }
    if target.value.Some? {
      return Ok(Aim(Some(target.value.value.value), None, None, Some(target.value.value.confidence))), asked;
    }
    if op == SwitchTab {
      var tab := ChoiceOf(answers, TheTab);
      if tab.Err? {
        return Err(tab.error), asked;
      }
      return Ok(Aim(None, Some(tab.value.choice), None, Some(tab.value.confidence))), asked;
    }
    if op == Navigate {
      var address;
      address, asked := PickAddress(r, answers, model, n);
      if address.Err? {
        return Err(address.error), asked;
      }
      return Ok(Aim(None, None, Some(address.value.value), Some(address.value.confidence))), asked;
    }
    aim := Ok(Aim(None, None, None, None));
  }

  /** What the first answers, which name `op`, come to; `n` numbers the reply after them. */
  method EvaluateAnswers(r: Request, op: Operation, answers: Answers, model: Model, n: nat)
    returns (result: Result<Decision, Failure>, next: nat)
    requires Named(answers, model) == Some(op)
    ensures next == NextAfter(r, op, answers, model, n)
    ensures if result.Ok? then FollowsAnswers(r, answers, model, n, result.value)
            else forall d :: !FollowsAnswers(r, answers, model, n, d)
    ensures result.Err? ==> result.error == if next == n then Invalid else Why(model, next - 1)
  {
    var aim;
    aim, next := PickAim(r, op, answers, model, n);
    if aim.Err? {
      return Err(aim.error), next;
    }
    var d := Decision(
      op, aim.value.url, aim.value.target, aim.value.tabId, None, ConfidenceIn(answers, TheOperation),
      aim.value.confidence);
    if op == Drag {
      var destination;
      destination, next := PickDestination(r, answers, model, next);
      if destination.Err? {
        return Err(destination.error), next;
      }
      d := d.(destination := Some(destination.value.value),
              targetConfidence := Some(Weaker(d.targetConfidence, destination.value.confidence)));
    }
    result := Ok(d);
  }

  /** A step's request, and the follow-up a group needs; `n` numbers the first. */
  method Evaluate(r: Request, model: Model, n: nat) returns (result: Result<Decision, Failure>, next: nat)
    ensures next == NextReply(r, model, n) && ComesTo(r, model, n, result)
  {
    next := n + 1;
    var first := Ask(model, n);
    if first.Err? {
      return Err(first.error), next;
    }
    var answer := ChoiceOf(first.value, TheOperation);
    if answer.Err? {
      return Err(answer.error), next;
    }
    var named := model.operation(answer.value.choice);
    if named.None? {
      return Err(Invalid), next;
    }
    result, next := EvaluateAnswers(r, named.value, first.value, model, next);
  }

  // ---------------------------------------------------------------------------------------------------------------
  // The replies decide
  // ---------------------------------------------------------------------------------------------------------------

  lemma SplitsOnce(
    page: Page, controls: seq<Control>, offered: seq<Operation>, other: seq<Operation>,
    targets: map<Operation, seq<Control>>, groups: map<Operation, seq<seq<Control>>>,
    otherTargets: map<Operation, seq<Control>>, otherGroups: map<Operation, seq<seq<Control>>>)
    requires Splits(page, controls, offered, targets, groups)
    requires Splits(page, controls, other, otherTargets, otherGroups)
    requires forall op :: op in offered <==> op in other
    ensures targets == otherTargets && groups == otherGroups
  {
  }

  /** The address at the number answered, of as many as can be asked about at once. */
  lemma AddressIff(
    page: Page, controls: seq<Control>, r: Request, answers: Answers, model: Model, n: nat, url: string)
    requires Offers(page, controls, r) && Navigate in r.offered && |page.urls| <= page.options
    ensures IsAddress(r, answers, model, n, url) <==>
              && ChoiceOf(answers, TheAddress).Ok?
              && exists i: nat ::
                   i < |page.urls| && Gives(ChoiceOf(answers, TheAddress).value.choice, i) && page.urls[i] == url
  {
    if ChoiceOf(answers, TheAddress).Ok? {
      AddressNamedIff(page.urls, ChoiceOf(answers, TheAddress).value.choice, url);
    }
  }

  /** The group an answer names, counted from the end when it is below zero. */
  predicate NamesGroup(number: Option<int>, g: nat, count: nat) {
    g < count && (number == Some(g) || number == Some(g - count))
  }

  /** `url` is number `i` of group `g`, of groups of `size`. */
  predicate At(urls: seq<string>, size: nat, g: nat, i: nat, url: string) {
    i < size && Start(g, size) + i < |urls| && urls[Start(g, size) + i] == url
  }

  lemma InGroupIff(urls: seq<string>, size: nat, g: nat, i: nat, url: string)
    requires g < |Chunks(urls, size)|
    ensures i < |Chunks(urls, size)[g]| && Chunks(urls, size)[g][i] == url <==> At(urls, AtLeastOne(size), g, i, url)
  {
    ChunkHolds(urls, size, g);
  }

  lemma NamedInItsGroupIff(urls: seq<string>, size: nat, g: nat, choice: string, url: string)
    requires g < |Chunks(urls, size)|
    ensures AddressNamed(Chunks(urls, size)[g], 0, choice) == Some(url)
       <==> exists i: nat :: Gives(choice, i) && At(urls, AtLeastOne(size), g, i, url)
  {
    AddressNamedIff(Chunks(urls, size)[g], choice, url);
    forall i: nat
      ensures i < |Chunks(urls, size)[g]| && Chunks(urls, size)[g][i] == url
         <==> At(urls, AtLeastOne(size), g, i, url)
    {
      InGroupIff(urls, size, g, i, url);
    }
  }

  lemma NamedInAGroupIff(urls: seq<string>, size: nat, number: Option<int>, choice: string, url: string)
    ensures var groups, index := Chunks(urls, size), GroupIndex(number, |Chunks(urls, size)|);
            (index.Ok? && AddressNamed(groups[index.value], 0, choice) == Some(url)) <==>
              exists g: nat, i: nat ::
                NamesGroup(number, g, |groups|) && Gives(choice, i) && At(urls, AtLeastOne(size), g, i, url)
  {
    var groups := Chunks(urls, size);
    var index := GroupIndex(number, |groups|);
    assert forall g: nat :: NamesGroup(number, g, |groups|) <==> index == Ok(g);
    if index.Ok? {
      NamedInItsGroupIff(urls, size, index.value, choice, url);
    }
  }

  /** Of more, the address at the number answered in the group's own request, counted from the group's start. */
  lemma GroupedAddressIff(
    page: Page, controls: seq<Control>, r: Request, answers: Answers, model: Model, n: nat, url: string)
    requires Offers(page, controls, r) && Navigate in r.offered && |page.urls| > page.options
    ensures IsAddress(r, answers, model, n, url) <==>
              && ChoiceOf(answers, AddressGroup).Ok?
              && Ask(model, n).Ok? && ChoiceOf(Ask(model, n).value, TheAddress).Ok?
              && exists g: nat, i: nat ::
                   && NamesGroup(model.number(ChoiceOf(answers, AddressGroup).value.choice), g, |r.addressGroups|)
                   && Gives(ChoiceOf(Ask(model, n).value, TheAddress).value.choice, i)
                   && At(page.urls, AtLeastOne(GroupSize(page)), g, i, url)
  {
    if ChoiceOf(answers, AddressGroup).Ok? && Ask(model, n).Ok? && ChoiceOf(Ask(model, n).value, TheAddress).Ok? {
      NamedInAGroupIff(
        page.urls, GroupSize(page), model.number(ChoiceOf(answers, AddressGroup).value.choice),
        ChoiceOf(Ask(model, n).value, TheAddress).value.choice, url);
    }
  }

  /** Two requests for the same controls differ in nothing an answer is read against. */
  lemma OffersOnce(page: Page, controls: seq<Control>, a: Request, b: Request)
    requires Offers(page, controls, a) && Offers(page, controls, b)
    ensures a.(offered := b.offered) == b
  {
    SplitsOnce(page, controls, a.offered, b.offered, a.targets, a.groups, b.targets, b.groups);
  }

  lemma SameTargets(
    r: Request, offered: seq<Operation>, op: Operation, answers: Answers, model: Model, n: nat)
    ensures HasTarget(r.(offered := offered), op, answers, model, n) == HasTarget(r, op, answers, model, n)
    ensures forall c ::
              IsTarget(r.(offered := offered), op, answers, model, n, c) == IsTarget(r, op, answers, model, n, c)
  {
    var other := r.(offered := offered);
    assert forall c :: IsTarget(other, op, answers, model, n, c) == IsTarget(r, op, answers, model, n, c);
  }

  /** The operations a request offers are asked, not read back. */
  lemma SameReading(r: Request, offered: seq<Operation>, model: Model, n: nat, d: Decision)
    ensures Follows(r.(offered := offered), model, n, d) <==> Follows(r, model, n, d)
  {
  }

  lemma NextReplyAlike(r: Request, offered: seq<Operation>, model: Model, n: nat)
    ensures NextReply(r.(offered := offered), model, n) == NextReply(r, model, n)
  {
    if Ask(model, n).Ok? && Named(Ask(model, n).value, model).Some? {
      SameTargets(r, offered, Named(Ask(model, n).value, model).value, Ask(model, n).value, model, n + 1);
    }
  }

  /** What follows from a step's replies is one decision. */
  lemma FollowsOnce(r: Request, model: Model, n: nat, d: Decision, e: Decision)
    requires Follows(r, model, n, d) && Follows(r, model, n, e)
    ensures d == e
  {
  }

  /** And one result, whichever order the operations were offered in. */
  lemma ComesToOnce(
    r: Request, offered: seq<Operation>, model: Model, n: nat,
    a: Result<Decision, Failure>, b: Result<Decision, Failure>)
    requires ComesTo(r, model, n, a) && ComesTo(r.(offered := offered), model, n, b)
    ensures a == b && NextReply(r.(offered := offered), model, n) == NextReply(r, model, n)
  {
    NextReplyAlike(r, offered, model, n);
    if b.Ok? {
      SameReading(r, offered, model, n, b.value);
      if a.Ok? {
        FollowsOnce(r, model, n, a.value, b.value);
      }
    } else if a.Ok? {
      SameReading(r, offered, model, n, a.value);
    }
  }

  /** Of a choice in two requests the confidence is that of both answers together. */
  lemma GroupedIsAsSureAsBoth(answers: Answers, group: Key, inner: Key, model: Model, n: nat)
    requires ChoiceOf(answers, group).Ok? && Ask(model, n).Ok? && ChoiceOf(Ask(model, n).value, inner).Ok?
    ensures Confidence(true, answers, group, inner, model, n)
         == ChoiceOf(answers, group).value.confidence * ChoiceOf(Ask(model, n).value, inner).value.confidence
  {
  }

  /** A control picked by itself is as sure as its answer; one picked from a group, as both of its answers. */
  lemma AimIsAsSureAsItsAnswers(r: Request, model: Model, n: nat, d: Decision)
    requires Follows(r, model, n, d) && d.target.Some? && d.operation != Drag
    ensures var first, group, inner := Ask(model, n).value, GroupOf(d.operation), TargetOf(d.operation);
            d.targetConfidence
            == Some(if d.operation in r.targets then ChoiceOf(first, inner).value.confidence
                    else Confidence(true, first, group, inner, model, n + 1))
  {
  }

  /** A tab is switched to as surely as it was chosen; an operation aimed at nothing has no such confidence. */
  lemma TabIsAsSureAsItsAnswer(r: Request, model: Model, n: nat, d: Decision)
    requires Follows(r, model, n, d) && d.target.None? && d.operation != Drag
    ensures d.operation == SwitchTab ==>
              && d.tabId == Some(ChoiceOf(Ask(model, n).value, TheTab).value.choice)
              && d.targetConfidence == Some(ChoiceOf(Ask(model, n).value, TheTab).value.confidence)
    ensures d.operation != SwitchTab && d.operation != Navigate ==>
              d.tabId.None? && d.url.None? && d.targetConfidence.None?
  {
  }

  /** An address is opened as surely as it was chosen, in its group when there are groups. */
  lemma AddressIsAsSureAsItsAnswers(r: Request, model: Model, n: nat, d: Decision)
    requires Follows(r, model, n, d) && d.target.None? && d.operation == Navigate
    ensures d.url.Some? && d.tabId.None? && IsAddress(r, Ask(model, n).value, model, n + 1, d.url.value)
    ensures r.addressGroups == [] ==>
              d.targetConfidence == Some(ConfidenceIn(Ask(model, n).value, TheAddress))
    ensures r.addressGroups != [] ==>
              d.targetConfidence
              == Some(Confidence(true, Ask(model, n).value, AddressGroup, TheAddress, model, n + 1))
  {
  }

  /** Only a choice among groups takes a second reply, and only once it named a group. */
  predicate AsksAgain(r: Request, op: Operation, answers: Answers, model: Model) {
    if op in r.targets then false
    else if op in r.groups then GroupNamed(answers, GroupOf(op), |r.groups[op]|, model)
    else op == Navigate && r.addressGroups != [] && GroupNamed(answers, AddressGroup, |r.addressGroups|, model)
  }

  /** How many replies a request takes: one, one more where a group is chosen from, and another for where to drop. */
  lemma RepliesTaken(r: Request, model: Model, n: nat)
    ensures Ask(model, n).Err? || Named(Ask(model, n).value, model).None? ==> NextReply(r, model, n) == n + 1
    ensures Ask(model, n).Ok? && Named(Ask(model, n).value, model).Some? ==>
              var answers := Ask(model, n).value; var op := Named(answers, model).value;
              var aimed := n + 1 + if AsksAgain(r, op, answers, model) then 1 else 0;
              NextReply(r, model, n)
              == if op == Drag && r.destinationGroups != []
                    && GroupNamed(answers, DestinationGroup, |r.destinationGroups|, model)
                    && (op in r.targets || op in r.groups ==> HasTarget(r, op, answers, model, n + 1))
                 then aimed + 1 else aimed
  {
  }

  /** A drag is as sure as the less sure of its two ends. */
  lemma DragIsAsSureAsItsWeakerEnd(r: Request, model: Model, n: nat, d: Decision)
    requires Follows(r, model, n, d) && d.operation == Drag && Drag in r.targets && r.destinationGroups == []
    ensures var first := Ask(model, n).value;
            var start, end := ChoiceOf(first, TargetOf(Drag)).value.confidence,
                              ChoiceOf(first, TheDestination).value.confidence;
            d.targetConfidence == Some(if start <= end then start else end)
  {
  }

  // ---------------------------------------------------------------------------------------------------------------
  // Only what was offered
  // ---------------------------------------------------------------------------------------------------------------

  /** What a decision may name: a control that lists the operation, a named control to drop on, an address supplied. */
  ghost predicate OnlyOffered(page: Page, controls: seq<Control>, d: Decision) {
    && (d.target.Some? ==> d.target.value in controls && Lists(page.context, d.target.value, d.operation))
    && (d.destination.Some? ==> d.destination.value in controls && d.destination.value.name != "")
    && (d.url.Some? ==> d.url.value in page.urls)
  }

  lemma {:induction false} InChunks<T>(items: seq<T>, size: nat, g: nat, x: T)
    requires g < |Chunks(items, size)| && x in Chunks(items, size)[g]
    ensures x in items
  {
    var i :| 0 <= i < |Chunks(items, size)[g]| && Chunks(items, size)[g][i] == x;
    var k := ChunkFrom(items, size, g, i);
  }

  lemma TargetIsOffered(
    page: Page, controls: seq<Control>, r: Request, op: Operation, answers: Answers, model: Model, n: nat, c: Control)
    requires Offers(page, controls, r) && IsTarget(r, op, answers, model, n, c)
    ensures c in controls && Lists(page.context, c, op)
  {
    var candidates := Candidates(controls, page.context, op);
    if op in r.targets {
      var answer := ChoiceOf(answers, TargetOf(op)).value;
      var id :| IsPick(r.targets[op], answer, id) && FindControl(r.targets[op], id) == Ok(c);
      FindControlIs(candidates, id);
    } else {
      var index := GroupIndex(model.number(ChoiceOf(answers, GroupOf(op)).value.choice), |r.groups[op]|).value;
      FindControlIs(r.groups[op][index], ChoiceOf(Ask(model, n).value, TargetOf(op)).value.choice);
      InChunks(candidates, GroupSize(page), index, c);
    }
  }

  lemma DestinationIsOffered(
    page: Page, controls: seq<Control>, r: Request, answers: Answers, model: Model, n: nat, c: Control)
    requires Offers(page, controls, r) && IsDestination(r, answers, model, n, c)
    ensures c in controls && c.name != ""
  {
    if r.destinationGroups == [] {
      FindControlIs(r.destinations, ChoiceOf(answers, TheDestination).value.choice);
    } else {
      var number := model.number(ChoiceOf(answers, DestinationGroup).value.choice);
      var index := GroupIndex(number, |r.destinationGroups|).value;
      FindControlIs(r.destinationGroups[index], ChoiceOf(Ask(model, n).value, TheDestination).value.choice);
      InChunks(r.destinations, GroupSize(page), index, c);
    }
  }

  lemma AddressIsOffered(
    page: Page, controls: seq<Control>, r: Request, answers: Answers, model: Model, n: nat, url: string)
    requires Offers(page, controls, r) && IsAddress(r, answers, model, n, url)
    ensures url in page.urls
  {
    if r.addressGroups != [] {
      var index := GroupIndex(model.number(ChoiceOf(answers, AddressGroup).value.choice), |r.addressGroups|).value;
      InChunks(page.urls, GroupSize(page), index, url);
    }
  }

  /** Whatever the answers, a decision that follows them names only what the page and the caller offered. */
  lemma PicksOnlyWhatIsOffered(
    page: Page, controls: seq<Control>, r: Request, answers: Answers, model: Model, n: nat, d: Decision)
    requires Offers(page, controls, r) && FollowsAnswers(r, answers, model, n, d)
    ensures OnlyOffered(page, controls, d)
    ensures d.operation in r.offered && Targeted(d.operation) ==> d.target.Some?
  {
    if d.target.Some? {
      TargetIsOffered(page, controls, r, d.operation, answers, model, n, d.target.value);
    }
    if d.destination.Some? {
      DestinationIsOffered(
        page, controls, r, answers, model, AimAskedBy(r, d.operation, answers, model, n), d.destination.value);
    }
    if d.url.Some? {
      AddressIsOffered(page, controls, r, answers, model, n, d.url.value);
    }
  }
}
