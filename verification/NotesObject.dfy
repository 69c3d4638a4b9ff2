/** The `Notes` object: the operations of crates/fastbrowse-agent/src/memory.rs on its own fields, step by step. */
module NotesObject {
  import opened Common
  import opened Notes
  import R = Render
  import Shown

  /** The facts of `done` are detached, and no others. */
  ghost predicate DetachedTo(before: Facts, now: Facts, done: seq<Id>, sha: string, gone: set<Id>) {
    && now.Keys == before.Keys
    && forall k :: k in before ==>
         now[k] == if k in done && Own(before, sha, k) then Freed(before[k], gone) else before[k]
  }

  lemma DetachNext(before: Facts, now: Facts, keys: seq<Id>, i: nat, sha: string, gone: set<Id>)
    requires i < |keys| && Distinct(keys) && keys[i] in before && DetachedTo(before, now, keys[..i], sha, gone)
    ensures var freed := if Own(now, sha, keys[i]) then now[keys[i] := Freed(now[keys[i]], gone)] else now;
            DetachedTo(before, freed, keys[..i + 1], sha, gone)
  {
  }

  lemma DetachedToAll(before: Facts, now: Facts, keys: seq<Id>, sha: string, gone: set<Id>)
    requires DetachedTo(before, now, keys[..|keys|], sha, gone) && forall k :: k in before ==> k in keys
    ensures now == Detached(before, sha, gone)
  {
  }

  class NotesObject {
    const host: Host
    var keys: seq<Id>
    var facts: Facts
    var answering: seq<Id>
    var retired: set<Id>

    ghost function View(): Store
      reads this
    {
      Store(keys, facts, answering, retired)
    }

    constructor (host: Host)
      ensures this.host == host && View() == EMPTY
    {
      this.host := host;
      keys, facts, answering, retired := [], map[], [], {};
    }

    /** Stores a fact, or joins it to the one already stored for its span; says whether the span is new. */
    method Add(fact: Fact) returns (added: bool)
      modifies this
      ensures View() == AddStep(host, old(View()), fact)
      ensures added == (FactId(host, fact) !in old(facts))
    {
      var key := FactId(host, fact);
      retired := retired - {key};
      if fact.answers {
        answering := Inserted(answering, key);
      }
      added := key !in facts;
      if added {
        facts := facts[key := fact];
      } else {
        var previous := facts[key];
        var newKept := !previous.answers && fact.answers;
        var kept := if newKept then fact else previous;
        var text := kept.text;
        if !newKept && fact.answers && !Text.Contains(text, fact.text) {
          text := text + "\n" + fact.text;
        }
        var quote := if previous.evidence.Some? then Some(previous.evidence.value.quote) else None;
        if newKept && Some(previous.text) != quote && !Text.Contains(text, previous.text) {
          text := previous.text + "\n" + text;
        }
        facts := facts[key := kept.(basis := Unique(previous.basis + fact.basis), text := text)];
      }
      keys := Inserted(keys, key);
    }

    method ExpandEvidenceIds(cited: seq<Id>) returns (expanded: seq<Id>)
      ensures expanded == Expanded(keys, facts, cited)
    {
      expanded := Expand(keys, facts, cited);
    }

    /** The evidence of the facts that `SupportingIds` names. */
    method SupportingEvidence() returns (evidence: seq<Evidence>)
      ensures evidence == EvidenceOf(facts, SupportingIds(View()))
    {
      var ids := ExpandEvidenceIds(answering);
      evidence := EvidenceOf(facts, ids);
    }

    /** Whether the capture has a current quote, and the addresses such quotes and the page itself are at. */
    method FreshAddresses(url: string, sha: string) returns (found: bool, addresses: set<string>)
      requires Valid(View())
      ensures found <==> Fresh(View(), sha) != {}
      ensures addresses == Addresses(host, View(), url, sha)
    {
      found, addresses := false, {host.address(url)};
      var quoted: set<Id> := {};
      for i := 0 to |keys|
        invariant quoted == set k | k in keys[..i] && k in Fresh(View(), sha)
        invariant found <==> quoted != {}
        invariant addresses == {host.address(url)} + set k | k in quoted :: host.address(facts[k].evidence.value.url)
      {
        var key := keys[i];
        assert keys[..i + 1] == keys[..i] + [key];
        if Current(Store(keys, facts, answering, retired), key) && Own(facts, sha, key) {
          found, quoted := true, quoted + {key};
          addresses := addresses + {host.address(facts[key].evidence.value.url)};
        }
      }
      assert keys[..|keys|] == keys;
      assert quoted == Fresh(View(), sha);
    }

    /** The facts of other captures that rest on a vanished quote. */
    method StaleKeys(addresses: set<string>, sha: string, text: string) returns (gone: set<Id>)
      requires Valid(View())
      ensures gone == Stale(host, facts, addresses, sha, text)
    {
      gone := {};
      for i := 0 to |keys|
        invariant gone == set k | k in keys[..i] && k in Stale(host, facts, addresses, sha, text)
      {
        var key := keys[i];
        assert keys[..i + 1] == keys[..i] + [key];
        if !Own(facts, sha, key) {
          var stale := RestsOn(key, addresses, sha, text);
          if stale {
            gone := gone + {key};
          }
        }
      }
      assert keys[..|keys|] == keys;
    }

    /** The fresh quotes of the capture no longer rest on what was retired. */
    method Detach(sha: string, gone: set<Id>)
      requires Valid(View())
      modifies this`facts
      ensures facts == Detached(old(facts), sha, gone)
    {
      ghost var before := facts;
      for i := 0 to |keys|
        invariant DetachedTo(before, facts, keys[..i], sha, gone)
      {
        var key := keys[i];
        DetachNext(before, facts, keys, i, sha, gone);
        if Own(facts, sha, key) {
          facts := facts[key := Freed(facts[key], gone)];
        }
      }
      DetachedToAll(before, facts, keys, sha, gone);
    }

    /** The notes as a prompt shows them, cut to `maxChars`. */
    method Render(maxChars: int, preserve: bool, json: bool) returns (rendered: R.Rendered)
      requires Sound(View())
      ensures rendered == R.Returned(host, View(), R.Complete(host, View(), json), maxChars, preserve, json)
      ensures rendered.Ok? ==> Shown.Renders(host, View(), rendered.value, maxChars, preserve, json)
    {
      var store := Store(keys, facts, answering, retired);
      assert forall i :: 0 <= i < |keys| ==> keys[i] in keys;
      var complete := R.LayOut(R.RowsOf(host, store, keys), json);
      var required := ExpandEvidenceIds(answering);
      rendered := R.Fit(host, store, maxChars, complete, required, preserve, json);
      if rendered.Ok? {
        Shown.LayoutTells(host, store, keys, json);
        Shown.RenderTells(host, store, complete, maxChars, preserve, json, rendered.value);
      }
    }

    /** A read of `url` retires the quotes it no longer shows and everything that rests on them. */
    method Supersede(url: string, sha: string, text: string)
      requires Valid(View())
      modifies this
      ensures View() == SupersedeStep(host, old(View()), url, sha, text)
    {
      var found, addresses := FreshAddresses(url, sha);
      if !found {
        return;
      }
      var gone := StaleKeys(addresses, sha, text);
      retired := retired + gone;
      answering := Filter(answering, k => k !in gone);
      FilterDistinct(old(answering), k => k !in gone);
      Detach(sha, gone);
    }

    /** Whether anything `key` rests on has vanished: its own quote when it rests on nothing else. */
    method RestsOn(key: Id, addresses: set<string>, sha: string, text: string) returns (stale: bool)
      requires Valid(View()) && key in facts
      ensures stale == RestsOnVanished(host, facts, addresses, sha, text, key)
    {
      if facts[key].basis == [] {
        stale := Vanished(host, facts[key], addresses, sha, text);
        OnlyItself(facts, key);
        return;
      }
      var sources := ExpandEvidenceIds([key]);
      stale := exists k :: k in sources && k in facts && Vanished(host, facts[k], addresses, sha, text);
      forall k | k in facts ensures k in sources <==> Reaches(facts, key, k) {
        assert k in keys;
      }
    }
  }

  /** The ids reached from those cited, in key order, and after them the cited ids without a fact. */
  method Expand(keys: seq<Id>, facts: Facts, citedKeys: seq<Id>) returns (expanded: seq<Id>)
    ensures expanded == Expanded(keys, facts, citedKeys)
  {
    var cited := Unique(citedKeys);
    var seen := Explore(facts, cited);
    FilterAgree(keys, k => k in seen, k => ReachedFrom(facts, citedKeys, k));
    expanded := Filter(keys, k => k in seen) + Filter(cited, k => k !in facts);
  }

  /** The worklist: links may run in circles, so an id already seen is not followed again. */
  method Explore(facts: Facts, cited: seq<Id>) returns (seen: set<Id>)
    ensures forall k :: k in seen <==> ReachedFrom(facts, cited, k)
  {
    var pending := cited;
    seen := {};
    ghost var reached := Reached(facts, cited);
    while pending != []
      invariant Exploring(facts, cited, reached, seen, pending)
      decreases reached - seen, |pending|
    {
      ExploreStep(facts, cited, reached, seen, pending);
      var key := pending[|pending| - 1];
      pending := pending[..|pending| - 1];
      if key !in seen {
        seen := seen + {key};
        if key in facts {
          pending := pending + facts[key].basis;
        }
      }
    }
    SeenIsReached(facts, cited, seen);
  }

  /** The quotes of the facts named, in that order: number `i` of the facts with one has number `i` of the quotes. */
  lemma {:induction false} EvidenceIs(facts: Facts, ids: seq<Id>)
    ensures var quoted := Filter(ids, k => k in facts && facts[k].evidence.Some?);
            && |EvidenceOf(facts, ids)| == |quoted|
            && forall i :: 0 <= i < |quoted| ==>
                 quoted[i] in facts && facts[quoted[i]].evidence == Some(EvidenceOf(facts, ids)[i])
  {
    if ids != [] {
      EvidenceIs(facts, ids[1..]);
    }
  }

  function EvidenceOf(facts: Facts, ids: seq<Id>): seq<Evidence> {
    if ids == [] then []
    else
      (if ids[0] in facts && facts[ids[0]].evidence.Some? then [facts[ids[0]].evidence.value] else [])
      + EvidenceOf(facts, ids[1..])
  }

  ghost function Mentioned(facts: Facts, cited: seq<Id>): set<Id> {
    (set k | k in cited) + (set k, b | k in facts && b in facts[k].basis :: b)
  }

  /** The ids reached from the cited ones, as a finite set. */
  ghost function Reached(facts: Facts, cited: seq<Id>): (reached: set<Id>)
    ensures Closed(facts, reached)
    ensures forall k :: k in cited ==> k in reached
    ensures forall k :: k in reached ==> ReachedFrom(facts, cited, k)
  {
    var reached := set k | k in Mentioned(facts, cited) && ReachedFrom(facts, cited, k);
    assert forall k :: k in cited ==> k in reached by {
      forall k | k in cited ensures ReachedFrom(facts, cited, k) {
        ReachesSelf(facts, k);
      }
    }
    assert Closed(facts, reached) by {
      forall a, b | a in reached && Linked(facts, a, b) ensures b in reached {
        var root :| root in cited && Reaches(facts, root, a);
        ReachesNext(facts, root, a, b);
      }
    }
    reached
  }

  /** What the worklist keeps: only reached ids are seen or pending, and every link out of a seen id was followed. */
  ghost predicate Exploring(facts: Facts, cited: seq<Id>, reached: set<Id>, seen: set<Id>, pending: seq<Id>) {
    && (forall k :: k in cited ==> k in seen || k in pending)
    && (forall k :: k in pending ==> k in reached)
    && seen <= reached
    && (forall a, b :: a in seen && Linked(facts, a, b) ==> b in seen || b in pending)
  }

  lemma ExploreStep(facts: Facts, cited: seq<Id>, reached: set<Id>, seen: set<Id>, pending: seq<Id>)
    requires Exploring(facts, cited, reached, seen, pending) && Closed(facts, reached) && pending != []
    ensures var key, rest := pending[|pending| - 1], pending[..|pending| - 1];
            if key in seen then Exploring(facts, cited, reached, seen, rest)
            else
              && Exploring(facts, cited, reached, seen + {key},
                           if key in facts then rest + facts[key].basis else rest)
              && reached - (seen + {key}) < reached - seen
  {
  }

  lemma SeenIsReached(facts: Facts, cited: seq<Id>, seen: set<Id>)
    requires Exploring(facts, cited, Reached(facts, cited), seen, [])
    ensures forall k :: k in seen <==> ReachedFrom(facts, cited, k)
  {
    forall k | ReachedFrom(facts, cited, k) ensures k in seen {
      var a :| a in cited && Reaches(facts, a, k);
      var p :| PathBetween(facts, p, a, k);
      ClosedHoldsPath(facts, seen, p);
    }
  }
}
