/**
 The evidence notes of crates/fastbrowse-agent/src/memory.rs: facts by id in read order, which of them stand as the
 answer, which a later read retired, and the links from a fact to the facts it rests on.
 */
module Notes {
  import opened Common
  import opened Text
  import Pyre

  type Id = string
  type Digest = s: string | |s| == 64 witness seq(64, _ => '0')

  /** What the notes ask of other code: the hash, the URL reading, JSON writing and Python's `\w`. */
  datatype Host = Host(
    sha256Hex: string -> Digest,
    address: string -> string,
    dumpDerived: (string, multiset<Id>) -> string,
    isWord: char -> bool,
    quoted: (string, bool) -> string,
    dumpIds: seq<Id> -> string)

  /** A control as a line shows it, and the frame, source and control whose dump its id hashes. */
  datatype SourceControl = SourceControl(dump: string, identity: string)

  datatype Evidence = Evidence(
    url: string, sha: string, start: nat, end: nat, quote: string, control: Option<SourceControl>)

  datatype Reader = JevChoice | LlmImage

  datatype Fact = Fact(answers: bool, text: string, evidence: Option<Evidence>, basis: seq<Id>, reader: Reader)

  // ---------------------------------------------------------------------------------------------------------------
  // Ids and quotes
  // ---------------------------------------------------------------------------------------------------------------

  function Digest16(host: Host, text: string): (digest: string)
    ensures |digest| == 16
  {
    host.sha256Hex(text)[..16]
  }

  function EvidenceId(host: Host, e: Evidence): Id {
    e.sha + ":" + Decimal(e.start) + ":" + Decimal(e.end) + ":" + Digest16(host, host.address(e.url))
    + (match e.control case Some(control) => ":" + Digest16(host, control.identity) case None => "")
  }

  /** An id is a digest of the evidence, or else of the text and the basis as a multiset. */
  function FactId(host: Host, fact: Fact): (id: Id)
    ensures |id| >= 21
  {
    match fact.evidence
    case Some(e) => EvidenceId(host, e)
    case None => "derived:" + Digest16(host, host.dumpDerived(fact.text, multiset(fact.basis)))
  }

  lemma FirstAndRest(a: string, x: string)
    requires a != ""
    ensures a + x != "" && (a + x)[0] == a[0] && (a + x)[1..] == a[1..] + x
  {
  }

  /** Two texts split at their first colon. */
  lemma {:induction false} SplitAtColon(a: string, b: string, x: string, y: string)
    requires a + (":" + x) == b + (":" + y) && ':' !in a && ':' !in b
    ensures a == b && x == y
  {
    if a != "" && b != "" {
      FirstAndRest(a, ":" + x);
      FirstAndRest(b, ":" + y);
      SplitAtColon(a[1..], b[1..], x, y);
      assert a == [a[0]] + a[1..] && b == [b[0]] + b[1..];
    } else if a == "" && b == "" {
      assert (a + (":" + x))[1..] == x && (b + (":" + y))[1..] == y;
    } else if a == "" {
      FirstAndRest(b, ":" + y);
    } else {
      FirstAndRest(a, ":" + x);
    }
  }

  lemma NumbersSplit(a: nat, b: nat, c: nat, d: nat, x: string, y: string)
    requires Decimal(a) + (":" + (Decimal(b) + (":" + x))) == Decimal(c) + (":" + (Decimal(d) + (":" + y)))
    ensures a == c && b == d && x == y
  {
    SplitAtColon(Decimal(a), Decimal(c), Decimal(b) + (":" + x), Decimal(d) + (":" + y));
    SplitAtColon(Decimal(b), Decimal(d), x, y);
    DecimalOnce(a, c);
    DecimalOnce(b, d);
  }

  lemma FiveParts(a: string, b: string, c: string, d: string, e: string)
    ensures a + ":" + b + ":" + c + ":" + d + e == a + (":" + (b + (":" + (c + (":" + (d + e))))))
  {
    assert d + e == d + e && ":" + (d + e) == ":" + d + e;
    assert c + (":" + (d + e)) == c + ":" + d + e;
    assert b + (":" + (c + (":" + (d + e)))) == b + ":" + c + ":" + d + e;
  }

  function ControlDigest(host: Host, e: Evidence): Option<string> {
    match e.control
    case Some(control) => Some(Digest16(host, control.identity))
    case None => None
  }

  lemma DigestsSplit(a: string, b: string, x: Option<string>, y: Option<string>)
    requires |a| == |b|
    requires a + (if x.Some? then ":" + x.value else "") == b + (if y.Some? then ":" + y.value else "")
    ensures a == b && x == y
  {
    var left := a + if x.Some? then ":" + x.value else "";
    var right := b + if y.Some? then ":" + y.value else "";
    assert left[..|a|] == a && right[..|b|] == b;
    assert x.Some? ==> left[|a| + 1..] == x.value;
    assert y.Some? ==> right[|b| + 1..] == y.value;
  }

  function IdRest(host: Host, e: Evidence): string {
    Digest16(host, host.address(e.url)) + if e.control.Some? then ":" + ControlDigest(host, e).value else ""
  }

  function IdPlaces(host: Host, e: Evidence): string {
    Decimal(e.start) + (":" + (Decimal(e.end) + (":" + IdRest(host, e))))
  }

  lemma EvidenceIdParts(host: Host, e: Evidence)
    ensures EvidenceId(host, e) == e.sha + (":" + IdPlaces(host, e)) && |IdPlaces(host, e)| >= 20
  {
    var tail := if e.control.Some? then ":" + ControlDigest(host, e).value else "";
    FiveParts(e.sha, Decimal(e.start), Decimal(e.end), Digest16(host, host.address(e.url)), tail);
  }

  lemma NotDerived(host: Host, e: Evidence, digest: string)
    requires ':' !in e.sha && |digest| == 16
    ensures EvidenceId(host, e) != "derived:" + digest
  {
    EvidenceIdParts(host, e);
    if EvidenceId(host, e) == "derived:" + digest {
      assert "derived:" + digest == "derived" + (":" + digest);
      SplitAtColon(e.sha, "derived", IdPlaces(host, e), digest);
    }
  }

  /** A capture is named by a digest, which has no colon. */
  predicate NamesItsCapture(fact: Fact) {
    fact.evidence.Some? ==> ':' !in fact.evidence.value.sha
  }

  /** An id tells spans apart: by capture, place, address and control, and from any derived fact. */
  lemma IdTellsTheSpan(host: Host, a: Fact, b: Fact)
    requires NamesItsCapture(a) && NamesItsCapture(b) && FactId(host, a) == FactId(host, b)
    ensures a.evidence.Some? <==> b.evidence.Some?
    ensures a.evidence.Some? ==>
              var e, f := a.evidence.value, b.evidence.value;
              && e.sha == f.sha && e.start == f.start && e.end == f.end
              && Digest16(host, host.address(e.url)) == Digest16(host, host.address(f.url))
              && ControlDigest(host, e) == ControlDigest(host, f)
  {
    if a.evidence.Some? && b.evidence.Some? {
      var e, f := a.evidence.value, b.evidence.value;
      EvidenceIdParts(host, e);
      EvidenceIdParts(host, f);
      SplitAtColon(e.sha, f.sha, IdPlaces(host, e), IdPlaces(host, f));
      NumbersSplit(e.start, e.end, f.start, f.end, IdRest(host, e), IdRest(host, f));
      DigestsSplit(Digest16(host, host.address(e.url)), Digest16(host, host.address(f.url)),
                   ControlDigest(host, e), ControlDigest(host, f));
    } else if a.evidence.Some? {
      NotDerived(host, a.evidence.value, Digest16(host, host.dumpDerived(b.text, multiset(b.basis))));
    } else if b.evidence.Some? {
      NotDerived(host, b.evidence.value, Digest16(host, host.dumpDerived(a.text, multiset(a.basis))));
    }
  }

  /** A conclusion has one id, whatever order what it rests on is named in. */
  lemma DerivedIdIgnoresOrder(host: Host, a: Fact, b: Fact)
    requires a.evidence.None? && b.evidence.None? && a.text == b.text && multiset(a.basis) == multiset(b.basis)
    ensures FactId(host, a) == FactId(host, b)
  {
  }

  predicate WholeWordAt(isWord: char -> bool, text: string, quote: string, at: nat) {
    && IsAt(text, quote, at)
    && !(at > 0 && isWord(text[at - 1]))
    && !(at + |quote| < |text| && isWord(text[at + |quote|]))
  }

  /** `quote` stands somewhere in `text` with no word character next to its own at either end. */
  predicate Shows(isWord: char -> bool, text: string, quote: string) {
    exists at: nat :: at <= |text| && WholeWordAt(isWord, text, quote, at)
  }

  /** The scan as written: the character before each start is carried along, and the end of the text is a start too. */
  method ScanFor(isWord: char -> bool, text: string, quote: string) returns (shown: bool)
    ensures shown == Shows(isWord, text, quote)
  {
    var previous: Option<char> := None;
    for at := 0 to |text| + 1
      invariant previous == if at == 0 then None else if at <= |text| then Some(text[at - 1]) else None
      invariant forall s: nat :: s < at ==> !WholeWordAt(isWord, text, quote, s)
    {
      if !(previous.Some? && isWord(previous.value)) && IsAt(text, quote, at) {
        var after := at + |quote|;
        if !(after < |text| && isWord(text[after])) {
          assert WholeWordAt(isWord, text, quote, at);
          return true;
        }
      }
      previous := if at < |text| then Some(text[at]) else None;
    }
    return false;
  }

  /** `(?<!\w)quote(?!\w)` */
  function WholeWordPattern(isWord: char -> bool, quote: string): Pyre.Pat {
    Pyre.Seq([Pyre.Behind(isWord, true)] + ([Pyre.Lit(quote)] + [Pyre.Ahead(Pyre.Class(isWord), true)]))
  }

  lemma WholeWordMatches(isWord: char -> bool, text: string, quote: string, at: nat)
    requires at <= |text|
    ensures Pyre.MatchAt(WholeWordPattern(isWord, quote), text, at).Some? <==> WholeWordAt(isWord, text, quote, at)
  {
    var behind, lit, ahead := Pyre.Behind(isWord, true), Pyre.Lit(quote), Pyre.Ahead(Pyre.Class(isWord), true);
    assert Pyre.Ends(behind, text, at) == if Pyre.CharBefore(isWord, text, at) then [] else [at];
    assert Pyre.Ends(lit, text, at) == if IsAt(text, quote, at) then [at + |quote|] else [];
    if IsAt(text, quote, at) {
      var end := at + |quote|;
      assert Pyre.Ends(ahead, text, end) == if end < |text| && isWord(text[end]) then [] else [end];
    }
    Pyre.BeforeEnds(behind, [lit] + [ahead], text, at);
    Pyre.PairEnds(lit, ahead, text, at);
  }

  /** Trying every start decides the same thing as `re.search` with the pattern. */
  lemma ShowsIsSearch(isWord: char -> bool, text: string, quote: string)
    ensures Shows(isWord, text, quote) <==> Pyre.Search(WholeWordPattern(isWord, quote), text, 0).Some?
  {
    var p := WholeWordPattern(isWord, quote);
    forall at: nat | at <= |text|
      ensures Pyre.MatchAt(p, text, at).Some? <==> WholeWordAt(isWord, text, quote, at)
    {
      WholeWordMatches(isWord, text, quote, at);
    }
    var found := Pyre.Search(p, text, 0);
    if found.Some? {
      assert WholeWordAt(isWord, text, quote, found.value.start);
    }
  }

  // ---------------------------------------------------------------------------------------------------------------
  // Chains of basis links
  // ---------------------------------------------------------------------------------------------------------------

  type Facts = map<Id, Fact>

  ghost predicate Linked(facts: Facts, a: Id, b: Id) {
    a in facts && b in facts[a].basis
  }

  ghost predicate Path(facts: Facts, p: seq<Id>) {
    p != [] && forall i :: 0 <= i < |p| - 1 ==> Linked(facts, p[i], p[i + 1])
  }

  ghost predicate PathBetween(facts: Facts, p: seq<Id>, a: Id, b: Id) {
    Path(facts, p) && p[0] == a && p[|p| - 1] == b
  }

  /** `a` rests on `b`, directly, through other facts, or by being it. The links may run in circles. */
  ghost predicate Reaches(facts: Facts, a: Id, b: Id) {
    exists p :: PathBetween(facts, p, a, b)
  }

  ghost predicate ReachedFrom(facts: Facts, roots: seq<Id>, b: Id) {
    exists a :: a in roots && Reaches(facts, a, b)
  }

  ghost predicate Closed(facts: Facts, ids: set<Id>) {
    forall a, b :: a in ids && Linked(facts, a, b) ==> b in ids
  }

  lemma ReachesSelf(facts: Facts, a: Id)
    ensures Reaches(facts, a, a)
  {
    assert PathBetween(facts, [a], a, a);
  }

  lemma ReachesNext(facts: Facts, a: Id, b: Id, c: Id)
    requires Reaches(facts, a, b) && Linked(facts, b, c)
    ensures Reaches(facts, a, c)
  {
    var p :| PathBetween(facts, p, a, b);
    assert PathBetween(facts, p + [c], a, c);
  }

  lemma PathTail(facts: Facts, p: seq<Id>)
    requires Path(facts, p) && |p| > 1
    ensures Linked(facts, p[0], p[1]) && Path(facts, p[1..])
  {
  }

  lemma {:induction false} ClosedHoldsPath(facts: Facts, ids: set<Id>, p: seq<Id>)
    requires Closed(facts, ids) && Path(facts, p) && p[0] in ids
    ensures p[|p| - 1] in ids
  {
    if |p| > 1 {
      PathTail(facts, p);
      ClosedHoldsPath(facts, ids, p[1..]);
    }
  }

  /** Dropping links only takes paths away. */
  lemma PathUnderFewerLinks(fewer: Facts, facts: Facts, p: seq<Id>)
    requires Path(fewer, p)
    requires forall a, b :: Linked(fewer, a, b) ==> Linked(facts, a, b)
    ensures Path(facts, p)
  {
  }

  lemma OnlyItself(facts: Facts, key: Id)
    requires key in facts && facts[key].basis == []
    ensures forall k :: Reaches(facts, key, k) <==> k == key
  {
    ReachesSelf(facts, key);
    forall k | Reaches(facts, key, k) ensures k == key {
      var p :| PathBetween(facts, p, key, k);
      if |p| > 1 {
        PathTail(facts, p);
      }
    }
  }

  // ---------------------------------------------------------------------------------------------------------------
  // The store, and what each operation does to it
  // ---------------------------------------------------------------------------------------------------------------

  /** `keys` is the insertion order of `facts`, and `answering` an insertion-ordered set. */
  datatype Store = Store(keys: seq<Id>, facts: Facts, answering: seq<Id>, retired: set<Id>)

  const EMPTY := Store([], map[], [], {})

  ghost predicate Valid(s: Store) {
    && Distinct(s.keys) && Distinct(s.answering)
    && (forall k :: k in s.keys <==> k in s.facts)
  }

  predicate Current(s: Store, key: Id) {
    key in s.facts && key !in s.retired && (!s.facts[key].answers || key in s.answering)
  }

  predicate Own(facts: Facts, sha: string, key: Id) {
    key in facts && facts[key].evidence.Some? && facts[key].evidence.value.sha == sha
  }

  /** `xs` without its repeats: every value keeps the place where it first stands. */
  function Unique(xs: seq<Id>): (once: seq<Id>)
    ensures forall x :: x in once <==> x in xs
    ensures Distinct(once)
  {
    if xs == [] then []
    else
      var last, before := xs[|xs| - 1], Unique(xs[..|xs| - 1]);
      assert xs == xs[..|xs| - 1] + [last];
      if last in before then before else before + [last]
  }

  /** What comes later never changes what is listed before it. */
  lemma {:induction false} UniqueGrows(xs: seq<Id>, n: nat)
    requires n <= |xs|
    ensures Unique(xs[..n]) <= Unique(xs)
    decreases |xs|
  {
    if n < |xs| {
      UniqueGrows(xs[..|xs| - 1], n);
      assert xs[..|xs| - 1][..n] == xs[..n];
    } else {
      assert xs[..n] == xs;
    }
  }

  /** What `add` stores when the id is already known. */
  function Merged(previous: Fact, fact: Fact): Fact {
    var newKept := !previous.answers && fact.answers;
    var kept := if newKept then fact else previous;
    var text :=
      if !newKept then
        if fact.answers && !Contains(previous.text, fact.text) then previous.text + "\n" + fact.text else previous.text
      else if !(previous.evidence.Some? && previous.evidence.value.quote == previous.text)
              && !Contains(fact.text, previous.text) then previous.text + "\n" + fact.text
      else fact.text;
    kept.(basis := Unique(previous.basis + fact.basis), text := text)
  }

  function Inserted(ids: seq<Id>, id: Id): seq<Id> {
    if id in ids then ids else ids + [id]
  }

  function AddStep(host: Host, s: Store, fact: Fact): Store {
    var key := FactId(host, fact);
    Store(
      Inserted(s.keys, key),
      s.facts[key := if key in s.facts then Merged(s.facts[key], fact) else fact],
      if fact.answers then Inserted(s.answering, key) else s.answering,
      s.retired - {key})
  }

  /** The current facts quoted from the capture being read. */
  function Fresh(s: Store, sha: string): set<Id> {
    set k | k in s.facts && Current(s, k) && Own(s.facts, sha, k)
  }

  /** The page's address and those of the frames its fresh quotes came from. */
  function Addresses(host: Host, s: Store, url: string, sha: string): set<string> {
    {host.address(url)} + set k | k in Fresh(s, sha) :: host.address(s.facts[k].evidence.value.url)
  }

  /** A quote of another capture, at one of `addresses`, that `text` no longer shows. */
  predicate Vanished(host: Host, fact: Fact, addresses: set<string>, sha: string, text: string) {
    && fact.evidence.Some?
    && fact.evidence.value.sha != sha
    && host.address(fact.evidence.value.url) in addresses
    && !Shows(host.isWord, text, fact.evidence.value.quote)
  }

  /** `key` rests on a vanished quote. */
  ghost predicate RestsOnVanished(
    host: Host, facts: Facts, addresses: set<string>, sha: string, text: string, key: Id)
  {
    exists v :: v in facts && Vanished(host, facts[v], addresses, sha, text) && Reaches(facts, key, v)
  }

  ghost function Stale(host: Host, facts: Facts, addresses: set<string>, sha: string, text: string): set<Id> {
    set k | k in facts && !Own(facts, sha, k) && RestsOnVanished(host, facts, addresses, sha, text, k)
  }

  /** The capture's own facts without their links to what was just retired. */
  ghost function Detached(facts: Facts, sha: string, gone: set<Id>): Facts {
    map k | k in facts :: if Own(facts, sha, k) then Freed(facts[k], gone) else facts[k]
  }

  function Freed(fact: Fact, gone: set<Id>): Fact {
    fact.(basis := Filter(fact.basis, b => b !in gone))
  }

  ghost function SupersedeStep(host: Host, s: Store, url: string, sha: string, text: string): Store {
    if Fresh(s, sha) == {} then s
    else
      var gone := Stale(host, s.facts, Addresses(host, s, url, sha), sha, text);
      Store(s.keys, Detached(s.facts, sha, gone), Filter(s.answering, k => k !in gone), s.retired + gone)
  }

  /** Cited facts and what they rest on, once each in read order, then the cited ids no fact has. */
  ghost function Expanded(keys: seq<Id>, facts: Facts, cited: seq<Id>): (ids: seq<Id>)
    ensures forall k :: k in ids <==> (k in keys && ReachedFrom(facts, cited, k)) || (k in cited && k !in facts)
  {
    Filter(keys, k => ReachedFrom(facts, cited, k)) + Filter(Unique(cited), k => k !in facts)
  }

  // ---------------------------------------------------------------------------------------------------------------
  // What the two operations come to, in the notes' own terms
  // ---------------------------------------------------------------------------------------------------------------

  /** A current quote of the capture being read. */
  predicate IsFresh(s: Store, sha: string, f: Id) {
    && f in s.facts && s.facts[f].evidence.Some? && s.facts[f].evidence.value.sha == sha
    && f !in s.retired && (s.facts[f].answers ==> f in s.answering)
  }

  ghost predicate HasFresh(s: Store, sha: string) {
    exists f :: IsFresh(s, sha, f)
  }

  /** The read speaks for an address: the page's own, or that of a fresh quote. */
  ghost predicate SpeaksFor(host: Host, s: Store, url: string, sha: string, address: string) {
    || address == host.address(url)
    || exists f :: IsFresh(s, sha, f) && address == host.address(s.facts[f].evidence.value.url)
  }

  /** A quote of an earlier capture, from an address the read speaks for, that the text read does not show. */
  ghost predicate NoLongerShown(host: Host, s: Store, url: string, sha: string, text: string, v: Id) {
    && v in s.facts && s.facts[v].evidence.Some? && s.facts[v].evidence.value.sha != sha
    && SpeaksFor(host, s, url, sha, host.address(s.facts[v].evidence.value.url))
    && !Shows(host.isWord, text, s.facts[v].evidence.value.quote)
  }

  /** A fact of another capture, or of none, that rests on such a quote. */
  ghost predicate Outdated(host: Host, s: Store, url: string, sha: string, text: string, k: Id) {
    && k in s.facts && !(s.facts[k].evidence.Some? && s.facts[k].evidence.value.sha == sha)
    && exists v :: NoLongerShown(host, s, url, sha, text, v) && Reaches(s.facts, k, v)
  }

  lemma AddressesAre(host: Host, s: Store, url: string, sha: string, address: string)
    ensures address in Addresses(host, s, url, sha) <==> SpeaksFor(host, s, url, sha, address)
    ensures Fresh(s, sha) != {} <==> HasFresh(s, sha)
  {
    assert forall f :: f in Fresh(s, sha) <==> IsFresh(s, sha, f);
    if SpeaksFor(host, s, url, sha, address) && address != host.address(url) {
      var f :| IsFresh(s, sha, f) && address == host.address(s.facts[f].evidence.value.url);
      assert f in Fresh(s, sha);
    }
  }

  lemma VanishedIs(host: Host, s: Store, url: string, sha: string, text: string, v: Id)
    requires v in s.facts
    ensures Vanished(host, s.facts[v], Addresses(host, s, url, sha), sha, text)
       <==> NoLongerShown(host, s, url, sha, text, v)
  {
    if s.facts[v].evidence.Some? {
      AddressesAre(host, s, url, sha, host.address(s.facts[v].evidence.value.url));
    }
  }

  lemma StaleIs(host: Host, s: Store, url: string, sha: string, text: string, k: Id)
    ensures k in Stale(host, s.facts, Addresses(host, s, url, sha), sha, text)
       <==> Outdated(host, s, url, sha, text, k)
  {
    forall v | v in s.facts
      ensures Vanished(host, s.facts[v], Addresses(host, s, url, sha), sha, text)
         <==> NoLongerShown(host, s, url, sha, text, v)
    {
      VanishedIs(host, s, url, sha, text, v);
    }
  }

  /** A read with a fresh quote retires what is outdated, and nothing else; one without retires nothing. */
  lemma RetiredIff(host: Host, s: Store, url: string, sha: string, text: string, k: Id)
    ensures var after := SupersedeStep(host, s, url, sha, text);
            k in after.retired <==> k in s.retired || (HasFresh(s, sha) && Outdated(host, s, url, sha, text, k))
  {
    AddressesAre(host, s, url, sha, "");
    StaleIs(host, s, url, sha, text, k);
  }

  /** What a read leaves standing. */
  ghost function Standing(host: Host, s: Store, url: string, sha: string, text: string): Id -> bool {
    k => !Outdated(host, s, url, sha, text, k)
  }

  lemma StandingAgrees(host: Host, s: Store, url: string, sha: string, text: string, ids: seq<Id>)
    ensures var gone := Stale(host, s.facts, Addresses(host, s, url, sha), sha, text);
            Filter(ids, k => k !in gone) == Filter(ids, Standing(host, s, url, sha, text))
  {
    var gone := Stale(host, s.facts, Addresses(host, s, url, sha), sha, text);
    forall k | k in ids ensures k !in gone <==> Standing(host, s, url, sha, text)(k) {
      StaleIs(host, s, url, sha, text, k);
    }
    FilterAgree(ids, k => k !in gone, Standing(host, s, url, sha, text));
  }

  /** A fact after the read: a quote of the capture read rests on what stands, and any other fact is as it was. */
  ghost function Loosened(host: Host, s: Store, url: string, sha: string, text: string, k: Id): Fact
    requires k in s.facts
  {
    var fact := s.facts[k];
    if fact.evidence.Some? && fact.evidence.value.sha == sha
    then fact.(basis := Filter(fact.basis, Standing(host, s, url, sha, text))) else fact
  }

  lemma FactsAreLoosened(host: Host, s: Store, url: string, sha: string, text: string, k: Id)
    requires HasFresh(s, sha) && k in s.facts
    ensures var after := SupersedeStep(host, s, url, sha, text);
            k in after.facts && after.facts[k] == Loosened(host, s, url, sha, text, k)
  {
    AddressesAre(host, s, url, sha, "");
    StandingAgrees(host, s, url, sha, text, s.facts[k].basis);
  }

  lemma AnswersStand(host: Host, s: Store, url: string, sha: string, text: string)
    requires HasFresh(s, sha)
    ensures var after := SupersedeStep(host, s, url, sha, text);
            && after.keys == s.keys && after.facts.Keys == s.facts.Keys
            && after.answering == Filter(s.answering, Standing(host, s, url, sha, text))
  {
    AddressesAre(host, s, url, sha, "");
    StandingAgrees(host, s, url, sha, text, s.answering);
  }

  /**
   What is outdated no longer stands as the answer, and the capture's own quotes no longer rest on it. Nothing else of
   the notes changes.
   */
  lemma SupersedeChangesOnly(host: Host, s: Store, url: string, sha: string, text: string)
    requires HasFresh(s, sha)
    ensures var after, stands := SupersedeStep(host, s, url, sha, text), Standing(host, s, url, sha, text);
            && after.keys == s.keys && after.answering == Filter(s.answering, stands)
            && after.facts.Keys == s.facts.Keys
            && forall k :: k in s.facts ==> after.facts[k] == Loosened(host, s, url, sha, text, k)
  {
    AnswersStand(host, s, url, sha, text);
    forall k | k in s.facts
      ensures SupersedeStep(host, s, url, sha, text).facts[k] == Loosened(host, s, url, sha, text, k)
    {
      FactsAreLoosened(host, s, url, sha, text, k);
    }
  }

  lemma NothingFreshNothingChanges(host: Host, s: Store, url: string, sha: string, text: string)
    requires !HasFresh(s, sha)
    ensures SupersedeStep(host, s, url, sha, text) == s
  {
    AddressesAre(host, s, url, sha, "");
  }

  /** A fact joins the one already stored for its span, which then rests on all that either rests on. */
  lemma MergedIs(previous: Fact, fact: Fact)
    ensures var merged := Merged(previous, fact);
            && (merged.answers <==> previous.answers || fact.answers)
            && (forall b :: b in merged.basis <==> b in previous.basis || b in fact.basis) && Distinct(merged.basis)
            && Unique(previous.basis) <= merged.basis
            && (var kept := if fact.answers && !previous.answers then fact else previous;
                merged.evidence == kept.evidence && merged.reader == kept.reader)
  {
    UniqueGrows(previous.basis + fact.basis, |previous.basis|);
    assert (previous.basis + fact.basis)[..|previous.basis|] == previous.basis;
  }

  /** What the fact says is what it quotes. */
  predicate OnlyItsQuote(fact: Fact) {
    fact.evidence.Some? && fact.evidence.value.quote == fact.text
  }

  /**
   What the joined fact says: a reading that answers nothing adds nothing; one that answers is said, beside what was
   said before, unless that was only the quote of a context fact.
   */
  lemma MergedSays(previous: Fact, fact: Fact)
    ensures var merged := Merged(previous, fact);
            && (!fact.answers ==> merged.text == previous.text)
            && (fact.answers ==> Contains(merged.text, fact.text))
            && (fact.answers && !previous.answers && OnlyItsQuote(previous) ==> merged.text == fact.text)
            && (!(fact.answers && !previous.answers && OnlyItsQuote(previous)) ==>
                  Contains(merged.text, previous.text))
            && merged.text in {previous.text, fact.text, previous.text + "\n" + fact.text}
  {
    ContainsSelf(previous.text);
    ContainsSelf(fact.text);
    ContainsWithin("", previous.text, "\n" + fact.text, previous.text);
    ContainsWithin(previous.text + "\n", fact.text, "", fact.text);
    assert "" + previous.text + ("\n" + fact.text) == previous.text + "\n" + fact.text;
    assert previous.text + "\n" + fact.text + "" == previous.text + "\n" + fact.text;
  }

  /**
   Adding a fact stores it, or joins it to what its span already has, and takes it out of retirement. It is current
   then, unless it only repeats as context what answered before and no longer stands. No other fact changes.
   */
  lemma AddIs(host: Host, s: Store, fact: Fact)
    requires Valid(s)
    ensures var key, after := FactId(host, fact), AddStep(host, s, fact);
            && after.facts == s.facts[key := if key in s.facts then Merged(s.facts[key], fact) else fact]
            && after.keys == (if key in s.facts then s.keys else s.keys + [key])
            && after.retired == s.retired - {key}
            && after.answering == (if fact.answers && key !in s.answering then s.answering + [key] else s.answering)
            && (IsCurrent(after, key) <==>
                  fact.answers || key in s.answering || key !in s.facts || !s.facts[key].answers)
            && (forall k :: k != key ==> (IsCurrent(after, k) <==> IsCurrent(s, k)))
  {
  }

  /** Not retired, and standing as the answer if it was read as one. */
  predicate IsCurrent(s: Store, k: Id) {
    k in s.facts && k !in s.retired && (s.facts[k].answers ==> k in s.answering)
  }

  // ---------------------------------------------------------------------------------------------------------------
  // A new read of a page
  // ---------------------------------------------------------------------------------------------------------------

  lemma DetachedLinks(facts: Facts, sha: string, gone: set<Id>)
    ensures forall a, b :: Linked(Detached(facts, sha, gone), a, b) <==>
                           Linked(facts, a, b) && !(Own(facts, sha, a) && b in gone)
  {
  }

  /** After the detachment no path leads from a fact left standing to a vanished quote. */
  lemma {:induction false} NoPathToVanished(
    host: Host, facts: Facts, addresses: set<string>, sha: string, text: string, p: seq<Id>)
    requires var gone := Stale(host, facts, addresses, sha, text);
             Path(Detached(facts, sha, gone), p) && p[0] in facts && p[0] !in gone
    requires p[|p| - 1] in facts
    ensures !Vanished(host, facts[p[|p| - 1]], addresses, sha, text)
    decreases |p|
  {
    var gone := Stale(host, facts, addresses, sha, text);
    var after, v := Detached(facts, sha, gone), p[|p| - 1];
    DetachedLinks(facts, sha, gone);
    if Vanished(host, facts[v], addresses, sha, text) {
      PathUnderFewerLinks(after, facts, p);
      assert PathBetween(facts, p, p[0], v);
      assert RestsOnVanished(host, facts, addresses, sha, text, p[0]);
      assert Own(facts, sha, p[0]);
      assert |p| > 1;
      PathTail(after, p);
      if |p| > 2 {
        PathTail(after, p[1..]);
      }
      NoPathToVanished(host, facts, addresses, sha, text, p[1..]);
    }
  }

  /**
   Once a read found fresh evidence, no fact that is not retired reaches a quote the page no longer shows, through any
   chain of links as they stand after the read.
   */
  lemma StandingFactsRestOnShownQuotes(host: Host, s: Store, url: string, sha: string, text: string, k: Id, v: Id)
    requires HasFresh(s, sha)
    requires var after := SupersedeStep(host, s, url, sha, text);
             k in after.facts && k !in after.retired && Reaches(after.facts, k, v)
    ensures !NoLongerShown(host, s, url, sha, text, v)
  {
    AddressesAre(host, s, url, sha, "");
    var addresses := Addresses(host, s, url, sha);
    var gone := Stale(host, s.facts, addresses, sha, text);
    var p :| PathBetween(Detached(s.facts, sha, gone), p, k, v);
    if v in s.facts {
      NoPathToVanished(host, s.facts, addresses, sha, text, p);
      VanishedIs(host, s, url, sha, text, v);
    }
  }

  lemma StaleShrinks(host: Host, facts: Facts, addresses: set<string>, sha: string, text: string)
    ensures var gone := Stale(host, facts, addresses, sha, text);
            Stale(host, Detached(facts, sha, gone), addresses, sha, text) <= gone
  {
    var gone := Stale(host, facts, addresses, sha, text);
    var after := Detached(facts, sha, gone);
    DetachedLinks(facts, sha, gone);
    forall k | k in Stale(host, after, addresses, sha, text) ensures k in gone {
      var v :| v in after && Vanished(host, after[v], addresses, sha, text) && Reaches(after, k, v);
      var p :| PathBetween(after, p, k, v);
      PathUnderFewerLinks(after, facts, p);
      assert PathBetween(facts, p, k, v);
    }
  }

  lemma DetachedTwice(facts: Facts, sha: string, gone: set<Id>, again: set<Id>)
    requires again <= gone
    ensures Detached(Detached(facts, sha, gone), sha, again) == Detached(facts, sha, gone)
  {
    var once := Detached(facts, sha, gone);
    forall k | k in once && Own(once, sha, k) ensures Filter(once[k].basis, b => b !in again) == once[k].basis {
      FilterAll(once[k].basis, b => b !in again);
    }
  }

  lemma FreshStays(host: Host, s: Store, url: string, sha: string, text: string)
    ensures var once := SupersedeStep(host, s, url, sha, text);
            Fresh(once, sha) == Fresh(s, sha) && Addresses(host, once, url, sha) == Addresses(host, s, url, sha)
  {
  }

  /** Reading the same capture again changes nothing. */
  lemma SupersedeTwice(host: Host, s: Store, url: string, sha: string, text: string)
    ensures var once := SupersedeStep(host, s, url, sha, text);
            SupersedeStep(host, once, url, sha, text) == once
  {
    if Fresh(s, sha) != {} {
      var addresses := Addresses(host, s, url, sha);
      var gone := Stale(host, s.facts, addresses, sha, text);
      var once := SupersedeStep(host, s, url, sha, text);
      FreshStays(host, s, url, sha, text);
      StaleShrinks(host, s.facts, addresses, sha, text);
      var again := Stale(host, once.facts, addresses, sha, text);
      DetachedTwice(s.facts, sha, gone, again);
      FilterAll(once.answering, k => k !in again);
      assert once.retired + again == once.retired;
    }
  }

  // ---------------------------------------------------------------------------------------------------------------
  // Whole runs
  // ---------------------------------------------------------------------------------------------------------------

  datatype Op = Add(fact: Fact) | Supersede(url: string, sha: string, text: string)

  ghost function Step(host: Host, s: Store, op: Op): Store {
    match op
    case Add(fact) => AddStep(host, s, fact)
    case Supersede(url, sha, text) => SupersedeStep(host, s, url, sha, text)
  }

  ghost function Run(host: Host, s: Store, ops: seq<Op>): Store
    decreases |ops|
  {
    if ops == [] then s else Run(host, Step(host, s, ops[0]), ops[1..])
  }

  /** The answer stands on known, unretired facts written as answers; only known facts are retired; ids are whole. */
  ghost predicate Sound(s: Store) {
    && Valid(s)
    && (forall k :: k in s.answering ==> k in s.facts && s.facts[k].answers && k !in s.retired)
    && s.retired <= s.facts.Keys
    && (forall k :: k in s.keys ==> |k| >= 21)
  }

  lemma InsertedDistinct(ids: seq<Id>, id: Id)
    requires Distinct(ids)
    ensures Distinct(Inserted(ids, id)) && ids <= Inserted(ids, id)
    ensures forall x :: x in Inserted(ids, id) <==> x in ids || x == id
  {
  }

  lemma AddIsSound(host: Host, s: Store, fact: Fact)
    requires Sound(s)
    ensures Sound(AddStep(host, s, fact)) && s.keys <= AddStep(host, s, fact).keys
  {
    var key := FactId(host, fact);
    InsertedDistinct(s.keys, key);
    InsertedDistinct(s.answering, key);
    assert key in s.facts && s.facts[key].answers ==> AddStep(host, s, fact).facts[key].answers;
  }

  lemma SupersedeIsSound(host: Host, s: Store, url: string, sha: string, text: string)
    requires Sound(s)
    ensures var after := SupersedeStep(host, s, url, sha, text);
            Sound(after) && s.keys == after.keys
  {
    if Fresh(s, sha) != {} {
      var gone := Stale(host, s.facts, Addresses(host, s, url, sha), sha, text);
      FilterDistinct(s.answering, k => k !in gone);
    }
  }

  lemma StepIsSound(host: Host, s: Store, op: Op)
    requires Sound(s)
    ensures Sound(Step(host, s, op)) && s.keys <= Step(host, s, op).keys
  {
    match op
    case Add(fact) => AddIsSound(host, s, fact);
    case Supersede(url, sha, text) => SupersedeIsSound(host, s, url, sha, text);
  }

  /** Over every run the answer stays sound, and no fact is lost or reordered. */
  lemma {:induction false} RunIsSound(host: Host, s: Store, ops: seq<Op>)
    requires Sound(s)
    ensures Sound(Run(host, s, ops)) && s.keys <= Run(host, s, ops).keys
    decreases |ops|
  {
    if ops != [] {
      StepIsSound(host, s, ops[0]);
      RunIsSound(host, Step(host, s, ops[0]), ops[1..]);
    }
  }

  /** `text` was written as an answer under `id`, and the fact stored there still says it. */
  ghost predicate Holds(s: Store, id: Id, text: string) {
    id in s.facts && s.facts[id].answers && Contains(s.facts[id].text, text)
  }

  lemma MergedKeepsClaims(previous: Fact, fact: Fact, text: string)
    requires (previous.answers && Contains(previous.text, text)) || (fact.answers && text == fact.text)
    ensures Merged(previous, fact).answers && Contains(Merged(previous, fact).text, text)
  {
    ContainsSelf(fact.text);
    if previous.answers && Contains(previous.text, text) {
      ContainsWithin("", previous.text, "\n" + fact.text, text);
      assert "" + previous.text + ("\n" + fact.text) == previous.text + "\n" + fact.text;
    }
    ContainsWithin(previous.text + "\n", fact.text, "", fact.text);
    assert previous.text + "\n" + fact.text + "" == previous.text + "\n" + fact.text;
  }

  lemma StepKeepsClaim(host: Host, s: Store, op: Op, id: Id, text: string)
    requires Holds(s, id, text) || (op.Add? && op.fact.answers && id == FactId(host, op.fact) && text == op.fact.text)
    ensures Holds(Step(host, s, op), id, text)
  {
    if op.Add? && id == FactId(host, op.fact) {
      if id in s.facts {
        MergedKeepsClaims(s.facts[id], op.fact, text);
      } else {
        ContainsSelf(op.fact.text);
      }
    }
  }

  lemma {:induction false} RunKeepsClaim(host: Host, s: Store, ops: seq<Op>, id: Id, text: string)
    requires Holds(s, id, text)
    ensures Holds(Run(host, s, ops), id, text)
    decreases |ops|
  {
    if ops != [] {
      StepKeepsClaim(host, s, ops[0], id, text);
      RunKeepsClaim(host, Step(host, s, ops[0]), ops[1..], id, text);
    }
  }

  /** Every claim a run ever added as answering is still said by the fact stored under its id when the run ends. */
  lemma {:induction false} EveryClaimSurvives(host: Host, s: Store, ops: seq<Op>, i: nat)
    requires i < |ops| && ops[i].Add? && ops[i].fact.answers
    ensures Holds(Run(host, s, ops), FactId(host, ops[i].fact), ops[i].fact.text)
    decreases |ops|
  {
    var next := Step(host, s, ops[0]);
    if i == 0 {
      StepKeepsClaim(host, s, ops[0], FactId(host, ops[0].fact), ops[0].fact.text);
      RunKeepsClaim(host, next, ops[1..], FactId(host, ops[0].fact), ops[0].fact.text);
    } else {
      EveryClaimSurvives(host, next, ops[1..], i - 1);
    }
  }

  /** The ids whose quotes back the answer. */
  ghost function SupportingIds(s: Store): seq<Id> {
    Expanded(s.keys, s.facts, s.answering)
  }

  /** They are what the answer's facts rest on over any chain of links, those facts themselves included. */
  lemma SupportIff(s: Store, v: Id)
    requires Sound(s) && v in s.facts
    ensures v in SupportingIds(s) <==> exists k :: k in s.answering && Reaches(s.facts, k, v)
    ensures v in s.answering ==> v in SupportingIds(s)
  {
    if v in s.answering {
      ReachesSelf(s.facts, v);
    }
  }

  /** After a read that found fresh evidence, no quote that backs the answer has vanished from the page. */
  lemma AnswerRestsOnShownQuotes(host: Host, s: Store, url: string, sha: string, text: string, v: Id)
    requires Sound(s) && HasFresh(s, sha)
    requires v in SupportingIds(SupersedeStep(host, s, url, sha, text)) && v in s.facts
    ensures !NoLongerShown(host, s, url, sha, text, v)
  {
    var after := SupersedeStep(host, s, url, sha, text);
    StepIsSound(host, s, Supersede(url, sha, text));
    assert ReachedFrom(after.facts, after.answering, v);
    var k :| k in after.answering && Reaches(after.facts, k, v);
    StandingFactsRestOnShownQuotes(host, s, url, sha, text, k, v);
  }
}
