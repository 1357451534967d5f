/** When delivering a package again completes it, and what stands in the way. */
module KnowledgeRedelivery {
  import opened Wrappers
  import opened Knowledge
  import opened KnowledgeImport

  /** With a prefix of the package stored, a candidate passes exactly when it is in the prefix or
      can be created. */
  lemma PassesBeyondPrefix(s: Repo, digest: Package -> string, listing: seq<string>, run: Run, pkg: Package, n: nat,
                           k: nat)
    requires Prefix(s, digest, run, pkg, n) && k < |pkg.candidates|
    ensures Passes(s, digest, listing, run, pkg, k)
            <==> k < n || Admissible(s, listing, run.projectId, pkg.candidates[k])
    ensures LastOf(s.objects, ObjectId(run.id, k)).Some? <==> k < n
  {
    hide Admissible;
    PrefixDecides(s, digest, run, pkg, n, k);
    LastIsStored(s.objects, ObjectId(run.id, k));
    if k < n { assert Carries(s, digest, run, pkg, k, LastOf(s.objects, ObjectId(run.id, k)).value); }
  }

  /** Redelivering a package of which a prefix is stored never conflicts. It completes exactly when
      the package still validates, is not stopped short, and the missing candidates can be
      created; then objects already there get no further version and the others exactly one. */
  lemma RedeliveryCompletes(s: Repo, t: Repo, digest: Package -> string, listing: seq<string>, contract: set<Passage>,
                            run: Run,
                            pkg: Package, n: nat, limit: nat, outcome: Outcome, m: nat, created: seq<Object>)
    requires Prefix(s, digest, run, pkg, n) && Delivered(s, t, digest, run, pkg, m, created)
    requires Ends(s, digest, listing, contract, run, pkg, limit, outcome, m)
    ensures outcome != Conflict
    ensures outcome == Complete <==>
              && PackageValid(s, listing, contract, run, pkg) && |pkg.candidates| <= limit
              && forall k :: n <= k < |pkg.candidates| ==> Admissible(s, listing, run.projectId, pkg.candidates[k])
    ensures outcome == Complete ==> Prefix(t, digest, run, pkg, |pkg.candidates|)
    ensures outcome == Complete ==> forall k :: 0 <= k < |pkg.candidates| ==>
              Count(t.objects, ObjectId(run.id, k)) == if k < n then Count(s.objects, ObjectId(run.id, k)) else 1
  {
    hide Prefix, Delivered, Admissible, PackageValid, Passes, LastOf;
    forall k | 0 <= k < |pkg.candidates|
      ensures Passes(s, digest, listing, run, pkg, k)
              <==> k < n || Admissible(s, listing, run.projectId, pkg.candidates[k])
      ensures LastOf(s.objects, ObjectId(run.id, k)).Some? <==> k < n
    {
      PassesBeyondPrefix(s, digest, listing, run, pkg, n, k);
    }
    if outcome == Complete {
      assert |pkg.candidates| > 0 by { ValidIsNotEmpty(s, listing, contract, run, pkg); }
      forall k | 0 <= k < |pkg.candidates|
        ensures Prefix(t, digest, run, pkg, |pkg.candidates|)
        ensures Count(t.objects, ObjectId(run.id, k)) == if k < n then Count(s.objects, ObjectId(run.id, k)) else 1
      {
        CompletedDelivery(s, t, digest, run, pkg, n, created, k);
      }
      assert Prefix(t, digest, run, pkg, |pkg.candidates|) by {
        CompletedDelivery(s, t, digest, run, pkg, n, created, 0);
      }
    }
  }

  lemma ValidIsNotEmpty(s: Repo, listing: seq<string>, contract: set<Passage>, run: Run, pkg: Package)
    requires PackageValid(s, listing, contract, run, pkg)
    ensures |pkg.candidates| > 0
  {
  }

  // ---------------------------------------------------------------- which candidates can be created

  /** No passage is quoted twice, in whatever spelling of its locator. */
  predicate DistinctQuotes(quotes: seq<Quote>) {
    forall i, j :: 0 <= i < j < |quotes| ==> PassageOf(quotes[i]) != PassageOf(quotes[j])
  }

  /** A candidate whose quotes all resolve can be created exactly when its fields pass, it quotes
      no passage twice, and no span has an empty id. */
  lemma AdmissibleExactly(s: Repo, listing: seq<string>, projectId: string, c: KnowledgeImport.Candidate)
    requires forall i :: 0 <= i < |c.evidence| ==> FirstMatch(s.evidence, listing, projectId, c.evidence[i]).Some?
    ensures Admissible(s, listing, projectId, c) <==>
              && c.wellFormed && DistinctQuotes(c.evidence)
              && forall i :: 0 <= i < |c.evidence| ==>
                FirstMatch(s.evidence, listing, projectId, c.evidence[i]).value != ""
  {
    var quotes := c.evidence;
    var picks :=
      seq(|quotes|, i requires 0 <= i < |quotes| => FirstMatch(s.evidence, listing, projectId, quotes[i]).value);
    assert Picked(s, listing, projectId, quotes, picks);
    forall refs | Picked(s, listing, projectId, quotes, refs) ensures refs == picks {
      assert forall i :: 0 <= i < |refs| ==> Some(refs[i]) == Some(picks[i]);
    }
    forall i | 0 <= i < |quotes|
      ensures picks[i] in s.evidence && SpanMatches(s.evidence[picks[i]], projectId, quotes[i])
    {
      FirstMatchMatches(s.evidence, listing, projectId, quotes[i]);
    }
    PicksAllowed(s, projectId, quotes, picks);
    if Admissible(s, listing, projectId, c) { QuotesDistinct(s, listing, projectId, quotes, picks); }
  }

  function PassageIn(span: Span): Passage { Passage(span.revisionId, span.locator, span.text) }

  /** Quotes of one passage are found in the same span. */
  lemma {:induction false} SpellingIsIgnored(evidence: map<string, Span>, listing: seq<string>, projectId: string,
                                             q: Quote, r: Quote)
    ensures PassageOf(q) == PassageOf(r) ==>
              FirstMatch(evidence, listing, projectId, q) == FirstMatch(evidence, listing, projectId, r)
  {
    if listing != [] { SpellingIsIgnored(evidence, listing[1..], projectId, q, r); }
  }

  /** A candidate that quotes one passage in two spellings can never be created. */
  lemma TwoSpellingsAreRefused(s: Repo, listing: seq<string>, projectId: string, c: KnowledgeImport.Candidate)
    requires c.evidence == [QUOTE, QUOTE.(encoded := " l")] && FirstMatch(s.evidence, listing, projectId, QUOTE).Some?
    ensures !Admissible(s, listing, projectId, c)
  {
    SpellingIsIgnored(s.evidence, listing, projectId, QUOTE, QUOTE.(encoded := " l"));
    AdmissibleExactly(s, listing, projectId, c);
    assert PassageOf(c.evidence[0]) == PassageOf(c.evidence[1]);
  }

  lemma PicksAllowed(s: Repo, projectId: string, quotes: seq<Quote>, picks: seq<string>)
    requires |picks| == |quotes|
    requires forall i :: 0 <= i < |quotes| ==>
               picks[i] in s.evidence && SpanMatches(s.evidence[picks[i]], projectId, quotes[i])
    ensures DistinctQuotes(quotes) && (forall i :: 0 <= i < |picks| ==> picks[i] != "") ==>
              RefsAllowed(s.evidence, projectId, picks, false)
  {
    forall i | 0 <= i < |picks| ensures PassageOf(quotes[i]) == PassageIn(s.evidence[picks[i]]) { }
  }

  lemma QuotesDistinct(s: Repo, listing: seq<string>, projectId: string, quotes: seq<Quote>, picks: seq<string>)
    requires Picked(s, listing, projectId, quotes, picks) && RefsAllowed(s.evidence, projectId, picks, false)
    ensures DistinctQuotes(quotes) && forall i :: 0 <= i < |picks| ==> picks[i] != ""
  {
    forall i, j | 0 <= i < j < |quotes| ensures PassageOf(quotes[i]) != PassageOf(quotes[j]) {
      assert picks[i] != picks[j];
      assert FirstMatch(s.evidence, listing, projectId, quotes[i]) == Some(picks[i]);
      SpellingIsIgnored(s.evidence, listing, projectId, quotes[i], quotes[j]);
    }
    forall i | 0 <= i < |picks| ensures picks[i] != "" { assert RefAllowed(s.evidence, projectId, picks[i], false); }
  }

  // ---------------------------------------------------------------- evidence rejected in between

  /** A package validates only while every quote still has an accepted span. */
  lemma ValidNeedsAcceptedSpans(s: Repo, listing: seq<string>, contract: set<Passage>, run: Run, pkg: Package, k: nat,
                                i: nat)
    requires PackageValid(s, listing, contract, run, pkg) && k < |pkg.candidates| && i < |pkg.candidates[k].evidence|
    ensures exists e :: e in s.evidence && SpanMatches(s.evidence[e], run.projectId, pkg.candidates[k].evidence[i])
  {
    var q := pkg.candidates[k].evidence[i];
    assert CandidateValid(s, listing, contract, run.projectId, pkg.candidates[k]);
    assert Resolves(s, listing, run.projectId, q);
    FirstMatchMatches(s.evidence, listing, run.projectId, q);
  }

  const QUOTE := Quote("v", "l", "l", "x")
  const FACT := KnowledgeImport.Candidate("fact", "low", true, true, "b", [QUOTE])
  const PACKAGE := Package("1.0", [FACT, FACT])
  const RUN := Run("r", "p", 0)
  const SPAN := Span("p", "v", Accepted, "l", "x")

  /** One source, one revision, one accepted span. */
  const BEFORE := Repo(map["e" := SPAN], map["v" := Revision("p", "s")], map["s" := "p"], [])

  function FirstFact(digest: Package -> string): Object {
    Object(ObjectId("r", 0), "p", 1, NeedsReview, Content(FactAssertion, true, "b", Marker(digest, PACKAGE), ["e"]), "")
  }

  function Half(digest: Package -> string): Repo { BEFORE.(objects := [FirstFact(digest)]) }

  function Rejected(digest: Package -> string): Repo { Half(digest).(evidence := map["e" := SPAN.(review := Refused)]) }

  /** The first delivery stops after one of two candidates, the span both quote is rejected, and
      from then on every redelivery is refused, with the prefix left as it is. */
  lemma RejectionStopsRedelivery(digest: Package -> string, listing: seq<string>, contract: set<Passage>, limit: nat)
    ensures Delivered(BEFORE, Half(digest), digest, RUN, PACKAGE, 1, [FirstFact(digest)])
    ensures Ends(BEFORE, digest, ["e"], {PassageOf(QUOTE)}, RUN, PACKAGE, 1, Stopped, 1)
    ensures Does(Half(digest), Rejected(digest), ReviewSpan("e", Refused, []))
    ensures Prefix(Rejected(digest), digest, RUN, PACKAGE, 1)
    ensures Ends(Rejected(digest), digest, listing, contract, RUN, PACKAGE, limit, Invalid, 0)
  {
    FirstDelivery(digest);
    FirstEnds(digest);
    RejectionDoes(digest);
    assert !PackageValid(Rejected(digest), listing, contract, RUN, PACKAGE) by {
      if PackageValid(Rejected(digest), listing, contract, RUN, PACKAGE) {
        ValidNeedsAcceptedSpans(Rejected(digest), listing, contract, RUN, PACKAGE, 0, 0);
      }
    }
    assert Prefix(BEFORE, digest, RUN, PACKAGE, 0);
    SamePackageExtends(BEFORE, Half(digest), digest, RUN, PACKAGE, 0, 1, [FirstFact(digest)]);
    hide Prefix, Does;
    CommandRepeats(Half(digest), Rejected(digest), ReviewSpan("e", Refused, []));
    PrefixFrame(Half(digest), Rejected(digest), digest, RUN, PACKAGE, 1);
  }

  lemma FirstDelivery(digest: Package -> string)
    ensures Delivered(BEFORE, Half(digest), digest, RUN, PACKAGE, 1, [FirstFact(digest)])
  {
    var o := FirstFact(digest);
    assert Carries(BEFORE, digest, RUN, PACKAGE, 0, o);
    assert FirstVersion(BEFORE, digest, RUN, PACKAGE, 1, o);
    assert [o][0].id == ObjectId(RUN.id, 0);
  }

  lemma FirstEnds(digest: Package -> string)
    ensures Ends(BEFORE, digest, ["e"], {PassageOf(QUOTE)}, RUN, PACKAGE, 1, Stopped, 1)
  {
    assert FirstMatch(BEFORE.evidence, ["e"], "p", QUOTE) == Some("e");
    assert Resolves(BEFORE, ["e"], "p", QUOTE);
    assert CandidateValid(BEFORE, ["e"], {PassageOf(QUOTE)}, "p", FACT);
    AdmissibleExactly(BEFORE, ["e"], "p", FACT);
  }

  lemma RejectionDoes(digest: Package -> string)
    ensures Does(Half(digest), Rejected(digest), ReviewSpan("e", Refused, []))
  {
    var s, t := Half(digest), Rejected(digest);
    assert s.evidence["e" := SPAN.(review := Refused)] == t.evidence;
    assert s.objects + [] == s.objects;
    forall id ensures LastOf(s.objects, id).Some? ==> LastOf(s.objects, id).value == FirstFact(digest) {
      assert s.objects[..0] == [];
    }
  }

  // ---------------------------------------------------------------- two deliveries at once

  /** Nothing guards the creation of a missing object. If another delivery has created it since the
      lookup, creating it adds a second version; and the run's objects are still a prefix of some
      package exactly when both deliveries were of the same one. */
  lemma ConcurrentDeliveriesMix(s: Repo, t: Repo, digest: Package -> string, run: Run, pkg: Package, n: nat,
                                other: Package, k: nat, o: Object)
    requires Injective(digest) && Prefix(s, digest, run, pkg, n) && k < n
    requires Created(s, t, o) && Carries(s, digest, run, other, k, o)
    ensures Count(t.objects, o.id) == Count(s.objects, o.id) + 1 && Count(t.objects, o.id) >= 2
    ensures (exists p, m: nat :: Prefix(t, digest, run, p, m)) <==> other == pkg
  {
    var id := ObjectId(run.id, k);
    LastIsStored(s.objects, id);
    AppendOne(s.objects, o, id);
    var p0 := LastOf(s.objects, id).value;
    assert Carries(s, digest, run, pkg, k, p0);
    StoredIsCounted(s.objects, p0);
    hide Created, LastOf, Count;
    if other == pkg {
      SamePackageStays(s, t, digest, run, pkg, n, k, o);
    } else {
      forall p, m: nat ensures !Prefix(t, digest, run, p, m) {
        if Prefix(t, digest, run, p, m) { OneMarker(t, digest, run, p, m, k, p0, o, pkg, other); }
      }
    }
  }

  lemma SamePackageStays(s: Repo, t: Repo, digest: Package -> string, run: Run, pkg: Package, n: nat, k: nat, o: Object)
    requires Prefix(s, digest, run, pkg, n) && k < n && Created(s, t, o) && Carries(s, digest, run, pkg, k, o)
    ensures Prefix(t, digest, run, pkg, n)
  {
    assert EvidenceKept(s, t) && t.objects == s.objects + [o];
    hide Created, LastOf, Carries, EvidenceKept;
    forall x, j: nat | x in t.objects && x.id == ObjectId(run.id, j)
      ensures j < n && Carries(t, digest, run, pkg, j, x)
    {
      CarriesFrame(s, t, digest, run, pkg, j, x);
      if x !in s.objects {
        CarriesId(s, digest, run, pkg, k, o);
        ObjectIdInjective(run.id, j, run.id, k);
      }
    }
    forall j | 0 <= j < n ensures LastOf(t.objects, ObjectId(run.id, j)).Some? {
      MoreKeepsLast(s.objects, [o], ObjectId(run.id, j));
    }
  }

  const OTHER_PACKAGE := Package("1.0", [FACT])

  function SecondFact(digest: Package -> string): Object {
    FirstFact(digest).(version := 2, content := FirstFact(digest).content.(marker := Marker(digest, OTHER_PACKAGE)))
  }

  /** The race: two deliveries of different packages find the first object missing; one creates it,
      then the other does, as version 2. What is stored is then a prefix of no package. */
  lemma MixedPackagesAreReachable(digest: Package -> string)
    requires Injective(digest)
    ensures var t := Half(digest).(objects := Half(digest).objects + [SecondFact(digest)]);
            && RepoOk(BEFORE) && LastOf(BEFORE.objects, ObjectId("r", 0)).None?
            && Admissible(BEFORE, ["e"], "p", FACT)
            && PackageValid(BEFORE, ["e"], {PassageOf(QUOTE)}, RUN, PACKAGE)
            && PackageValid(BEFORE, ["e"], {PassageOf(QUOTE)}, RUN, OTHER_PACKAGE)
            && Created(BEFORE, Half(digest), FirstFact(digest)) && Created(Half(digest), t, SecondFact(digest))
            && forall p, m: nat :: !Prefix(t, digest, RUN, p, m)
  {
    var s, first, second := Half(digest), FirstFact(digest), SecondFact(digest);
    var t := s.(objects := s.objects + [second]);
    FirstDelivery(digest);
    BothValid();
    RaceCreates(digest);
    assert Prefix(BEFORE, digest, RUN, PACKAGE, 0);
    SamePackageExtends(BEFORE, s, digest, RUN, PACKAGE, 0, 1, [first]);
    assert Carries(s, digest, RUN, OTHER_PACKAGE, 0, second);
    assert PACKAGE != OTHER_PACKAGE by { assert |PACKAGE.candidates| == 2 && |OTHER_PACKAGE.candidates| == 1; }
    hide Prefix, Created, Carries;
    ConcurrentDeliveriesMix(s, t, digest, RUN, PACKAGE, 1, OTHER_PACKAGE, 0, second);
  }

  lemma BothValid()
    ensures PackageValid(BEFORE, ["e"], {PassageOf(QUOTE)}, RUN, PACKAGE)
    ensures PackageValid(BEFORE, ["e"], {PassageOf(QUOTE)}, RUN, OTHER_PACKAGE)
    ensures Admissible(BEFORE, ["e"], "p", FACT)
  {
    assert FirstMatch(BEFORE.evidence, ["e"], "p", QUOTE) == Some("e");
    assert Resolves(BEFORE, ["e"], "p", QUOTE);
    assert CandidateValid(BEFORE, ["e"], {PassageOf(QUOTE)}, "p", FACT);
    AdmissibleExactly(BEFORE, ["e"], "p", FACT);
  }

  lemma RaceCreates(digest: Package -> string)
    ensures RepoOk(BEFORE) && Created(BEFORE, Half(digest), FirstFact(digest))
    ensures var s := Half(digest);
            Created(s, s.(objects := s.objects + [SecondFact(digest)]), SecondFact(digest))
  {
    assert RepoOk(BEFORE);
    hide RepoOk;
    var first := FirstFact(digest);
    FactRefs();
    AppendOne([], first, first.id);
    assert [] + [first] == [first];
    hide Count, ObjectId, RefsAllowed;
    assert Created(BEFORE, Half(digest), first) by { NoneCounted(first.id); }
    assert Created(Half(digest), Half(digest).(objects := [first] + [SecondFact(digest)]), SecondFact(digest)) by {
      NoneCounted(first.id);
    }
  }

  lemma NoneCounted(id: string)
    ensures Count([], id) == 0
  {
  }

  lemma FactRefs()
    ensures RefsAllowed(BEFORE.evidence, "p", ["e"], false)
  {
    assert RefAllowed(BEFORE.evidence, "p", "e", false);
  }

  lemma {:induction false} StoredIsCounted(objects: seq<Object>, o: Object)
    requires o in objects
    ensures Count(objects, o.id) >= 1
    decreases |objects|
  {
    if objects[|objects| - 1].id != o.id { StoredIsCounted(objects[..|objects| - 1], o); }
  }

  /** Two stored objects of one prefix carry one package's marker. */
  lemma OneMarker(t: Repo, digest: Package -> string, run: Run, p: Package, m: nat, k: nat, a: Object, b: Object,
                  pkg: Package, other: Package)
    requires Injective(digest) && Prefix(t, digest, run, p, m) && a in t.objects && b in t.objects
    requires a.id == b.id == ObjectId(run.id, k) && a.content.marker == Marker(digest, pkg)
    requires b.content.marker == Marker(digest, other)
    ensures pkg == other
  {
    assert Carries(t, digest, run, p, k, a) && Carries(t, digest, run, p, k, b);
    assert Marker(digest, other)[7..] == digest(other) && Marker(digest, pkg)[7..] == digest(pkg);
  }

  // ---------------------------------------------------------------- commands between two candidates

  /** A delivery under way: its package, and how many candidates it has got past. */
  datatype Flight = Flight(pkg: Package, at: nat)

  /** One run's delivery, candidate by candidate: what it finds or creates at the next one. */
  ghost predicate Handled(s: Repo, t: Repo, digest: Package -> string, run: Run, pkg: Package, k: nat) {
    var last := LastOf(s.objects, ObjectId(run.id, k));
    && k < |pkg.candidates|
    && if last.Some? then !Conflicts(last.value, digest, run, pkg) && t == s
       else exists o :: t == s.(objects := s.objects + [o]) && FirstAt(s, digest, run, pkg, k, o)
  }

  ghost predicate FirstAt(s: Repo, digest: Package -> string, run: Run, pkg: Package, k: nat, o: Object) {
    o.version == 1 && o.status == NeedsReview && Carries(s, digest, run, pkg, k, o)
  }

  /** One delivery of the run at a time, but anything else between two of its candidates: a begin,
      the next candidate, a stop, a command, or what other runs deliver. */
  datatype Move = Begin(pkg: Package) | Handle | Stop | Elsewhere(step: Step)

  ghost predicate Moves(s: Repo, f: Option<Flight>, t: Repo, g: Option<Flight>, digest: Package -> string, run: Run,
                        move: Move) {
    match move
    case Begin(pkg) => f.None? && g == Some(Flight(pkg, 0)) && t == s
    case Handle => f.Some? && g == Some(Flight(f.value.pkg, f.value.at + 1))
                   && Handled(s, t, digest, run, f.value.pkg, f.value.at)
    case Stop => g == None && t == s
    case Elsewhere(step) => g == f && Steps(s, t, digest, step) && (step.Deliver? ==> step.run.id != run.id)
  }

  /** The stored objects are a prefix of one package, and a delivery that got anywhere delivers it. */
  ghost predicate Underway(s: Repo, f: Option<Flight>, digest: Package -> string, run: Run, pkg: Package, n: nat) {
    Prefix(s, digest, run, pkg, n) && (f.Some? && f.value.at > 0 ==> f.value.pkg == pkg && f.value.at <= n)
  }

  /** A missing next candidate that is created is a delivery of one more. */
  lemma HandledDelivers(s: Repo, t: Repo, digest: Package -> string, run: Run, pkg: Package, n: nat)
    requires Prefix(s, digest, run, pkg, n) && Handled(s, t, digest, run, pkg, n)
    ensures Prefix(t, digest, run, pkg, n + 1)
  {
    PrefixDecides(s, digest, run, pkg, n, n);
    var o :| t == s.(objects := s.objects + [o]) && FirstAt(s, digest, run, pkg, n, o);
    assert Delivered(s, t, digest, run, pkg, n + 1, [o]) by {
      hide Prefix, LastOf, Carries;
      forall k | 0 <= k < n ensures LastOf(s.objects, ObjectId(run.id, k)).Some?
               ensures !Conflicts(LastOf(s.objects, ObjectId(run.id, k)).value, digest, run, pkg) {
        StoredHasNoConflict(s, digest, run, pkg, n, k);
      }
      CarriesId(s, digest, run, pkg, n, o);
      assert FirstVersion(s, digest, run, pkg, n + 1, o);
      assert [o][0].id == ObjectId(run.id, n);
    }
    hide Prefix, Delivered;
    SamePackageExtends(s, t, digest, run, pkg, n, n + 1, [o]);
  }

  lemma StoredHasNoConflict(s: Repo, digest: Package -> string, run: Run, pkg: Package, n: nat, k: nat)
    requires Prefix(s, digest, run, pkg, n) && k < n
    ensures var last := LastOf(s.objects, ObjectId(run.id, k)); last.Some? && !Conflicts(last.value, digest, run, pkg)
  {
    LastIsStored(s.objects, ObjectId(run.id, k));
    assert Carries(s, digest, run, pkg, k, LastOf(s.objects, ObjectId(run.id, k)).value);
  }

  lemma HandleKeeps(s: Repo, t: Repo, f: Flight, g: Option<Flight>, digest: Package -> string, run: Run, pkg: Package,
                    n: nat)
    requires Injective(digest) && Underway(s, Some(f), digest, run, pkg, n) && Handled(s, t, digest, run, f.pkg, f.at)
    requires g == Some(Flight(f.pkg, f.at + 1))
    ensures exists p, m: nat :: Underway(t, g, digest, run, p, m) && n <= m && (n > 0 ==> p == pkg)
  {
    hide Prefix, Handled;
    PrefixDecides(s, digest, run, pkg, n, f.at);
    if f.at < n {
      ConflictIffDifferent(s, digest, run, pkg, n, f.pkg, f.at);
      HandledFinds(s, t, digest, run, f.pkg, f.at);
      assert Underway(t, g, digest, run, pkg, n);
    } else {
      if n == 0 { EmptyPrefix(s, digest, run, pkg, f.pkg); }
      HandledDelivers(s, t, digest, run, f.pkg, n);
      assert Underway(t, g, digest, run, f.pkg, n + 1);
    }
  }

  lemma HandledFinds(s: Repo, t: Repo, digest: Package -> string, run: Run, pkg: Package, k: nat)
    requires Handled(s, t, digest, run, pkg, k) && LastOf(s.objects, ObjectId(run.id, k)).Some?
    ensures t == s && !Conflicts(LastOf(s.objects, ObjectId(run.id, k)).value, digest, run, pkg)
  {
  }

  lemma MoveKeeps(s: Repo, f: Option<Flight>, t: Repo, g: Option<Flight>, digest: Package -> string, run: Run,
                  move: Move,
                  pkg: Package, n: nat)
    requires Injective(digest) && Underway(s, f, digest, run, pkg, n) && Moves(s, f, t, g, digest, run, move)
    ensures exists p, m: nat :: Underway(t, g, digest, run, p, m) && n <= m && (n > 0 ==> p == pkg)
  {
    hide Prefix, Handled, Steps;
    match move
    case Handle => HandleKeeps(s, t, f.value, g, digest, run, pkg, n);
    case Elsewhere(step) =>
      ElsewhereKeeps(s, t, digest, step, run, pkg, n);
      assert Underway(t, g, digest, run, pkg, n);
    case _ => assert Underway(t, g, digest, run, pkg, n);
  }

  /** What happens elsewhere leaves the run's objects the prefix they are. */
  lemma ElsewhereKeeps(s: Repo, t: Repo, digest: Package -> string, step: Step, run: Run, pkg: Package, n: nat)
    requires Prefix(s, digest, run, pkg, n) && Steps(s, t, digest, step) && (step.Deliver? ==> step.run.id != run.id)
    ensures Prefix(t, digest, run, pkg, n)
  {
    hide Prefix, Delivered, Does;
    match step
    case Command(c) =>
      CommandRepeats(s, t, c);
      PrefixFrame(s, t, digest, run, pkg, n);
    case Deliver(r, other, m, created) =>
      OtherRunApart(s, t, digest, r, other, m, created, run.id);
      PrefixFrame(s, t, digest, run, pkg, n);
  }

  ghost predicate IsVoyage(states: seq<Repo>, flights: seq<Option<Flight>>, moves: seq<Move>, digest: Package -> string,
                           run: Run) {
    && |states| == |flights| == |moves| + 1
    && forall i :: 0 <= i < |moves| ==>
         Moves(states[i], flights[i], states[i + 1], flights[i + 1], digest, run, moves[i])
  }

  /** Also when reviews, propagation and other runs' deliveries come between two candidates of one
      delivery, the run's objects stay a prefix of one package that never changes or shrinks. */
  lemma {:induction false} VoyageKeepsPrefix(states: seq<Repo>, flights: seq<Option<Flight>>, moves: seq<Move>,
                                             digest: Package -> string, run: Run, pkg: Package, n: nat)
    requires IsVoyage(states, flights, moves, digest, run) && Injective(digest)
    requires Underway(states[0], flights[0], digest, run, pkg, n)
    ensures exists p, m: nat :: Underway(states[|moves|], flights[|moves|], digest, run, p, m) && n <= m
                                && (n > 0 ==> p == pkg)
    decreases |moves|
  {
    hide Underway, Moves;
    if moves != [] {
      assert Moves(states[0], flights[0], states[1], flights[1], digest, run, moves[0]);
      MoveKeeps(states[0], flights[0], states[1], flights[1], digest, run, moves[0], pkg, n);
      var p, m: nat :| Underway(states[1], flights[1], digest, run, p, m) && n <= m && (n > 0 ==> p == pkg);
      assert IsVoyage(states[1..], flights[1..], moves[1..], digest, run) by {
        forall i | 0 <= i < |moves| - 1
          ensures Moves(states[1..][i], flights[1..][i], states[1..][i + 1], flights[1..][i + 1], digest, run,
                        moves[1..][i])
        {
          assert Moves(states[i + 1], flights[i + 1], states[i + 2], flights[i + 2], digest, run, moves[i + 1]);
        }
      }
      VoyageKeepsPrefix(states[1..], flights[1..], moves[1..], digest, run, p, m);
    }
  }
}
