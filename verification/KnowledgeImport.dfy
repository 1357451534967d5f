/** Importing a runtime run's candidate package. The handoff is delivered at least once and may
    stop after any candidate; a digest marker on each object makes replays harmless. */
module KnowledgeImport {
  import opened Wrappers
  import opened Knowledge
  import KnowledgeService

  /** encoded is the locator as it was sent, locator what it decodes to; only the latter is compared. */
  datatype Quote = Quote(revisionId: string, encoded: string, locator: string, text: string)

  /** What a quote points at, however its locator was written. */
  datatype Passage = Passage(revisionId: string, locator: string, text: string)

  function PassageOf(q: Quote): Passage { Passage(q.revisionId, q.locator, q.text) }

  /** complete: subject and predicate are not blank. body stands for the rendered fields. */
  datatype Candidate = Candidate(kind: string, risk: string, complete: bool, wellFormed: bool, body: string,
                                 evidence: seq<Quote>)

  datatype Package = Package(schema: string, candidates: seq<Candidate>)

  datatype Run = Run(id: string, projectId: string, outputCount: int)

  // ---------------------------------------------------------------- object ids

  function Decimal(n: nat): string {
    if n < 10 then [DigitChar(n)] else Decimal(n / 10) + [DigitChar(n % 10)]
  }

  function DigitChar(d: nat): char
    requires d < 10
  {
    '0' + d as char
  }

  function ObjectId(runId: string, index: nat): string {
    "knowledge:" + runId + ":" + Decimal(index + 1)
  }

  lemma {:induction false} DecimalHasNoColon(n: nat)
    ensures Decimal(n) != [] && forall i :: 0 <= i < |Decimal(n)| ==> Decimal(n)[i] != ':'
  {
    if n >= 10 { DecimalHasNoColon(n / 10); }
  }

  lemma {:induction false} DecimalInjective(m: nat, n: nat)
    requires Decimal(m) == Decimal(n)
    ensures m == n
  {
    DecimalHasNoColon(m / 10);
    DecimalHasNoColon(n / 10);
    var d := Decimal(m);
    assert d[|d| - 1] == DigitChar(m % 10) == DigitChar(n % 10);
    if m >= 10 && n >= 10 {
      assert Decimal(m / 10) == d[..|d| - 1] == Decimal(n / 10);
      DecimalInjective(m / 10, n / 10);
    }
  }

  /** No two runs, and no two candidates of one run, ever share an object id. */
  lemma ObjectIdInjective(r: string, i: nat, q: string, j: nat)
    requires ObjectId(r, i) == ObjectId(q, j)
    ensures r == q && i == j
  {
    var d, e := Decimal(i + 1), Decimal(j + 1);
    DecimalHasNoColon(i + 1);
    DecimalHasNoColon(j + 1);
    var s := ObjectId(r, i);
    assert s[|s| - 1 - |d|] == ':' && s[|s| - 1 - |e|] == ':';
    forall i | |s| - |d| <= i < |s| ensures s[i] != ':' { assert s[i] == d[i - (|s| - |d|)]; }
    forall i | |s| - |e| <= i < |s| ensures s[i] != ':' { assert s[i] == e[i - (|s| - |e|)]; }
    assert |d| == |e|;
    assert r == s[10..|s| - 1 - |d|] == q;
    assert d == s[|s| - |d|..] == e;
    DecimalInjective(i + 1, j + 1);
  }

  // ---------------------------------------------------------------- validation

  function KindOf(kind: string): Kind {
    if kind == "fact" then FactAssertion else if kind == "claim" then Claim else OtherKind
  }

  predicate EnumsValid(c: Candidate) {
    c.kind in {"fact", "claim", "visual_rule", "methodology"} && c.risk in {"low", "medium", "high"} && c.complete
    && c.evidence != []
  }

  predicate SpanMatches(span: Span, projectId: string, q: Quote) {
    && span.revisionId == q.revisionId && span.projectId == projectId
    && span.locator == q.locator && span.text == q.text && span.review == Accepted
  }

  /** The first span of the store's listing that carries the quote and is accepted. */
  function FirstMatch(evidence: map<string, Span>, listing: seq<string>, projectId: string, q: Quote): Option<string> {
    if listing == [] then None
    else if listing[0] in evidence && SpanMatches(evidence[listing[0]], projectId, q) then Some(listing[0])
    else FirstMatch(evidence, listing[1..], projectId, q)
  }

  lemma {:induction false} FirstMatchMatches(evidence: map<string, Span>, listing: seq<string>, projectId: string,
                                             q: Quote)
    ensures var m := FirstMatch(evidence, listing, projectId, q);
            && (m.Some? ==> m.value in listing && m.value in evidence && SpanMatches(evidence[m.value], projectId, q))
            && (m.None? ==> forall e :: e in listing && e in evidence ==> !SpanMatches(evidence[e], projectId, q))
  {
    if listing != [] { FirstMatchMatches(evidence, listing[1..], projectId, q); }
  }

  ghost predicate Resolves(s: Repo, listing: seq<string>, projectId: string, q: Quote) {
    && q.revisionId != "" && q.encoded != "" && q.text != ""
    && q.revisionId in s.revisions && s.revisions[q.revisionId].projectId == projectId
    && FirstMatch(s.evidence, listing, projectId, q).Some?
  }

  ghost predicate CandidateValid(s: Repo, listing: seq<string>, contract: set<Passage>, projectId: string,
                                 c: Candidate) {
    EnumsValid(c)
    && forall i :: 0 <= i < |c.evidence| ==>
      PassageOf(c.evidence[i]) in contract && Resolves(s, listing, projectId, c.evidence[i])
  }

  ghost predicate PackageValid(s: Repo, listing: seq<string>, contract: set<Passage>, run: Run, pkg: Package) {
    && pkg.schema == "1.0" && 1 <= |pkg.candidates| <= 20
    && (run.outputCount > 0 ==> |pkg.candidates| <= run.outputCount)
    && forall k :: 0 <= k < |pkg.candidates| ==> CandidateValid(s, listing, contract, run.projectId, pkg.candidates[k])
  }

  /** What a valid package is: of schema 1.0, with one to twenty candidates and no more than the run was
      to output, each a fact, claim, visual rule or methodology of low, medium or high risk, complete and
      quoting something; and each quote promised by the contract, complete, of a revision of the project,
      and found in an accepted span of the listing. */
  lemma PackageValidMeans(s: Repo, listing: seq<string>, contract: set<Passage>, run: Run, pkg: Package)
    ensures PackageValid(s, listing, contract, run, pkg)
            <==> && pkg.schema == "1.0" && 1 <= |pkg.candidates| <= 20
                 && (run.outputCount <= 0 || |pkg.candidates| <= run.outputCount)
                 && forall k :: 0 <= k < |pkg.candidates| ==>
                      var c := pkg.candidates[k];
                      && c.kind in ["fact", "claim", "visual_rule", "methodology"]
                         && c.risk in ["low", "medium", "high"]
                      && c.complete && |c.evidence| > 0
                      && forall i :: 0 <= i < |c.evidence|
                          ==> QuoteValid(s, listing, contract, run.projectId, c.evidence[i])
  {
    hide FirstMatch;
    if PackageValid(s, listing, contract, run, pkg) {
      forall k | 0 <= k < |pkg.candidates|
        ensures forall i :: 0 <= i < |pkg.candidates[k].evidence| ==>
                  QuoteValid(s, listing, contract, run.projectId, pkg.candidates[k].evidence[i])
      {
        assert CandidateValid(s, listing, contract, run.projectId, pkg.candidates[k]);
        forall i | 0 <= i < |pkg.candidates[k].evidence| {
          FirstMatchMeans(s.evidence, listing, run.projectId, pkg.candidates[k].evidence[i]);
        }
      }
    }
    if forall k :: 0 <= k < |pkg.candidates| ==>
         forall i :: 0 <= i < |pkg.candidates[k].evidence| ==>
           QuoteValid(s, listing, contract, run.projectId, pkg.candidates[k].evidence[i]) {
      forall k, i | 0 <= k < |pkg.candidates| && 0 <= i < |pkg.candidates[k].evidence|
        ensures PassageOf(pkg.candidates[k].evidence[i]) in contract
        ensures Resolves(s, listing, run.projectId, pkg.candidates[k].evidence[i])
      {
        assert QuoteValid(s, listing, contract, run.projectId, pkg.candidates[k].evidence[i]);
        FirstMatchMeans(s.evidence, listing, run.projectId, pkg.candidates[k].evidence[i]);
      }
    }
  }

  /** The contract names the passage, and an accepted span of the project's own revision carries it. */
  predicate QuoteValid(s: Repo, listing: seq<string>, contract: set<Passage>, projectId: string, q: Quote) {
    && Passage(q.revisionId, q.locator, q.text) in contract
    && q.revisionId != "" && q.encoded != "" && q.text != ""
    && q.revisionId in s.revisions && s.revisions[q.revisionId].projectId == projectId
    && exists j :: 0 <= j < |listing| && Quoted(s.evidence, listing[j], projectId, q)
  }

  /** The references quote what the candidate quotes, from the project's own spans. */
  ghost predicate Grounded(evidence: map<string, Span>, projectId: string, quotes: seq<Quote>, refs: seq<string>) {
    && |refs| == |quotes|
    && forall i :: 0 <= i < |refs| ==>
         refs[i] in evidence && SpanMatches(evidence[refs[i]].(review := Accepted), projectId, quotes[i])
  }

  /** A stored version carries candidate k of the package, under the package's digest. */
  ghost predicate Carries(s: Repo, digest: Package -> string, run: Run, pkg: Package, k: nat, o: Object) {
    && k < |pkg.candidates| && o.id == ObjectId(run.id, k) && o.projectId == run.projectId
    && Renders(pkg.candidates[k], Marker(digest, pkg), o.content)
    && Grounded(s.evidence, run.projectId, pkg.candidates[k].evidence, o.content.refs)
  }

  predicate Renders(c: Candidate, marker: string, content: Content) {
    content == Content(KindOf(c.kind), c.wellFormed, c.body, marker, content.refs)
  }

  function Marker(digest: Package -> string, pkg: Package): string { "sha256:" + digest(pkg) }

  // ---------------------------------------------------------------- one delivery

  /** What stops the import at an object that already exists. */
  predicate Conflicts(o: Object, digest: Package -> string, run: Run, pkg: Package) {
    o.content.marker != Marker(digest, pkg) || o.projectId != run.projectId
  }

  /** A delivery handled the first m candidates: the missing objects were created as version 1,
      the others carry the marker, and nothing else was written. */
  ghost predicate Delivered(s: Repo, t: Repo, digest: Package -> string, run: Run, pkg: Package, m: nat,
                            created: seq<Object>) {
    && m <= |pkg.candidates| && t == s.(objects := s.objects + created)
    && (forall k :: 0 <= k < m && LastOf(s.objects, ObjectId(run.id, k)).Some?
          ==> !Conflicts(LastOf(s.objects, ObjectId(run.id, k)).value, digest, run, pkg))
    && (forall i :: 0 <= i < |created| ==> FirstVersion(s, digest, run, pkg, m, created[i]))
    && (forall k :: 0 <= k < m && LastOf(s.objects, ObjectId(run.id, k)).None?
          ==> exists i :: 0 <= i < |created| && created[i].id == ObjectId(run.id, k))
    && (forall i, j :: 0 <= i < j < |created| ==> created[i].id != created[j].id)
  }

  ghost predicate FirstVersion(s: Repo, digest: Package -> string, run: Run, pkg: Package, m: nat, o: Object) {
    && LastOf(s.objects, o.id).None? && o.version == 1 && o.status == NeedsReview
    && exists k: nat :: k < m && Carries(s, digest, run, pkg, k, o)
  }

  datatype Outcome = Complete | Stopped | Invalid | Conflict | NotCreated

  ghost predicate Picked(s: Repo, listing: seq<string>, projectId: string, quotes: seq<Quote>, refs: seq<string>) {
    |refs| == |quotes|
    && forall i :: 0 <= i < |refs| ==> FirstMatch(s.evidence, listing, projectId, quotes[i]) == Some(refs[i])
  }

  /** The object checks: the rendered fields pass, and no span is picked twice. */
  ghost predicate Admissible(s: Repo, listing: seq<string>, projectId: string, c: Candidate) {
    c.wellFormed
    && forall refs :: Picked(s, listing, projectId, c.evidence, refs) ==>
      RefsAllowed(s.evidence, projectId, refs, false)
  }

  /** The span is accepted, of the project and the quoted revision, with the quoted locator and text. */
  predicate Quoted(evidence: map<string, Span>, id: string, projectId: string, q: Quote) {
    id in evidence && evidence[id] == Span(projectId, q.revisionId, Accepted, q.locator, q.text)
  }

  /** The match is the first such span of the listing. */
  lemma {:induction false} FirstMatchMeans(evidence: map<string, Span>, listing: seq<string>, projectId: string,
                                           q: Quote)
    ensures var m := FirstMatch(evidence, listing, projectId, q);
            && (m.None? <==> forall j :: 0 <= j < |listing| ==> !Quoted(evidence, listing[j], projectId, q))
            && (m.Some? ==>
                  exists j :: 0 <= j < |listing| && listing[j] == m.value && Quoted(evidence, listing[j], projectId, q)
                              && forall l :: 0 <= l < j ==> !Quoted(evidence, listing[l], projectId, q))
  {
    if listing != [] && !Quoted(evidence, listing[0], projectId, q) {
      FirstMatchMeans(evidence, listing[1..], projectId, q);
      var m := FirstMatch(evidence, listing[1..], projectId, q);
      assert FirstMatch(evidence, listing, projectId, q) == m;
      assert forall j :: 0 <= j < |listing| - 1 ==> listing[1..][j] == listing[j + 1];
      forall j | 0 <= j < |listing| && m.None? ensures !Quoted(evidence, listing[j], projectId, q) {
        if j > 0 { assert listing[1..][j - 1] == listing[j]; }
      }
      if m.Some? {
        var j :| 0 <= j < |listing| - 1 && listing[1..][j] == m.value && Quoted(evidence, listing[1..][j], projectId, q)
                 && forall l :: 0 <= l < j ==> !Quoted(evidence, listing[1..][l], projectId, q);
        assert listing[j + 1] == m.value;
        forall l | 0 <= l < j + 1 ensures !Quoted(evidence, listing[l], projectId, q) {
          if l > 0 { assert listing[1..][l - 1] == listing[l]; }
        }
      }
    }
  }

  method FindSpan(service: KnowledgeService.Service, listing: seq<string>, projectId: string, q: Quote)
    returns (r: Option<string>)
    ensures r == FirstMatch(service.evidence, listing, projectId, q)
    ensures r.None? <==> forall j :: 0 <= j < |listing| ==> !Quoted(service.evidence, listing[j], projectId, q)
    ensures r.Some? ==>
              exists j :: 0 <= j < |listing| && listing[j] == r.value
                && Quoted(service.evidence, listing[j], projectId, q)
                          && forall l :: 0 <= l < j ==> !Quoted(service.evidence, listing[l], projectId, q)
  {
    FirstMatchMeans(service.evidence, listing, projectId, q);
    for i := 0 to |listing|
      invariant FirstMatch(service.evidence, listing, projectId, q)
                == FirstMatch(service.evidence, listing[i..], projectId, q)
    {
      if listing[i] in service.evidence && SpanMatches(service.evidence[listing[i]], projectId, q) {
        return Some(listing[i]);
      }
    }
    r := None;
  }

  method ResolveEvidence(service: KnowledgeService.Service, listing: seq<string>, projectId: string, quotes: seq<Quote>)
    returns (r: Option<seq<string>>)
    ensures r.Some? <==> forall i :: 0 <= i < |quotes| ==> Resolves(service.State(), listing, projectId, quotes[i])
    ensures r.Some? ==> Picked(service.State(), listing, projectId, quotes, r.value)
  {
    var refs: seq<string> := [];
    for i := 0 to |quotes|
      invariant forall k :: 0 <= k < i ==> Resolves(service.State(), listing, projectId, quotes[k])
      invariant Picked(service.State(), listing, projectId, quotes[..i], refs)
    {
      var q := quotes[i];
      if q.revisionId == "" || q.encoded == "" || q.text == "" {
        return None;
      }
      if q.revisionId !in service.revisions || service.revisions[q.revisionId].projectId != projectId {
        return None;
      }
      var matched := FindSpan(service, listing, projectId, q);
      if matched.None? {
        return None;
      }
      refs := refs + [matched.value];
    }
    r := Some(refs);
  }

  /** Checks the package against the run's contract and renders the creation inputs. */
  method ValidatePackage(service: KnowledgeService.Service, digest: Package -> string, listing: seq<string>,
                         contract: set<Passage>, run: Run, pkg: Package) returns (r: Option<seq<Content>>)
    ensures r.Some? <==> PackageValid(service.State(), listing, contract, run, pkg)
    ensures r.Some? ==> |r.value| == |pkg.candidates|
    ensures r.Some? ==>
              forall k :: 0 <= k < |r.value| ==> Input(service.State(), digest, listing, run, pkg, k, r.value[k])
  {
    if pkg.schema != "1.0" || |pkg.candidates| == 0 || (run.outputCount > 0 && |pkg.candidates| > run.outputCount)
       || |pkg.candidates| > 20 {
      return None;
    }
    var inputs: seq<Content> := [];
    for k := 0 to |pkg.candidates|
      invariant |inputs| == k
      invariant forall i :: 0 <= i < k ==>
                  CandidateValid(service.State(), listing, contract, run.projectId, pkg.candidates[i])
      invariant forall i :: 0 <= i < k ==> Input(service.State(), digest, listing, run, pkg, i, inputs[i])
    {
      var c := pkg.candidates[k];
      if !EnumsValid(c) || exists i :: 0 <= i < |c.evidence| && PassageOf(c.evidence[i]) !in contract {
        return None;
      }
      var refs := ResolveEvidence(service, listing, run.projectId, c.evidence);
      if refs.None? {
        return None;
      }
      inputs := inputs + [Content(KindOf(c.kind), c.wellFormed, c.body, Marker(digest, pkg), refs.value)];
    }
    r := Some(inputs);
  }

  ghost predicate Input(s: Repo, digest: Package -> string, listing: seq<string>, run: Run, pkg: Package, k: nat,
                        content: Content) {
    && k < |pkg.candidates| && Renders(pkg.candidates[k], Marker(digest, pkg), content)
    && Picked(s, listing, run.projectId, pkg.candidates[k].evidence, content.refs)
  }

  /** What lets the import past candidate k: its object is there and belongs to this package, or it
      is missing and can be created. */
  ghost predicate Passes(s: Repo, digest: Package -> string, listing: seq<string>, run: Run, pkg: Package, k: nat)
    requires k < |pkg.candidates|
  {
    var last := LastOf(s.objects, ObjectId(run.id, k));
    if last.Some? then !Conflicts(last.value, digest, run, pkg)
    else Admissible(s, listing, run.projectId, pkg.candidates[k])
  }

  /** How a delivery ends: refused as a whole, or after the first m candidates passed, because all
      did, because it was stopped, or because the next one did not pass. */
  ghost predicate Ends(s: Repo, digest: Package -> string, listing: seq<string>, contract: set<Passage>, run: Run,
                       pkg: Package,
                       limit: nat, outcome: Outcome, m: nat) {
    if !PackageValid(s, listing, contract, run, pkg) then outcome == Invalid && m == 0
    else
      && m <= limit && m <= |pkg.candidates| && (forall k :: 0 <= k < m ==> Passes(s, digest, listing, run, pkg, k))
      && match outcome {
           case Invalid => false
           case Complete => m == |pkg.candidates|
           case Stopped => m == limit < |pkg.candidates|
           case _ =>
             && m < limit && m < |pkg.candidates| && !Passes(s, digest, listing, run, pkg, m)
             && (outcome == Conflict <==> LastOf(s.objects, ObjectId(run.id, m)).Some?)
         }
  }

  /** One delivery, stopping of its own accord or after limit candidates. */
  method ImportPackage(service: KnowledgeService.Service, digest: Package -> string, listing: seq<string>,
                       contract: set<Passage>, run: Run, pkg: Package, limit: nat)
    returns (outcome: Outcome, ghost m: nat, ghost created: seq<Object>)
    requires RepoOk(service.State())
    modifies service`objects
    ensures RepoOk(service.State())
    ensures Delivered(old(service.State()), service.State(), digest, run, pkg, m, created)
    ensures Ends(old(service.State()), digest, listing, contract, run, pkg, limit, outcome, m)
    ensures outcome == Complete <==>
              && PackageValid(old(service.State()), listing, contract, run, pkg) && |pkg.candidates| <= limit
              && forall k :: 0 <= k < |pkg.candidates| ==> Passes(old(service.State()), digest, listing, run, pkg, k)
  {
    hide Delivered, RepoOk, PackageValid, Input, Passes, Ends, LastOf;
    ghost var start := service.State();
    m, created := 0, [];
    NothingDelivered(start, digest, run, pkg);
    var inputs := ValidatePackage(service, digest, listing, contract, run, pkg);
    if inputs.None? {
      EndsInvalid(start, digest, listing, contract, run, pkg, limit);
      return Invalid, m, created;
    }
    outcome := Complete;
    for k := 0 to |pkg.candidates|
      invariant m == k <= limit && RepoOk(service.State())
      invariant Delivered(start, service.State(), digest, run, pkg, k, created)
      invariant outcome == Complete && forall i :: 0 <= i < k ==> Passes(start, digest, listing, run, pkg, i)
    {
      if k == limit {
        EndsAt(start, digest, listing, contract, run, pkg, limit, Stopped, k);
        return Stopped, m, created;
      }
      outcome, created := ImportCandidate(service, digest, listing, start, run, pkg, k, inputs.value[k], created);
      if outcome != Complete {
        EndsAt(start, digest, listing, contract, run, pkg, limit, outcome, k);
        return;
      }
      m := k + 1;
    }
    EndsAt(start, digest, listing, contract, run, pkg, limit, Complete, |pkg.candidates|);
  }

  lemma NothingDelivered(s: Repo, digest: Package -> string, run: Run, pkg: Package)
    ensures Delivered(s, s, digest, run, pkg, 0, [])
  {
    assert s.objects + [] == s.objects;
  }

  lemma EndsInvalid(s: Repo, digest: Package -> string, listing: seq<string>, contract: set<Passage>, run: Run,
                    pkg: Package, limit: nat)
    requires !PackageValid(s, listing, contract, run, pkg)
    ensures Ends(s, digest, listing, contract, run, pkg, limit, Invalid, 0)
  {
  }

  /** A delivery of a valid package that got through m candidates ends there for its reason, and it
      is complete exactly when all pass within the limit. */
  lemma EndsAt(s: Repo, digest: Package -> string, listing: seq<string>, contract: set<Passage>, run: Run, pkg: Package,
               limit: nat, outcome: Outcome, m: nat)
    requires PackageValid(s, listing, contract, run, pkg) && m <= limit && m <= |pkg.candidates| && outcome != Invalid
    requires forall k :: 0 <= k < m ==> Passes(s, digest, listing, run, pkg, k)
    requires outcome == Complete ==> m == |pkg.candidates|
    requires outcome == Stopped ==> m == limit < |pkg.candidates|
    requires outcome in {Conflict, NotCreated} ==>
               && m < limit && m < |pkg.candidates| && !Passes(s, digest, listing, run, pkg, m)
               && (outcome == Conflict <==> LastOf(s.objects, ObjectId(run.id, m)).Some?)
    ensures Ends(s, digest, listing, contract, run, pkg, limit, outcome, m)
    ensures outcome == Complete <==>
              |pkg.candidates| <= limit
              && forall k :: 0 <= k < |pkg.candidates| ==> Passes(s, digest, listing, run, pkg, k)
  {
    hide Passes, PackageValid, LastOf, ObjectId;
  }

  /** One candidate: an object that is there must carry the marker, a missing one is created. */
  method ImportCandidate(service: KnowledgeService.Service, digest: Package -> string, ghost listing: seq<string>,
                         ghost start: Repo,
                         run: Run, pkg: Package, k: nat, input: Content, ghost created: seq<Object>)
    returns (outcome: Outcome, ghost more: seq<Object>)
    requires RepoOk(service.State()) && Delivered(start, service.State(), digest, run, pkg, k, created)
    requires k < |pkg.candidates| && Input(start, digest, listing, run, pkg, k, input)
    modifies service`objects
    ensures RepoOk(service.State()) && outcome in {Complete, Conflict, NotCreated}
    ensures outcome == Complete ==> Delivered(start, service.State(), digest, run, pkg, k + 1, more)
    ensures outcome != Complete ==> service.objects == old(service.objects) && more == created
    ensures outcome == Complete <==> Passes(start, digest, listing, run, pkg, k)
    ensures outcome == Conflict ==> LastOf(start.objects, ObjectId(run.id, k)).Some?
    ensures outcome == NotCreated ==> LastOf(start.objects, ObjectId(run.id, k)).None?
  {
    hide Delivered, RepoOk, ObjectsOk, Contiguous, Input, Created, Admissible, LastOf, RefsAllowed, Grounded;
    ghost var before := service.State();
    more := created;
    DeliveredApart(start, before, digest, run, pkg, k, created);
    RepoObjects(before);
    var existing := service.FindLatest(ObjectId(run.id, k));
    if existing.Some? {
      if Conflicts(existing.value, digest, run, pkg) {
        return Conflict, more;
      }
      DeliverPresent(start, before, digest, run, pkg, k, created);
      return Complete, more;
    }
    InputAdmissible(start, digest, listing, run, pkg, k, input);
    var r := service.CreateKnowledgeObject(run.projectId, ObjectId(run.id, k), NeedsReview, input, "");
    if r.None? {
      return NotCreated, more;
    }
    CreatedKeepsOk(before, service.State(), r.value);
    DeliverMissing(start, before, service.State(), digest, listing, run, pkg, k, created, r.value);
    return Complete, created + [r.value];
  }

  lemma RepoObjects(s: Repo)
    requires RepoOk(s)
    ensures ObjectsOk(s) && Contiguous(s.objects)
  {
  }

  /** An input can be created exactly when its candidate passes the object checks. */
  lemma InputAdmissible(s: Repo, digest: Package -> string, listing: seq<string>, run: Run, pkg: Package, k: nat,
                        content: Content)
    requires Input(s, digest, listing, run, pkg, k, content)
    ensures Admissible(s, listing, run.projectId, pkg.candidates[k])
            <==> content.wellFormed && RefsAllowed(s.evidence, run.projectId, content.refs, false)
    ensures Grounded(s.evidence, run.projectId, pkg.candidates[k].evidence, content.refs)
  {
    var quotes := pkg.candidates[k].evidence;
    forall refs | Picked(s, listing, run.projectId, quotes, refs) ensures refs == content.refs {
      assert forall i :: 0 <= i < |refs| ==> Some(refs[i]) == Some(content.refs[i]);
    }
    forall i | 0 <= i < |quotes|
      ensures content.refs[i] in s.evidence && SpanMatches(s.evidence[content.refs[i]], run.projectId, quotes[i])
    {
      FirstMatchMatches(s.evidence, listing, run.projectId, quotes[i]);
    }
  }

  /** What was created so far leaves the next candidate's object alone. */
  lemma DeliveredApart(s: Repo, t: Repo, digest: Package -> string, run: Run, pkg: Package, m: nat,
                       created: seq<Object>)
    requires Delivered(s, t, digest, run, pkg, m, created)
    ensures LastOf(t.objects, ObjectId(run.id, m)) == LastOf(s.objects, ObjectId(run.id, m))
    ensures t == s.(objects := s.objects + created)
    ensures forall i :: 0 <= i < |created| ==> created[i].id != ObjectId(run.id, m)
  {
    hide LastOf, Conflicts;
    forall i | 0 <= i < |created| ensures created[i].id != ObjectId(run.id, m) {
      assert FirstVersion(s, digest, run, pkg, m, created[i]);
      var k: nat :| k < m && Carries(s, digest, run, pkg, k, created[i]);
      if ObjectId(run.id, k) == ObjectId(run.id, m) { ObjectIdInjective(run.id, k, run.id, m); }
    }
    UnmentionedLast(s.objects, created, ObjectId(run.id, m));
  }

  lemma DeliverPresent(s: Repo, t: Repo, digest: Package -> string, run: Run, pkg: Package, m: nat,
                       created: seq<Object>)
    requires Delivered(s, t, digest, run, pkg, m, created) && m < |pkg.candidates|
    requires var last := LastOf(s.objects, ObjectId(run.id, m)); last.Some? && !Conflicts(last.value, digest, run, pkg)
    ensures Delivered(s, t, digest, run, pkg, m + 1, created)
  {
    hide LastOf, Conflicts, FirstVersion;
    forall i | 0 <= i < |created| ensures FirstVersion(s, digest, run, pkg, m + 1, created[i]) {
      FirstVersionMore(s, digest, run, pkg, m, created[i]);
    }
  }

  lemma DeliverMissing(s: Repo, mid: Repo, t: Repo, digest: Package -> string, listing: seq<string>, run: Run,
                       pkg: Package, m: nat,
                       created: seq<Object>, o: Object)
    requires Delivered(s, mid, digest, run, pkg, m, created) && m < |pkg.candidates|
    requires LastOf(s.objects, ObjectId(run.id, m)).None? && Input(s, digest, listing, run, pkg, m, o.content)
    requires t == mid.(objects := mid.objects + [o])
    requires o
             == Object(ObjectId(run.id, m), run.projectId, Count(mid.objects, ObjectId(run.id, m)) + 1, NeedsReview,
                       o.content, "")
    ensures Delivered(s, t, digest, run, pkg, m + 1, created + [o])
  {
    hide LastOf, Conflicts, Input, FirstVersion;
    DeliveredApart(s, mid, digest, run, pkg, m, created);
    var more := created + [o];
    MissingIsFirst(s, digest, listing, run, pkg, m, o) by { LastIsStored(mid.objects, o.id); }
    forall i | 0 <= i < |more| ensures FirstVersion(s, digest, run, pkg, m + 1, more[i]) {
      if i < |created| { FirstVersionMore(s, digest, run, pkg, m, created[i]); }
    }
    forall k | 0 <= k < m + 1 && LastOf(s.objects, ObjectId(run.id, k)).None?
      ensures exists i :: 0 <= i < |more| && more[i].id == ObjectId(run.id, k)
    {
      if k < m {
        var i :| 0 <= i < |created| && created[i].id == ObjectId(run.id, k);
        assert more[i].id == ObjectId(run.id, k);
      } else {
        assert more[|created|].id == ObjectId(run.id, k);
      }
    }
    assert s.objects + more == s.objects + created + [o];
  }

  lemma FirstVersionMore(s: Repo, digest: Package -> string, run: Run, pkg: Package, m: nat, o: Object)
    requires FirstVersion(s, digest, run, pkg, m, o)
    ensures FirstVersion(s, digest, run, pkg, m + 1, o)
  {
    hide Carries;
  }

  lemma MissingIsFirst(s: Repo, digest: Package -> string, listing: seq<string>, run: Run, pkg: Package, m: nat,
                       o: Object)
    requires LastOf(s.objects, ObjectId(run.id, m)).None? && Input(s, digest, listing, run, pkg, m, o.content)
    requires o == Object(ObjectId(run.id, m), run.projectId, 1, NeedsReview, o.content, "")
    ensures FirstVersion(s, digest, run, pkg, m + 1, o)
  {
    hide LastOf, Grounded;
    InputAdmissible(s, digest, listing, run, pkg, m, o.content);
    assert Carries(s, digest, run, pkg, m, o);
  }

  /** What a delivery that got through m candidates has written: only first versions that need review,
      under the ids of those candidates, with their kind, body and the package's digest, resting on spans
      with the quoted passages; and after it each of those ids carries this package's digest. */
  lemma DeliveredMeans(s: Repo, t: Repo, digest: Package -> string, run: Run, pkg: Package, m: nat,
                       created: seq<Object>)
    requires Delivered(s, t, digest, run, pkg, m, created)
    ensures t == s.(objects := s.objects + created)
    ensures forall o :: o in created ==>
              && o.version == 1 && o.status == NeedsReview && o.projectId == run.projectId
              && (forall p :: p in s.objects ==> p.id != o.id)
              && exists k: nat :: k < m && o.id == "knowledge:" + run.id + ":" + Decimal(k + 1)
                                  && Written(s.evidence, digest, run, pkg, pkg.candidates[k], o.content)
    ensures forall k: nat :: k < m ==>
              var last := LastOf(t.objects, ObjectId(run.id, k));
              last.Some? && last.value.content.marker == "sha256:" + digest(pkg)
                && last.value.projectId == run.projectId
  {
    hide LastOf, Decimal;
    forall o | o in created
      ensures && o.version == 1 && o.status == NeedsReview && o.projectId == run.projectId
              && (forall p :: p in s.objects ==> p.id != o.id)
              && exists k: nat :: k < m && o.id == "knowledge:" + run.id + ":" + Decimal(k + 1)
                                  && Written(s.evidence, digest, run, pkg, pkg.candidates[k], o.content)
    {
      var i :| 0 <= i < |created| && created[i] == o;
      assert FirstVersion(s, digest, run, pkg, m, created[i]);
      var k: nat :| k < m && Carries(s, digest, run, pkg, k, o);
      assert o.id == "knowledge:" + run.id + ":" + Decimal(k + 1);
      LastIsStored(s.objects, o.id);
    }
    forall k: nat | k < m
      ensures var last := LastOf(t.objects, ObjectId(run.id, k));
              last.Some? && last.value.content.marker == "sha256:" + digest(pkg)
              && last.value.projectId == run.projectId
    {
      HandledCarries(s, t, digest, run, pkg, m, created, k);
    }
  }

  /** The kind, body and digest the import writes, and references whose spans carry the quotes. */
  predicate Written(evidence: map<string, Span>, digest: Package -> string, run: Run, pkg: Package, c: Candidate,
                    content: Content) {
    && content.kind == (match c.kind
                        case "fact" => FactAssertion
                        case "claim" => Claim
                        case _ => OtherKind)
    && content.body == c.body && content.wellFormed == c.wellFormed && content.marker == "sha256:" + digest(pkg)
    && |content.refs| == |c.evidence|
    && forall i :: 0 <= i < |content.refs| ==>
         content.refs[i] in evidence
         && var q := c.evidence[i];
            evidence[content.refs[i]].(review := Accepted)
            == Span(run.projectId, q.revisionId, Accepted, q.locator, q.text)
  }

  lemma HandledCarries(s: Repo, t: Repo, digest: Package -> string, run: Run, pkg: Package, m: nat,
                       created: seq<Object>, k: nat)
    requires Delivered(s, t, digest, run, pkg, m, created) && k < m
    ensures var last := LastOf(t.objects, ObjectId(run.id, k));
            last.Some? && last.value.content.marker == "sha256:" + digest(pkg) && last.value.projectId == run.projectId
  {
    hide LastOf, ObjectId, Grounded;
    var id := ObjectId(run.id, k);
    if i :| 0 <= i < |created| && created[i].id == id {
      MentionedLast(s.objects, created, i);
      assert FirstVersion(s, digest, run, pkg, m, created[i]);
    } else {
      UnmentionedLast(s.objects, created, id);
    }
  }

  /** Reading the digits back gives the number. */
  function ValueOf(digits: string): int {
    if digits == "" then 0 else 10 * ValueOf(digits[..|digits| - 1]) + (digits[|digits| - 1] as int - '0' as int)
  }

  lemma {:induction false} DecimalReadsBack(n: nat)
    ensures ValueOf(Decimal(n)) == n
  {
    var d := Decimal(n);
    if n >= 10 {
      DecimalReadsBack(n / 10);
      assert d[..|d| - 1] == Decimal(n / 10);
    }
  }

  // ---------------------------------------------------------------- every run of deliveries

  /** The objects under the run's ids, in all their versions, are the first n candidates of pkg. */
  ghost predicate Prefix(s: Repo, digest: Package -> string, run: Run, pkg: Package, n: nat) {
    && n <= |pkg.candidates|
    && (forall o, k: nat :: o in s.objects && o.id == ObjectId(run.id, k) ==>
          k < n && Carries(s, digest, run, pkg, k, o))
    && (forall k :: 0 <= k < n ==> LastOf(s.objects, ObjectId(run.id, k)).Some?)
  }

  lemma {:induction false} LastIsStored(objects: seq<Object>, id: string)
    ensures var last := LastOf(objects, id);
            && (last.Some? ==> last.value in objects && last.value.id == id)
            && (last.None? ==> Count(objects, id) == 0 && forall o :: o in objects ==> o.id != id)
    decreases |objects|
  {
    if objects != [] {
      LastIsStored(objects[..|objects| - 1], id);
      assert objects == objects[..|objects| - 1] + [objects[|objects| - 1]];
    }
  }

  lemma {:induction false} MoreKeepsLast(objects: seq<Object>, more: seq<Object>, id: string)
    requires LastOf(objects, id).Some?
    ensures LastOf(objects + more, id).Some?
    decreases |more|
  {
    if more == [] {
      assert objects + more == objects;
    } else {
      var init := more[..|more| - 1];
      MoreKeepsLast(objects, init, id);
      assert objects + more == (objects + init) + [more[|more| - 1]];
      AppendOne(objects + init, more[|more| - 1], id);
    }
  }

  ghost predicate Injective(digest: Package -> string) {
    forall p, q :: digest(p) == digest(q) ==> p == q
  }

  /** A delivery of a package that is already there in part does not conflict anywhere; one of
      another package conflicts at the first candidate. */
  lemma ConflictIffDifferent(s: Repo, digest: Package -> string, run: Run, pkg: Package, n: nat, other: Package, k: nat)
    requires Injective(digest) && Prefix(s, digest, run, pkg, n) && k < n
    ensures LastOf(s.objects, ObjectId(run.id, k)).Some?
    ensures Conflicts(LastOf(s.objects, ObjectId(run.id, k)).value, digest, run, other) <==> other != pkg
  {
    LastIsStored(s.objects, ObjectId(run.id, k));
    assert Carries(s, digest, run, pkg, k, LastOf(s.objects, ObjectId(run.id, k)).value);
    assert Marker(digest, other)[7..] == digest(other) && Marker(digest, pkg)[7..] == digest(pkg);
  }

  /** Hence a different package is refused with nothing written. */
  lemma DifferentPackageWritesNothing(s: Repo, t: Repo, digest: Package -> string, run: Run, pkg: Package, n: nat,
                                      other: Package, m: nat, created: seq<Object>)
    requires Injective(digest) && Prefix(s, digest, run, pkg, n) && n > 0 && other != pkg
    requires Delivered(s, t, digest, run, other, m, created)
    ensures m == 0 && t == s
  {
    ConflictIffDifferent(s, digest, run, pkg, n, other, 0);
    assert m == 0;
    assert created != [] ==> FirstVersion(s, digest, run, other, m, created[0]);
    assert s.objects + [] == s.objects;
  }

  /** Delivering the package extends the prefix to what was handled, if that is further. */
  lemma SamePackageExtends(s: Repo, t: Repo, digest: Package -> string, run: Run, pkg: Package, n: nat, m: nat,
                           created: seq<Object>)
    requires Prefix(s, digest, run, pkg, n) && Delivered(s, t, digest, run, pkg, m, created)
    ensures Prefix(t, digest, run, pkg, if m < n then n else m)
  {
    hide LastOf, Carries;
    var top := if m < n then n else m;
    forall o, k: nat | o in t.objects && o.id == ObjectId(run.id, k)
      ensures k < top && Carries(t, digest, run, pkg, k, o)
    {
      CarriesFrame(s, t, digest, run, pkg, k, o);
      if o !in s.objects {
        var i :| 0 <= i < |created| && created[i] == o;
        assert FirstVersion(s, digest, run, pkg, m, created[i]);
        var l: nat :| l < m && Carries(s, digest, run, pkg, l, o);
        CarriesId(s, digest, run, pkg, l, o);
        ObjectIdInjective(run.id, k, run.id, l);
      }
    }
    forall k | 0 <= k < top ensures LastOf(t.objects, ObjectId(run.id, k)).Some? {
      var id := ObjectId(run.id, k);
      if LastOf(s.objects, id).Some? {
        MoreKeepsLast(s.objects, created, id);
      } else {
        var i :| 0 <= i < |created| && created[i].id == id;
        MentionedLast(s.objects, created, i);
      }
    }
  }

  lemma CarriesId(s: Repo, digest: Package -> string, run: Run, pkg: Package, k: nat, o: Object)
    requires Carries(s, digest, run, pkg, k, o)
    ensures o.id == ObjectId(run.id, k)
  {
  }

  /** Spans may be added and reviewed; what they quote stays. */
  ghost predicate EvidenceKept(s: Repo, t: Repo) {
    forall e :: e in s.evidence ==> e in t.evidence && t.evidence[e] == s.evidence[e].(review := t.evidence[e].review)
  }

  lemma CarriesFrame(s: Repo, t: Repo, digest: Package -> string, run: Run, pkg: Package, k: nat, o: Object)
    requires EvidenceKept(s, t)
    ensures Carries(s, digest, run, pkg, k, o) ==> Carries(t, digest, run, pkg, k, o)
  {
  }

  /** A delivery that handled every candidate: objects already there get no further version, the
      missing ones exactly one. */
  lemma CompletedDelivery(s: Repo, t: Repo, digest: Package -> string, run: Run, pkg: Package, n: nat,
                          created: seq<Object>, k: nat)
    requires Prefix(s, digest, run, pkg, n) && Delivered(s, t, digest, run, pkg, |pkg.candidates|, created)
    requires k < |pkg.candidates|
    ensures Prefix(t, digest, run, pkg, |pkg.candidates|)
    ensures Count(t.objects, ObjectId(run.id, k)) == if k < n then Count(s.objects, ObjectId(run.id, k)) else 1
  {
    hide Delivered, Prefix;
    PrefixDecides(s, digest, run, pkg, n, k);
    SamePackageExtends(s, t, digest, run, pkg, n, |pkg.candidates|, created);
    if k < n {
      PresentGetsNoVersion(s, t, digest, run, pkg, |pkg.candidates|, created, k);
    } else {
      MissingGetsOne(s, t, digest, run, pkg, |pkg.candidates|, created, k);
    }
  }

  lemma PrefixDecides(s: Repo, digest: Package -> string, run: Run, pkg: Package, n: nat, k: nat)
    requires Prefix(s, digest, run, pkg, n)
    ensures n <= |pkg.candidates| && (LastOf(s.objects, ObjectId(run.id, k)).Some? <==> k < n)
  {
    LastIsStored(s.objects, ObjectId(run.id, k));
  }

  lemma PresentGetsNoVersion(s: Repo, t: Repo, digest: Package -> string, run: Run, pkg: Package, m: nat,
                             created: seq<Object>, k: nat)
    requires Delivered(s, t, digest, run, pkg, m, created) && LastOf(s.objects, ObjectId(run.id, k)).Some?
    ensures Count(t.objects, ObjectId(run.id, k)) == Count(s.objects, ObjectId(run.id, k))
  {
    hide LastOf, Conflicts, Carries;
    forall i | 0 <= i < |created| ensures created[i].id != ObjectId(run.id, k) {
      assert FirstVersion(s, digest, run, pkg, m, created[i]);
    }
    UnmentionedLast(s.objects, created, ObjectId(run.id, k));
  }

  lemma MissingGetsOne(s: Repo, t: Repo, digest: Package -> string, run: Run, pkg: Package, m: nat,
                       created: seq<Object>, k: nat)
    requires Delivered(s, t, digest, run, pkg, m, created) && k < m && LastOf(s.objects, ObjectId(run.id, k)).None?
    ensures Count(t.objects, ObjectId(run.id, k)) == 1
  {
    hide LastOf, Conflicts, FirstVersion;
    LastIsStored(s.objects, ObjectId(run.id, k));
    var i :| 0 <= i < |created| && created[i].id == ObjectId(run.id, k);
    MentionedOnce(s.objects, created, i);
  }

  lemma MentionedOnce(objects: seq<Object>, more: seq<Object>, i: nat)
    requires i < |more| && forall j, k :: 0 <= j < k < |more| ==> more[j].id != more[k].id
    ensures Count(objects + more, more[i].id) == Count(objects, more[i].id) + 1
  {
    hide LastOf, Count;
    var id := more[i].id;
    UnmentionedLast(objects, more[..i], id);
    AppendOne(objects + more[..i], more[i], id);
    UnmentionedLast(objects + more[..i] + [more[i]], more[i + 1..], id);
    assert objects + more == objects + more[..i] + [more[i]] + more[i + 1..];
  }

  datatype Step = Command(c: Knowledge.Command) | Deliver(run: Run, pkg: Package, m: nat, created: seq<Object>)

  /** Object creation by hand stays off the ids of runs. */
  ghost predicate Steps(s: Repo, t: Repo, digest: Package -> string, step: Step) {
    match step
    case Command(c) => Does(s, t, c) && (c.Create? ==> forall r, k: nat :: c.o.id != ObjectId(r, k))
    case Deliver(run, pkg, m, created) => Delivered(s, t, digest, run, pkg, m, created)
  }

  /** Whatever a command appends under a run's id repeats the content stored there. */
  ghost predicate Repeats(s: Repo, o: Object) {
    exists p :: p in s.objects && p.id == o.id && p.projectId == o.projectId && p.content == o.content
  }

  lemma CommandRepeats(s: Repo, t: Repo, c: Knowledge.Command)
    requires Does(s, t, c)
    ensures EvidenceKept(s, t) && s.objects <= t.objects
    ensures forall o :: o in t.objects[|s.objects|..] ==> Repeats(s, o) || (c.Create? && o == c.o)
  {
    forall o | o in t.objects[|s.objects|..] ensures Repeats(s, o) || (c.Create? && o == c.o) {
      LastIsStored(s.objects, o.id);
    }
  }

  lemma PrefixFrame(s: Repo, t: Repo, digest: Package -> string, run: Run, pkg: Package, n: nat)
    requires Prefix(s, digest, run, pkg, n) && EvidenceKept(s, t) && s.objects <= t.objects
    requires forall o :: o in t.objects[|s.objects|..] ==> Repeats(s, o) || forall k: nat :: o.id != ObjectId(run.id, k)
    ensures Prefix(t, digest, run, pkg, n)
  {
    var more := t.objects[|s.objects|..];
    assert t.objects == s.objects + more;
    forall o, k: nat | o in t.objects && o.id == ObjectId(run.id, k)
      ensures k < n && Carries(t, digest, run, pkg, k, o)
    {
      var p := o;
      if o !in s.objects {
        assert Repeats(s, o);
        p :| p in s.objects && p.id == o.id && p.projectId == o.projectId && p.content == o.content;
      }
      CarriesFrame(s, t, digest, run, pkg, k, p);
    }
    forall k | 0 <= k < n ensures LastOf(t.objects, ObjectId(run.id, k)).Some? {
      MoreKeepsLast(s.objects, more, ObjectId(run.id, k));
    }
  }

  /** Every step keeps the run's objects a prefix of one package. */
  lemma StepKeepsPrefix(s: Repo, t: Repo, digest: Package -> string, step: Step, run: Run, pkg: Package, n: nat)
    requires Injective(digest) && Prefix(s, digest, run, pkg, n) && Steps(s, t, digest, step)
    requires step.Deliver? && step.run.id == run.id ==> step.run == run
    ensures exists pkg', n': nat :: Prefix(t, digest, run, pkg', n') && n <= n' && (n > 0 ==> pkg' == pkg)
  {
    hide Prefix, Delivered, Does;
    match step {
      case Command(c) =>
        CommandRepeats(s, t, c);
        PrefixFrame(s, t, digest, run, pkg, n);
      case Deliver(r, other, m, created) =>
        if r.id != run.id {
          OtherRunApart(s, t, digest, r, other, m, created, run.id);
          PrefixFrame(s, t, digest, run, pkg, n);
        } else if n == 0 {
          EmptyPrefix(s, digest, run, pkg, other);
          SamePackageExtends(s, t, digest, run, other, 0, m, created);
        } else if other == pkg {
          SamePackageExtends(s, t, digest, run, pkg, n, m, created);
        } else {
          DifferentPackageWritesNothing(s, t, digest, run, pkg, n, other, m, created);
        }
    }
  }

  lemma OtherRunApart(s: Repo, t: Repo, digest: Package -> string, run: Run, pkg: Package, m: nat,
                      created: seq<Object>, runId: string)
    requires Delivered(s, t, digest, run, pkg, m, created) && run.id != runId
    ensures EvidenceKept(s, t) && s.objects <= t.objects
    ensures forall o, k: nat :: o in t.objects[|s.objects|..] ==> o.id != ObjectId(runId, k)
  {
    assert t.objects[|s.objects|..] == created;
    forall o, k: nat | o in created ensures o.id != ObjectId(runId, k) {
      assert FirstVersion(s, digest, run, pkg, m, o);
      var l: nat :| l < m && Carries(s, digest, run, pkg, l, o);
      if ObjectId(run.id, l) == ObjectId(runId, k) { ObjectIdInjective(run.id, l, runId, k); }
    }
  }

  lemma EmptyPrefix(s: Repo, digest: Package -> string, run: Run, pkg: Package, other: Package)
    requires Prefix(s, digest, run, pkg, 0)
    ensures Prefix(s, digest, run, other, 0)
  {
  }

  ghost predicate IsHistory(states: seq<Repo>, steps: seq<Step>, digest: Package -> string) {
    && |states| == |steps| + 1
    && forall i :: 0 <= i < |steps| ==> Steps(states[i], states[i + 1], digest, steps[i])
  }

  /** Over any history of deliveries, each stopped anywhere, mixed with reviews, propagation and
      the deliveries of other runs, the objects under a run's ids are a prefix of one package;
      once there is one, the package never changes and the prefix never shrinks. */
  lemma {:induction false} HistoryKeepsPrefix(states: seq<Repo>, steps: seq<Step>, digest: Package -> string, run: Run,
                                              pkg: Package, n: nat)
    requires IsHistory(states, steps, digest) && Injective(digest) && Prefix(states[0], digest, run, pkg, n)
    requires forall i :: 0 <= i < |steps| && steps[i].Deliver? && steps[i].run.id == run.id ==> steps[i].run == run
    ensures exists pkg', n': nat :: Prefix(states[|steps|], digest, run, pkg', n') && n <= n' && (n > 0 ==> pkg' == pkg)
    decreases |steps|
  {
    if steps != [] {
      assert Steps(states[0], states[1], digest, steps[0]);
      StepKeepsPrefix(states[0], states[1], digest, steps[0], run, pkg, n);
      var p, k: nat :| Prefix(states[1], digest, run, p, k) && n <= k && (n > 0 ==> p == pkg);
      assert IsHistory(states[1..], steps[1..], digest) by {
        forall i | 0 <= i < |steps| - 1 ensures Steps(states[1..][i], states[1..][i + 1], digest, steps[1..][i]) {
          assert Steps(states[i + 1], states[i + 2], digest, steps[i + 1]);
        }
      }
      HistoryKeepsPrefix(states[1..], steps[1..], digest, run, p, k);
    }
  }
}
