/** Evidence and knowledge governance: an append-only log of object versions over reviewed
    evidence. Rejecting evidence or revising a source demotes what rests on it. */
module Knowledge {
  import opened Wrappers

  datatype Review = Accepted | AwaitingReview | Refused

  datatype Status =
    | Unset | Candidate | NeedsReview | Open | SourceMissing | Collecting
    | Verified | Approved | Valid | Active | Rejected | OtherStatus

  datatype Kind = FactAssertion | Insight | Claim | Asset | RightsRecord | KnowledgeGap | ConflictRecord | OtherKind

  datatype Span = Span(projectId: string, revisionId: string, review: Review, locator: string, text: string)

  datatype Revision = Revision(projectId: string, sourceId: string)

  /** wellFormed stands for the field checks of KnowledgeObject.Validate; marker is the payload's
      runtime result digest, "" when there is none. */
  datatype Content = Content(kind: Kind, wellFormed: bool, body: string, marker: string, refs: seq<string>)

  datatype Object = Object(id: string, projectId: string, version: int, status: Status, content: Content,
                           decisionRef: string)

  datatype Repo = Repo(
    evidence: map<string, Span>, revisions: map<string, Revision>, sources: map<string, string>, objects: seq<Object>)

  predicate Eligible(s: Status) { s in {Verified, Approved, Valid, Active} }

  function ApprovedStatus(kind: Kind): (s: Status)
    ensures Eligible(s)
    ensures s == Verified <==> kind in {FactAssertion, Insight}
    ensures s == Approved <==> kind in {Claim, Asset}
    ensures s == Valid <==> kind == RightsRecord
  {
    match kind
    case FactAssertion => Verified
    case Insight => Verified
    case Claim => Approved
    case Asset => Approved
    case RightsRecord => Valid
    case _ => Active
  }

  /** The status a creation asks for, defaulted the way the command does. */
  function RequestedStatus(kind: Kind, status: Status): Status {
    if status != Unset then status else if kind in {KnowledgeGap, ConflictRecord} then Open else Candidate
  }

  predicate Creatable(kind: Kind, status: Status) {
    || status in {Candidate, NeedsReview}
    || (kind == KnowledgeGap && status in {Open, SourceMissing, Collecting})
    || (kind == ConflictRecord && status == Open)
  }

  // ---------------------------------------------------------------- the version log

  function LastOf(objects: seq<Object>, id: string): Option<Object> {
    if objects == [] then None
    else if objects[|objects| - 1].id == id then Some(objects[|objects| - 1])
    else LastOf(objects[..|objects| - 1], id)
  }

  /** No later entry of the log is about the same object. */
  predicate IsLatest(objects: seq<Object>, k: nat)
    requires k < |objects|
  {
    forall l :: k < l < |objects| ==> objects[l].id != objects[k].id
  }

  /** The last version of an object is its latest entry in the log. */
  lemma {:induction false} LastIsLatest(objects: seq<Object>, id: string)
    ensures LastOf(objects, id).None? <==> forall k :: 0 <= k < |objects| ==> objects[k].id != id
    ensures forall k :: 0 <= k < |objects| && objects[k].id == id && IsLatest(objects, k) ==>
              LastOf(objects, id) == Some(objects[k])
    ensures LastOf(objects, id).Some? ==>
              exists k :: 0 <= k < |objects| && LastOf(objects, id).value == objects[k] && objects[k].id == id
                          && IsLatest(objects, k)
  {
    if objects != [] {
      var n := |objects| - 1;
      var init := objects[..n];
      LastIsLatest(init, id);
      if objects[n].id == id {
        assert IsLatest(objects, n);
      } else {
        forall k | 0 <= k < n && objects[k].id == id ensures IsLatest(objects, k) <==> IsLatest(init, k) { }
      }
    }
  }

  lemma GovernedLatest(s: Repo)
    requires RepoOk(s)
    ensures forall k :: 0 <= k < |s.objects| && IsLatest(s.objects, k) ==>
              var o := s.objects[k];
              o.status in {Verified, Approved, Valid, Active} ==>
                forall ref :: ref in o.content.refs ==> ref in s.evidence && s.evidence[ref].review == Accepted
  {
    hide ObjectsOk, SourcesOk, LastOf;
    forall k | 0 <= k < |s.objects| && IsLatest(s.objects, k)
      && s.objects[k].status in {Verified, Approved, Valid, Active}
      ensures forall ref :: ref in s.objects[k].content.refs ==> ref in s.evidence && s.evidence[ref].review == Accepted
    {
      LastIsLatest(s.objects, s.objects[k].id);
      assert Governed(s, s.objects[k].id);
    }
  }

  function Count(objects: seq<Object>, id: string): nat {
    if objects == [] then 0
    else Count(objects[..|objects| - 1], id) + if objects[|objects| - 1].id == id then 1 else 0
  }

  /** The versions of every id are 1, 2, 3, ... in log order. */
  ghost predicate Contiguous(objects: seq<Object>) {
    forall i :: 0 <= i < |objects| ==> objects[i].version == Count(objects[..i], objects[i].id) + 1
  }

  lemma AppendOne(objects: seq<Object>, o: Object, id: string)
    ensures LastOf(objects + [o], id) == if o.id == id then Some(o) else LastOf(objects, id)
    ensures Count(objects + [o], id) == Count(objects, id) + if o.id == id then 1 else 0
  {
    assert (objects + [o])[..|objects|] == objects;
  }

  lemma AppendContiguous(objects: seq<Object>, o: Object)
    requires Contiguous(objects) && o.version == Count(objects, o.id) + 1
    ensures Contiguous(objects + [o])
  {
    var more := objects + [o];
    forall i | 0 <= i < |more| ensures more[i].version == Count(more[..i], more[i].id) + 1 {
      assert more[..i] == if i < |objects| then objects[..i] else objects;
    }
  }

  lemma {:induction false} LastVersion(objects: seq<Object>, id: string)
    requires Contiguous(objects)
    ensures var last := LastOf(objects, id);
            && (last.None? <==> Count(objects, id) == 0)
            && (last.Some? ==> last.value in objects && last.value.id == id && last.value.version == Count(objects, id))
    decreases |objects|
  {
    if objects != [] {
      var init := objects[..|objects| - 1];
      assert Contiguous(init) by {
        forall i | 0 <= i < |init| ensures init[i].version == Count(init[..i], init[i].id) + 1 {
          assert init[..i] == objects[..i];
        }
      }
      LastVersion(init, id);
    }
  }

  lemma {:induction false} UnmentionedLast(objects: seq<Object>, more: seq<Object>, id: string)
    requires forall i :: 0 <= i < |more| ==> more[i].id != id
    ensures LastOf(objects + more, id) == LastOf(objects, id) && Count(objects + more, id) == Count(objects, id)
    decreases |more|
  {
    if more == [] {
      assert objects + more == objects;
    } else {
      var init := more[..|more| - 1];
      UnmentionedLast(objects, init, id);
      assert objects + more == (objects + init) + [more[|more| - 1]];
      AppendOne(objects + init, more[|more| - 1], id);
    }
  }

  lemma {:induction false} MentionedLast(objects: seq<Object>, more: seq<Object>, k: nat)
    requires k < |more| && forall i, j :: 0 <= i < j < |more| ==> more[i].id != more[j].id
    ensures LastOf(objects + more, more[k].id) == Some(more[k])
    decreases |more|
  {
    var init := more[..|more| - 1];
    assert objects + more == (objects + init) + [more[|more| - 1]];
    AppendOne(objects + init, more[|more| - 1], more[k].id);
    if k < |more| - 1 { MentionedLast(objects, init, k); }
  }

  // ---------------------------------------------------------------- the invariant

  /** The evidence check: known, in the project, none empty, none twice, accepted if demanded. */
  ghost predicate RefsAllowed(evidence: map<string, Span>, projectId: string, refs: seq<string>,
                              requireAccepted: bool) {
    && (forall i :: 0 <= i < |refs| ==> RefAllowed(evidence, projectId, refs[i], requireAccepted))
    && (forall i, j :: 0 <= i < j < |refs| ==> refs[i] != refs[j])
  }

  predicate RefAllowed(evidence: map<string, Span>, projectId: string, ref: string, requireAccepted: bool) {
    && ref != "" && ref in evidence && evidence[ref].projectId == projectId
    && (requireAccepted ==> evidence[ref].review == Accepted)
  }

  /** The latest version, when eligible, rests on accepted evidence only. */
  ghost predicate Governed(s: Repo, id: string) {
    var last := LastOf(s.objects, id);
    last.Some? && Eligible(last.value.status) ==>
      forall ref :: ref in last.value.content.refs ==> ref in s.evidence && s.evidence[ref].review == Accepted
  }

  ghost predicate ObjectsOk(s: Repo) {
    && Contiguous(s.objects)
    && (forall o :: o in s.objects ==>
          o.content.wellFormed && RefsAllowed(s.evidence, o.projectId, o.content.refs, false))
    && (forall o, p :: o in s.objects && p in s.objects && o.id == p.id ==> o.projectId == p.projectId)
  }

  ghost predicate SourcesOk(s: Repo) {
    && (forall r :: r in s.revisions ==>
          s.revisions[r].sourceId in s.sources && s.sources[s.revisions[r].sourceId] == s.revisions[r].projectId)
    && (forall e :: e in s.evidence ==>
          s.evidence[e].revisionId in s.revisions
          && s.revisions[s.evidence[e].revisionId].projectId == s.evidence[e].projectId)
  }

  ghost predicate RepoOk(s: Repo) {
    ObjectsOk(s) && SourcesOk(s) && forall id :: Governed(s, id)
  }

  // ---------------------------------------------------------------- what each command does

  /** A new version that may be appended to the log: next number, same project, allowed refs. */
  ghost predicate NextVersion(s: Repo, o: Object) {
    && o.version == Count(s.objects, o.id) + 1
    && (forall p :: p in s.objects && p.id == o.id ==> p.projectId == o.projectId)
    && o.content.wellFormed && RefsAllowed(s.evidence, o.projectId, o.content.refs, false)
  }

  ghost predicate Created(s: Repo, t: Repo, o: Object) {
    NextVersion(s, o) && Creatable(o.content.kind, o.status) && t == s.(objects := s.objects + [o])
  }

  ghost predicate Decided(s: Repo, t: Repo, o: Object) {
    var last := LastOf(s.objects, o.id);
    && last.Some? && last.value.status in {Candidate, NeedsReview}
    && last.value.content.kind !in {KnowledgeGap, ConflictRecord}
    && o == last.value.(version := last.value.version + 1, status := o.status, decisionRef := o.decisionRef)
    && (o.status == Rejected || (o.status == ApprovedStatus(o.content.kind) && o.content.refs != []
                                 && RefsAllowed(s.evidence, o.projectId, o.content.refs, true)))
    && t == s.(objects := s.objects + [o])
  }

  ghost predicate Impacted(s: Repo, projectId: string, revisionIds: set<string>, id: string) {
    var last := LastOf(s.objects, id);
    last.Some? && last.value.projectId == projectId && Cites(s.evidence, revisionIds, last.value)
  }

  ghost predicate Cites(evidence: map<string, Span>, revisionIds: set<string>, o: Object) {
    exists i :: 0 <= i < |o.content.refs| && o.content.refs[i] in evidence
      && evidence[o.content.refs[i]].revisionId in revisionIds
  }

  function Demote(o: Object): Object {
    o.(version := o.version + 1, status := NeedsReview, decisionRef := "")
  }

  /** Every impacted eligible object, and nothing else, gets one demoted version, in some order. */
  ghost predicate Demotions(s: Repo, projectId: string, revisionIds: set<string>, ds: seq<Object>) {
    && (forall i :: 0 <= i < |ds| ==> DemotionOf(s, projectId, revisionIds, ds[i]))
    && (forall i, j :: 0 <= i < j < |ds| ==> ds[i].id != ds[j].id)
    && (forall id :: Impacted(s, projectId, revisionIds, id) && Eligible(LastOf(s.objects, id).value.status)
          ==> exists i :: 0 <= i < |ds| && ds[i].id == id)
  }

  ghost predicate DemotionOf(s: Repo, projectId: string, revisionIds: set<string>, d: Object) {
    && Impacted(s, projectId, revisionIds, d.id)
    && Eligible(LastOf(s.objects, d.id).value.status) && d == Demote(LastOf(s.objects, d.id).value)
  }

  function RevisionsOf(s: Repo, sourceId: string): set<string> {
    set r | r in s.revisions && s.revisions[r].sourceId == sourceId
  }

  /** ReviewEvidence: the span changes; if it was accepted and no longer is, every revision of its
      source is propagated. */
  ghost predicate EvidenceReviewed(s: Repo, t: Repo, e: string, review: Review, ds: seq<Object>) {
    && e in s.evidence && s.evidence[e].revisionId in s.revisions && review in {Accepted, Refused}
    && var mid := s.(evidence := s.evidence[e := s.evidence[e].(review := review)]);
    && t == mid.(objects := mid.objects + ds)
    && if s.evidence[e].review == Accepted && review != Accepted then
         var revision := s.revisions[s.evidence[e].revisionId];
         revision.sourceId in s.sources
         && Demotions(mid, s.sources[revision.sourceId], RevisionsOf(s, revision.sourceId), ds)
       else ds == []
  }

  /** CreateSourceRevision: the new revision is stored, the earlier ones are propagated. */
  ghost predicate SourceRevised(s: Repo, t: Repo, sourceId: string, revisionId: string, ds: seq<Object>) {
    && sourceId in s.sources && revisionId !in s.revisions
    && var mid := s.(revisions := s.revisions[revisionId := Revision(s.sources[sourceId], sourceId)]);
    && t == mid.(objects := mid.objects + ds)
    && Demotions(mid, s.sources[sourceId], RevisionsOf(s, sourceId), ds)
  }

  /** CompleteSource: a fresh evidence span of a known revision. */
  ghost predicate EvidenceAdded(s: Repo, t: Repo, e: string, span: Span) {
    && e !in s.evidence && span.revisionId in s.revisions && s.revisions[span.revisionId].projectId == span.projectId
    && t == s.(evidence := s.evidence[e := span])
  }

  ghost predicate SourceCreated(s: Repo, t: Repo, sourceId: string, projectId: string, revisionId: string) {
    && sourceId !in s.sources && revisionId !in s.revisions
    && t == s.(sources := s.sources[sourceId := projectId],
               revisions := s.revisions[revisionId := Revision(projectId, sourceId)])
  }

  datatype Command =
    | Create(o: Object) | Decide(o: Object) | ReviewSpan(e: string, review: Review, ds: seq<Object>)
    | Revise(sourceId: string, revisionId: string, ds: seq<Object>) | AddSpan(e: string, span: Span)
    | AddSource(sourceId: string, projectId: string, revisionId: string)

  ghost predicate Does(s: Repo, t: Repo, c: Command) {
    match c
    case Create(o) => Created(s, t, o)
    case Decide(o) => Decided(s, t, o)
    case ReviewSpan(e, review, ds) => EvidenceReviewed(s, t, e, review, ds)
    case Revise(sourceId, revisionId, ds) => SourceRevised(s, t, sourceId, revisionId, ds)
    case AddSpan(e, span) => EvidenceAdded(s, t, e, span)
    case AddSource(sourceId, projectId, revisionId) => SourceCreated(s, t, sourceId, projectId, revisionId)
  }

  // ---------------------------------------------------------------- every command keeps the invariant

  lemma AppendKeepsObjects(s: Repo, o: Object)
    requires ObjectsOk(s) && NextVersion(s, o)
    ensures ObjectsOk(s.(objects := s.objects + [o]))
  {
    AppendContiguous(s.objects, o);
  }

  /** Appending a version that is not eligible, or rests on accepted evidence, keeps governance. */
  lemma AppendKeepsOk(s: Repo, o: Object)
    requires RepoOk(s) && NextVersion(s, o)
    requires Eligible(o.status) ==> RefsAllowed(s.evidence, o.projectId, o.content.refs, true)
    ensures RepoOk(s.(objects := s.objects + [o]))
  {
    var t := s.(objects := s.objects + [o]);
    AppendKeepsObjects(s, o);
    forall id ensures Governed(t, id) {
      assert Governed(s, id);
      AppendOne(s.objects, o, id);
    }
  }

  lemma DecidedKeepsOk(s: Repo, t: Repo, o: Object)
    requires RepoOk(s) && Decided(s, t, o)
    ensures RepoOk(t) && s.objects <= t.objects
  {
    LastVersion(s.objects, o.id);
    AppendKeepsOk(s, o);
  }

  lemma DemotionIsNext(s: Repo, projectId: string, revisionIds: set<string>, before: seq<Object>, d: Object)
    requires ObjectsOk(s) && DemotionOf(s, projectId, revisionIds, d)
    requires forall i :: 0 <= i < |before| ==> before[i].id != d.id
    ensures NextVersion(s.(objects := s.objects + before), d)
  {
    LastVersion(s.objects, d.id);
    UnmentionedLast(s.objects, before, d.id);
    var last := LastOf(s.objects, d.id).value;
    assert last in s.objects && last.content == d.content && last.projectId == d.projectId;
    forall p | p in s.objects + before && p.id == d.id ensures p.projectId == d.projectId {
      assert p in s.objects;
    }
  }

  /** Demotions are next versions, one after the other. */
  lemma {:induction false} DemotionsKeepObjects(s: Repo, projectId: string, revisionIds: set<string>, ds: seq<Object>,
                                                n: nat)
    requires ObjectsOk(s) && n <= |ds|
    requires forall i :: 0 <= i < |ds| ==> DemotionOf(s, projectId, revisionIds, ds[i])
    requires forall i, j :: 0 <= i < j < |ds| ==> ds[i].id != ds[j].id
    ensures ObjectsOk(s.(objects := s.objects + ds[..n]))
    decreases n
  {
    hide ObjectsOk, NextVersion, DemotionOf;
    if n == 0 {
      assert s.objects + ds[..0] == s.objects;
    } else {
      DemotionsKeepObjects(s, projectId, revisionIds, ds, n - 1);
      var mid := s.(objects := s.objects + ds[..n - 1]);
      DemotionIsNext(s, projectId, revisionIds, ds[..n - 1], ds[n - 1]);
      AppendKeepsObjects(mid, ds[n - 1]);
      assert s.objects + ds[..n] == mid.objects + [ds[n - 1]];
    }
  }

  /** After demotion, an eligible latest version was not impacted and has not changed. */
  lemma DemotedLast(s: Repo, projectId: string, revisionIds: set<string>, ds: seq<Object>, id: string)
    requires Demotions(s, projectId, revisionIds, ds)
    ensures var last := LastOf(s.objects + ds, id);
            last.Some? && Eligible(last.value.status) ==>
              last == LastOf(s.objects, id) && !Impacted(s, projectId, revisionIds, id)
  {
    if i :| 0 <= i < |ds| && ds[i].id == id {
      MentionedLast(s.objects, ds, i);
      assert DemotionOf(s, projectId, revisionIds, ds[i]);
    } else {
      UnmentionedLast(s.objects, ds, id);
    }
  }

  /** What demotion means for every object: the latest version of each object of the project that is
      eligible and cites one of the revisions is followed by a copy that needs review and has lost its
      decision; every other object keeps its latest version. */
  lemma DemotionsMean(s: Repo, projectId: string, revisionIds: set<string>, ds: seq<Object>, id: string)
    requires Demotions(s, projectId, revisionIds, ds)
    ensures var last := LastOf(s.objects, id);
            var hit := && last.Some? && last.value.projectId == projectId
                       && last.value.status in {Verified, Approved, Valid, Active}
                       && exists i :: 0 <= i < |last.value.content.refs|
                            && last.value.content.refs[i] in s.evidence
                            && s.evidence[last.value.content.refs[i]].revisionId in revisionIds;
            LastOf(s.objects + ds, id)
            == if hit
               then Some(last.value.(version := last.value.version + 1, status := NeedsReview, decisionRef := ""))
               else last
  {
    hide LastOf;
    if i :| 0 <= i < |ds| && ds[i].id == id {
      MentionedLast(s.objects, ds, i);
      assert DemotionOf(s, projectId, revisionIds, ds[i]);
    } else {
      UnmentionedLast(s.objects, ds, id);
    }
  }

  lemma EvidenceUpdateKeepsRefs(s: Repo, e: string, review: Review)
    requires ObjectsOk(s) && SourcesOk(s) && e in s.evidence
    ensures var mid := s.(evidence := s.evidence[e := s.evidence[e].(review := review)]);
            ObjectsOk(mid) && SourcesOk(mid)
  {
  }

  lemma ReviewedKeepsOk(s: Repo, t: Repo, e: string, review: Review, ds: seq<Object>)
    requires RepoOk(s) && EvidenceReviewed(s, t, e, review, ds)
    ensures RepoOk(t) && s.objects <= t.objects
  {
    var mid := s.(evidence := s.evidence[e := s.evidence[e].(review := review)]);
    EvidenceUpdateKeepsRefs(s, e, review);
    if s.evidence[e].review == Accepted && review != Accepted {
      var revision := s.revisions[s.evidence[e].revisionId];
      var projectId, revisionIds := s.sources[revision.sourceId], RevisionsOf(s, revision.sourceId);
      DemotionsKeepObjects(mid, projectId, revisionIds, ds, |ds|);
      assert ds[..|ds|] == ds;
      forall id ensures Governed(t, id) {
        assert Governed(s, id);
        DemotedLast(mid, projectId, revisionIds, ds, id);
        var last := LastOf(s.objects, id);
        if last.Some? && e in last.value.content.refs { CitedIsImpacted(s, mid, e, id); }
      }
    } else {
      assert mid.objects + ds == mid.objects;
      forall id ensures Governed(t, id) { assert Governed(s, id); }
    }
  }

  /** Whatever cites e is impacted by propagating all revisions of e's source. */
  lemma CitedIsImpacted(s: Repo, mid: Repo, e: string, id: string)
    requires ObjectsOk(s) && SourcesOk(s) && e in s.evidence && mid.objects == s.objects
    requires e in mid.evidence && mid.evidence[e].revisionId == s.evidence[e].revisionId
    requires LastOf(s.objects, id).Some? && e in LastOf(s.objects, id).value.content.refs
    ensures var source := s.revisions[s.evidence[e].revisionId].sourceId;
            Impacted(mid, s.sources[source], RevisionsOf(s, source), id)
  {
    var last := LastOf(s.objects, id).value;
    LastVersion(s.objects, id);
    var i :| 0 <= i < |last.content.refs| && last.content.refs[i] == e;
    assert RefAllowed(s.evidence, last.projectId, last.content.refs[i], false);
    assert Cites(mid.evidence, RevisionsOf(s, s.revisions[s.evidence[e].revisionId].sourceId), last);
  }

  lemma RevisedKeepsOk(s: Repo, t: Repo, sourceId: string, revisionId: string, ds: seq<Object>)
    requires RepoOk(s) && SourceRevised(s, t, sourceId, revisionId, ds)
    ensures RepoOk(t) && s.objects <= t.objects
  {
    var mid := s.(revisions := s.revisions[revisionId := Revision(s.sources[sourceId], sourceId)]);
    assert ObjectsOk(mid) && SourcesOk(mid);
    DemotionsKeepObjects(mid, s.sources[sourceId], RevisionsOf(s, sourceId), ds, |ds|);
    assert ds[..|ds|] == ds;
    forall id ensures Governed(t, id) {
      assert Governed(s, id);
      DemotedLast(mid, s.sources[sourceId], RevisionsOf(s, sourceId), ds, id);
    }
  }

  lemma AddedKeepsOk(s: Repo, t: Repo, e: string, span: Span)
    requires RepoOk(s) && EvidenceAdded(s, t, e, span)
    ensures RepoOk(t) && s.objects <= t.objects
  {
    forall id ensures Governed(t, id) { assert Governed(s, id); }
  }

  lemma SourceKeepsOk(s: Repo, t: Repo, sourceId: string, projectId: string, revisionId: string)
    requires RepoOk(s) && SourceCreated(s, t, sourceId, projectId, revisionId)
    ensures RepoOk(t) && s.objects <= t.objects
  {
    forall id ensures Governed(t, id) { assert Governed(s, id); }
  }

  lemma CreatedKeepsOk(s: Repo, t: Repo, o: Object)
    requires RepoOk(s) && Created(s, t, o)
    ensures RepoOk(t) && s.objects <= t.objects
  {
    AppendKeepsOk(s, o);
  }

  /** Whatever the command, the invariant holds again and no stored version was altered. */
  lemma CommandKeepsOk(s: Repo, t: Repo, c: Command)
    requires RepoOk(s) && Does(s, t, c)
    ensures RepoOk(t) && s.objects <= t.objects
  {
    hide RepoOk, Created, Decided, EvidenceReviewed, SourceRevised, EvidenceAdded, SourceCreated;
    match c
    case Create(o) => CreatedKeepsOk(s, t, o);
    case Decide(o) => DecidedKeepsOk(s, t, o);
    case ReviewSpan(e, review, ds) => ReviewedKeepsOk(s, t, e, review, ds);
    case Revise(sourceId, revisionId, ds) => RevisedKeepsOk(s, t, sourceId, revisionId, ds);
    case AddSpan(e, span) => AddedKeepsOk(s, t, e, span);
    case AddSource(sourceId, projectId, revisionId) => SourceKeepsOk(s, t, sourceId, projectId, revisionId);
  }

  /** A run: consecutive states related by the commands issued between them. */
  ghost predicate IsRun(states: seq<Repo>, commands: seq<Command>) {
    && |states| == |commands| + 1
    && forall i :: 0 <= i < |commands| ==> Does(states[i], states[i + 1], commands[i])
  }

  /** In every state of every run, each object's latest version, when eligible, cites accepted
      evidence only; versions are contiguous; and earlier versions are exactly as first written. */
  lemma {:induction false} RunsAreGoverned(states: seq<Repo>, commands: seq<Command>, i: nat, j: nat)
    requires IsRun(states, commands) && RepoOk(states[0]) && i <= j < |states|
    ensures RepoOk(states[j])
    ensures states[i].objects <= states[j].objects
    ensures forall k :: 0 <= k < |states[j].objects| && IsLatest(states[j].objects, k) ==>
              var o := states[j].objects[k];
              o.status in {Verified, Approved, Valid, Active} ==>
                forall ref :: ref in o.content.refs ==>
                  ref in states[j].evidence && states[j].evidence[ref].review == Accepted
    decreases j
  {
    hide RepoOk, Does, IsLatest;
    GovernedLatest(states[j]) by {
      if j == 0 { assert RepoOk(states[j]); } else {
        RunsAreGoverned(states, commands, if i < j then i else 0, j - 1);
        assert Does(states[j - 1], states[j], commands[j - 1]);
        CommandKeepsOk(states[j - 1], states[j], commands[j - 1]);
      }
    }
    if j > 0 {
      RunsAreGoverned(states, commands, if i < j then i else 0, j - 1);
      assert Does(states[j - 1], states[j], commands[j - 1]);
      CommandKeepsOk(states[j - 1], states[j], commands[j - 1]);
    }
  }

  // ---------------------------------------------------------------- an approval that commits late

  /** An approval checks the evidence and commits later; the store looks at the object's version
      but not at the evidence again. On any state that still has the object's version, committing
      keeps governance exactly when all its evidence is still accepted. */
  lemma LateApproval(s: Repo, t: Repo, o: Object)
    requires RepoOk(s) && Decided(s, s.(objects := s.objects + [o]), o) && o.status != Rejected
    requires RepoOk(t) && LastOf(t.objects, o.id) == LastOf(s.objects, o.id)
    ensures RepoOk(t.(objects := t.objects + [o])) <==> RefsAllowed(t.evidence, o.projectId, o.content.refs, true)
  {
    var u := t.(objects := t.objects + [o]);
    LastVersion(t.objects, o.id);
    LastVersion(s.objects, o.id);
    AppendOne(t.objects, o, o.id);
    if RefsAllowed(t.evidence, o.projectId, o.content.refs, true) {
      AppendKeepsOk(t, o);
    }
    if RepoOk(u) {
      assert Governed(u, o.id);
    }
  }

  function Noted(status: Status, version: int): Object {
    Object("k", "p", version, status, Content(FactAssertion, true, "b", "", ["e"]), "")
  }

  function Evidenced(review: Review, objects: seq<Object>): Repo {
    Repo(map["e" := Span("p", "v", review, "l", "x")], map["v" := Revision("p", "s")], map["s" := "p"], objects)
  }

  /** The race: an approval passes its evidence check, the evidence is rejected, which demotes
      nothing since the object is not yet eligible, and the approval commits. The object ends up
      verified on rejected evidence. */
  lemma ApprovalRace()
    ensures var s, t := Evidenced(Accepted, [Noted(NeedsReview, 1)]), Evidenced(Refused, [Noted(NeedsReview, 1)]);
            && RepoOk(s) && Decided(s, s.(objects := s.objects + [Noted(Verified, 2)]), Noted(Verified, 2))
            && Does(s, t, ReviewSpan("e", Refused, [])) && RepoOk(t)
            && !Governed(t.(objects := t.objects + [Noted(Verified, 2)]), "k")
  {
    var o, next := Noted(NeedsReview, 1), Noted(Verified, 2);
    var s, t := Evidenced(Accepted, [o]), Evidenced(Refused, [o]);
    OneNoteOk(Accepted);
    RaceRejects();
    ReviewedKeepsOk(s, t, "e", Refused, []);
    assert [o][..0] == [];
    AppendOne([o], next, "k");
    assert RefAllowed(s.evidence, "p", "e", true);
    assert next.content.refs[0] == "e" && t.evidence["e"].review == Refused;
  }

  lemma OneNoteOk(review: Review)
    ensures RepoOk(Evidenced(review, [Noted(NeedsReview, 1)]))
  {
    var o := Noted(NeedsReview, 1);
    assert [o][..0] == [];
    assert RefAllowed(Evidenced(review, [o]).evidence, "p", "e", false);
    forall id
      ensures Governed(Evidenced(review, [o]), id)
    {
      assert LastOf([o], id) == if id == "k" then Some(o) else None;
    }
  }

  lemma RaceRejects()
    ensures EvidenceReviewed(Evidenced(Accepted, [Noted(NeedsReview, 1)]), Evidenced(Refused, [Noted(NeedsReview, 1)]),
                             "e", Refused, [])
  {
    var o := Noted(NeedsReview, 1);
    var s, t := Evidenced(Accepted, [o]), Evidenced(Refused, [o]);
    assert s.evidence["e" := s.evidence["e"].(review := Refused)] == t.evidence;
    assert s.objects + [] == s.objects && [o][..0] == [];
  }
}
