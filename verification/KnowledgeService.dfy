/** The commands as the service runs them, over a store whose reads and writes succeed. */
module KnowledgeService {
  import opened Wrappers
  import opened Knowledge

  datatype Decision = Approve | Reject | Neither

  class Service {
    var evidence: map<string, Span>
    var revisions: map<string, Revision>
    var sources: map<string, string>
    var objects: seq<Object>

    ghost function State(): Repo
      reads this
    {
      Repo(evidence, revisions, sources, objects)
    }

    constructor ()
      ensures RepoOk(State()) && objects == []
    {
      evidence, revisions, sources, objects := map[], map[], map[], [];
    }

    /** Scans the references, remembering the ones seen. */
    method ValidateEvidenceRefs(projectId: string, refs: seq<string>, requireAccepted: bool) returns (ok: bool)
      ensures ok <==> RefsAllowed(evidence, projectId, refs, requireAccepted)
      ensures ok <==> EvidenceIsKnown(projectId, refs, requireAccepted)
    {
      SameCheck(projectId, refs, requireAccepted);
      var seen: set<string> := {};
      for i := 0 to |refs|
        invariant forall k :: 0 <= k < i ==> RefAllowed(evidence, projectId, refs[k], requireAccepted)
        invariant forall k, l :: 0 <= k < l < i ==> refs[k] != refs[l]
        invariant seen == set k | 0 <= k < i :: refs[k]
      {
        var ref := refs[i];
        if ref == "" || ref in seen {
          return false;
        }
        seen := seen + {ref};
        if ref !in evidence || evidence[ref].projectId != projectId {
          return false;
        }
        if requireAccepted && evidence[ref].review != Accepted {
          return false;
        }
      }
      ok := true;
    }

    /** The store's lookup of the highest version is the last entry of the log. */
    method FindLatest(id: string) returns (r: Option<Object>)
      requires Contiguous(objects)
      ensures r == LastOf(objects, id)
      ensures r.None? <==> forall k :: 0 <= k < |objects| ==> objects[k].id != id
      ensures r.Some? ==> r.value in objects && r.value.id == id && forall o :: o in objects && o.id == id ==>
                o.version <= r.value.version
    {
      NextIsAbove(objects, id);
      hide LastOf, Count, Contiguous;
      r := None;
      assert r == LastOf(objects[..0], id) by { NothingLast(id); }
      for i := 0 to |objects|
        invariant r == LastOf(objects[..i], id)
      {
        FindStep(objects, i, id);
        if objects[i].id == id && (r.None? || r.value.version < objects[i].version) {
          r := Some(objects[i]);
        }
      }
      assert objects[..|objects|] == objects;
    }

    /** Every reference is a known span of the project, accepted if demanded, and none occurs twice. */
    ghost predicate EvidenceIsKnown(projectId: string, refs: seq<string>, requireAccepted: bool)
      reads this
    {
      && (forall i :: 0 <= i < |refs| ==>
            refs[i] != "" && refs[i] in evidence && evidence[refs[i]].projectId == projectId
            && (requireAccepted ==> evidence[refs[i]].review == Accepted))
      && (forall i, j :: 0 <= i < j < |refs| ==> refs[i] != refs[j])
    }

    /** A creation goes through exactly with known evidence and well-formed content, under an id no other
        project uses, in a status a creation may ask for. */
    lemma MayCreateMeans(projectId: string, id: string, status: Status, content: Content)
      requires ObjectsOk(State())
      ensures MayCreate(projectId, id, status, content)
              <==> && EvidenceIsKnown(projectId, content.refs, false) && content.wellFormed
                   && (forall k :: 0 <= k < |objects| && objects[k].id == id ==> objects[k].projectId == projectId)
                   && CreationAllowed(content.kind, status)
    {
      LastIsLatest(objects, id);
      hide LastOf, Contiguous;
      SameCheck(projectId, content.refs, false);
      CreationMeans(content.kind, status);
      forall k | 0 <= k < |objects| && objects[k].id == id
        ensures LastOf(objects, id).Some? && LastOf(objects, id).value.projectId == objects[k].projectId
      {
        assert LastOf(objects, id).value in objects && objects[k] in objects;
      }
    }

    /** A decision goes through exactly on an undecided latest version of a reviewable kind, at the version
        expected, and an approval only with accepted evidence. */
    lemma MayReviewMeans(id: string, expectedVersion: int, decision: Decision)
      ensures MayReview(id, expectedVersion, decision)
              <==> && decision != Neither
                   && var last := LastOf(objects, id);
                   && last.Some? && last.value.version == expectedVersion
                   && last.value.status in {Candidate, NeedsReview}
                   && last.value.content.kind in {FactAssertion, Insight, Claim, Asset, RightsRecord, OtherKind}
                   && (decision == Approve ==>
                         last.value.content.refs != []
                         && EvidenceIsKnown(last.value.projectId, last.value.content.refs, true))
    {
      hide LastOf, RefsAllowed, EvidenceIsKnown;
      if LastOf(objects, id).Some? {
        ReviewableKinds(LastOf(objects, id).value.content.kind);
        SameCheck(LastOf(objects, id).value.projectId, LastOf(objects, id).value.content.refs, true);
      }
    }

    lemma SameCheck(projectId: string, refs: seq<string>, requireAccepted: bool)
      ensures RefsAllowed(evidence, projectId, refs, requireAccepted)
              <==> EvidenceIsKnown(projectId, refs, requireAccepted)
    {
      if EvidenceIsKnown(projectId, refs, requireAccepted) {
        forall i | 0 <= i < |refs| ensures RefAllowed(evidence, projectId, refs[i], requireAccepted) { }
      }
      if RefsAllowed(evidence, projectId, refs, requireAccepted) {
        forall i | 0 <= i < |refs| ensures refs[i] != "" && refs[i] in evidence {
          assert RefAllowed(evidence, projectId, refs[i], requireAccepted);
        }
      }
    }

    ghost predicate MayCreate(projectId: string, id: string, status: Status, content: Content)
      reads this
    {
      && RefsAllowed(evidence, projectId, content.refs, false)
      && (LastOf(objects, id).Some? ==> LastOf(objects, id).value.projectId == projectId)
      && Creatable(content.kind, RequestedStatus(content.kind, status)) && content.wellFormed
    }

    /** Appends the next version of an object, or refuses and changes nothing. */
    method CreateKnowledgeObject(projectId: string, id: string, status: Status, content: Content, decisionRef: string)
      returns (r: Option<Object>)
      requires ObjectsOk(State())
      modifies this`objects
      ensures r.Some? <==> old(MayCreate(projectId, id, status, content))
      ensures r.None? ==> objects == old(objects)
      ensures r.Some? ==>
                Created(old(State()), State(), r.value) && ObjectsOk(State()) && objects == old(objects) + [r.value]
      ensures r.Some? ==>
                r.value == Object(id, projectId, Count(old(objects), id) + 1, RequestedStatus(content.kind, status),
                                  content, decisionRef)
    {
      hide RefsAllowed, LastOf, Count, Contiguous;
      var refsOk := ValidateEvidenceRefs(projectId, content.refs, false);
      if !refsOk {
        return None;
      }
      var version := 1;
      var existing := FindLatest(id);
      LastVersion(objects, id);
      if existing.Some? {
        if existing.value.projectId != projectId {
          return None;
        }
        version := existing.value.version + 1;
      }
      var requested := RequestedStatus(content.kind, status);
      if !Creatable(content.kind, requested) || !content.wellFormed {
        return None;
      }
      var fact := Object(id, projectId, version, requested, content, decisionRef);
      SameProject(objects, fact);
      AppendKeepsObjects(State(), fact);
      objects := objects + [fact];
      r := Some(fact);
    }

    /** Undecided, of a reviewable kind, at the expected version; to approve, resting on accepted evidence. */
    ghost predicate MayReview(id: string, expectedVersion: int, decision: Decision)
      reads this
    {
      var last := LastOf(objects, id);
      && last.Some? && last.value.version == expectedVersion && decision != Neither
      && last.value.status in {Candidate, NeedsReview} && last.value.content.kind !in {KnowledgeGap, ConflictRecord}
      && (decision == Approve ==>
            last.value.content.refs != [] && RefsAllowed(evidence, last.value.projectId, last.value.content.refs, true))
    }

    /** Approves or rejects the latest version, or refuses and changes nothing. */
    method ReviewKnowledgeObject(id: string, expectedVersion: int, digestMatches: bool, decision: Decision,
                                 reason: string, decisionRef: string)
      returns (r: Option<Object>)
      requires RepoOk(State())
      modifies this`objects
      ensures RepoOk(State())
      ensures r.Some? <==> digestMatches && reason != "" && old(MayReview(id, expectedVersion, decision))
      ensures r.None? ==> objects == old(objects)
      ensures r.Some? ==>
                Does(old(State()), State(), Decide(r.value)) && r.value.id == id && r.value.decisionRef == decisionRef
      ensures r.Some? ==> r.value.version == expectedVersion + 1 && (r.value.status == Rejected <==> decision == Reject)
      ensures r.Some? ==> objects == old(objects) + [r.value]
      ensures r.Some? && decision == Approve ==>
                r.value.status == match r.value.content.kind
                                  case FactAssertion => Verified
                                  case Insight => Verified
                                  case Claim => Approved
                                  case Asset => Approved
                                  case RightsRecord => Valid
                                  case _ => Active
    {
      hide RefsAllowed, LastOf, Count, Contiguous, Governed, SourcesOk;
      var current := FindLatest(id);
      if current.None? || current.value.version != expectedVersion || !digestMatches {
        return None;
      }
      var o := current.value;
      if decision == Neither || reason == "" || o.status !in {Candidate, NeedsReview}
         || o.content.kind in {KnowledgeGap, ConflictRecord} {
        return None;
      }
      if decision == Approve {
        if o.content.refs == [] {
          return None;
        }
        var accepted := ValidateEvidenceRefs(o.projectId, o.content.refs, true);
        if !accepted {
          return None;
        }
      }
      var status := if decision == Reject then Rejected else ApprovedStatus(o.content.kind);
      var result := o.(version := o.version + 1, status := status, decisionRef := decisionRef);
      LastVersion(objects, id);
      DecidedKeepsOk(State(), State().(objects := objects + [result]), result);
      objects := objects + [result];
      r := Some(result);
    }

    /** Groups the project's objects by id, then searches each latest version's references. */
    method CollectSourceImpact(projectId: string, revisionIds: set<string>) returns (impacts: seq<string>)
      requires ObjectsOk(State())
      ensures forall id :: id in impacts <==> Impacted(State(), projectId, revisionIds, id)
      ensures forall i, j :: 0 <= i < j < |impacts| ==> impacts[i] != impacts[j]
    {
      var latest := LatestByObject(projectId);
      hide ObjectsOk, Cites, LastOf;
      impacts := [];
      var rest := latest.Keys;
      while rest != {}
        invariant rest <= latest.Keys
        invariant forall id :: id in impacts <==>
                     id in latest && id !in rest && Cites(evidence, revisionIds, latest[id])
        invariant forall i, j :: 0 <= i < j < |impacts| ==> impacts[i] != impacts[j]
        decreases rest
      {
        var id :| id in rest;
        rest := rest - {id};
        var cites := AnyRefCites(latest[id], revisionIds);
        if cites {
          impacts := impacts + [id];
        }
      }
      forall id ensures id in impacts <==> Impacted(State(), projectId, revisionIds, id) {
        assert Entry(latest, id) == LastIn(objects, projectId, id);
      }
    }

    method LatestByObject(projectId: string) returns (latest: map<string, Object>)
      requires ObjectsOk(State())
      ensures forall id :: Entry(latest, id) == LastIn(objects, projectId, id)
    {
      latest := map[];
      for i := 0 to |objects|
        invariant forall id :: Entry(latest, id) == LastIn(objects[..i], projectId, id)
      {
        var o := objects[i];
        ghost var was := latest;
        forall id
          ensures LastIn(objects[..i + 1], projectId, id)
                  == if o.id == id && o.projectId == projectId then Some(o) else Entry(was, id)
        {
          LastInStep(State(), i, projectId, id);
        }
        LastInStep(State(), i, projectId, o.id);
        hide LastIn;
        if o.projectId == projectId && (o.id !in latest || latest[o.id].version < o.version) {
          latest := latest[o.id := o];
        }
        assert forall id :: Entry(latest, id) == if o.id == id && o.projectId == projectId then Some(o)
                                                 else Entry(was, id);
      }
      assert objects[..|objects|] == objects;
    }

    method AnyRefCites(o: Object, revisionIds: set<string>) returns (cites: bool)
      ensures cites <==> Cites(evidence, revisionIds, o)
    {
      cites := false;
      for i := 0 to |o.content.refs|
        invariant !cites
        invariant forall k :: 0 <= k < i ==>
                    !(o.content.refs[k] in evidence && evidence[o.content.refs[k]].revisionId in revisionIds)
      {
        var ref := o.content.refs[i];
        if ref in evidence && evidence[ref].revisionId in revisionIds {
          return true;
        }
      }
    }

    /** Demotes each impacted eligible object by creating its next version. */
    method PropagateSourceChange(projectId: string, revisionIds: set<string>) returns (ghost ds: seq<Object>)
      requires ObjectsOk(State())
      modifies this`objects
      ensures objects == old(objects) + ds && Demotions(old(State()), projectId, revisionIds, ds)
      ensures forall id :: LastOf(objects, id)
                == if old(Cited(projectId, revisionIds, id)) then Some(Reopened(LastOf(old(objects), id).value))
                   else LastOf(old(objects), id)
    {
      hide ObjectsOk, Impacted, LastOf, RefsAllowed, Covered, Contiguous, Created, Demote, Demotions, Count;
      ghost var start := State();
      var impacts := CollectSourceImpact(projectId, revisionIds);
      ds := [];
      assert Covered(start, projectId, revisionIds, impacts, 0, ds) by {
        EmptyCovered(start, projectId, revisionIds, impacts);
      }
      for i := 0 to |impacts|
        invariant State() == start.(objects := start.objects + ds) && ObjectsOk(State())
        invariant Covered(start, projectId, revisionIds, impacts, i, ds)
      {
        var id := impacts[i];
        CoveredUnmentioned(start, projectId, revisionIds, impacts, i, ds);
        var latest := FindLatest(id) by { ObjectsContiguous(State()); }
        var fact := latest.value;
        if !Eligible(fact.status) {
          CoverMore(start, projectId, revisionIds, impacts, i, ds, []);
          assert ds + [] == ds;
          continue;
        }
        DemotionAllowed(start, projectId, revisionIds, ds, id);
        var created := CreateKnowledgeObject(fact.projectId, id, NeedsReview, fact.content, "");
        CoverMore(start, projectId, revisionIds, impacts, i, ds, [created.value]);
        ds := ds + [created.value];
      }
      CoveredAll(start, projectId, revisionIds, impacts, ds);
      forall id { DemotionsMean(start, projectId, revisionIds, ds, id); }
    }

    /** The latest version is an eligible one of the project that cites one of the revisions. */
    ghost predicate Cited(projectId: string, revisionIds: set<string>, id: string)
      reads this
    {
      var last := LastOf(objects, id);
      && last.Some? && last.value.projectId == projectId && last.value.status in {Verified, Approved, Valid, Active}
      && exists i :: 0 <= i < |last.value.content.refs|
                     && last.value.content.refs[i] in evidence
                     && evidence[last.value.content.refs[i]].revisionId in revisionIds
    }

    ghost function SourceOf(e: string): string
      requires RepoOk(State()) && e in evidence
      reads this
    {
      revisions[evidence[e].revisionId].sourceId
    }

    /** The latest version is an eligible one of the source's project that cites one of its revisions. */
    ghost predicate CitedSource(sourceId: string, id: string)
      requires sourceId in sources
      reads this
    {
      Cited(sources[sourceId], (set r | r in revisions && revisions[r].sourceId == sourceId), id)
    }

    /** Records the review and, when accepted evidence stops being accepted, propagates it. */
    method ReviewEvidence(e: string, decision: Decision) returns (ok: bool, ghost ds: seq<Object>)
      requires RepoOk(State())
      modifies this`objects, this`evidence
      ensures RepoOk(State())
      ensures ok <==> e in old(evidence) && decision != Neither
      ensures ok ==> Does(old(State()), State(), ReviewSpan(e, if decision == Approve then Accepted else Refused, ds))
      ensures !ok ==> State() == old(State())
      ensures ok ==>
                && evidence == old(evidence)[e := old(evidence)[e].(
                                               review := if decision == Approve then Accepted else Refused)]
                && old(objects) <= objects
                && forall id :: LastOf(objects, id)
                     == if decision == Reject && old(evidence[e].review == Accepted && CitedSource(SourceOf(e), id))
                        then Some(Reopened(LastOf(old(objects), id).value)) else LastOf(old(objects), id)
    {
      ds := [];
      if e !in evidence || decision == Neither {
        return false, ds;
      }
      ghost var start := State();
      var span := evidence[e];
      var review := if decision == Approve then Accepted else Refused;
      EvidenceUpdateKeepsRefs(start, e, review);
      evidence := evidence[e := span.(review := review)];
      if span.review == Accepted && review != Accepted {
        var revision := revisions[span.revisionId];
        var all := set r | r in revisions && revisions[r].sourceId == revision.sourceId;
        ds := PropagateSourceChange(sources[revision.sourceId], all);
      }
      ok := true;
      assert State() == start.(evidence := evidence, objects := start.objects + ds);
      ReviewedKeepsOk(start, State(), e, review, ds);
    }

    /** Stores a new revision, then propagates the revisions that were there before. */
    method CreateSourceRevision(sourceId: string, revisionId: string) returns (ok: bool, ghost ds: seq<Object>)
      requires RepoOk(State())
      modifies this`objects, this`revisions
      ensures RepoOk(State())
      ensures ok <==> sourceId in sources && revisionId !in old(revisions)
      ensures ok ==> Does(old(State()), State(), Revise(sourceId, revisionId, ds))
      ensures !ok ==> State() == old(State())
      ensures ok ==>
                && revisions == old(revisions)[revisionId := Revision(sources[sourceId], sourceId)]
                && old(objects) <= objects
                && forall id :: LastOf(objects, id)
                     == if old(CitedSource(sourceId, id))
                        then Some(Reopened(LastOf(old(objects), id).value)) else LastOf(old(objects), id)
    {
      ds := [];
      if sourceId !in sources || revisionId in revisions {
        return false, ds;
      }
      ghost var start := State();
      var earlier := set r | r in revisions && revisions[r].sourceId == sourceId;
      revisions := revisions[revisionId := Revision(sources[sourceId], sourceId)];
      assert ObjectsOk(State());
      ds := PropagateSourceChange(sources[sourceId], earlier);
      ok := true;
      assert State() == start.(revisions := revisions, objects := start.objects + ds);
      RevisedKeepsOk(start, State(), sourceId, revisionId, ds);
    }
  }

  /** The copy that needs review again. */
  function Reopened(o: Object): Object {
    o.(version := o.version + 1, status := NeedsReview, decisionRef := "")
  }

  /** A creation may ask for a candidate or a review, for a gap or conflict that is open, and for a gap
      whose source is missing or being collected; asking for nothing means a candidate, or an open one. */
  predicate CreationAllowed(kind: Kind, status: Status) {
    match status
    case Unset => true
    case Candidate => true
    case NeedsReview => true
    case Open => kind in {KnowledgeGap, ConflictRecord}
    case SourceMissing => kind == KnowledgeGap
    case Collecting => kind == KnowledgeGap
    case _ => false
  }

  lemma ReviewableKinds(kind: Kind)
    ensures kind !in {KnowledgeGap, ConflictRecord}
            <==> kind in {FactAssertion, Insight, Claim, Asset, RightsRecord, OtherKind}
  {
    match kind
    case _ =>
  }

  lemma CreationMeans(kind: Kind, status: Status)
    ensures Creatable(kind, RequestedStatus(kind, status)) <==> CreationAllowed(kind, status)
    ensures RequestedStatus(kind, status)
            == if status != Unset then status else if kind in {KnowledgeGap, ConflictRecord} then Open else Candidate
  {
  }

  /** The next version number is above all earlier ones. */
  lemma NextIsAbove(objects: seq<Object>, id: string)
    requires Contiguous(objects)
    ensures forall o :: o in objects && o.id == id ==> 1 <= o.version <= Count(objects, id)
    ensures LastOf(objects, id).Some? ==>
              LastOf(objects, id).value in objects && LastOf(objects, id).value.id == id
              && LastOf(objects, id).value.version == Count(objects, id)
    ensures Count(objects, id) == 0 <==> forall o :: o in objects ==> o.id != id
    ensures LastOf(objects, id).None? <==> forall k :: 0 <= k < |objects| ==> objects[k].id != id
  {
    LastVersion(objects, id);
    LastIsLatest(objects, id);
    hide LastOf, IsLatest, Contiguous, Count;
    forall o | o in objects && o.id == id ensures 1 <= o.version <= Count(objects, id) {
      var k :| 0 <= k < |objects| && objects[k] == o;
      VersionAt(objects, k);
    }
  }

  lemma NothingLast(id: string)
    ensures LastOf([], id) == None
  {
  }

  /** What one more entry of the log means for the lookup. */
  lemma FindStep(objects: seq<Object>, i: nat, id: string)
    requires Contiguous(objects) && i < |objects|
    ensures LastOf(objects[..i + 1], id) == if objects[i].id == id then Some(objects[i]) else LastOf(objects[..i], id)
    ensures objects[i].id == id && LastOf(objects[..i], id).Some? ==>
              LastOf(objects[..i], id).value.version < objects[i].version
  {
    assert objects[..i + 1] == objects[..i] + [objects[i]];
    AppendOne(objects[..i], objects[i], id);
    PrefixContiguous(objects, i);
    LastVersion(objects[..i], id);
  }

  lemma VersionAt(objects: seq<Object>, k: nat)
    requires Contiguous(objects) && k < |objects|
    ensures 1 <= objects[k].version <= Count(objects, objects[k].id)
  {
    CountGrows(objects, k + 1, objects[k].id);
    assert objects[..k + 1][..k] == objects[..k];
  }

  lemma {:induction false} CountGrows(objects: seq<Object>, k: nat, id: string)
    requires k <= |objects|
    ensures Count(objects[..k], id) <= Count(objects, id)
  {
    if k < |objects| {
      assert objects[..|objects| - 1][..k] == objects[..k];
      CountGrows(objects[..|objects| - 1], k, id);
    } else {
      assert objects[..k] == objects;
    }
  }

  /** The first i impacts have been dealt with: each eligible one has its demotion in ds. */
  ghost predicate Covered(s: Repo, projectId: string, revisionIds: set<string>, impacts: seq<string>, i: nat,
                          ds: seq<Object>) {
    && i <= |impacts|
    && (forall id :: id in impacts <==> Impacted(s, projectId, revisionIds, id))
    && (forall k, l :: 0 <= k < l < |impacts| ==> impacts[k] != impacts[l])
    && (forall k :: 0 <= k < |ds| ==> DemotionOf(s, projectId, revisionIds, ds[k]) && ds[k].id in impacts[..i])
    && (forall k, l :: 0 <= k < l < |ds| ==> ds[k].id != ds[l].id)
    && (forall k :: 0 <= k < i ==> Dealt(s, impacts[k], ds))
  }

  ghost predicate Dealt(s: Repo, id: string, ds: seq<Object>) {
    LastOf(s.objects, id).Some? && Eligible(LastOf(s.objects, id).value.status) ==>
      exists l :: 0 <= l < |ds| && ds[l].id == id
  }

  lemma EmptyCovered(s: Repo, projectId: string, revisionIds: set<string>, impacts: seq<string>)
    requires forall id :: id in impacts <==> Impacted(s, projectId, revisionIds, id)
    requires forall k, l :: 0 <= k < l < |impacts| ==> impacts[k] != impacts[l]
    ensures Covered(s, projectId, revisionIds, impacts, 0, [])
  {
  }

  lemma ObjectsContiguous(s: Repo)
    requires ObjectsOk(s)
    ensures Contiguous(s.objects)
  {
  }

  /** The next impact is an object nothing has been appended to yet. */
  lemma CoveredUnmentioned(s: Repo, projectId: string, revisionIds: set<string>, impacts: seq<string>, i: nat,
                           ds: seq<Object>)
    requires Covered(s, projectId, revisionIds, impacts, i, ds) && i < |impacts|
    ensures Impacted(s, projectId, revisionIds, impacts[i]) && LastOf(s.objects, impacts[i]).Some?
    ensures LastOf(s.objects + ds, impacts[i]) == LastOf(s.objects, impacts[i])
    ensures forall k :: 0 <= k < |ds| ==> ds[k].id != impacts[i]
  {
    assert impacts[i] in impacts && impacts[i] !in impacts[..i];
    UnmentionedLast(s.objects, ds, impacts[i]);
  }

  lemma CoverMore(s: Repo, projectId: string, revisionIds: set<string>, impacts: seq<string>, i: nat, ds: seq<Object>,
                  more: seq<Object>)
    requires Covered(s, projectId, revisionIds, impacts, i, ds) && i < |impacts| && LastOf(s.objects, impacts[i]).Some?
    requires var last := LastOf(s.objects, impacts[i]).value;
             if Eligible(last.status) then more == [Demote(last)] && last.id == impacts[i] else more == []
    ensures Covered(s, projectId, revisionIds, impacts, i + 1, ds + more)
  {
    hide Impacted, LastOf, Eligible;
    CoveredUnmentioned(s, projectId, revisionIds, impacts, i, ds);
    assert impacts[..i + 1] == impacts[..i] + [impacts[i]];
    forall k | 0 <= k < i + 1 ensures Dealt(s, impacts[k], ds + more) {
      if k < i {
        assert Dealt(s, impacts[k], ds);
        assert forall l :: 0 <= l < |ds| ==> (ds + more)[l] == ds[l];
      } else if more != [] {
        assert (ds + more)[|ds|].id == impacts[k];
      }
    }
  }

  lemma CoveredAll(s: Repo, projectId: string, revisionIds: set<string>, impacts: seq<string>, ds: seq<Object>)
    requires Covered(s, projectId, revisionIds, impacts, |impacts|, ds)
    ensures Demotions(s, projectId, revisionIds, ds)
  {
    hide LastOf, Eligible;
    forall id | Impacted(s, projectId, revisionIds, id) && Eligible(LastOf(s.objects, id).value.status)
      ensures exists l :: 0 <= l < |ds| && ds[l].id == id
    {
      var k :| 0 <= k < |impacts| && impacts[k] == id;
      assert Dealt(s, impacts[k], ds);
    }
  }

  function Entry(latest: map<string, Object>, id: string): Option<Object> {
    if id in latest then Some(latest[id]) else None
  }

  /** The latest version of an object, if it belongs to the project. */
  function LastIn(objects: seq<Object>, projectId: string, id: string): Option<Object> {
    var last := LastOf(objects, id);
    if last.Some? && last.value.projectId == projectId then last else None
  }

  /** Reading the log in order, each entry replaces what was kept for its object. */
  lemma LastInStep(s: Repo, i: nat, projectId: string, id: string)
    requires ObjectsOk(s) && i < |s.objects|
    ensures var o := s.objects[i];
            && LastIn(s.objects[..i + 1], projectId, id)
               == (if o.id == id && o.projectId == projectId then Some(o) else LastIn(s.objects[..i], projectId, id))
            && (LastIn(s.objects[..i], projectId, o.id).Some? ==>
                  LastIn(s.objects[..i], projectId, o.id).value.version < o.version)
  {
    var o, before := s.objects[i], s.objects[..i];
    assert s.objects[..i + 1] == before + [o];
    AppendOne(before, o, id);
    PrefixContiguous(s.objects, i);
    LastVersion(before, o.id);
    if LastOf(before, o.id).Some? { assert LastOf(before, o.id).value in s.objects; }
  }

  lemma PrefixContiguous(objects: seq<Object>, i: nat)
    requires Contiguous(objects) && i <= |objects|
    ensures Contiguous(objects[..i])
  {
    forall k | 0 <= k < i ensures objects[..i][k].version == Count(objects[..i][..k], objects[..i][k].id) + 1 {
      assert objects[..i][..k] == objects[..k];
    }
  }

  lemma SameProject(objects: seq<Object>, o: Object)
    requires Contiguous(objects)
    requires forall p, q :: p in objects && q in objects && p.id == q.id ==> p.projectId == q.projectId
    requires LastOf(objects, o.id).Some? ==> LastOf(objects, o.id).value.projectId == o.projectId
    ensures forall p :: p in objects && p.id == o.id ==> p.projectId == o.projectId
  {
    LastVersion(objects, o.id);
    forall p | p in objects && p.id == o.id ensures p.projectId == o.projectId { PresentHasLast(objects, p); }
  }

  lemma {:induction false} PresentHasLast(objects: seq<Object>, p: Object)
    requires p in objects
    ensures LastOf(objects, p.id).Some?
    decreases |objects|
  {
    if objects[|objects| - 1].id != p.id { PresentHasLast(objects[..|objects| - 1], p); }
  }

  /** Inside propagation the creation always succeeds, and what it creates is the demotion. */
  lemma DemotionAllowed(s: Repo, projectId: string, revisionIds: set<string>, ds: seq<Object>, id: string)
    requires ObjectsOk(s) && Impacted(s, projectId, revisionIds, id) && Eligible(LastOf(s.objects, id).value.status)
    requires forall k :: 0 <= k < |ds| ==> ds[k].id != id
    ensures var o := LastOf(s.objects, id).value;
            && o.content.wellFormed && RefsAllowed(s.evidence, o.projectId, o.content.refs, false)
            && o.id == id && LastOf(s.objects + ds, id) == Some(o)
            && Object(id, o.projectId, Count(s.objects + ds, id) + 1, NeedsReview, o.content, "") == Demote(o)
  {
    LastVersion(s.objects, id);
    UnmentionedLast(s.objects, ds, id);
  }
}
