/** Evidence references with surrounding blanks: they are checked trimmed, stored as sent, and looked
    up as stored. */
module KnowledgeBlanks {
  import opened Wrappers
  import opened Paths
  import opened Knowledge

  /** What the evidence check accepts: trimmed, no reference is empty and none occurs twice. */
  predicate Checked(refs: seq<string>) {
    && (forall i :: 0 <= i < |refs| ==> TrimSpace(refs[i]) != "")
    && (forall i, j :: 0 <= i < j < |refs| ==> TrimSpace(refs[i]) != TrimSpace(refs[j]))
  }

  /** The object rests on evidence of the revisions, as the check reads its references. */
  ghost predicate RestsOn(evidence: map<string, Span>, revisionIds: set<string>, o: Object) {
    exists i :: 0 <= i < |o.content.refs| && Names(evidence, revisionIds, TrimSpace(o.content.refs[i]))
  }

  predicate Names(evidence: map<string, Span>, revisionIds: set<string>, id: string) {
    id in evidence && evidence[id].revisionId in revisionIds
  }

  predicate Trimmed(refs: seq<string>) { forall i :: 0 <= i < |refs| ==> TrimSpace(refs[i]) == refs[i] }

  /** The search for impacted objects finds an object whatever evidence it rests on exactly when all
      its references were stored without surrounding blanks. */
  lemma ImpactIsFoundIffTrimmed(o: Object)
    requires Checked(o.content.refs)
    ensures (forall evidence, revisionIds :: RestsOn(evidence, revisionIds, o) ==> Cites(evidence, revisionIds, o))
            <==> Trimmed(o.content.refs)
  {
    var refs := o.content.refs;
    if Trimmed(refs) {
      forall evidence: map<string, Span>, revisionIds: set<string> | RestsOn(evidence, revisionIds, o)
        ensures Cites(evidence, revisionIds, o)
      {
        var i :| 0 <= i < |refs| && Names(evidence, revisionIds, TrimSpace(refs[i]));
        assert refs[i] in evidence && evidence[refs[i]].revisionId in revisionIds;
      }
    } else {
      var i :| 0 <= i < |refs| && TrimSpace(refs[i]) != refs[i];
      var evidence := map[TrimSpace(refs[i]) := Span("", "v", Accepted, "", "")];
      assert Names(evidence, {"v"}, TrimSpace(refs[i]));
      assert RestsOn(evidence, {"v"}, o);
      NotCited(o, i, evidence);
    }
  }

  lemma NotCited(o: Object, i: nat, evidence: map<string, Span>)
    requires Checked(o.content.refs) && i < |o.content.refs| && TrimSpace(o.content.refs[i]) != o.content.refs[i]
    requires evidence.Keys == {TrimSpace(o.content.refs[i])}
    ensures !Cites(evidence, {"v"}, o)
  {
    hide TrimSpace;
    var refs := o.content.refs;
    forall j | 0 <= j < |refs| ensures refs[j] !in evidence {
      TrimTwice(refs[i]);
    }
  }

  // ---------------------------------------------------------------- the commands, as references are checked

  /** The evidence check, trimming each reference. */
  ghost predicate Allowed(evidence: map<string, Span>, projectId: string, refs: seq<string>, requireAccepted: bool) {
    Checked(refs)
      && forall i :: 0 <= i < |refs| ==> RefAllowed(evidence, projectId, TrimSpace(refs[i]), requireAccepted)
  }

  /** On references without surrounding blanks it is the check on references as stored. */
  lemma AllowedWhenTrimmed(evidence: map<string, Span>, projectId: string, refs: seq<string>, requireAccepted: bool)
    requires Trimmed(refs)
    ensures Allowed(evidence, projectId, refs, requireAccepted)
            <==> RefsAllowed(evidence, projectId, refs, requireAccepted)
  {
    hide TrimSpace;
    if RefsAllowed(evidence, projectId, refs, requireAccepted) {
      forall i | 0 <= i < |refs|
        ensures TrimSpace(refs[i]) != "" && RefAllowed(evidence, projectId, TrimSpace(refs[i]), requireAccepted)
      {
        assert RefAllowed(evidence, projectId, refs[i], requireAccepted);
      }
    }
  }

  ghost predicate CreatedAsSent(s: Repo, t: Repo, o: Object) {
    && o.version == Count(s.objects, o.id) + 1 && o.content.wellFormed && Creatable(o.content.kind, o.status)
    && (forall p :: p in s.objects && p.id == o.id ==> p.projectId == o.projectId)
    && Allowed(s.evidence, o.projectId, o.content.refs, false) && t == s.(objects := s.objects + [o])
  }

  ghost predicate DecidedAsSent(s: Repo, t: Repo, o: Object) {
    var last := LastOf(s.objects, o.id);
    && last.Some? && last.value.status in {Candidate, NeedsReview}
    && last.value.content.kind !in {KnowledgeGap, ConflictRecord}
    && o == last.value.(version := last.value.version + 1, status := o.status, decisionRef := o.decisionRef)
    && (o.status == Rejected || (o.status == ApprovedStatus(o.content.kind) && o.content.refs != []
                                 && Allowed(s.evidence, o.projectId, o.content.refs, true)))
    && t == s.(objects := s.objects + [o])
  }

  ghost predicate DoesAsSent(s: Repo, t: Repo, c: Command) {
    match c
    case Create(o) => CreatedAsSent(s, t, o)
    case Decide(o) => DecidedAsSent(s, t, o)
    case _ => Does(s, t, c)
  }

  /** When what they write is trimmed, both readings agree. */
  lemma SameWhenTrimmed(s: Repo, t: Repo, c: Command)
    requires c.Create? || c.Decide? ==> Trimmed(c.o.content.refs)
    ensures DoesAsSent(s, t, c) <==> Does(s, t, c)
  {
    hide Trimmed, TrimSpace, RefsAllowed, Allowed;
    if c.Create? || c.Decide? {
      AllowedWhenTrimmed(s.evidence, c.o.projectId, c.o.content.refs, true);
      AllowedWhenTrimmed(s.evidence, c.o.projectId, c.o.content.refs, false);
    }
  }

  // ---------------------------------------------------------------- governance over runs

  /** Governance as the evidence check reads references. */
  ghost predicate TrulyGoverned(s: Repo, id: string) {
    var last := LastOf(s.objects, id);
    last.Some? && Eligible(last.value.status) ==> AllAccepted(s.evidence, last.value.content.refs)
  }

  ghost predicate AllAccepted(evidence: map<string, Span>, refs: seq<string>) {
    forall i :: 0 <= i < |refs| ==> TrimSpace(refs[i]) in evidence && evidence[TrimSpace(refs[i])].review == Accepted
  }

  /** Every stored reference was allowed, and what was stored without blanks is governed. */
  ghost predicate SentOk(s: Repo) {
    && SourcesOk(s)
    && (forall o :: o in s.objects ==> Allowed(s.evidence, o.projectId, o.content.refs, false))
    && (forall id ::
          LastOf(s.objects, id).Some? && Trimmed(LastOf(s.objects, id).value.content.refs) ==> TrulyGoverned(s, id))
  }

  lemma {:induction false} LastIsStored(objects: seq<Object>, id: string)
    ensures LastOf(objects, id).Some? ==> LastOf(objects, id).value in objects && LastOf(objects, id).value.id == id
  {
    if objects != [] { LastIsStored(objects[..|objects| - 1], id); }
  }

  /** Evidence that is known stays allowed without a look at its review. */
  lemma KnownStaysAllowed(s: Repo, evidence: map<string, Span>)
    requires forall o :: o in s.objects ==> Allowed(s.evidence, o.projectId, o.content.refs, false)
    requires forall e :: e in s.evidence ==> e in evidence && evidence[e].projectId == s.evidence[e].projectId
    ensures forall o :: o in s.objects ==> Allowed(evidence, o.projectId, o.content.refs, false)
  {
    hide TrimSpace, Checked;
    forall o | o in s.objects ensures Allowed(evidence, o.projectId, o.content.refs, false) {
      forall i | 0 <= i < |o.content.refs|
        ensures RefAllowed(evidence, o.projectId, TrimSpace(o.content.refs[i]), false)
      {
        assert RefAllowed(s.evidence, o.projectId, TrimSpace(o.content.refs[i]), false);
      }
    }
  }

  lemma DemotedAreStored(s: Repo, projectId: string, revisionIds: set<string>, ds: seq<Object>)
    requires Demotions(s, projectId, revisionIds, ds)
    requires forall o :: o in s.objects ==> Allowed(s.evidence, o.projectId, o.content.refs, false)
    ensures forall o :: o in s.objects + ds ==> Allowed(s.evidence, o.projectId, o.content.refs, false)
  {
    hide Allowed, Cites;
    forall o | o in ds ensures Allowed(s.evidence, o.projectId, o.content.refs, false) {
      var i :| 0 <= i < |ds| && ds[i] == o;
      assert DemotionOf(s, projectId, revisionIds, ds[i]);
      LastIsStored(s.objects, o.id);
    }
  }

  /** An eligible object that rests on e is found by the search when its references are trimmed. */
  lemma TrimmedIsImpacted(s: Repo, mid: Repo, e: string, id: string, i: nat)
    requires SentOk(s) && e in s.evidence && mid.objects == s.objects && e in mid.evidence
    requires mid.evidence[e].revisionId == s.evidence[e].revisionId
    requires LastOf(s.objects, id).Some? && i < |LastOf(s.objects, id).value.content.refs|
    requires LastOf(s.objects, id).value.content.refs[i] == e == TrimSpace(e)
    ensures var source := s.revisions[s.evidence[e].revisionId].sourceId;
            Impacted(mid, s.sources[source], RevisionsOf(s, source), id)
  {
    hide TrimSpace, TrulyGoverned, Checked;
    var last := LastOf(s.objects, id).value;
    LastIsStored(s.objects, id);
    assert RefAllowed(s.evidence, last.projectId, TrimSpace(last.content.refs[i]), false);
    assert Cites(mid.evidence, RevisionsOf(s, s.revisions[s.evidence[e].revisionId].sourceId), last);
  }

  lemma AppendKeepsSent(s: Repo, o: Object)
    requires SentOk(s) && Allowed(s.evidence, o.projectId, o.content.refs, false)
    requires Eligible(o.status) ==> AllAccepted(s.evidence, o.content.refs)
    ensures SentOk(s.(objects := s.objects + [o]))
  {
    hide Allowed, AllAccepted, Trimmed;
    var t := s.(objects := s.objects + [o]);
    forall id | LastOf(t.objects, id).Some? && Trimmed(LastOf(t.objects, id).value.content.refs)
      ensures TrulyGoverned(t, id)
    {
      AppendOne(s.objects, o, id);
    }
  }

  lemma AcceptedIsAllowed(evidence: map<string, Span>, projectId: string, refs: seq<string>)
    requires Allowed(evidence, projectId, refs, true)
    ensures Allowed(evidence, projectId, refs, false) && AllAccepted(evidence, refs)
  {
    hide TrimSpace, Checked;
    forall i | 0 <= i < |refs|
      ensures RefAllowed(evidence, projectId, TrimSpace(refs[i]), false)
              && evidence[TrimSpace(refs[i])].review == Accepted
    {
      assert RefAllowed(evidence, projectId, TrimSpace(refs[i]), true);
    }
  }

  lemma ReviewKeepsSent(s: Repo, t: Repo, e: string, review: Review, ds: seq<Object>)
    requires SentOk(s) && EvidenceReviewed(s, t, e, review, ds)
    ensures SentOk(t)
  {
    hide TrimSpace, Allowed;
    var mid := s.(evidence := s.evidence[e := s.evidence[e].(review := review)]);
    KnownStaysAllowed(s, mid.evidence);
    var lost := s.evidence[e].review == Accepted && review != Accepted;
    if lost {
      var source := s.revisions[s.evidence[e].revisionId].sourceId;
      DemotedAreStored(mid, s.sources[source], RevisionsOf(s, source), ds);
    }
    forall id | LastOf(t.objects, id).Some? && Trimmed(LastOf(t.objects, id).value.content.refs)
      ensures TrulyGoverned(t, id)
    {
      if Eligible(LastOf(t.objects, id).value.status) { ReviewKeepsGoverned(s, t, e, review, ds, id); }
    }
  }

  lemma ReviewKeepsGoverned(s: Repo, t: Repo, e: string, review: Review, ds: seq<Object>, id: string)
    requires SentOk(s) && EvidenceReviewed(s, t, e, review, ds)
    requires LastOf(t.objects, id).Some? && Eligible(LastOf(t.objects, id).value.status)
    requires Trimmed(LastOf(t.objects, id).value.content.refs)
    ensures TrulyGoverned(t, id)
  {
    hide TrimSpace, Allowed, Impacted, LastOf;
    var mid := s.(evidence := s.evidence[e := s.evidence[e].(review := review)]);
    if s.evidence[e].review == Accepted && review != Accepted {
      var source := s.revisions[s.evidence[e].revisionId].sourceId;
      DemotedLast(mid, s.sources[source], RevisionsOf(s, source), ds, id);
      var refs := LastOf(s.objects, id).value.content.refs;
      forall i | 0 <= i < |refs| ensures refs[i] != e {
        if refs[i] == e { TrimmedIsImpacted(s, mid, e, id, i); }
      }
      assert TrulyGoverned(s, id);
    } else {
      assert s.objects + ds == s.objects;
      assert TrulyGoverned(s, id);
    }
  }

  lemma ReviseKeepsSent(s: Repo, t: Repo, sourceId: string, revisionId: string, ds: seq<Object>)
    requires SentOk(s) && SourceRevised(s, t, sourceId, revisionId, ds)
    ensures SentOk(t)
  {
    hide TrimSpace, Allowed, LastOf, Impacted;
    var mid := s.(revisions := s.revisions[revisionId := Revision(s.sources[sourceId], sourceId)]);
    DemotedAreStored(mid, s.sources[sourceId], RevisionsOf(s, sourceId), ds);
    forall id | LastOf(t.objects, id).Some? && Trimmed(LastOf(t.objects, id).value.content.refs)
      ensures TrulyGoverned(t, id)
    {
      DemotedLast(mid, s.sources[sourceId], RevisionsOf(s, sourceId), ds, id);
      if Eligible(LastOf(t.objects, id).value.status) { assert TrulyGoverned(s, id); }
    }
  }

  lemma CommandKeepsSent(s: Repo, t: Repo, c: Command)
    requires SentOk(s) && DoesAsSent(s, t, c)
    ensures SentOk(t)
  {
    hide TrimSpace, Allowed, LastOf, EvidenceReviewed, SourceRevised, SentOk;
    match c
    case Create(o) => AppendKeepsSent(s, o);
    case Decide(o) => DecideKeepsSent(s, t, o);
    case ReviewSpan(e, review, ds) => ReviewKeepsSent(s, t, e, review, ds);
    case Revise(sourceId, revisionId, ds) => ReviseKeepsSent(s, t, sourceId, revisionId, ds);
    case AddSpan(e, span) => AddKeepsSent(s, t, e, span);
    case AddSource(sourceId, projectId, revisionId) => SourceKeepsSent(s, t, sourceId, projectId, revisionId);
  }

  lemma DecideKeepsSent(s: Repo, t: Repo, o: Object)
    requires SentOk(s) && DecidedAsSent(s, t, o)
    ensures SentOk(t)
  {
    hide TrimSpace, Allowed;
    LastIsStored(s.objects, o.id);
    if o.status != Rejected { AcceptedIsAllowed(s.evidence, o.projectId, o.content.refs); }
    AppendKeepsSent(s, o);
  }

  lemma AddKeepsSent(s: Repo, t: Repo, e: string, span: Span)
    requires SentOk(s) && EvidenceAdded(s, t, e, span)
    ensures SentOk(t)
  {
    hide TrimSpace, Allowed, LastOf;
    KnownStaysAllowed(s, t.evidence);
    forall id | LastOf(t.objects, id).Some? && Trimmed(LastOf(t.objects, id).value.content.refs)
      ensures TrulyGoverned(t, id)
    {
      assert TrulyGoverned(s, id);
    }
  }

  lemma SourceKeepsSent(s: Repo, t: Repo, sourceId: string, projectId: string, revisionId: string)
    requires SentOk(s) && SourceCreated(s, t, sourceId, projectId, revisionId)
    ensures SentOk(t)
  {
    hide TrimSpace, Allowed, LastOf;
    forall id | LastOf(t.objects, id).Some? && Trimmed(LastOf(t.objects, id).value.content.refs)
      ensures TrulyGoverned(t, id)
    {
      assert TrulyGoverned(s, id);
    }
  }

  /** In every state of every run of the commands with references as sent, an eligible latest version
      whose references were stored without blanks rests on accepted evidence. */
  lemma {:induction false} TrimmedIsGovernedOverRuns(states: seq<Repo>, commands: seq<Command>, j: nat, id: string)
    requires |states| == |commands| + 1 && SentOk(states[0]) && j < |states|
    requires forall i :: 0 <= i < |commands| ==> DoesAsSent(states[i], states[i + 1], commands[i])
    ensures SentOk(states[j])
    ensures var last := LastOf(states[j].objects, id);
            last.Some? && Trimmed(last.value.content.refs) ==> TrulyGoverned(states[j], id)
  {
    hide DoesAsSent, TrimSpace, TrulyGoverned;
    if j > 0 {
      TrimmedIsGovernedOverRuns(states, commands, j - 1, id);
      assert DoesAsSent(states[j - 1], states[j], commands[j - 1]);
      CommandKeepsSent(states[j - 1], states[j], commands[j - 1]);
    }
  }

  /** Rejecting accepted evidence leaves a governed object governed exactly when it is not eligible,
      does not rest on that evidence, or is found by the search over references as stored. */
  lemma RejectionEscapesIff(s: Repo, t: Repo, e: string, ds: seq<Object>, id: string)
    requires EvidenceReviewed(s, t, e, Refused, ds) && s.evidence[e].review == Accepted
    requires LastOf(s.objects, id).Some? && TrulyGoverned(s, id)
    ensures var last, source := LastOf(s.objects, id).value, s.revisions[s.evidence[e].revisionId].sourceId;
            TrulyGoverned(t, id)
            <==> !Eligible(last.status) || !Rests(last, e)
                 || Impacted(s, s.sources[source], RevisionsOf(s, source), id)
  {
    hide TrimSpace, LastOf;
    var mid := s.(evidence := s.evidence[e := s.evidence[e].(review := Refused)]);
    var last, source := LastOf(s.objects, id).value, s.revisions[s.evidence[e].revisionId].sourceId;
    var projectId, revisionIds := s.sources[source], RevisionsOf(s, source);
    assert Impacted(mid, projectId, revisionIds, id) <==> Impacted(s, projectId, revisionIds, id) by {
      assert forall r ::
             r in s.evidence ==> r in mid.evidence && mid.evidence[r].revisionId == s.evidence[r].revisionId;
    }
    if i :| 0 <= i < |ds| && ds[i].id == id {
      MentionedLast(s.objects, ds, i);
      assert DemotionOf(mid, projectId, revisionIds, ds[i]);
    } else {
      UnmentionedLast(s.objects, ds, id);
    }
  }

  ghost predicate Rests(o: Object, e: string) {
    exists i :: 0 <= i < |o.content.refs| && TrimSpace(o.content.refs[i]) == e
  }

  // ---------------------------------------------------------------- a run that escapes

  function Blank(status: Status, version: int): Object {
    Object("k", "p", version, status, Content(FactAssertion, true, "b", "", [" e"]), "")
  }

  /** An object is created with a leading blank before its reference and approved; rejecting the
      evidence demotes nothing, and the object stays verified on rejected evidence. */
  lemma BlankReferenceEscapes()
    ensures var created, approved := Blank(Candidate, 1), Blank(Verified, 2);
            var s0, s1 := Evidenced(Accepted, []), Evidenced(Accepted, [created]);
            var s2, s3 := Evidenced(Accepted, [created, approved]), Evidenced(Refused, [created, approved]);
            && DoesAsSent(s0, s1, Create(created)) && DoesAsSent(s1, s2, Decide(approved))
            && DoesAsSent(s2, s3, ReviewSpan("e", Refused, []))
            && SentOk(s0) && TrulyGoverned(s2, "k") && !TrulyGoverned(s3, "k")
  {
    hide TrimSpace;
    BlankTrims();
    BlankCreated();
    BlankApproved();
    BlankRejected();
  }

  lemma BlankCreated()
    ensures CreatedAsSent(Evidenced(Accepted, []), Evidenced(Accepted, [Blank(Candidate, 1)]), Blank(Candidate, 1))
    ensures SentOk(Evidenced(Accepted, []))
  {
    BlankTrims();
    hide TrimSpace;
    assert [] + [Blank(Candidate, 1)] == [Blank(Candidate, 1)];
  }

  lemma BlankApproved()
    ensures DecidedAsSent(Evidenced(Accepted, [Blank(Candidate, 1)]),
                          Evidenced(Accepted, [Blank(Candidate, 1), Blank(Verified, 2)]), Blank(Verified, 2))
  {
    BlankTrims();
    hide TrimSpace;
    assert [Blank(Candidate, 1)] + [Blank(Verified, 2)] == [Blank(Candidate, 1), Blank(Verified, 2)];
    assert [Blank(Candidate, 1)][..0] == [];
  }

  lemma BlankRejected()
    ensures var objects := [Blank(Candidate, 1), Blank(Verified, 2)];
            var s, t := Evidenced(Accepted, objects), Evidenced(Refused, objects);
            && EvidenceReviewed(s, t, "e", Refused, []) && TrulyGoverned(s, "k") && !TrulyGoverned(t, "k")
  {
    BlankTrims();
    hide TrimSpace;
    var objects := [Blank(Candidate, 1), Blank(Verified, 2)];
    var s, t := Evidenced(Accepted, objects), Evidenced(Refused, objects);
    assert s.evidence["e" := s.evidence["e"].(review := Refused)] == t.evidence && s.objects + [] == s.objects;
    assert LastOf(objects, "k") == Some(Blank(Verified, 2));
    forall id ensures LastOf(objects, id).Some? ==> LastOf(objects, id) == Some(Blank(Verified, 2)) {
      assert objects == ([] + [Blank(Candidate, 1)]) + [Blank(Verified, 2)];
      AppendOne([], Blank(Candidate, 1), id);
      AppendOne([] + [Blank(Candidate, 1)], Blank(Verified, 2), id);
    }
    assert Blank(Verified, 2).content.refs[0] !in t.evidence;
    assert TrimSpace(Blank(Verified, 2).content.refs[0]) == "e" && t.evidence["e"].review == Refused;
  }

  lemma BlankTrims()
    ensures TrimSpace(" e") == "e" && " e" != "e"
  {
    assert " e"[1..] == "e";
    assert TrimLeft(" e") == TrimLeft("e") == "e";
    assert |" e"| == 2 && |"e"| == 1;
  }
}
