/** What the review commands do when nothing comes between their steps, and what whole runs say about
    the state of a grant. */
module ReviewRuns {
  import opened Wrappers
  import opened Schedules
  import opened ReviewGrants

  function After(schedule: seq<Act>): World { Run(Next, START, schedule) }

  lemma AfterLast(schedule: seq<Act>)
    requires schedule != []
    ensures After(schedule) == Next(After(schedule[..|schedule| - 1]), schedule[|schedule| - 1])
  {
    var front, last := schedule[..|schedule| - 1], schedule[|schedule| - 1];
    assert schedule == front + [last];
    RunConcat(Next, START, front, [last]);
    RunOne(Next, After(front), last);
  }

  // ---------------------------------------------------------------- verification

  predicate IsOpen(g: Grant) { !g.revoked && g.decidedAt.None? }

  /** The right code verifies an open grant before it expires; nothing else about it changes. A wrong
      code, or a grant that is closed or has expired, changes nothing. */
  lemma CodeDecides(w: World, gid: nat)
    ensures Next(w, Verify(gid, false)) == w
    ensures var t := Next(w, Verify(gid, true));
            if gid in w.grants && IsOpen(w.grants[gid]) && w.clock < w.grants[gid].expires
            then t == w.(grants := t.grants) && t.grants == w.grants[gid := w.grants[gid].(verified := true)]
            else t == w
  {
  }

  /** Only the right code makes an unverified grant a verified one. */
  lemma OnlyTheCodeVerifies(w: World, a: Act, gid: nat)
    requires Inv(w) && gid in Next(w, a).grants && Next(w, a).grants[gid].verified
    ensures (gid in w.grants && w.grants[gid].verified) || a == Verify(gid, true)
  {
    hide RevisionOk, GrantOk, SnapshotOk;
    if a.CommitDecision? { assert PcOk(w, PcOf(w, a.p)); }
  }

  ghost predicate CodeWasRight(schedule: seq<Act>, gid: nat) {
    exists i :: 0 <= i < |schedule| && schedule[i] == Verify(gid, true)
  }

  /** In every run, behind a verified grant stands the right code. */
  lemma {:induction false} VerifiedByCode(schedule: seq<Act>, gid: nat)
    requires gid in After(schedule).grants && After(schedule).grants[gid].verified
    ensures CodeWasRight(schedule, gid)
  {
    hide Inv, Next, Run;
    if schedule == [] {
      assert After(schedule) == START by { NothingYet(); }
      assert false;
    } else {
      var front, last := schedule[..|schedule| - 1], schedule[|schedule| - 1];
      AfterLast(schedule);
      RunKeepsInv(front);
      OnlyTheCodeVerifies(After(front), last, gid);
      if last != Verify(gid, true) {
        VerifiedByCode(front, gid);
        var i :| 0 <= i < |front| && front[i] == Verify(gid, true);
        assert schedule[i] == Verify(gid, true);
      } else {
        assert schedule[|schedule| - 1] == Verify(gid, true);
      }
    }
  }

  lemma NothingYet()
    ensures After([]) == START
  {
  }

  /** Every snapshot is backed by a grant for which the right code was given, that was never revoked
      and was decided before it expired, and by an internal approval, all bound to the content hash of
      its revision. */
  lemma SnapshotsAreBacked(schedule: seq<Act>, i: nat)
    requires i < |After(schedule).snapshots|
    ensures var w := After(schedule);
            var s := w.snapshots[i];
            && s.revision in w.revisions && w.revisions[s.revision] == s.hash
            && (exists k :: 0 <= k < |w.approvals| && w.approvals[k] == Approval(s.revision, s.hash, Internal, Approve))
            && s.grantId in w.grants && var g := w.grants[s.grantId];
            && g.subject == s.revision && g.hash == s.hash && g.verified && CodeWasRight(schedule, s.grantId)
            && !g.revoked && g.decidedAt.Some? && g.decidedAt.value < g.expires
  {
    RunKeepsInv(schedule);
    var w := After(schedule);
    assert SnapshotOk(w, w.snapshots[i]);
    assert GrantOk(w, w.grants[w.snapshots[i].grantId]);
    var s := w.snapshots[i];
    assert InternallyCleared(w.approvals, s.revision, s.hash);
    VerifiedByCode(schedule, w.snapshots[i].grantId);
  }

  // ---------------------------------------------------------------- open grants

  /** An open grant is on the current revision, and its submission is in client review unless another
      grant's client decision has closed it. */
  ghost predicate OpenOk(w: World, g: Grant) {
    IsOpen(g) ==>
      && g.subject == w.current
      && (w.status == ClientReview
          || (w.status in {Approved, ChangesRequested} && ClientDecisions(w.approvals, w.current) == 1))
  }

  /** Only submitted work is approved internally, and a ruling never returns. */
  predicate RulingOk(pc: Pc) {
    pc.Ruling? ==> pc.verdict != Return && (pc.verdict == Approve ==> pc.previous in {Submitted, InReview})
  }

  ghost predicate OpensOk(w: World) {
    && (forall g :: g in w.grants ==> OpenOk(w, w.grants[g]))
    && (forall p :: p in w.commands ==> RulingOk(w.commands[p]))
  }

  lemma DecisionOpens(w: World, p: nat)
    requires Inv(w) && OpensOk(w)
    ensures OpensOk(DoCommitDecision(w, p))
  {
    var pc, t := PcOf(w, p), DoCommitDecision(w, p);
    hide GrantOk, SnapshotOk, ClientDecisions;
    if MayDecide(w, pc) {
      assert PcOk(w, pc) && RevisionOk(w, w.current);
      OneMore(w.approvals, Approval(pc.grant.subject, pc.grant.hash, Client, pc.verdict), w.current);
      forall g | g in t.grants ensures OpenOk(t, t.grants[g]) {
        assert g in w.grants && OpenOk(w, w.grants[g]);
      }
    } else {
      forall g | g in t.grants ensures OpenOk(t, t.grants[g]) { assert OpenOk(w, w.grants[g]); }
    }
  }

  lemma RulingOpens(w: World, p: nat)
    requires Inv(w) && OpensOk(w)
    ensures OpensOk(DoCommitRuling(w, p))
  {
    var pc, t := PcOf(w, p), DoCommitRuling(w, p);
    assert PcOk(w, pc);
    hide GrantOk, SnapshotOk, ClientDecisions, RevisionOk;
    assert RulingOk(pc);
    forall g | g in t.grants ensures OpenOk(t, t.grants[g]) { assert g in w.grants && OpenOk(w, w.grants[g]); }
  }

  lemma ReadsKeepOpens(w: World, a: Act)
    requires OpensOk(w) && (a.OpenDecision? || a.Examine? || a.OpenGrant? || a.OpenRuling?)
    ensures OpensOk(Next(w, a))
  {
    hide ClientDecisions, InternallyCleared;
    var t := Next(w, a);
    forall g | g in t.grants ensures OpenOk(t, t.grants[g]) { assert OpenOk(w, w.grants[g]); }
  }

  lemma NextKeepsOpens(w: World, a: Act)
    requires Inv(w) && OpensOk(w)
    ensures OpensOk(Next(w, a))
  {
    hide GrantOk, SnapshotOk, ClientDecisions, InternallyCleared;
    if a.CommitDecision? {
      DecisionOpens(w, a.p);
    } else if a.CommitRuling? {
      RulingOpens(w, a.p);
    } else if a.OpenDecision? || a.Examine? || a.OpenGrant? || a.OpenRuling? {
      ReadsKeepOpens(w, a);
    } else {
      var t := Next(w, a);
      hide RevisionOk;
      forall g | g in t.grants ensures OpenOk(t, t.grants[g]) {
        if g in w.grants { assert OpenOk(w, w.grants[g]); }
      }
    }
  }

  /** In every state of every run each open grant is on the current revision, in client review unless a
      client's decision closed it; so a new revision, a rejection and a request for changes leave no
      open grant behind. */
  lemma OpenGrantsAreCurrent(schedule: seq<Act>, gid: nat)
    requires gid in After(schedule).grants && IsOpen(After(schedule).grants[gid])
    ensures var w := After(schedule);
            && w.grants[gid].subject == w.current
            && (w.status == ClientReview
                || (w.status in {Approved, ChangesRequested} && ClientDecisions(w.approvals, w.current) == 1))
  {
    assert Inv(START) && OpensOk(START);
    assert OpensOk(After(schedule)) by {
      hide Inv, OpensOk, Next;
      forall w: World, a: Act | Inv(w) && OpensOk(w) ensures Inv(Next(w, a)) && OpensOk(Next(w, a)) {
        NextKeepsInv(w, a);
        NextKeepsOpens(w, a);
      }
      RunInvariant(Next, (w: World) => Inv(w) && OpensOk(w), START, schedule);
    }
    assert OpenOk(After(schedule), After(schedule).grants[gid]);
  }

  /** Same grant, still bound as it was; once revoked or decided it stays exactly so. */
  ghost predicate SameGrant(g: Grant, h: Grant) {
    && h.subject == g.subject && h.hash == g.hash && h.expires == g.expires
    && (g.verified ==> h.verified)
    && (g.revoked ==> h.revoked && h.decidedAt == g.decidedAt) && (g.decidedAt.Some? ==> h == g)
  }

  lemma NextKeepsGrant(w: World, a: Act, gid: nat)
    requires Inv(w) && gid in w.grants
    ensures gid in Next(w, a).grants && SameGrant(w.grants[gid], Next(w, a).grants[gid])
  {
    hide RevisionOk, SnapshotOk, InternallyCleared;
    assert GrantOk(w, w.grants[gid]);
    if a.CommitDecision? { assert PcOk(w, PcOf(w, a.p)); }
  }

  /** A revoked grant never decides, and a decided one never changes again. */
  lemma ClosedGrantsStayClosed(w: World, schedule: seq<Act>, gid: nat)
    requires Inv(w) && gid in w.grants
    ensures var t := Run(Next, w, schedule); gid in t.grants && SameGrant(w.grants[gid], t.grants[gid])
  {
    hide Inv, Next;
    var keeps := (v: World) => Inv(v) && gid in v.grants && SameGrant(w.grants[gid], v.grants[gid]);
    forall v: World, a: Act | keeps(v) ensures keeps(Next(v, a)) {
      NextKeepsInv(v, a);
      NextKeepsGrant(v, a, gid);
    }
    RunInvariant(Next, keeps, w, schedule);
  }

  // ---------------------------------------------------------------- commands with nothing in between

  lemma RunTwo(w: World, a: Act, b: Act)
    ensures Run(Next, w, [a, b]) == Next(Next(w, a), b)
  {
    hide Next;
    RunPath(Next, [w, Next(w, a), Next(Next(w, a), b)], [a, b]);
  }

  lemma RunThree(w: World, a: Act, b: Act, c: Act)
    ensures Run(Next, w, [a, b, c]) == Next(Next(Next(w, a), b), c)
  {
    hide Next;
    RunPath(Next, [w, Next(w, a), Next(Next(w, a), b), Next(Next(Next(w, a), b), c)], [a, b, c]);
  }

  function Idled(w: World, p: nat): World { w.(commands := w.commands[p := Idle]) }

  lemma AtAgain(w: World, p: nat, x: Pc, y: Pc)
    ensures At(At(w, p, x), p, y) == At(w, p, y) && PcOf(At(w, p, x), p) == x
  {
    assert w.commands[p := x][p := y] == w.commands[p := y];
  }

  predicate MayRule(w: World, revision: nat, verdict: Verdict, governed: bool) {
    && revision in w.revisions && w.current == revision
    && match verdict
       case Approve => governed && w.status in {Submitted, InReview}
       case Return => false
       case _ => w.status in {Submitted, InReview, InternallyApproved, ClientReview}
  }

  lemma RulingRead(w: World, p: nat, revision: nat, verdict: Verdict, governed: bool)
    ensures Next(w, OpenRuling(p, revision, verdict, governed))
            == At(w, p, if MayRule(w, revision, verdict, governed)
                        then Ruling(revision, w.revisions[revision], w.status, verdict) else Idle)
  {
  }

  /** An internal ruling approves governed work that is submitted or in review, and sends back or
      rejects work that is still open; it is recorded with the revision's hash, and sending back or
      rejecting revokes the open grants of the revision. Anything else changes nothing. */
  lemma RulingAlone(w: World, p: nat, revision: nat, verdict: Verdict, governed: bool)
    ensures var t := Run(Next, w, [OpenRuling(p, revision, verdict, governed), CommitRuling(p)]);
            if !MayRule(w, revision, verdict, governed) then t == Idled(w, p)
            else
              && t == Idled(w, p).(status := t.status, approvals := t.approvals, grants := t.grants)
              && t.status == (match verdict
                              case Approve => InternallyApproved
                              case Reject => Rejected
                              case _ => ChangesRequested)
              && t.approvals == w.approvals + [Approval(revision, w.revisions[revision], Internal, verdict)]
              && t.grants.Keys == w.grants.Keys
              && forall g :: g in w.grants ==>
                   t.grants[g] == if verdict != Approve && w.grants[g].subject == revision && IsOpen(w.grants[g])
                                  then w.grants[g].(revoked := true) else w.grants[g]
  {
    RunTwo(w, OpenRuling(p, revision, verdict, governed), CommitRuling(p));
    RulingRead(w, p, revision, verdict, governed);
    var pc := if MayRule(w, revision, verdict, governed)
              then Ruling(revision, w.revisions[revision], w.status, verdict) else Idle;
    AtAgain(w, p, pc, Idle);
    var w1 := At(w, p, pc);
    hide Run, At, PcOf, DoOpenRuling;
    assert Next(w1, CommitRuling(p)) == DoCommitRuling(w1, p);
    AtRest(w, p, pc);
  }

  lemma AtRest(w: World, p: nat, pc: Pc)
    ensures At(w, p, pc) == w.(commands := At(w, p, pc).commands) && At(w, p, Idle) == Idled(w, p)
  {
  }

  predicate MayGrant(w: World, revision: nat) {
    && revision in w.revisions && w.current == revision && w.status in {InternallyApproved, ClientReview}
    && exists i :: 0 <= i < |w.approvals|
                   && w.approvals[i] == Approval(revision, w.revisions[revision], Internal, Approve)
  }

  lemma GrantRead(w: World, p: nat, revision: nat)
    ensures Next(w, OpenGrant(p, revision))
            == At(w, p, if MayGrant(w, revision) then Granting(revision, w.revisions[revision], w.clock) else Idle)
  {
    if MayGrant(w, revision) {
      var i :| 0 <= i < |w.approvals|
               && w.approvals[i] == Approval(revision, w.revisions[revision], Internal, Approve);
      assert InternalApproval(w.approvals[i], revision, w.revisions[revision]);
    }
  }

  /** A grant is issued for a week on the current revision that passed internal review, which puts the
      submission into client review; otherwise nothing changes. */
  lemma GrantAlone(w: World, p: nat, revision: nat, gid: nat)
    ensures Run(Next, w, [OpenGrant(p, revision), CommitGrant(p, gid)])
            == if !MayGrant(w, revision) || gid in w.grants then Idled(w, p)
               else Idled(w, p).(status := ClientReview,
                                 grants := w.grants[gid := Grant(revision, w.revisions[revision], false, None, false,
                                                                 w.clock + 7 * 24 * 3600)])
  {
    RunTwo(w, OpenGrant(p, revision), CommitGrant(p, gid));
    GrantRead(w, p, revision);
    if MayGrant(w, revision) { GrantWritten(w, p, revision, gid); } else { NothingGranted(w, p, gid); }
  }

  lemma GrantWritten(w: World, p: nat, revision: nat, gid: nat)
    requires revision in w.revisions && w.current == revision && w.status in {InternallyApproved, ClientReview}
    ensures Next(At(w, p, Granting(revision, w.revisions[revision], w.clock)), CommitGrant(p, gid))
            == if gid in w.grants then Idled(w, p)
               else Idled(w, p).(status := ClientReview,
                                 grants := w.grants[gid := Grant(revision, w.revisions[revision], false, None, false,
                                                                 w.clock + 7 * 24 * 3600)])
  {
    var pc := Granting(revision, w.revisions[revision], w.clock);
    AtAgain(w, p, pc, Idle);
    AtRest(w, p, pc);
    var w1 := At(w, p, pc);
    hide At, PcOf;
    assert Next(w1, CommitGrant(p, gid)) == DoCommitGrant(w1, p, gid);
  }

  lemma NothingGranted(w: World, p: nat, gid: nat)
    ensures Next(At(w, p, Idle), CommitGrant(p, gid)) == Idled(w, p)
  {
    AtAgain(w, p, Idle, Idle);
    AtRest(w, p, Idle);
    var w1 := At(w, p, Idle);
    hide At, PcOf;
    assert Next(w1, CommitGrant(p, gid)) == DoCommitGrant(w1, p, gid);
  }

  /** The grant is verified, open and unexpired, on the current revision in client review, whose hash
      passed internal review. */
  predicate MayDecideWith(w: World, gid: nat, verdict: Verdict, governed: bool) {
    && gid in w.grants && var g := w.grants[gid];
    && g.verified && IsOpen(g) && w.clock < g.expires
    && w.status == ClientReview && g.subject == w.current
    && w.current in w.revisions && w.revisions[w.current] == g.hash
    && (exists i :: 0 <= i < |w.approvals| && w.approvals[i] == Approval(w.current, g.hash, Internal, Approve))
    && (verdict == Return || (verdict == Approve && governed))
  }

  predicate MayOpen(w: World, gid: nat) {
    gid in w.grants && w.grants[gid].verified && IsOpen(w.grants[gid]) && w.clock <= w.grants[gid].expires
  }

  lemma DecisionRead(w: World, p: nat, gid: nat)
    ensures Next(w, OpenDecision(p, gid)) == At(w, p, if MayOpen(w, gid) then Authorised(gid, w.grants[gid]) else Idle)
  {
  }

  predicate MayExamine(w: World, g: Grant, verdict: Verdict, governed: bool) {
    && g.subject in w.revisions && w.revisions[g.subject] == g.hash && w.current == g.subject
    && w.status == ClientReview
    && (exists i :: 0 <= i < |w.approvals| && w.approvals[i] == Approval(g.subject, g.hash, Internal, Approve))
    && (verdict == Return || (verdict == Approve && governed))
  }

  lemma DecisionExamined(w: World, p: nat, pc: Pc, verdict: Verdict, governed: bool)
    requires PcOf(w, p) == pc
    ensures Next(w, Examine(p, verdict, governed))
            == if !pc.Authorised? then w
               else At(w, p, if MayExamine(w, pc.grant, verdict, governed)
                             then Deciding(pc.gid, pc.grant, verdict, w.clock) else Idle)
  {
    if pc.Authorised? {
      var g := pc.grant;
      assert (exists i :: 0 <= i < |w.approvals| && w.approvals[i] == Approval(g.subject, g.hash, Internal, Approve))
             <==> InternallyCleared(w.approvals, g.subject, g.hash) by {
        if i :| 0 <= i < |w.approvals| && w.approvals[i] == Approval(g.subject, g.hash, Internal, Approve) {
          assert InternalApproval(w.approvals[i], g.subject, g.hash);
        }
      }
    }
  }

  /** The client decides, by approving governed content or returning it, exactly with such a grant;
      otherwise nothing changes. */
  lemma DecisionAlone(w: World, p: nat, gid: nat, verdict: Verdict, governed: bool)
    ensures Run(Next, w, [OpenDecision(p, gid), Examine(p, verdict, governed), CommitDecision(p)])
            == if !MayDecideWith(w, gid, verdict, governed) then Idled(w, p)
               else
                 var g := w.grants[gid];
                 Idled(w, p).(
                   status := if verdict == Approve then Approved else ChangesRequested,
                   grants := w.grants[gid := g.(decidedAt := Some(w.clock))],
                   approvals := w.approvals + [Approval(w.current, g.hash, Client, verdict)],
                   snapshots := w.snapshots + if verdict == Approve then [Snapshot(w.current, g.hash, gid)] else [])
  {
    RunThree(w, OpenDecision(p, gid), Examine(p, verdict, governed), CommitDecision(p));
    DecisionRead(w, p, gid);
    var pc1 := if MayOpen(w, gid) then Authorised(gid, w.grants[gid]) else Idle;
    var w1 := At(w, p, pc1);
    AtAgain(w, p, pc1, Idle);
    AtRest(w, p, pc1);
    DecisionExamined(w1, p, pc1, verdict, governed);
    var examined := pc1.Authorised? && MayExamine(w1, pc1.grant, verdict, governed);
    var pc2 := if examined then Deciding(gid, pc1.grant, verdict, w.clock) else Idle;
    AtAgain(w, p, pc1, pc2);
    AtAgain(w, p, pc2, Idle);
    AtRest(w, p, pc2);
    var w2 := At(w, p, pc2);
    assert Next(w1, Examine(p, verdict, governed)) == w2;
    hide Run, At, PcOf, DoOpenDecision, DoExamine, InternallyCleared;
    assert Next(w2, CommitDecision(p)) == DoCommitDecision(w2, p);
    assert MayDecideWith(w, gid, verdict, governed) <==> examined && w.clock < w.grants[gid].expires;
  }

  /** The guarantees are not met by refusing everything: in every reachable state a verified, open and
      unexpired grant on the current revision in client review lets its holder approve governed content
      or return it. */
  lemma OpenGrantCanDecide(schedule: seq<Act>, p: nat, gid: nat, verdict: Verdict)
    requires var w := After(schedule);
             && gid in w.grants && verdict in {Approve, Return} && var g := w.grants[gid];
             && g.verified && IsOpen(g) && w.clock < g.expires && g.subject == w.current && w.status == ClientReview
    ensures var w := After(schedule);
            var t := Run(Next, w, [OpenDecision(p, gid), Examine(p, verdict, true), CommitDecision(p)]);
            && t.approvals == w.approvals + [Approval(w.current, w.grants[gid].hash, Client, verdict)]
            && t.status == (if verdict == Approve then Approved else ChangesRequested)
            && t.snapshots == w.snapshots + if verdict == Approve then [Snapshot(w.current, w.grants[gid].hash, gid)]
                                            else []
  {
    var w := After(schedule);
    RunKeepsInv(schedule);
    assert GrantOk(w, w.grants[gid]);
    hide Run, RevisionOk, SnapshotOk, PcOk;
    var i :| 0 <= i < |w.approvals| && InternalApproval(w.approvals[i], w.current, w.grants[gid].hash);
    assert w.approvals[i] == Approval(w.current, w.grants[gid].hash, Internal, Approve);
    DecisionAlone(w, p, gid, verdict, true);
  }

  /** A revision that is new becomes the current one, submitted, and every open grant of another
      revision is revoked; revoking closes an open grant and leaves a decided one alone. */
  lemma RevisionAndRevocation(w: World, revision: nat, hash: string, gid: nat)
    ensures var t := Next(w, NewRevision(revision, hash));
            if revision in w.revisions then t == w
            else
              && t == w.(status := Submitted, current := revision, revisions := w.revisions[revision := hash],
                         grants := t.grants)
              && t.grants.Keys == w.grants.Keys
              && forall g :: g in w.grants ==>
                   t.grants[g] == if w.grants[g].subject != revision && IsOpen(w.grants[g])
                                  then w.grants[g].(revoked := true) else w.grants[g]
    ensures Next(w, Revoke(gid))
            == if gid in w.grants && IsOpen(w.grants[gid])
               then w.(grants := w.grants[gid := w.grants[gid].(revoked := true)]) else w
  {
    if gid in w.grants { assert w.grants[gid := w.grants[gid]] == w.grants; }
  }
}
