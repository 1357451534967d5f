/** Client review of one submission: revisions, internal rulings, review grants and the client's
    decision. Every command reads first and commits later; the store re-checks what it guards. */
module ReviewGrants {
  import opened Wrappers
  import opened Schedules

  datatype Status =
    | Preparing | Submitted | InReview | InternallyApproved | ClientReview | Approved | ChangesRequested | Rejected

  datatype Stage = Internal | Client

  datatype Verdict = Approve | Return | RequestChanges | Reject

  datatype Approval = Approval(revision: nat, hash: string, stage: Stage, verdict: Verdict)

  datatype Grant = Grant(subject: nat, hash: string, verified: bool, decidedAt: Option<nat>, revoked: bool,
                         expires: nat)

  datatype Snapshot = Snapshot(revision: nat, hash: string, grantId: nat)

  /** What a command holds between its reads and its commit. */
  datatype Pc =
    | Idle
    | Authorised(gid: nat, grant: Grant)
    | Deciding(gid: nat, grant: Grant, verdict: Verdict, at: nat)
    | Granting(revision: nat, hash: string, at: nat)
    | Ruling(revision: nat, hash: string, previous: Status, verdict: Verdict)

  /** The submission row, its revisions' content hashes, and everything recorded about them. */
  datatype World = World(
    status: Status, current: nat, revisions: map<nat, string>, grants: map<nat, Grant>, approvals: seq<Approval>,
    snapshots: seq<Snapshot>, clock: nat, commands: map<nat, Pc>)

  /** governed stands for the content checks an approval makes; otpOk for the one-time code. */
  datatype Act =
    | NewRevision(revision: nat, hash: string)
    | Tick(n: nat)
    | Verify(gid: nat, otpOk: bool)
    | Revoke(gid: nat)
    | OpenDecision(p: nat, gid: nat)
    | Examine(p: nat, verdict: Verdict, governed: bool)
    | CommitDecision(p: nat)
    | OpenGrant(p: nat, revision: nat)
    | CommitGrant(p: nat, gid: nat)
    | OpenRuling(p: nat, revision: nat, verdict: Verdict, governed: bool)
    | CommitRuling(p: nat)

  const WEEK := 7 * 24 * 3600

  predicate Open(s: Status) { s in {Submitted, InReview, InternallyApproved, ClientReview} }

  function PcOf(w: World, p: nat): Pc { if p in w.commands then w.commands[p] else Idle }

  function At(w: World, p: nat, pc: Pc): World { w.(commands := w.commands[p := pc]) }

  predicate InternalApproval(a: Approval, revision: nat, hash: string) {
    a == Approval(revision, hash, Internal, Approve)
  }

  predicate InternallyCleared(approvals: seq<Approval>, revision: nat, hash: string) {
    exists i :: 0 <= i < |approvals| && InternalApproval(approvals[i], revision, hash)
  }

  /** requireInternalSubmissionApproval: scans the revision's approvals. */
  method RequireInternalApproval(approvals: seq<Approval>, revision: nat, hash: string) returns (ok: bool)
    ensures ok <==> InternallyCleared(approvals, revision, hash)
  {
    for i := 0 to |approvals|
      invariant forall k :: 0 <= k < i ==> !InternalApproval(approvals[k], revision, hash)
    {
      if approvals[i].revision == revision && approvals[i].hash == hash && approvals[i].stage == Internal
         && approvals[i].verdict == Approve {
        return true;
      }
    }
    ok := false;
  }

  // ---------------------------------------------------------------- the commands, step by step

  /** Open grants that satisfy the condition are revoked. */
  function RevokeWhere(grants: map<nat, Grant>, revision: nat, same: bool): map<nat, Grant> {
    map g | g in grants ::
      if grants[g].decidedAt.None? && (grants[g].subject == revision) == same then grants[g].(revoked := true)
      else grants[g]
  }

  /** A new revision becomes current; open grants of the others are revoked. */
  function DoRevise(w: World, revision: nat, hash: string): World {
    if revision in w.revisions then w
    else w.(status := Submitted, current := revision, revisions := w.revisions[revision := hash],
            grants := RevokeWhere(w.grants, revision, false))
  }

  function DoVerify(w: World, gid: nat, otpOk: bool): World {
    if otpOk && gid in w.grants && !w.grants[gid].revoked && w.grants[gid].decidedAt.None?
       && w.clock < w.grants[gid].expires
    then w.(grants := w.grants[gid := w.grants[gid].(verified := true)])
    else w
  }

  function DoRevoke(w: World, gid: nat): World {
    if gid in w.grants && w.grants[gid].decidedAt.None?
       then w.(grants := w.grants[gid := w.grants[gid].(revoked := true)]) else w
  }

  function DoOpenDecision(w: World, p: nat, gid: nat): World {
    if gid in w.grants && !w.grants[gid].revoked && w.clock <= w.grants[gid].expires && w.grants[gid].verified
       && w.grants[gid].decidedAt.None?
    then At(w, p, Authorised(gid, w.grants[gid]))
    else At(w, p, Idle)
  }

  function DoExamine(w: World, p: nat, verdict: Verdict, governed: bool): World {
    var pc := PcOf(w, p);
    if !pc.Authorised? then w
    else
      var g := pc.grant;
      if && g.subject in w.revisions && w.revisions[g.subject] == g.hash && w.current == g.subject
         && w.status == ClientReview
         && InternallyCleared(w.approvals, g.subject, g.hash)
         && (verdict == Return || (verdict == Approve && governed))
      then At(w, p, Deciding(pc.gid, g, verdict, w.clock))
      else At(w, p, Idle)
  }

  predicate MayDecide(w: World, pc: Pc) {
    && pc.Deciding? && w.current == pc.grant.subject && w.status == ClientReview
    && pc.gid in w.grants && w.grants[pc.gid].decidedAt.None? && !w.grants[pc.gid].revoked
    && pc.at < w.grants[pc.gid].expires
  }

  /** The grant is written back as it was read, with the decision time. */
  function DoCommitDecision(w: World, p: nat): World {
    var pc := PcOf(w, p);
    if !MayDecide(w, pc) then At(w, p, Idle)
    else
      var g := pc.grant;
      At(w, p, Idle).(
        status := if pc.verdict == Approve then Approved else ChangesRequested,
        grants := w.grants[pc.gid := g.(decidedAt := Some(pc.at))],
        approvals := w.approvals + [Approval(g.subject, g.hash, Client, pc.verdict)],
        snapshots := w.snapshots + if pc.verdict == Approve then [Snapshot(g.subject, g.hash, pc.gid)] else [])
  }

  function DoOpenGrant(w: World, p: nat, revision: nat): World {
    if && revision in w.revisions && w.current == revision && w.status in {InternallyApproved, ClientReview}
       && InternallyCleared(w.approvals, revision, w.revisions[revision])
    then At(w, p, Granting(revision, w.revisions[revision], w.clock))
    else At(w, p, Idle)
  }

  function DoCommitGrant(w: World, p: nat, gid: nat): World {
    var pc := PcOf(w, p);
    if pc.Granting? && gid !in w.grants && w.current == pc.revision
       && w.status in {InternallyApproved, ClientReview} then
      At(w, p, Idle).(status := ClientReview,
                      grants := w.grants[gid := Grant(pc.revision, pc.hash, false, None, false, pc.at + WEEK)])
    else At(w, p, Idle)
  }

  function DoOpenRuling(w: World, p: nat, revision: nat, verdict: Verdict, governed: bool): World {
    if && revision in w.revisions && w.current == revision
       && match verdict {
            case Approve => w.status in {Submitted, InReview} && governed
            case Return => false
            case _ => Open(w.status)
          }
    then At(w, p, Ruling(revision, w.revisions[revision], w.status, verdict))
    else At(w, p, Idle)
  }

  function Ruled(verdict: Verdict): Status {
    match verdict
    case Approve => InternallyApproved
    case Reject => Rejected
    case _ => ChangesRequested
  }

  function DoCommitRuling(w: World, p: nat): World {
    var pc := PcOf(w, p);
    if pc.Ruling? && w.current == pc.revision && w.status == pc.previous then
      At(w, p, Idle).(
        status := Ruled(pc.verdict), approvals := w.approvals + [Approval(pc.revision, pc.hash, Internal, pc.verdict)],
        grants := if pc.verdict == Approve then w.grants else RevokeWhere(w.grants, pc.revision, true))
    else At(w, p, Idle)
  }

  function Next(w: World, a: Act): World {
    match a
    case NewRevision(revision, hash) => DoRevise(w, revision, hash)
    case Tick(n) => w.(clock := w.clock + n)
    case Verify(gid, otpOk) => DoVerify(w, gid, otpOk)
    case Revoke(gid) => DoRevoke(w, gid)
    case OpenDecision(p, gid) => DoOpenDecision(w, p, gid)
    case Examine(p, verdict, governed) => DoExamine(w, p, verdict, governed)
    case CommitDecision(p) => DoCommitDecision(w, p)
    case OpenGrant(p, revision) => DoOpenGrant(w, p, revision)
    case CommitGrant(p, gid) => DoCommitGrant(w, p, gid)
    case OpenRuling(p, revision, verdict, governed) => DoOpenRuling(w, p, revision, verdict, governed)
    case CommitRuling(p) => DoCommitRuling(w, p)
  }

  const START := World(Preparing, 0, map[], map[], [], [], 0, map[])

  // ---------------------------------------------------------------- the invariant

  function ClientDecisions(approvals: seq<Approval>, revision: nat): nat {
    if approvals == [] then 0
    else var last := approvals[|approvals| - 1];
      ClientDecisions(approvals[..|approvals| - 1], revision)
      + if last.stage == Client && last.revision == revision then 1 else 0
  }

  function SnapshotsOf(snapshots: seq<Snapshot>, revision: nat): nat {
    if snapshots == [] then 0
    else
      var last := snapshots[|snapshots| - 1];
      SnapshotsOf(snapshots[..|snapshots| - 1], revision) + if last.revision == revision then 1 else 0
  }

  /** A revision the client has decided is closed: not current, or its submission no longer open. */
  ghost predicate RevisionOk(w: World, r: nat) {
    && ClientDecisions(w.approvals, r) <= 1 && SnapshotsOf(w.snapshots, r) <= ClientDecisions(w.approvals, r)
    && (ClientDecisions(w.approvals, r) > 0 ==> r in w.revisions && (r == w.current ==> !Open(w.status)))
  }

  /** The grant is bound to its revision's hash, which passed internal review; a decided grant was
      verified, never revoked and decided before it expired. */
  ghost predicate GrantOk(w: World, g: Grant) {
    && Cleared(w, g.subject, g.hash)
    && (g.decidedAt.Some? ==> g.verified && !g.revoked && g.decidedAt.value < g.expires)
  }

  ghost predicate Cleared(w: World, revision: nat, hash: string) {
    revision in w.revisions && w.revisions[revision] == hash && InternallyCleared(w.approvals, revision, hash)
  }

  /** The snapshot rests on a decided grant for the same revision and hash. */
  ghost predicate SnapshotOk(w: World, s: Snapshot) {
    && s.grantId in w.grants
    && var g := w.grants[s.grantId];
    && g.subject == s.revision && g.hash == s.hash && g.decidedAt.Some?
  }

  /** A grant held by a command is verified and undecided, and the stored one differs at most in
      having been decided or revoked since. */
  ghost predicate HeldOk(w: World, gid: nat, g: Grant) {
    && g.verified && g.decidedAt.None? && !g.revoked
    && gid in w.grants && g == w.grants[gid].(decidedAt := None, revoked := false)
  }

  ghost predicate PcOk(w: World, pc: Pc) {
    match pc
    case Idle => true
    case Authorised(gid, g) => HeldOk(w, gid, g)
    case Deciding(gid, g, verdict, at) => HeldOk(w, gid, g)
    case Granting(revision, hash, at) => Cleared(w, revision, hash)
    case Ruling(revision, hash, previous, verdict) =>
      revision in w.revisions && w.revisions[revision] == hash && Open(previous)
  }

  ghost predicate Inv(w: World) {
    && (w.status == Preparing || w.current in w.revisions)
    && (forall r :: RevisionOk(w, r))
    && (forall g :: g in w.grants ==> GrantOk(w, w.grants[g]))
    && (forall i :: 0 <= i < |w.snapshots| ==> SnapshotOk(w, w.snapshots[i]))
    && (forall p :: p in w.commands ==> PcOk(w, w.commands[p]))
  }

  // ---------------------------------------------------------------- every step keeps it

  /** Stored grants are never rebound, unverified or, once decided, changed. */
  ghost predicate GrantStep(g: Grant, h: Grant) {
    && h == g.(verified := h.verified, decidedAt := h.decidedAt, revoked := h.revoked)
    && (g.verified ==> h.verified) && (g.decidedAt.Some? ==> h == g)
    && (h.decidedAt.Some? && g.decidedAt.None? ==> h.verified && !h.revoked && h.decidedAt.value < h.expires)
  }

  /** Revisions, approvals and snapshots only accumulate. */
  ghost predicate Extends(w: World, t: World) {
    && (forall r :: r in w.revisions ==> r in t.revisions && t.revisions[r] == w.revisions[r])
    && w.approvals <= t.approvals && w.snapshots <= t.snapshots
    && (forall g :: g in w.grants ==> g in t.grants && GrantStep(w.grants[g], t.grants[g]))
  }

  lemma ClearedFrame(w: World, t: World, revision: nat, hash: string)
    requires Extends(w, t) && Cleared(w, revision, hash)
    ensures Cleared(t, revision, hash)
  {
    var i :| 0 <= i < |w.approvals| && InternalApproval(w.approvals[i], revision, hash);
    assert t.approvals[i] == w.approvals[i];
  }

  lemma PcFrame(w: World, t: World, pc: Pc)
    requires Extends(w, t) && PcOk(w, pc)
    ensures PcOk(t, pc)
  {
    if pc.Granting? { ClearedFrame(w, t, pc.revision, pc.hash); }
  }

  lemma GrantFrame(w: World, t: World, g: nat)
    requires Extends(w, t) && g in w.grants && GrantOk(w, w.grants[g])
    ensures GrantOk(t, t.grants[g])
  {
    ClearedFrame(w, t, w.grants[g].subject, w.grants[g].hash);
  }

  /** What a step must still show once it only extends the record. */
  lemma KeepInv(w: World, t: World)
    requires Inv(w) && Extends(w, t) && (t.status == Preparing || t.current in t.revisions)
    requires forall r :: RevisionOk(t, r)
    requires forall g :: g in t.grants && g !in w.grants ==> GrantOk(t, t.grants[g])
    requires forall i :: |w.snapshots| <= i < |t.snapshots| ==> SnapshotOk(t, t.snapshots[i])
    requires forall p :: p in t.commands ==>
               (p in w.commands && t.commands[p] == w.commands[p]) || PcOk(t, t.commands[p])
    ensures Inv(t)
  {
    hide RevisionOk, GrantOk, PcOk;
    forall g | g in t.grants ensures GrantOk(t, t.grants[g]) {
      if g in w.grants { GrantFrame(w, t, g); }
    }
    forall i | 0 <= i < |t.snapshots| ensures SnapshotOk(t, t.snapshots[i]) {
      if i < |w.snapshots| { assert t.snapshots[i] == w.snapshots[i] && SnapshotOk(w, w.snapshots[i]); }
    }
    forall p | p in t.commands ensures PcOk(t, t.commands[p]) {
      if p in w.commands && t.commands[p] == w.commands[p] { PcFrame(w, t, w.commands[p]); }
    }
  }

  /** A step that changes no approval and no snapshot, and reopens nothing decided. */
  lemma QuietRevisions(w: World, t: World)
    requires Inv(w) && Extends(w, t) && t.approvals == w.approvals && t.snapshots == w.snapshots
    requires (t.current == w.current && (Open(t.status) ==> Open(w.status))) || t.current !in w.revisions
    ensures forall r :: RevisionOk(t, r)
  {
    forall r ensures RevisionOk(t, r) { assert RevisionOk(w, r); }
  }

  lemma ReviseKeeps(w: World, revision: nat, hash: string)
    requires Inv(w)
    ensures Inv(DoRevise(w, revision, hash))
  {
    var t := DoRevise(w, revision, hash);
    assert Extends(w, t) by {
      forall g | g in w.grants
        ensures g in t.grants && GrantStep(w.grants[g], t.grants[g])
      {
        assert GrantOk(w, w.grants[g]);
      }
    }
    hide Extends, PcOk, GrantOk, SnapshotOk, RevisionOk;
    QuietRevisions(w, t);
    KeepInv(w, t);
  }

  lemma VerifyKeeps(w: World, gid: nat, otpOk: bool)
    requires Inv(w)
    ensures Inv(DoVerify(w, gid, otpOk)) && Inv(DoRevoke(w, gid))
  {
    var t, u := DoVerify(w, gid, otpOk), DoRevoke(w, gid);
    assert Extends(w, t) && Extends(w, u);
    hide Extends, PcOk, GrantOk, SnapshotOk, RevisionOk;
    QuietRevisions(w, t);
    QuietRevisions(w, u);
    KeepInv(w, t);
    KeepInv(w, u);
  }

  /** Reads change only what the command holds. */
  lemma ReadKeeps(w: World, p: nat, pc: Pc)
    requires Inv(w) && PcOk(w, pc)
    ensures Inv(At(w, p, pc))
  {
    var t := At(w, p, pc);
    assert Extends(w, t);
    PcFrame(w, t, pc);
    hide Extends, PcOk, GrantOk, SnapshotOk, RevisionOk;
    QuietRevisions(w, t);
    KeepInv(w, t);
  }

  lemma OpeningsKeep(w: World, a: Act)
    requires Inv(w) && (a.OpenDecision? || a.Examine? || a.OpenGrant? || a.OpenRuling?)
    ensures Inv(Next(w, a))
  {
    hide RevisionOk, SnapshotOk, InternallyCleared;
    ReadKeeps(w, a.p, Idle);
    match a
    case OpenDecision(q, gid) =>
      if gid in w.grants && !w.grants[gid].revoked && w.grants[gid].verified && w.grants[gid].decidedAt.None? {
        ReadKeeps(w, q, Authorised(gid, w.grants[gid]));
      }
    case Examine(q, verdict, governed) =>
      var pc := PcOf(w, q);
      if pc.Authorised? { ReadKeeps(w, q, Deciding(pc.gid, pc.grant, verdict, w.clock)); }
    case OpenGrant(q, revision) =>
      if revision in w.revisions && InternallyCleared(w.approvals, revision, w.revisions[revision]) {
        ReadKeeps(w, q, Granting(revision, w.revisions[revision], w.clock));
      }
    case OpenRuling(q, revision, verdict, governed) =>
      if revision in w.revisions && Open(w.status) {
        ReadKeeps(w, q, Ruling(revision, w.revisions[revision], w.status, verdict));
      }
  }

  lemma CommitGrantKeeps(w: World, p: nat, gid: nat)
    requires Inv(w)
    ensures Inv(DoCommitGrant(w, p, gid))
  {
    hide RevisionOk, SnapshotOk, InternallyCleared;
    var t := DoCommitGrant(w, p, gid);
    var pc := PcOf(w, p);
    assert Extends(w, t);
    assert PcOk(w, pc);
    if t != At(w, p, Idle) {
      ClearedFrame(w, t, pc.revision, pc.hash);
      QuietRevisions(w, t);
      assert GrantOk(t, t.grants[gid]);
      hide Extends, PcOk, GrantOk;
      KeepInv(w, t) by { IdleOk(t); }
    } else {
      ReadKeeps(w, p, Idle);
    }
  }

  lemma IdleOk(t: World)
    ensures PcOk(t, Idle)
  {
  }

  lemma OneMore(approvals: seq<Approval>, a: Approval, r: nat)
    ensures ClientDecisions(approvals + [a], r)
            == ClientDecisions(approvals, r) + if a.stage == Client && a.revision == r then 1 else 0
  {
    assert (approvals + [a])[..|approvals|] == approvals;
  }

  lemma OneMoreSnapshot(snapshots: seq<Snapshot>, s: Snapshot, r: nat)
    ensures SnapshotsOf(snapshots + [s], r) == SnapshotsOf(snapshots, r) + if s.revision == r then 1 else 0
  {
    assert (snapshots + [s])[..|snapshots|] == snapshots;
  }

  lemma CommitRulingKeeps(w: World, p: nat)
    requires Inv(w)
    ensures Inv(DoCommitRuling(w, p))
  {
    hide ClientDecisions, SnapshotsOf, SnapshotOk, InternallyCleared;
    var t := DoCommitRuling(w, p);
    var pc := PcOf(w, p);
    assert PcOk(w, pc);
    if t == At(w, p, Idle) {
      ReadKeeps(w, p, Idle);
    } else {
      assert Extends(w, t) by {
        forall g | g in w.grants
          ensures g in t.grants && GrantStep(w.grants[g], t.grants[g])
        {
          assert GrantOk(w, w.grants[g]);
        }
      }
      forall r ensures RevisionOk(t, r) {
        assert RevisionOk(w, r);
        OneMore(w.approvals, t.approvals[|w.approvals|], r);
      }
      hide Extends, PcOk, GrantOk, RevisionOk;
      KeepInv(w, t) by { IdleOk(t); }
    }
  }

  lemma CommitDecisionKeeps(w: World, p: nat)
    requires Inv(w)
    ensures Inv(DoCommitDecision(w, p))
  {
    var t := DoCommitDecision(w, p);
    var pc := PcOf(w, p);
    assert PcOk(w, pc);
    if !MayDecide(w, pc) {
      ReadKeeps(w, p, Idle);
    } else {
      DecisionExtends(w, p);
      forall r ensures RevisionOk(t, r) { DecidedRevision(w, p, r); }
      hide Extends, PcOk, GrantOk, RevisionOk, Inv;
      assert t.current in t.revisions && t.status != Preparing by { DecidedRow(w, p); }
      KeepInv(w, t) by { IdleOk(t); }
    }
  }

  lemma DecidedRow(w: World, p: nat)
    requires Inv(w) && MayDecide(w, PcOf(w, p))
    ensures var t := DoCommitDecision(w, p); t.current in t.revisions && t.status != Preparing
  {
  }

  lemma DecisionExtends(w: World, p: nat)
    requires Inv(w) && MayDecide(w, PcOf(w, p))
    ensures Extends(w, DoCommitDecision(w, p))
  {
    hide RevisionOk, SnapshotOk, InternallyCleared;
    assert PcOk(w, PcOf(w, p));
  }

  /** The decided revision was open, so undecided; now it is decided and closed. */
  lemma DecidedRevision(w: World, p: nat, r: nat)
    requires Inv(w) && MayDecide(w, PcOf(w, p))
    ensures RevisionOk(DoCommitDecision(w, p), r)
  {
    var t, pc := DoCommitDecision(w, p), PcOf(w, p);
    assert RevisionOk(w, r);
    hide ClientDecisions, SnapshotsOf, SnapshotOk, GrantOk, PcOk;
    OneMore(w.approvals, Approval(pc.grant.subject, pc.grant.hash, Client, pc.verdict), r);
    if pc.verdict == Approve {
      OneMoreSnapshot(w.snapshots, Snapshot(pc.grant.subject, pc.grant.hash, pc.gid), r);
    } else {
      assert w.snapshots + [] == w.snapshots;
    }
  }

  lemma NextKeepsInv(w: World, a: Act)
    requires Inv(w)
    ensures Inv(Next(w, a))
  {
    hide Inv, DoRevise, DoVerify, DoRevoke, DoOpenDecision, DoExamine, DoCommitDecision, DoOpenGrant, DoCommitGrant,
         DoOpenRuling, DoCommitRuling;
    match a
    case NewRevision(revision, hash) => ReviseKeeps(w, revision, hash);
    case Tick(n) => TickKeeps(w, n);
    case Verify(gid, otpOk) => VerifyKeeps(w, gid, otpOk);
    case Revoke(gid) => VerifyKeeps(w, gid, true);
    case CommitDecision(p) => CommitDecisionKeeps(w, p);
    case CommitGrant(p, gid) => CommitGrantKeeps(w, p, gid);
    case CommitRuling(p) => CommitRulingKeeps(w, p);
    case _ => OpeningsKeep(w, a);
  }

  lemma TickKeeps(w: World, n: nat)
    requires Inv(w)
    ensures Inv(w.(clock := w.clock + n))
  {
    var t := w.(clock := w.clock + n);
    assert Extends(w, t);
    hide Extends, PcOk, GrantOk, SnapshotOk, RevisionOk;
    QuietRevisions(w, t);
    KeepInv(w, t);
  }

  lemma RunKeepsInv(schedule: seq<Act>)
    ensures Inv(Run(Next, START, schedule))
  {
    assert Inv(START);
    hide Inv;
    forall w: World, a: Act | Inv(w) ensures Inv(Next(w, a)) { NextKeepsInv(w, a); }
    RunInvariant(Next, (w: World) => Inv(w), START, schedule);
  }

  // ---------------------------------------------------------------- what every run guarantees

  /** Each revision receives at most one client decision and at most one snapshot. */
  lemma OneClientDecision(schedule: seq<Act>, revision: nat)
    ensures var w := Run(Next, START, schedule);
            SnapshotsOf(w.snapshots, revision) <= ClientDecisions(w.approvals, revision) <= 1
  {
    RunKeepsInv(schedule);
    assert RevisionOk(Run(Next, START, schedule), revision);
  }

  /** At the moment a snapshot is minted its revision is the current one, in client review, with
      the grant still undecided and unrevoked, although all of it was read earlier. */
  lemma MintedForTheCurrentRevision(schedule: seq<Act>, a: Act)
    ensures var w := Run(Next, START, schedule);
            var t := Next(w, a);
            t.snapshots != w.snapshots ==>
              && a.CommitDecision? && |t.snapshots| == |w.snapshots| + 1 && w.snapshots <= t.snapshots
              && var s := t.snapshots[|w.snapshots|];
              && s.revision == w.current && w.status == ClientReview && Cleared(w, s.revision, s.hash)
              && s.grantId in w.grants && w.grants[s.grantId].verified && !w.grants[s.grantId].revoked
              && w.grants[s.grantId].decidedAt.None?
  {
    RunKeepsInv(schedule);
    var w := Run(Next, START, schedule);
    if a.CommitDecision? && MayDecide(w, PcOf(w, a.p)) {
      assert PcOk(w, PcOf(w, a.p));
      assert GrantOk(w, w.grants[PcOf(w, a.p).gid]);
    }
  }
}
