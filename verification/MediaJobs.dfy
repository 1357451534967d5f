/** The media generation job: one row guarded by RowVersion, raced by any number of worker
    invocations, cost approvals, cancellations and submit reconciliations.

    Every operation is a program counter that touches shared state (the job row, the attempt
    table, the provider) at most once per step, so a schedule of steps is an interleaving.
    Foreign calls answer with a Choice; an operation may also stop dead after any step. */
module MediaJobs {
  import opened Wrappers
  import opened Schedules

  datatype State =
    | Draft | AwaitingCostApproval | BudgetBlocked | Queued | Submitting | Submitted | Generating
    | Downloading | Validating | RetryWait | RetryableFailed | OutputInvalid | AwaitingExternal
    | Succeeded | Failed | Cancelled

  /** The row's transition table, enforced by the store on every guarded save. */
  predicate CanTransition(from: State, to: State) {
    from == to ||
    match from
    case Draft => to in {AwaitingCostApproval, Queued, BudgetBlocked, AwaitingExternal, Cancelled}
    case AwaitingCostApproval => to in {Queued, BudgetBlocked, Cancelled}
    case BudgetBlocked => to in {AwaitingCostApproval, Queued, Cancelled}
    case Queued => to in {Submitting, Cancelled}
    case Submitting => to in {Submitted, AwaitingExternal, RetryWait, RetryableFailed, Failed, Cancelled}
    case Submitted => to in {Generating, Downloading, AwaitingExternal, RetryWait, Failed, Cancelled}
    case Generating => to in {Downloading, AwaitingExternal, RetryWait, OutputInvalid, Failed, Cancelled}
    case Downloading => to in {Validating, RetryWait, OutputInvalid, Failed}
    case Validating => to in {Succeeded, OutputInvalid, RetryWait, Failed}
    case RetryWait => to in {Queued, RetryableFailed, Cancelled}
    case RetryableFailed => to in {Queued, Failed, Cancelled}
    case OutputInvalid => to in {Queued, Failed, Cancelled}
    case AwaitingExternal => to in {Generating, Downloading, Cancelled, Failed}
    case _ => false
  }

  /** The states in which the provider has not been asked for anything yet. */
  predicate PreSubmission(s: State) {
    s in {Draft, AwaitingCostApproval, BudgetBlocked, RetryWait, Queued}
  }

  datatype Job = Job(
    state: State, version: int, attemptCount: int, maxAttempts: int, actualCost: int,
    cancelRequested: bool, managed: bool, effectBound: bool)

  predicate ValidJob(j: Job) {
    && 1 <= j.version && 1 <= j.maxAttempts && 0 <= j.attemptCount <= j.maxAttempts
    && 0 <= j.actualCost && (j.effectBound ==> j.managed)
  }

  /** SaveMediaGenerationJob: refused unless valid, unraced and allowed by the table. */
  function Save(row: Job, value: Job): Option<Job> {
    if ValidJob(value) && row.version == value.version && CanTransition(row.state, value.state)
    then Some(value.(version := value.version + 1))
    else None
  }

  datatype Attempt = Attempt(externalId: string, cost: int)

  datatype Terminal = Completed | ProviderFailed | ProviderCancelled

  /** The guarded row writes of the file. */
  datatype Write =
    | Requeue | Fail | Resume | Claim | BindEffect | AwaitProvider | MarkSubmitted | MarkGenerating
    | SettleCost(kind: Terminal, cost: int) | ConfirmCancel | Download(cost: int) | Validate(cost: int)
    | Succeed(cost: int) | Approve | Cancel | CancelUnknown | Reconcile

  /** The value each write saves, computed from the operation's own copy of the row. */
  function Target(j: Job, w: Write): Job {
    match w
    case Requeue => j.(state := Queued)
    case Fail => j.(state := Failed)
    case Resume => j.(state := Generating)
    case Claim => j.(state := Submitting, attemptCount := j.attemptCount + 1)
    case BindEffect => j.(state := Submitting, effectBound := true)
    case AwaitProvider => j.(state := AwaitingExternal)
    case MarkSubmitted => j.(state := Submitted)
    case MarkGenerating => j.(state := Generating)
    case SettleCost(_, cost) => j.(actualCost := cost)
    case ConfirmCancel => j.(state := Cancelled)
    case Download(_) => j.(state := Downloading)
    case Validate(_) => j.(state := Validating)
    case Succeed(cost) => j.(state := Succeeded, actualCost := cost)
    case Approve => j.(state := Queued)
    case Cancel => j.(state := Cancelled, cancelRequested := true)
    case CancelUnknown => j.(state := AwaitingExternal, cancelRequested := true)
    case Reconcile => j
  }

  datatype Op =
    | Process | ApproveCost(expected: int) | CancelJob(expected: int)
    | ReconcileSubmit(expected: int, externalId: string)

  datatype Pc =
    | Begin(op: Op)
    | Preflight(job: Job)
    | LoadAttempts(job: Job)
    | CreateAttempt(job: Job)
    | RegisterEffect(job: Job, attempt: Attempt, at: nat)
    | Submit(job: Job, attempt: Attempt, at: nat)
    | Poll(job: Job, attempt: Attempt, at: nat)
    | Output(job: Job, attempt: Attempt, at: nat, cost: int)
    | CancelLoad(job: Job)
    | CancelCall(job: Job, attempt: Attempt, at: nat)
    | ReconcileLoad(job: Job, externalId: string)
    | SaveThenWrite(job: Job, attempt: Attempt, at: nat, write: Write)
    | Guarded(job: Job, attempt: Attempt, at: nat, write: Write)
    | SaveAndStop(attempt: Attempt, at: nat)
    | Stopped

  const NO_ATTEMPT := Attempt("", 0)

  datatype Choice =
    | Ok | Err | Unavailable
    | SubmitOk(externalId: string) | SubmitRejected | SubmitUnknown
    | StatusUnknown | StatusPending | StatusTerminal(kind: Terminal, cost: int)

  datatype Action = Start(p: nat, op: Op) | Step(p: nat, choice: Choice) | Crash(p: nat)

  /** A terminal provider answer. */
  datatype Answer = Answer(kind: Terminal, cost: int)

  /** What has happened so far, and which operation each process runs; no operation reads it. */
  datatype History = History(
    submits: nat, claimant: Option<nat>, accepted: seq<Answer>, writes: nat, ops: map<nat, Op>)

  datatype World = World(row: Job, attempts: seq<Attempt>, procs: map<nat, Pc>, history: History)

  ghost predicate Initial(w: World) {
    && ValidJob(w.row) && PreSubmission(w.row.state) && w.row.attemptCount == 0
    && w.attempts == [] && w.procs == map[]
    && w.history == History(0, None, [], 0, map[])
  }

  function Goto(w: World, p: nat, pc: Pc): World {
    w.(procs := w.procs[p := pc])
  }

  /** The identifier an operator may bind to an unknown submission. */
  predicate ValidExternalId(id: string) {
    0 < |id| <= 256 && '/' !in id && '?' !in id && '#' !in id
  }

  /** Reading the row: MediaGenerationJob followed by the operation's own checks. */
  function AfterRead(row: Job, op: Op): Pc {
    match op
    case Process =>
      if row.state == RetryWait then Guarded(row, NO_ATTEMPT, 0, Requeue)
      else if row.state == Queued || row.state == AwaitingExternal then Preflight(row)
      else Stopped
    case ApproveCost(expected) =>
      if expected == row.version && row.state in {AwaitingCostApproval, BudgetBlocked}
      then Guarded(row, NO_ATTEMPT, 0, Approve) else Stopped
    case CancelJob(expected) =>
      if expected == row.version && CanTransition(row.state, Cancelled) then CancelLoad(row) else Stopped
    case ReconcileSubmit(expected, externalId) =>
      if expected == row.version && row.state == AwaitingExternal && ValidExternalId(externalId)
      then ReconcileLoad(row, externalId) else Stopped
  }

  /** Where an operation goes once its guarded write has been accepted; j is the saved row. */
  function AfterWrite(j: Job, a: Attempt, at: nat, w: Write): Pc {
    match w
    case Requeue => Preflight(j)
    case Resume => Poll(j, a, at)
    case Claim => CreateAttempt(j)
    case BindEffect => Submit(j, a, at)
    case MarkSubmitted => Guarded(j, a, at, MarkGenerating)
    case MarkGenerating => Poll(j, a, at)
    case SettleCost(kind, cost) =>
      if kind == Completed then Guarded(j, a, at, Download(cost))
      else if kind == ProviderCancelled && j.cancelRequested then SaveThenWrite(j, a, at, ConfirmCancel)
      else SaveThenWrite(j, a, at, Fail)
    case Download(cost) => Guarded(j, a, at, Validate(cost))
    case Validate(cost) => Output(j, a, at, cost)
    case CancelUnknown => SaveAndStop(a, at)
    case _ => Stopped
  }

  function Last(attempts: seq<Attempt>): Attempt requires attempts != [] { attempts[|attempts| - 1] }

  /** What one step that does not write the job row does: the next program point, the attempt
      table it leaves behind, and whether it called the provider's Submit. */
  datatype Effect = Effect(pc: Pc, attempts: seq<Attempt>, submitted: bool)

  function LocalEffect(row: Job, attempts: seq<Attempt>, pc: Pc, c: Choice): Effect {
    match pc
    case Begin(op) => Effect(AfterRead(row, op), attempts, false)
    case Preflight(job) =>
      Effect(if c != Ok then Guarded(job, NO_ATTEMPT, 0, Fail)
             else if job.state == AwaitingExternal then LoadAttempts(job)
             else Guarded(job, NO_ATTEMPT, 0, Claim), attempts, false)
    case LoadAttempts(job) =>
      Effect(if c != Ok || attempts == [] || Last(attempts).externalId == ""
             then Guarded(job, NO_ATTEMPT, 0, Fail)
             else Guarded(job, Last(attempts), |attempts| - 1, Resume), attempts, false)
    case CreateAttempt(job) =>
      if c != Ok then Effect(Guarded(job, NO_ATTEMPT, 0, Fail), attempts, false)
      else if job.managed then Effect(RegisterEffect(job, NO_ATTEMPT, |attempts|), attempts + [NO_ATTEMPT], false)
      else Effect(Submit(job, NO_ATTEMPT, |attempts|), attempts + [NO_ATTEMPT], false)
    case RegisterEffect(job, a, at) =>
      Effect(if c == Ok then SaveThenWrite(job, a, at, BindEffect) else Guarded(job, a, at, Fail), attempts, false)
    case Submit(job, a, at) =>
      Effect(match c
             case SubmitOk(id) => SaveThenWrite(job, a.(externalId := id), at, MarkSubmitted)
             case SubmitRejected => SaveThenWrite(job, a, at, Fail)
             case _ => SaveThenWrite(job, a, at, AwaitProvider), attempts, true)
    case Poll(job, a, at) =>
      Effect(match c
             case StatusTerminal(kind, cost) =>
               if cost < 0 then Stopped else SaveThenWrite(job, a.(cost := cost), at, SettleCost(kind, cost))
             case _ => SaveThenWrite(job, a, at, AwaitProvider), attempts, false)
    case Output(job, a, at, cost) =>
      Effect(if c == Ok then SaveThenWrite(job, a.(cost := cost), at, Succeed(cost))
             else Guarded(job, a, at, Fail), attempts, false)
    case CancelLoad(job) =>
      Effect(if c != Ok then Stopped
             else if attempts == [] || Last(attempts).externalId == "" then Guarded(job, NO_ATTEMPT, 0, Cancel)
             else CancelCall(job, Last(attempts), |attempts| - 1), attempts, false)
    case CancelCall(job, a, at) =>
      Effect(if c == Unavailable then Stopped
             else if c == Ok then SaveThenWrite(job, a, at, Cancel)
             else Guarded(job, a, at, CancelUnknown), attempts, false)
    case ReconcileLoad(job, id) =>
      Effect(if c != Ok || attempts == [] || Last(attempts).externalId != "" then Stopped
             else SaveThenWrite(job, Last(attempts).(externalId := id), |attempts| - 1, Reconcile), attempts, false)
    case SaveThenWrite(job, a, at, wr) =>
      if c == Ok && at < |attempts| then Effect(Guarded(job, a, at, wr), attempts[at := a], false)
      else Effect(Stopped, attempts, false)
    case SaveAndStop(a, at) =>
      Effect(Stopped, if c == Ok && at < |attempts| then attempts[at := a] else attempts, false)
    case _ => Effect(pc, attempts, false)
  }

  function LocalStep(w: World, p: nat, c: Choice): World
    requires p in w.procs
  {
    var e := LocalEffect(w.row, w.attempts, w.procs[p], c);
    World(w.row, e.attempts, w.procs[p := e.pc],
          if e.submitted then w.history.(submits := w.history.submits + 1) else w.history)
  }

  function Record(h: History, p: nat, wr: Write): History {
    var h' := h.(writes := h.writes + 1);
    match wr
    case Claim => h'.(claimant := Some(p))
    case SettleCost(kind, cost) => h'.(accepted := h.accepted + [Answer(kind, cost)])
    case _ => h'
  }

  /** A guarded write: accepted exactly when the operation's copy still has the row's version
      and the table allows it; a refused write stops the operation. */
  function GuardedStep(w: World, p: nat): World
    requires p in w.procs && w.procs[p].Guarded?
  {
    var Guarded(job, a, at, wr) := w.procs[p];
    match Save(w.row, Target(job, wr))
    case None => Goto(w, p, Stopped)
    case Some(saved) =>
      World(saved, w.attempts, w.procs[p := AfterWrite(saved, a, at, wr)], Record(w.history, p, wr))
  }

  function Next(w: World, action: Action): World {
    match action
    case Start(p, op) =>
      if p in w.procs then w
      else World(w.row, w.attempts, w.procs[p := Begin(op)], w.history.(ops := w.history.ops[p := op]))
    case Crash(p) => if p in w.procs then Goto(w, p, Stopped) else w
    case Step(p, c) =>
      if p !in w.procs then w
      else if w.procs[p].Guarded? then GuardedStep(w, p)
      else LocalStep(w, p, c)
  }

  // ---------------------------------------------------------------- the inductive invariant

  function CopyOf(pc: Pc): Option<Job> {
    match pc
    case Begin(_) => None
    case SaveAndStop(_, _) => None
    case Stopped => None
    case _ => Some(pc.job)
  }

  /** A copy is older than the row, or it is the row. */
  ghost predicate Current(copy: Job, row: Job) {
    copy.version <= row.version && (copy.version == row.version ==> copy == row)
  }

  /** What a pending write knows about the copy it was computed from. */
  predicate WriteReady(j: Job, w: Write) {
    match w
    case Requeue => j.state == RetryWait
    case Claim => j.state == Queued
    case BindEffect => j.state == Submitting && j.managed
    case SettleCost(_, cost) => j.state == Generating && 0 <= cost
    case Download(cost) => j.actualCost == cost
    case Validate(cost) => j.actualCost == cost
    case Succeed(cost) => j.actualCost == cost
    case Approve => j.state in {AwaitingCostApproval, BudgetBlocked}
    case Reconcile => j.state == AwaitingExternal
    case _ => true
  }

  predicate PcReady(pc: Pc) {
    match pc
    case Preflight(job) => job.state in {Queued, AwaitingExternal}
    case CreateAttempt(job) => job.state == Submitting
    case RegisterEffect(job, _, _) => job.state == Submitting && job.managed
    case Poll(job, _, _) => job.state == Generating
    case Output(job, _, _, cost) => job.actualCost == cost
    case ReconcileLoad(job, _) => job.state == AwaitingExternal
    case SaveThenWrite(job, _, _, wr) => WriteReady(job, wr)
    case Guarded(job, _, _, wr) => WriteReady(job, wr)
    case _ => true
  }

  /** Between winning the claim and calling the provider. */
  predicate BeforeSubmit(pc: Pc) {
    match pc
    case CreateAttempt(_) => true
    case RegisterEffect(_, _, _) => true
    case Submit(_, _, _) => true
    case SaveThenWrite(_, _, _, wr) => wr == BindEffect
    case Guarded(_, _, _, wr) => wr == BindEffect
    case _ => false
  }

  ghost predicate ProcOk(w: World, p: nat, pc: Pc) {
    && (CopyOf(pc).Some? ==> Current(CopyOf(pc).value, w.row))
    && PcReady(pc)
    && (BeforeSubmit(pc) ==> w.history.claimant == Some(p) && w.history.submits == 0)
    && (BeforeSubmit(pc) ==> |w.attempts| == if pc.CreateAttempt? then 0 else 1)
  }

  ghost predicate Inv(w: World) {
    RowOk(w) && forall p :: p in w.procs ==> ProcOk(w, p, w.procs[p])
  }

  ghost predicate RowOk(w: World) {
    var h := w.history;
    && ValidJob(w.row)
    && (PreSubmission(w.row.state) ==> h.claimant.None?)
    && (h.claimant.None? ==> h.submits == 0 && w.attempts == [])
    && h.submits <= |w.attempts| <= 1
    && w.row.attemptCount == (if h.claimant.None? then 0 else 1)
    && (forall a :: a in h.accepted ==> 0 <= a.cost)
    && (h.accepted != [] ==> w.row.actualCost == h.accepted[|h.accepted| - 1].cost)
  }

  /** A step elsewhere cannot disturb an operation that is not holding the claim. */
  lemma OtherProcOk(w: World, w': World, q: nat, pc: Pc)
    requires ProcOk(w, q, pc)
    requires w'.row == w.row || w.row.version < w'.row.version
    requires BeforeSubmit(pc) ==>
               w'.history.claimant == w.history.claimant && w'.history.submits == w.history.submits
               && |w'.attempts| == |w.attempts|
    ensures ProcOk(w', q, pc)
  {
  }

  lemma LocalEffectOk(w: World, p: nat, pc: Pc, c: Choice)
    requires ProcOk(w, p, pc) && !pc.Guarded?
    ensures var e := LocalEffect(w.row, w.attempts, pc, c);
            && (CopyOf(e.pc).Some? ==> Current(CopyOf(e.pc).value, w.row))
            && PcReady(e.pc)
            && (BeforeSubmit(e.pc) ==> BeforeSubmit(pc) && |e.attempts| == if e.pc.CreateAttempt? then 0 else 1)
            && (e.submitted ==> pc.Submit? && !BeforeSubmit(e.pc))
            && |e.attempts| == |w.attempts| + (if pc.CreateAttempt? && c == Ok then 1 else 0)
  {
  }

  lemma LocalStepKeepsInv(w: World, p: nat, c: Choice)
    requires Inv(w) && p in w.procs && !w.procs[p].Guarded?
    ensures Inv(LocalStep(w, p, c))
  {
    var w' := LocalStep(w, p, c);
    var pc := w.procs[p];
    assert ProcOk(w, p, pc);
    LocalEffectOk(w, p, pc, c);
    forall q | q in w'.procs ensures ProcOk(w', q, w'.procs[q]) {
      if q != p {
        assert ProcOk(w, q, w.procs[q]);
        OtherProcOk(w, w', q, w.procs[q]);
      }
    }
  }

  /** An accepted write was computed from the current row, and only a claim starts a submission. */
  lemma AcceptedWrite(w: World, p: nat, pc: Pc)
    requires Inv(w) && ProcOk(w, p, pc) && pc.Guarded? && Save(w.row, Target(pc.job, pc.write)).Some?
    ensures pc.job == w.row
    ensures var saved := Save(w.row, Target(pc.job, pc.write)).value;
            && ValidJob(saved) && saved.version == w.row.version + 1
            && saved == Target(pc.job, pc.write).(version := pc.job.version + 1)
            && (PreSubmission(saved.state) ==> PreSubmission(w.row.state))
            && (!pc.write.SettleCost? ==> saved.actualCost == w.row.actualCost)
            && saved.attemptCount == w.row.attemptCount + (if pc.write.Claim? then 1 else 0)
            && (pc.write.Claim? ==> PreSubmission(w.row.state) && !PreSubmission(saved.state))
  {
    hide CanTransition;
  }

  lemma AcceptedContinues(j: Job, a: Attempt, at: nat, wr: Write)
    requires WriteReady(j, wr)
    ensures var saved := Target(j, wr).(version := j.version + 1);
            var next := AfterWrite(saved, a, at, wr);
            && PcReady(next)
            && (CopyOf(next).Some? ==> CopyOf(next).value == saved)
            && (BeforeSubmit(next) ==> wr.Claim? || wr.BindEffect?)
            && (next.CreateAttempt? ==> wr.Claim?)
  {
  }

  lemma StoppedOk(w: World, p: nat)
    ensures ProcOk(w, p, Stopped)
  {
  }

  /** The row and the writer itself after an accepted write. */
  lemma AcceptedStep(w: World, p: nat)
    requires Inv(w) && p in w.procs && w.procs[p].Guarded?
    requires Save(w.row, Target(w.procs[p].job, w.procs[p].write)).Some?
    ensures var w', wr := GuardedStep(w, p), w.procs[p].write;
            && RowOk(w') && ProcOk(w', p, w'.procs[p]) && w.row.version < w'.row.version && w'.attempts == w.attempts
            && w'.history.submits == w.history.submits
            && (w'.history.claimant == w.history.claimant || w.history.claimant.None?)
  {
    AcceptedRow(w, p);
    AcceptedProc(w, p);
  }

  lemma AcceptedRow(w: World, p: nat)
    requires Inv(w) && p in w.procs && w.procs[p].Guarded?
    requires Save(w.row, Target(w.procs[p].job, w.procs[p].write)).Some?
    ensures var w' := GuardedStep(w, p);
            && RowOk(w') && w.row.version < w'.row.version && w'.attempts == w.attempts
            && w'.history.submits == w.history.submits
            && (w'.history.claimant == w.history.claimant || w.history.claimant.None?)
  {
    hide AfterWrite, WriteReady, PcReady, CopyOf, BeforeSubmit;
    var pc := w.procs[p];
    assert ProcOk(w, p, pc);
    AcceptedWrite(w, p, pc);
    hide Target, Save, CanTransition;
  }

  lemma AcceptedProc(w: World, p: nat)
    requires Inv(w) && p in w.procs && w.procs[p].Guarded?
    requires Save(w.row, Target(w.procs[p].job, w.procs[p].write)).Some?
    ensures var w' := GuardedStep(w, p); ProcOk(w', p, w'.procs[p])
  {
    var pc := w.procs[p];
    assert ProcOk(w, p, pc);
    AcceptedWrite(w, p, pc);
    AcceptedContinues(pc.job, pc.attempt, pc.at, pc.write);
    hide AfterWrite, Target, WriteReady, Save, CanTransition, PcReady, CopyOf, ValidJob;
  }

  lemma GuardedStepKeepsInv(w: World, p: nat)
    requires Inv(w) && p in w.procs && w.procs[p].Guarded?
    ensures Inv(GuardedStep(w, p))
  {
    var w' := GuardedStep(w, p);
    var pc := w.procs[p];
    assert ProcOk(w, p, pc);
    hide AfterWrite, Target, WriteReady, Save, CanTransition, PcReady, CopyOf;
    if Save(w.row, Target(pc.job, pc.write)).Some? { AcceptedStep(w, p); } else { StoppedOk(w', p); }
    hide RowOk;
    forall q | q in w'.procs ensures ProcOk(w', q, w'.procs[q]) {
      if q != p {
        assert ProcOk(w, q, w.procs[q]);
        OtherProcOk(w, w', q, w.procs[q]);
      }
    }
  }

  lemma NextKeepsInv(w: World, action: Action)
    requires Inv(w)
    ensures Inv(Next(w, action))
  {
    match action
    case Step(p, c) =>
      if p in w.procs {
        if w.procs[p].Guarded? { GuardedStepKeepsInv(w, p); } else { LocalStepKeepsInv(w, p, c); }
      }
    case _ =>
      var w' := Next(w, action);
      forall q | q in w'.procs ensures ProcOk(w', q, w'.procs[q]) {
        if q in w.procs { assert ProcOk(w, q, w.procs[q]); }
      }
  }

  // ---------------------------------------------------------------- the theorems, over every schedule

  lemma RunKeepsInv(w: World, schedule: seq<Action>)
    requires Inv(w)
    ensures Inv(Run(Next, w, schedule))
  {
    hide Next, Inv;
    forall v, a | Inv(v) ensures Inv(Next(v, a)) { NextKeepsInv(v, a); }
    RunInvariant(Next, Inv, w, schedule);
  }

  lemma RunFromInitial(w0: World, schedule: seq<Action>)
    requires Initial(w0)
    ensures Inv(Run(Next, w0, schedule))
  {
    RunKeepsInv(w0, schedule);
  }

  /** The provider's Submit is called at most once, only after an attempt was recorded, and only
      by the one operation that won the claim. */
  lemma SubmitAtMostOnce(w0: World, schedule: seq<Action>)
    requires Initial(w0)
    ensures var w := Run(Next, w0, schedule);
            && w.history.submits <= |w.attempts| <= w.row.attemptCount <= 1
            && (w.history.submits == 1 ==> w.history.claimant.Some? && !PreSubmission(w.row.state))
  {
    RunFromInitial(w0, schedule);
  }

  lemma NextStaysSubmitted(w: World, action: Action)
    requires Inv(w) && !PreSubmission(w.row.state)
    ensures !PreSubmission(Next(w, action).row.state)
    ensures w.history.submits <= Next(w, action).history.submits
  {
    if action.Step? && action.p in w.procs && w.procs[action.p].Guarded? {
      var pc := w.procs[action.p];
      assert ProcOk(w, action.p, pc);
      if Save(w.row, Target(pc.job, pc.write)).Some? { AcceptedWrite(w, action.p, pc); }
    }
  }

  lemma RunStaysSubmitted(w: World, schedule: seq<Action>)
    requires Inv(w) && !PreSubmission(w.row.state)
    ensures !PreSubmission(Run(Next, w, schedule).row.state)
    ensures w.history.submits <= Run(Next, w, schedule).history.submits
  {
    hide Next, Inv, PreSubmission;
    var inv := v => Inv(v) && !PreSubmission(v.row.state) && w.history.submits <= v.history.submits;
    forall v, a | inv(v) ensures inv(Next(v, a)) {
      NextKeepsInv(v, a);
      NextStaysSubmitted(v, a);
    }
    RunInvariant(Next, inv, w, schedule);
  }

  /** Once the row has left the pre-submission states no write brings it back, so a submit
      whose outcome is unknown is never sent again. */
  lemma NeverResubmitted(w0: World, before: seq<Action>, after: seq<Action>)
    requires Initial(w0) && !PreSubmission(Run(Next, w0, before).row.state)
    ensures !PreSubmission(Run(Next, w0, before + after).row.state)
    ensures Run(Next, w0, before).history.submits == 1 ==> Run(Next, w0, before + after).history.submits == 1
  {
    RunFromInitial(w0, before);
    RunFromInitial(w0, before + after);
    RunConcat(Next, w0, before, after);
    RunStaysSubmitted(Run(Next, w0, before), after);
  }

  lemma AcceptedGrows(w: World, schedule: seq<Action>)
    ensures w.history.accepted <= Run(Next, w, schedule).history.accepted
  {
    var inv := (v: World) => w.history.accepted <= v.history.accepted;
    forall v, a | inv(v) ensures inv(Next(v, a)) {
      assert v.history.accepted <= Next(v, a).history.accepted;
    }
    RunInvariant(Next, inv, w, schedule);
  }

  /** Terminal billing is kept: whatever happens after a terminal answer was accepted (failed
      download, validation, artifact or review, a cancellation, a crash), the row still carries
      the last accepted amount, which is never negative. */
  lemma AcceptedCostIsKept(w0: World, before: seq<Action>, after: seq<Action>)
    requires Initial(w0) && Run(Next, w0, before).history.accepted != []
    ensures var a := Run(Next, w0, before).history.accepted;
            var later := Run(Next, w0, before + after);
            && a <= later.history.accepted
            && (later.history.accepted == a ==>
                  later.row.actualCost == a[|a| - 1].cost == Run(Next, w0, before).row.actualCost)
            && 0 <= later.row.actualCost
  {
    RunFromInitial(w0, before);
    RunFromInitial(w0, before + after);
    RunConcat(Next, w0, before, after);
    AcceptedGrows(Run(Next, w0, before), after);
  }

  predicate IsTerminal(s: State) { s in {Succeeded, Failed, Cancelled} }

  lemma TerminalIsAbsorbing(w: World, schedule: seq<Action>)
    requires IsTerminal(w.row.state)
    ensures Run(Next, w, schedule).row.state == w.row.state
  {
    forall v: World, a | v.row.state == w.row.state ensures Next(v, a).row.state == w.row.state {
    }
    RunInvariant(Next, (v: World) => v.row.state == w.row.state, w, schedule);
  }

  /** The row's version counts accepted writes; the same version means the same row. */
  ghost predicate Since(w: World, v: World) {
    && v.row.version - w.row.version == v.history.writes - w.history.writes
    && w.row.version <= v.row.version && (v.row.version == w.row.version ==> v.row == w.row)
  }

  lemma VersionCountsWrites(w: World, schedule: seq<Action>)
    ensures Since(w, Run(Next, w, schedule))
  {
    forall v, a | Since(w, v) ensures Since(w, Next(v, a)) {
    }
    RunInvariant(Next, v => Since(w, v), w, schedule);
  }

  /** No action of the schedule is p's. */
  ghost predicate Others(schedule: seq<Action>, p: nat) {
    forall i :: 0 <= i < |schedule| ==> schedule[i].p != p
  }

  lemma {:induction false} OthersLeavePc(w: World, schedule: seq<Action>, p: nat)
    requires p in w.procs && Others(schedule, p)
    ensures p in Run(Next, w, schedule).procs && Run(Next, w, schedule).procs[p] == w.procs[p]
    decreases |schedule|
  {
    if schedule != [] {
      var w' := Next(w, schedule[0]);
      assert p in w'.procs && w'.procs[p] == w.procs[p];
      OthersLeavePc(w', schedule[1..], p);
    }
  }

  /** Whatever other operations do between a failed preflight and the write that follows it, the
      write marks the job failed exactly when the job was resuming an external result and its row
      has not moved; otherwise it changes nothing. The table has no queued-to-failed transition,
      so a queued job whose profile, adapter or request is unusable is never marked failed. */
  lemma PreflightFailure(w: World, p: nat, c: Choice, between: seq<Action>, c': Choice)
    requires Inv(w) && p in w.procs && w.procs[p].Preflight? && c != Ok && Others(between, p)
    ensures var job := w.procs[p].job;
            var v := Run(Next, Next(w, Step(p, c)), between);
            var v' := Next(v, Step(p, c'));
            && p in v'.procs && v'.procs[p] == Stopped
            && (v'.row == v.row.(state := Failed, version := v.row.version + 1)
                <==> job.version == v.row.version && job.state == AwaitingExternal)
            && (v'.row == v.row <==> !(job.version == v.row.version && job.state == AwaitingExternal))
  {
    hide Run, Inv;
    var w1 := Next(w, Step(p, c));
    assert w1.procs[p] == Guarded(w.procs[p].job, NO_ATTEMPT, 0, Fail);
    NextKeepsInv(w, Step(p, c));
    OthersLeavePc(w1, between, p);
    RunKeepsInv(w1, between);
    FailWrite(Run(Next, w1, between), p, w.procs[p].job, c') by { PreflightStates(w, p); }
  }

  lemma PreflightStates(w: World, p: nat)
    requires Inv(w) && p in w.procs && w.procs[p].Preflight?
    ensures w.procs[p].job.state in {Queued, AwaitingExternal}
  {
    assert ProcOk(w, p, w.procs[p]);
  }

  lemma FailWrite(v: World, p: nat, job: Job, c: Choice)
    requires Inv(v) && p in v.procs && v.procs[p] == Guarded(job, NO_ATTEMPT, 0, Fail)
    requires job.state in {Queued, AwaitingExternal}
    ensures var v' := Next(v, Step(p, c));
            var fails := job.version == v.row.version && job.state == AwaitingExternal;
            p in v'.procs && v'.procs[p] == Stopped
            && v'.row == if fails then v.row.(state := Failed, version := v.row.version + 1) else v.row
  {
    assert ProcOk(v, p, v.procs[p]);
  }

  /** From every initial queued row: a worker picks the job up, its preflight fails, its write is
      refused, and the row is still the queued one it started with. */
  lemma QueuedJobStaysQueued(w0: World, c: Choice)
    requires Initial(w0) && w0.row.state == Queued && c != Ok
    ensures var w := Run(Next, w0, [Start(0, Process), Step(0, Ok), Step(0, c), Step(0, Ok)]);
            w.row == w0.row && w.row.state == Queued && w.procs == map[0 := Stopped]
  {
    hide Run;
    RunFour(Next, w0, Start(0, Process), Step(0, Ok), Step(0, c), Step(0, Ok));
    var w2 := Next(Next(w0, Start(0, Process)), Step(0, Ok));
    assert w2.row == w0.row && w2.procs == map[0 := Preflight(w0.row)];
    var w3 := Next(w2, Step(0, c));
    assert w3.row == w0.row && w3.procs == map[0 := Guarded(w0.row, NO_ATTEMPT, 0, Fail)];
    assert Save(w0.row, Target(w0.row, Fail)).None?;
  }

  // ---------------------------------------------------------------- cancellation against a claimed submit

  /** An operation that will reach Submit without another look at the row. */
  predicate Committed(pc: Pc) {
    pc.Submit? || (pc.CreateAttempt? && !pc.job.managed)
  }

  ghost predicate Safe(w: World) {
    && Inv(w) && w.row.state == Cancelled && w.history.submits == 0
    && forall p :: p in w.procs ==> !Committed(w.procs[p])
  }

  lemma LocalNotCommitted(row: Job, attempts: seq<Attempt>, pc: Pc, c: Choice)
    requires !Committed(pc) && PcReady(pc)
    ensures var e := LocalEffect(row, attempts, pc, c); !Committed(e.pc) && !e.submitted
  {
  }

  lemma GuardedStaysSafe(w: World, p: nat)
    requires Safe(w) && p in w.procs && w.procs[p].Guarded?
    ensures Safe(GuardedStep(w, p))
  {
    GuardedStepKeepsInv(w, p);
    var pc := w.procs[p];
    assert ProcOk(w, p, pc);
    hide Inv, AfterWrite;
    if Save(w.row, Target(pc.job, pc.write)).Some? {
      AcceptedWrite(w, p, pc);
      AcceptedContinues(pc.job, pc.attempt, pc.at, pc.write);
    }
  }

  lemma LocalStaysSafe(w: World, p: nat, c: Choice)
    requires Safe(w) && p in w.procs && !w.procs[p].Guarded?
    ensures Safe(LocalStep(w, p, c))
  {
    LocalStepKeepsInv(w, p, c);
    assert ProcOk(w, p, w.procs[p]);
    hide LocalEffect, Inv;
    LocalNotCommitted(w.row, w.attempts, w.procs[p], c);
  }

  lemma NextStaysSafe(w: World, action: Action)
    requires Safe(w)
    ensures Safe(Next(w, action))
  {
    if action.Step? && action.p in w.procs {
      hide GuardedStep, LocalStep;
      if w.procs[action.p].Guarded? { GuardedStaysSafe(w, action.p); }
      else { LocalStaysSafe(w, action.p, action.choice); }
    } else {
      NextKeepsInv(w, action);
      hide Inv;
    }
  }

  lemma SafeNeverSubmits(w: World, schedule: seq<Action>)
    requires Safe(w)
    ensures Run(Next, w, schedule).history.submits == 0
  {
    hide Next;
    forall v, a | Safe(v) ensures Safe(Next(v, a)) { NextStaysSafe(v, a); }
    RunInvariant(Next, Safe, w, schedule);
  }

  lemma CommittedSubmits(w: World, p: nat) returns (schedule: seq<Action>)
    requires p in w.procs && Committed(w.procs[p])
    ensures Run(Next, w, schedule).history.submits == w.history.submits + 1
  {
    var s := Step(p, Ok);
    RunOne(Next, w, s);
    RunOne(Next, Next(w, s), s);
    RunConcat(Next, w, [s], [s]);
    schedule := if w.procs[p].Submit? then [s] else [s] + [s];
  }

  /** Cancelling does not always prevent a billable submit. After a committed cancellation the
      provider can still be called exactly when some worker had already passed its last look at
      the row. */
  lemma CancelledYetSubmitted(w: World)
    requires Inv(w) && w.row.state == Cancelled && w.history.submits == 0
    ensures (exists schedule :: Run(Next, w, schedule).history.submits == 1)
            <==> (exists p :: p in w.procs && Committed(w.procs[p]))
  {
    if p :| p in w.procs && Committed(w.procs[p]) {
      var schedule := CommittedSubmits(w, p);
      assert Run(Next, w, schedule).history.submits == 1;
    } else {
      forall schedule ensures Run(Next, w, schedule).history.submits == 0 { SafeNeverSubmits(w, schedule); }
    }
  }

  /** What the row tells the canceller: a cancellation committed while the row was in a
      pre-submission state is final. No later run calls the provider. */
  lemma CancelBeforeClaimIsFinal(w: World, action: Action, schedule: seq<Action>)
    requires Inv(w) && PreSubmission(w.row.state) && Next(w, action).row.state == Cancelled
    ensures Run(Next, Next(w, action), schedule).history.submits == 0
  {
    NextKeepsInv(w, action);
    var w' := Next(w, action);
    UnclaimedStays(w, action);
    forall p | p in w'.procs ensures !Committed(w'.procs[p]) {
      assert ProcOk(w', p, w'.procs[p]);
    }
    SafeNeverSubmits(w', schedule);
  }

  /** The step that cancels is not the one that claims. */
  lemma UnclaimedStays(w: World, action: Action)
    requires Inv(w) && PreSubmission(w.row.state) && Next(w, action).row.state == Cancelled
    ensures Next(w, action).history.claimant.None? && Next(w, action).history.submits == 0
  {
    if action.Step? && action.p in w.procs && w.procs[action.p].Guarded? {
      var pc := w.procs[action.p];
      assert ProcOk(w, action.p, pc);
      hide ProcOk, AfterWrite;
    }
  }

  lemma WorkerClaims(w0: World)
    requires Initial(w0) && w0.row == Job(Queued, 1, 0, 1, 0, false, false, false)
    ensures var go := Step(0, Ok);
            var w := Run(Next, w0, [Start(0, Process), go, go, go]);
            && w.row == Job(Submitting, 2, 1, 1, 0, false, false, false)
            && w.attempts == [] && w.procs == map[0 := CreateAttempt(w.row)] && w.history.submits == 0
  {
    hide Run;
    var go := Step(0, Ok);
    RunFour(Next, w0, Start(0, Process), go, go, go);
    var w1 := Next(w0, Start(0, Process));
    var w2 := Next(w1, go);
    assert w2.procs == map[0 := Preflight(w0.row)];
    var w3 := Next(w2, go);
    assert w3.procs == map[0 := Guarded(w0.row, NO_ATTEMPT, 0, Claim)];
  }

  lemma OperatorCancels(w: World)
    requires w.row == Job(Submitting, 2, 1, 1, 0, false, false, false)
    requires w.attempts == [] && w.procs == map[0 := CreateAttempt(w.row)]
    ensures var op := Step(1, Ok);
            var w' := Run(Next, w, [Start(1, CancelJob(2)), op, op, op]);
            && w'.row.state == Cancelled && 0 in w'.procs && w'.procs[0] == CreateAttempt(w.row)
            && w'.history.submits == w.history.submits
  {
    hide Run, Next;
    var op := Step(1, Ok);
    CancelReaches(w);
    CancelWrites(Next(Next(Next(w, Start(1, CancelJob(2))), op), op));
    RunFour(Next, w, Start(1, CancelJob(2)), op, op, op);
  }

  lemma CancelWrites(w: World)
    requires w.row == Job(Submitting, 2, 1, 1, 0, false, false, false)
    requires w.procs == map[0 := CreateAttempt(w.row), 1 := Guarded(w.row, NO_ATTEMPT, 0, Cancel)]
    ensures var w' := Next(w, Step(1, Ok));
            w'.row.state == Cancelled && w'.procs == map[0 := CreateAttempt(w.row), 1 := Stopped]
            && w'.history.submits == w.history.submits
  {
  }

  /** The cancellation reads the row and the attempts and is ready to write. */
  lemma CancelReaches(w: World)
    requires w.row == Job(Submitting, 2, 1, 1, 0, false, false, false)
    requires w.attempts == [] && w.procs == map[0 := CreateAttempt(w.row)]
    ensures var w3 := Next(Next(Next(w, Start(1, CancelJob(2))), Step(1, Ok)), Step(1, Ok));
            && w3.row == w.row && w3.history.submits == w.history.submits
            && w3.procs == map[0 := CreateAttempt(w.row), 1 := Guarded(w.row, NO_ATTEMPT, 0, Cancel)]
  {
    var op := Step(1, Ok);
    var w1 := Next(w, Start(1, CancelJob(2)));
    assert w1.procs == map[0 := CreateAttempt(w.row), 1 := Begin(CancelJob(2))];
    var w2 := Next(w1, op);
    assert w2.procs == map[0 := CreateAttempt(w.row), 1 := CancelLoad(w.row)];
  }

  /** The race is reachable: a worker claims, an operator cancels, the worker submits. */
  lemma CancelRaceIsReachable(w0: World)
    requires Initial(w0) && w0.row == Job(Queued, 1, 0, 1, 0, false, false, false)
    ensures exists xs, ys :: Run(Next, w0, xs).row.state == Cancelled && Run(Next, w0, xs).history.submits == 0
                          && Run(Next, w0, xs + ys).history.submits == 1
  {
    hide Next, Run, Initial;
    var go := Step(0, Ok);
    var op := Step(1, Ok);
    var claim := [Start(0, Process), go, go, go];
    var cancel := [Start(1, CancelJob(2)), op, op, op];
    WorkerClaims(w0);
    OperatorCancels(Run(Next, w0, claim));
    RunConcat(Next, w0, claim, cancel);
    var xs := claim + cancel;
    var ys := CommittedSubmits(Run(Next, w0, xs), 0);
    RunConcat(Next, w0, xs, ys);
    assert Run(Next, w0, xs).row.state == Cancelled && Run(Next, w0, xs).history.submits == 0;
    assert Run(Next, w0, xs + ys).history.submits == 1;
  }
}
