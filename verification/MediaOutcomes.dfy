/** What the job row says about the provider's answers: over every interleaving, and for operations
    that run with nothing in between. */
module MediaOutcomes {
  import opened Wrappers
  import opened Schedules
  import opened MediaJobs

  // ---------------------------------------------------------------- which operation is where

  datatype Kind = Worker | Approver | Canceller | Reconciler | Anyone

  function WriteKind(w: Write): Kind {
    match w
    case Approve => Approver
    case Cancel => Canceller
    case CancelUnknown => Canceller
    case Reconcile => Reconciler
    case _ => Worker
  }

  function KindOf(op: Op): Kind {
    match op
    case Process => Worker
    case ApproveCost(_) => Approver
    case CancelJob(_) => Canceller
    case ReconcileSubmit(_, _) => Reconciler
  }

  function PcKind(pc: Pc): Kind {
    match pc
    case Begin(op) => KindOf(op)
    case CancelLoad(_) => Canceller
    case CancelCall(_, _, _) => Canceller
    case SaveAndStop(_, _) => Canceller
    case ReconcileLoad(_, _) => Reconciler
    case SaveThenWrite(_, _, _, wr) => WriteKind(wr)
    case Guarded(_, _, _, wr) => WriteKind(wr)
    case Stopped => Anyone
    case _ => Worker
  }

  function VersionOf(op: Op): Option<int> {
    match op
    case Process => None
    case ApproveCost(v) => Some(v)
    case CancelJob(v) => Some(v)
    case ReconcileSubmit(v, _) => Some(v)
  }

  // ---------------------------------------------------------------- the invariant

  predicate LastIs(h: History, kind: Terminal) { h.accepted != [] && h.accepted[|h.accepted| - 1].kind == kind }

  /** What an operation whose copy is the row knows about it and the last terminal answer. */
  predicate Knows(h: History, copy: Job, w: Write) {
    match w
    case Resume => copy.state == AwaitingExternal
    case MarkSubmitted => copy.state == Submitting
    case MarkGenerating => copy.state == Submitted
    case AwaitProvider => copy.state in {Submitting, Generating}
    case Download(_) => copy.state == Generating && LastIs(h, Completed)
    case Validate(_) => copy.state == Downloading && LastIs(h, Completed)
    case Succeed(_) => copy.state == Validating && LastIs(h, Completed)
    case ConfirmCancel => copy.state == Generating && LastIs(h, ProviderCancelled) && copy.cancelRequested
    case Fail =>
      copy.state in {Queued, Submitting, AwaitingExternal}
      || (copy.state == Generating && h.accepted != [] && !LastIs(h, Completed))
      || (copy.state == Validating && LastIs(h, Completed))
    case _ => true
  }

  predicate PcKnows(h: History, pc: Pc) {
    match pc
    case LoadAttempts(copy) => copy.state == AwaitingExternal
    case Submit(copy, _, _) => copy.state == Submitting
    case Output(copy, _, _, _) => copy.state == Validating && LastIs(h, Completed)
    case SaveThenWrite(copy, _, _, wr) => Knows(h, copy, wr)
    case Guarded(copy, _, _, wr) => Knows(h, copy, wr)
    case _ => true
  }

  /** The operation behind each program point, and the version it was started for. */
  predicate Belongs(h: History, p: nat, pc: Pc) {
    && p in h.ops && PcKind(pc) in {KindOf(h.ops[p]), Anyone}
    && (VersionOf(h.ops[p]).Some? && CopyOf(pc).Some? ==> CopyOf(pc).value.version == VersionOf(h.ops[p]).value)
    && (pc.Begin? ==> pc.op == h.ops[p])
  }

  ghost predicate Told(w: World, p: nat, pc: Pc) {
    && Belongs(w.history, p, pc)
    && (CopyOf(pc).Some? && CopyOf(pc).value == w.row ==> PcKnows(w.history, pc))
  }

  ghost predicate RowTold(w: World) {
    && (w.row.state in {Downloading, Validating, Succeeded} ==> LastIs(w.history, Completed))
    && (w.row.state == Cancelled ==> w.row.cancelRequested)
  }

  ghost predicate Traced(w: World) {
    RowTold(w) && forall p :: p in w.procs ==> Told(w, p, w.procs[p])
  }

  // ---------------------------------------------------------------- every step keeps it

  lemma LocalBelongs(w: World, p: nat, pc: Pc, c: Choice)
    requires Belongs(w.history, p, pc) && !pc.Guarded?
    ensures Belongs(w.history, p, LocalEffect(w.row, w.attempts, pc, c).pc)
  {
  }

  lemma LocalKnows(w: World, pc: Pc, c: Choice)
    requires PcReady(pc) && !pc.Guarded? && (CopyOf(pc).Some? && CopyOf(pc).value == w.row ==> PcKnows(w.history, pc))
    ensures var e := LocalEffect(w.row, w.attempts, pc, c);
            CopyOf(e.pc).Some? && CopyOf(e.pc).value == w.row ==> PcKnows(w.history, e.pc)
  {
    hide ValidExternalId, CanTransition;
  }

  lemma LocalTold(w: World, p: nat, pc: Pc, c: Choice)
    requires Told(w, p, pc) && PcReady(pc) && !pc.Guarded?
    ensures var e := LocalEffect(w.row, w.attempts, pc, c);
            && Belongs(w.history, p, e.pc)
            && (CopyOf(e.pc).Some? && CopyOf(e.pc).value == w.row ==> PcKnows(w.history, e.pc))
  {
    LocalBelongs(w, p, pc, c);
    LocalKnows(w, pc, c);
    hide LocalEffect, PcKnows, Belongs;
  }

  /** The facts hold on as long as the row, or at least its version, tells the copy apart. */
  lemma OtherTold(w: World, t: World, q: nat, pc: Pc)
    requires Told(w, q, pc) && ProcOk(w, q, pc)
    requires q in t.history.ops && t.history.ops[q] == w.history.ops[q]
    requires (t.row == w.row && t.history.accepted == w.history.accepted) || w.row.version < t.row.version
    ensures Told(t, q, pc)
  {
    hide PcReady, BeforeSubmit;
  }

  lemma LocalKeeps(w: World, p: nat, c: Choice)
    requires Inv(w) && Traced(w) && p in w.procs && !w.procs[p].Guarded?
    ensures Traced(LocalStep(w, p, c))
  {
    hide LocalEffect, ProcOk, Told, RowOk;
    var t := LocalStep(w, p, c);
    assert Told(w, p, w.procs[p]);
    assert Told(t, p, t.procs[p]) by { LocalToldAfter(w, p, c); }
    forall q | q in t.procs ensures Told(t, q, t.procs[q]) {
      if q != p { OtherToldAfter(w, t, q); }
    }
    assert t.row == w.row && t.history.accepted == w.history.accepted;
  }

  lemma LocalToldAfter(w: World, p: nat, c: Choice)
    requires p in w.procs && Told(w, p, w.procs[p]) && ProcOk(w, p, w.procs[p]) && !w.procs[p].Guarded?
    ensures var t := LocalStep(w, p, c); Told(t, p, t.procs[p])
  {
    hide LocalEffect;
    LocalTold(w, p, w.procs[p], c);
  }

  lemma OtherToldAfter(w: World, t: World, q: nat)
    requires q in w.procs && Told(w, q, w.procs[q]) && ProcOk(w, q, w.procs[q])
    requires forall x ::
             x in w.history.ops ==> x in t.history.ops && (x in w.procs ==> t.history.ops[x] == w.history.ops[x])
    requires (t.row == w.row && t.history.accepted == w.history.accepted) || w.row.version < t.row.version
    ensures Told(t, q, w.procs[q])
  {
    OtherTold(w, t, q, w.procs[q]);
  }

  lemma Continues(h: History, p: nat, j: Job, a: Attempt, at: nat, wr: Write)
    requires Knows(h, j, wr) && WriteReady(j, wr)
    ensures var next := AfterWrite(Target(j, wr).(version := j.version + 1), a, at, wr);
            && PcKnows(Record(h, p, wr), next)
            && PcKind(next) in {WriteKind(wr), Anyone} && !next.Begin?
            && (WriteKind(wr) != Worker ==> CopyOf(next).None?)
  {
  }

  lemma RowContinues(h: History, p: nat, j: Job, wr: Write)
    requires Knows(h, j, wr) && WriteReady(j, wr)
    requires j.state in {Downloading, Validating, Succeeded} ==> LastIs(h, Completed)
    requires j.state == Cancelled ==> j.cancelRequested
    ensures var saved, after := Target(j, wr), Record(h, p, wr);
            && (saved.state in {Downloading, Validating, Succeeded} ==> LastIs(after, Completed))
            && (saved.state == Cancelled ==> saved.cancelRequested)
  {
  }

  lemma SavedIs(row: Job, wr: Write)
    ensures var value := Target(row, wr);
            Save(row, value).Some? ==>
              Save(row, value).value == value.(version := row.version + 1) && value.version == row.version
  {
  }

  lemma ToldAfter(w: World, t: World, p: nat)
    requires p in w.history.ops && t.history.ops == w.history.ops && p in t.procs
    requires PcKnows(t.history, t.procs[p]) && !t.procs[p].Begin?
    requires PcKind(t.procs[p]) in {KindOf(w.history.ops[p]), Anyone}
    requires KindOf(w.history.ops[p]) != Worker ==> CopyOf(t.procs[p]).None?
    ensures Told(t, p, t.procs[p])
  {
  }

  lemma WriterProc(w: World, p: nat)
    requires Inv(w) && Traced(w) && p in w.procs && w.procs[p].Guarded?
    requires Save(w.row, Target(w.procs[p].job, w.procs[p].write)).Some?
    ensures var t := GuardedStep(w, p); p in t.procs && Told(t, p, t.procs[p]) && t.history.ops == w.history.ops
  {
    hide Inv, Traced, ProcOk, Told, RowOk, CanTransition, ValidJob, AfterWrite, Target, PcKnows, Knows, WriteReady,
         WriteKind, KindOf;
    var pc := w.procs[p];
    WriterKnows(w, p);
    Continues(w.history, p, pc.job, pc.attempt, pc.at, pc.write);
    KindOfWrite(w.history.ops[p], pc.write);
    var t := GuardedStep(w, p);
    assert t.procs[p] == AfterWrite(Target(w.row, pc.write).(version := w.row.version + 1), pc.attempt, pc.at, pc.write)
      by { SavedIs(w.row, pc.write); }
    assert Told(t, p, t.procs[p]) by { ToldAfter(w, t, p); }
  }

  lemma WriterRow(w: World, p: nat)
    requires Inv(w) && Traced(w) && p in w.procs && w.procs[p].Guarded?
    requires Save(w.row, Target(w.procs[p].job, w.procs[p].write)).Some?
    ensures var t := GuardedStep(w, p); RowTold(t) && w.row.version < t.row.version
  {
    var pc := w.procs[p];
    assert Told(w, p, pc) && ProcOk(w, p, pc);
    AcceptedWrite(w, p, pc);
    RowContinues(w.history, p, pc.job, pc.write);
    hide ProcOk, RowOk, Inv, AfterWrite, Target, Save, PcKnows, Knows, WriteReady, WriteKind, PcReady, Belongs,
      ValidJob;
  }

  /** What an accepted write and its continuation know. */
  lemma WriterTold(w: World, p: nat)
    requires Inv(w) && Traced(w) && p in w.procs && w.procs[p].Guarded?
    requires Save(w.row, Target(w.procs[p].job, w.procs[p].write)).Some?
    ensures var t := GuardedStep(w, p);
            Told(t, p, t.procs[p]) && RowTold(t) && t.history.ops == w.history.ops && w.row.version < t.row.version
  {
    var pc := w.procs[p];
    WriterProc(w, p);
    WriterRow(w, p);
    hide GuardedStep, Told, RowTold, Inv, Traced, ProcOk;
  }

  lemma KindOfWrite(op: Op, w: Write)
    ensures WriteKind(w) == KindOf(op) && VersionOf(op).Some? ==> WriteKind(w) != Worker
    ensures WriteKind(w) != Anyone && KindOf(op) != Anyone
  {
  }

  lemma GuardedKeeps(w: World, p: nat)
    requires Inv(w) && Traced(w) && p in w.procs && w.procs[p].Guarded?
    ensures Traced(GuardedStep(w, p))
  {
    hide ProcOk, Told, RowOk, Target, AfterWrite, RowTold;
    var pc := w.procs[p];
    var t := GuardedStep(w, p);
    if Save(w.row, Target(pc.job, pc.write)).Some? {
      WriterTold(w, p);
    } else {
      hide Save;
      assert t == w.(procs := w.procs[p := Stopped]);
      StoppedTold(w, p);
      assert RowTold(t) by { RowUnchanged(w, t); }
    }
    forall q | q in t.procs ensures Told(t, q, t.procs[q]) {
      if q != p { OtherToldAfter(w, t, q); }
    }
  }

  lemma RowUnchanged(w: World, t: World)
    requires RowTold(w) && t.row == w.row && t.history == w.history
    ensures RowTold(t)
  {
  }

  lemma StoppedTold(w: World, p: nat)
    requires p in w.procs && Told(w, p, w.procs[p])
    ensures Told(w.(procs := w.procs[p := Stopped]), p, Stopped)
  {
  }

  lemma NextKeepsTraced(w: World, a: Action)
    requires Inv(w) && Traced(w)
    ensures Traced(Next(w, a))
  {
    if a.Step? && a.p in w.procs {
      if w.procs[a.p].Guarded? { GuardedKeeps(w, a.p); } else { LocalKeeps(w, a.p, a.choice); }
    } else {
      var t := Next(w, a);
      hide ProcOk, RowOk;
      assert RowTold(t);
      forall q | q in t.procs ensures Told(t, q, t.procs[q]) {
        if q in w.procs && t.procs[q] == w.procs[q] { assert Told(w, q, w.procs[q]); OtherToldAfter(w, t, q); }
        else if q in w.procs { assert Told(w, q, w.procs[q]); }
      }
    }
  }

  lemma Reached(w0: World, schedule: seq<Action>)
    requires Initial(w0)
    ensures var w := Run(Next, w0, schedule); Inv(w) && Traced(w)
  {
    assert Inv(w0) && Traced(w0);
    hide Next, Inv, Traced;
    forall v, a | Inv(v) && Traced(v) ensures Inv(Next(v, a)) && Traced(Next(v, a)) {
      NextKeepsInv(v, a);
      NextKeepsTraced(v, a);
    }
    RunInvariant(Next, v => Inv(v) && Traced(v), w0, schedule);
  }

  /** Over every interleaving: the job has succeeded, or is on its way from download to success, only if
      the last terminal answer accepted was a completion, at whose cost it is; and a cancelled job is one
      whose cancellation was requested. */
  lemma OutcomeFollowsAnswer(w0: World, schedule: seq<Action>)
    requires Initial(w0)
    ensures var w := Run(Next, w0, schedule);
            var a := w.history.accepted;
            && (w.row.state in {Downloading, Validating, Succeeded} ==>
                  a != [] && a[|a| - 1] == Answer(Completed, w.row.actualCost))
            && (w.row.state == Cancelled ==> w.row.cancelRequested)
  {
    Reached(w0, schedule);
  }

  /** The moves each operation makes, with what they need. */
  predicate Moves(op: Op, from: Job, to: Job, h: History) {
    match op
    case ApproveCost(expected) =>
      expected == from.version && from.state in {AwaitingCostApproval, BudgetBlocked} && to.state == Queued
    case CancelJob(expected) =>
      expected == from.version && to.state in {Cancelled, AwaitingExternal} && to.cancelRequested
    case ReconcileSubmit(_, _) => false
    case Process =>
      match to.state
      case Queued => from.state == RetryWait
      case Submitting => from.state == Queued && to.attemptCount == from.attemptCount + 1
      case Submitted => from.state == Submitting
      case Generating => from.state in {Submitted, AwaitingExternal}
      case AwaitingExternal => from.state in {Submitting, Generating}
      case Downloading => from.state == Generating && LastIs(h, Completed)
      case Validating => from.state == Downloading && LastIs(h, Completed)
      case Succeeded => from.state == Validating && LastIs(h, Completed)
      case Cancelled => from.state == Generating && from.cancelRequested && LastIs(h, ProviderCancelled)
      case Failed =>
        || from.state in {Submitting, AwaitingExternal}
        || (from.state == Generating && h.accepted != [] && !LastIs(h, Completed))
        || (from.state == Validating && LastIs(h, Completed))
      case _ => false
  }

  lemma WriteMoves(op: Op, j: Job, wr: Write, h: History)
    requires WriteKind(wr) == KindOf(op) && Knows(h, j, wr) && WriteReady(j, wr) && Target(j, wr).state != j.state
    requires VersionOf(op).Some? ==> j.version == VersionOf(op).value
    requires CanTransition(j.state, Target(j, wr).state)
    ensures Moves(op, j, Target(j, wr), h)
  {
  }

  /** Only a guarded write that is accepted changes the row. */
  lemma OnlyWritersWrite(w: World, a: Action)
    requires Next(w, a).row != w.row
    ensures a.Step? && a.p in w.procs && w.procs[a.p].Guarded?
    ensures var pc := w.procs[a.p];
            Save(w.row, Target(pc.job, pc.write)) == Some(Next(w, a).row)
            && Next(w, a).row == Target(pc.job, pc.write).(version := Next(w, a).row.version)
            && CanTransition(w.row.state, Target(pc.job, pc.write).state)
  {
    hide LocalEffect, AfterWrite, Target, Record, CanTransition, ValidJob;
  }

  lemma StepMoves(w: World, a: Action)
    requires Inv(w) && Traced(w) && Next(w, a).row.state != w.row.state
    ensures a.Step? && a.p in w.history.ops && Moves(w.history.ops[a.p], w.row, Next(w, a).row, w.history)
  {
    hide Moves, Next, Inv, Traced, RowOk, ProcOk, Told, Target, CanTransition, Save;
    OnlyWritersWrite(w, a);
    var pc := w.procs[a.p];
    WriterKnows(w, a.p);
    WriteMoves(w.history.ops[a.p], w.row, pc.write, w.history);
    VersionAside(w.history.ops[a.p], w.row, Target(w.row, pc.write), Next(w, a).row, w.history);
  }

  lemma WriterKnows(w: World, p: nat)
    requires Inv(w) && Traced(w) && p in w.procs && w.procs[p].Guarded?
    requires Save(w.row, Target(w.procs[p].job, w.procs[p].write)).Some?
    ensures var pc := w.procs[p];
            && pc.job == w.row && Knows(w.history, w.row, pc.write) && WriteReady(w.row, pc.write)
            && p in w.history.ops && WriteKind(pc.write) == KindOf(w.history.ops[p])
            && (VersionOf(w.history.ops[p]).Some? ==> w.row.version == VersionOf(w.history.ops[p]).value)
  {
    var pc := w.procs[p];
    assert Told(w, p, pc) && ProcOk(w, p, pc);
    AcceptedWrite(w, p, pc);
    KindOfWrite(w.history.ops[p], pc.write);
    hide Inv, Target, Save, Knows, WriteReady, BeforeSubmit;
  }

  lemma VersionAside(op: Op, from: Job, to: Job, saved: Job, h: History)
    requires Moves(op, from, to, h) && saved == to.(version := saved.version)
    ensures Moves(op, from, saved, h)
  {
  }

  /** In every reached state, whatever changes the state of the row is a step of an operation that may:
      a worker succeeds only after a completion, cancels only on the provider's confirmation of a
      requested cancellation, and fails a generated job only on another answer or a bad output; approvals
      and cancellations were decided on this very version of the row; a reconciliation changes no state. */
  lemma OnlyTheirMoves(w0: World, schedule: seq<Action>, a: Action)
    requires Initial(w0)
    ensures var w := Run(Next, w0, schedule);
            var t := Next(w, a);
            t.row.state != w.row.state ==>
              a.Step? && a.p in w.history.ops && Moves(w.history.ops[a.p], w.row, t.row, w.history)
  {
    hide Next, Inv, Traced, Moves;
    Reached(w0, schedule);
    var w := Run(Next, w0, schedule);
    if Next(w, a).row.state != w.row.state { StepMoves(w, a); }
  }

  /** The table read the other way: from where each state can be entered, staying put aside. */
  lemma WaysInto(from: State, to: State)
    requires from != to
    ensures CanTransition(from, to)
            <==> match to
                 case Draft => false
                 case AwaitingCostApproval => from in {Draft, BudgetBlocked}
                 case BudgetBlocked => from in {Draft, AwaitingCostApproval}
                 case Queued =>
                   from in {Draft, AwaitingCostApproval, BudgetBlocked, RetryWait, RetryableFailed, OutputInvalid}
                 case Submitting => from == Queued
                 case Submitted => from == Submitting
                 case Generating => from in {Submitted, AwaitingExternal}
                 case Downloading => from in {Submitted, Generating, AwaitingExternal}
                 case Validating => from == Downloading
                 case RetryWait => from in {Submitting, Submitted, Generating, Downloading, Validating}
                 case RetryableFailed => from in {Submitting, RetryWait}
                 case OutputInvalid => from in {Generating, Downloading, Validating}
                 case AwaitingExternal => from in {Draft, Submitting, Submitted, Generating}
                 case Succeeded => from == Validating
                 case Failed =>
                   from !in {Draft, AwaitingCostApproval, BudgetBlocked, Queued, RetryWait, Succeeded, Cancelled}
                 case Cancelled => from !in {Downloading, Validating, Succeeded, Failed}
  {
    match from
    case _ =>
  }

  // ---------------------------------------------------------------- attempts are where they are looked for

  predicate NeedsAttempt(w: Write) {
    w in {Resume, BindEffect, MarkSubmitted, MarkGenerating, CancelUnknown} || w.SettleCost? || w.Download?
      || w.Validate?
  }

  /** An operation that holds an attempt holds one of the table. */
  predicate Placed(pc: Pc, n: nat) {
    match pc
    case RegisterEffect(_, _, at) => at < n
    case Submit(_, _, at) => at < n
    case Poll(_, _, at) => at < n
    case Output(_, _, at, _) => at < n
    case CancelCall(_, _, at) => at < n
    case SaveThenWrite(_, _, at, _) => at < n
    case SaveAndStop(_, at) => at < n
    case Guarded(_, _, at, wr) => NeedsAttempt(wr) ==> at < n
    case _ => true
  }

  ghost predicate AllPlaced(w: World) { forall p :: p in w.procs ==> Placed(w.procs[p], |w.attempts|) }

  lemma LocalPlaced(row: Job, attempts: seq<Attempt>, pc: Pc, c: Choice)
    requires Placed(pc, |attempts|) && !pc.Guarded?
    ensures var e := LocalEffect(row, attempts, pc, c); |attempts| <= |e.attempts| && Placed(e.pc, |e.attempts|)
  {
  }

  lemma WrittenPlaced(j: Job, a: Attempt, at: nat, wr: Write, n: nat)
    requires NeedsAttempt(wr) ==> at < n
    ensures Placed(AfterWrite(j, a, at, wr), n)
  {
  }

  lemma NextKeepsPlaced(w: World, a: Action)
    requires AllPlaced(w)
    ensures AllPlaced(Next(w, a))
  {
    hide LocalEffect, AfterWrite, Save, Target;
    var t := Next(w, a);
    if a.Step? && a.p in w.procs {
      var pc := w.procs[a.p];
      if pc.Guarded? { forall j: Job { WrittenPlaced(j, pc.attempt, pc.at, pc.write, |w.attempts|); } }
      else { LocalPlaced(w.row, w.attempts, pc, a.choice); }
    }
    forall q | q in t.procs ensures Placed(t.procs[q], |t.attempts|) {
      if q in w.procs { PlacedAmongMore(w.procs[q], |w.attempts|, |t.attempts|); }
    }
  }

  lemma PlacedAmongMore(pc: Pc, m: nat, n: nat)
    requires Placed(pc, m)
    ensures m <= n ==> Placed(pc, n)
  {
  }

  lemma ReachedPlaced(w0: World, schedule: seq<Action>)
    requires Initial(w0)
    ensures AllPlaced(Run(Next, w0, schedule))
  {
    assert AllPlaced(w0);
    hide Next, AllPlaced;
    forall v, a | AllPlaced(v) ensures AllPlaced(Next(v, a)) { NextKeepsPlaced(v, a); }
    RunInvariant(Next, v => AllPlaced(v), w0, schedule);
  }

  // ---------------------------------------------------------------- operations with nothing in between

  function Steps(p: nat, cs: seq<Choice>): seq<Action> {
    seq(|cs|, i requires 0 <= i < |cs| => Step(p, cs[i]))
  }

  /** What p's own answers lead to when nothing else moves. */
  function Alone(w: World, p: nat, cs: seq<Choice>): World
    decreases |cs|
  {
    if cs == [] then w else Alone(Next(w, Step(p, cs[0])), p, cs[1..])
  }

  lemma {:induction false} AloneIsRun(w: World, p: nat, cs: seq<Choice>)
    ensures Alone(w, p, cs) == Run(Next, w, Steps(p, cs))
    decreases |cs|
  {
    hide Next;
    if cs != [] {
      AloneIsRun(Next(w, Step(p, cs[0])), p, cs[1..]);
      assert Steps(p, cs)[1..] == Steps(p, cs[1..]);
    }
  }

  lemma AloneStep(w: World, p: nat, c: Choice, cs: seq<Choice>)
    ensures Alone(w, p, [c] + cs) == Alone(Next(w, Step(p, c)), p, cs)
  {
    hide Next;
    assert ([c] + cs)[1..] == cs;
  }

  lemma AloneStops(w: World, p: nat, cs: seq<Choice>)
    requires p in w.procs && w.procs[p] == Stopped
    ensures Alone(w, p, cs) == w
    decreases |cs|
  {
    if cs != [] {
      assert Next(w, Step(p, cs[0])) == w by { assert w.procs[p := Stopped] == w.procs; }
      AloneStops(w, p, cs[1..]);
    }
  }

  /** One local step of p. */
  lemma Goes(w: World, p: nat, c: Choice)
    requires p in w.procs && !w.procs[p].Guarded?
    ensures var t, e := Next(w, Step(p, c)), LocalEffect(w.row, w.attempts, w.procs[p], c);
            p in t.procs && t.row == w.row && t.attempts == e.attempts && t.procs[p] == e.pc
            && t.history.submits == w.history.submits + if e.submitted then 1 else 0
  {
    hide LocalEffect;
  }

  /** Saving p's attempt, with p's next choice and those after it. */
  lemma Saves(w: World, p: nat, cs: seq<Choice>)
    requires p in w.procs && w.procs[p].SaveThenWrite? && w.procs[p].at < |w.attempts|
    ensures var t, pc := Next(w, Step(p, Ok)), w.procs[p];
            && p in t.procs && t.procs[p] == Guarded(pc.job, pc.attempt, pc.at, pc.write)
            && t.row == w.row && t.attempts == w.attempts[pc.at := pc.attempt]
            && t.history.submits == w.history.submits && Alone(w, p, [Ok] + cs) == Alone(t, p, cs)
  {
    Goes(w, p, Ok);
    AloneStep(w, p, Ok, cs);
  }

  /** One guarded write of p, from the row as it is. */
  lemma Writes(w: World, p: nat, c: Choice)
    requires p in w.procs && w.procs[p].Guarded? && w.procs[p].job == w.row
    requires ValidJob(w.row) && Sensible(w.row, w.procs[p].write)
    ensures var t, pc := Next(w, Step(p, c)), w.procs[p];
            var value := Target(w.row, pc.write);
            && p in t.procs && t.attempts == w.attempts && t.history.submits == w.history.submits && ValidJob(t.row)
            && if CanTransition(w.row.state, value.state)
               then t.row == value.(version := w.row.version + 1)
                    && t.procs[p] == AfterWrite(t.row, pc.attempt, pc.at, pc.write)
               else t.row == w.row && t.procs[p] == Stopped
  {
    TargetIsValid(w.row, w.procs[p].write);
    hide Target, AfterWrite, CanTransition, ValidJob;
  }

  /** The write leaves a valid row. */
  predicate Sensible(j: Job, w: Write) {
    match w
    case Claim => j.attemptCount < j.maxAttempts
    case BindEffect => j.managed
    case SettleCost(_, cost) => 0 <= cost
    case Succeed(cost) => 0 <= cost
    case _ => true
  }

  lemma TargetIsValid(j: Job, w: Write)
    requires ValidJob(j) && Sensible(j, w)
    ensures ValidJob(Target(j, w)) && Target(j, w).version == j.version
    ensures ValidJob(Target(j, w).(version := j.version + 1))
  {
  }

  /** The transitions these operations rely on. */
  lemma Table()
    ensures CanTransition(Submitting, Submitted) && CanTransition(Submitted, Generating)
    ensures CanTransition(Submitting, Failed) && CanTransition(Submitting, AwaitingExternal)
    ensures CanTransition(Generating, AwaitingExternal) && CanTransition(Generating, Generating)
    ensures CanTransition(Generating, Downloading) && CanTransition(Downloading, Validating)
    ensures CanTransition(Validating, Succeeded) && CanTransition(Validating, Failed)
    ensures CanTransition(Generating, Cancelled) && CanTransition(Generating, Failed)
    ensures CanTransition(AwaitingExternal, Generating) && CanTransition(AwaitingExternal, Failed)
  {
  }


  function Out(good: bool): Choice { if good then Ok else Err }

  /** A terminal answer to the current poll, with nothing in between: a negative amount stops the
      worker and changes nothing; otherwise the row carries the amount and has succeeded for a
      completion with good output, is cancelled for a cancellation that was requested, and has failed
      in every other case. */
  lemma PollAlone(w: World, p: nat, kind: Terminal, cost: int, good: bool)
    requires Inv(w) && AllPlaced(w) && p in w.procs && w.procs[p].Poll? && w.procs[p].job == w.row
    ensures var t := Alone(w, p, [StatusTerminal(kind, cost), Ok, Ok, Ok, Ok, Out(good), Ok, Ok]);
            && p in t.procs && t.procs[p] == Stopped && t.history.submits == w.history.submits
            && if cost < 0 then t.row == w.row && t.attempts == w.attempts
               else
                 && t.row == w.row.(state := t.row.state, actualCost := cost, version := t.row.version)
                 && w.row.version < t.row.version
                 && t.row.state == (match kind
                                    case Completed => if good then Succeeded else Failed
                                    case ProviderCancelled => if w.row.cancelRequested then Cancelled else Failed
                                    case ProviderFailed => Failed)
  {
    var pc := w.procs[p];
    assert ProcOk(w, p, pc) && Placed(pc, |w.attempts|);
    assert ValidJob(w.row) && w.row.state == Generating;
    hide Inv, AllPlaced, ProcOk, Alone, Next;
    var w1 := Next(w, Step(p, StatusTerminal(kind, cost)));
    Goes(w, p, StatusTerminal(kind, cost));
    AloneStep(w, p, StatusTerminal(kind, cost), [Ok, Ok, Ok, Ok, Out(good), Ok, Ok]);
    assert [StatusTerminal(kind, cost)] + [Ok, Ok, Ok, Ok, Out(good), Ok, Ok]
           == [StatusTerminal(kind, cost), Ok, Ok, Ok, Ok, Out(good), Ok, Ok];
    if cost < 0 {
      AloneStops(w1, p, [Ok, Ok, Ok, Ok, Out(good), Ok, Ok]);
    } else {
      SettleAlone(w1, p, pc.attempt.(cost := cost), pc.at, kind, cost, good);
    }
  }

  /** The same over runs: whatever has happened before, when a worker whose copy is the row gets a terminal
      answer and nothing comes in between, the job succeeds at that cost exactly on a completion with good
      output, is cancelled on a cancellation that was requested, and else fails. */
  lemma AnswerDecides(w0: World, schedule: seq<Action>, p: nat, kind: Terminal, cost: int, good: bool)
    requires Initial(w0) && 0 <= cost
    requires var w := Run(Next, w0, schedule); p in w.procs && w.procs[p].Poll? && w.procs[p].job == w.row
    ensures var w := Run(Next, w0, schedule);
            var answers := Steps(p, [StatusTerminal(kind, cost), Ok, Ok, Ok, Ok, Out(good), Ok, Ok]);
            var t := Run(Next, w0, schedule + answers);
            && t.row.actualCost == cost && t.history.submits == w.history.submits
            && (t.row.state == Succeeded <==> kind == Completed && good)
            && (t.row.state == Cancelled <==> kind == ProviderCancelled && w.row.cancelRequested)
            && t.row.state in {Succeeded, Cancelled, Failed}
  {
    hide Next, Inv, AllPlaced, Alone;
    var w := Run(Next, w0, schedule);
    var cs := [StatusTerminal(kind, cost), Ok, Ok, Ok, Ok, Out(good), Ok, Ok];
    Reached(w0, schedule);
    ReachedPlaced(w0, schedule);
    PollAlone(w, p, kind, cost, good);
    AloneIsRun(w, p, cs);
    RunConcat(Next, w0, schedule, Steps(p, cs));
  }

  lemma SettleAlone(w: World, p: nat, a: Attempt, at: nat, kind: Terminal, cost: int, good: bool)
    requires ValidJob(w.row) && w.row.state == Generating && 0 <= cost && at < |w.attempts|
    requires p in w.procs && w.procs[p] == SaveThenWrite(w.row, a, at, SettleCost(kind, cost))
    ensures var t := Alone(w, p, [Ok, Ok, Ok, Ok, Out(good), Ok, Ok]);
            && p in t.procs && t.procs[p] == Stopped && t.history.submits == w.history.submits
            && t.row == w.row.(state := t.row.state, actualCost := cost, version := t.row.version)
            && w.row.version < t.row.version
            && t.row.state == (match kind
                               case Completed => if good then Succeeded else Failed
                               case ProviderCancelled => if w.row.cancelRequested then Cancelled else Failed
                               case ProviderFailed => Failed)
  {
    hide Alone, Next, LocalEffect;
    Saves(w, p, [Ok, Ok, Ok, Out(good), Ok, Ok]);
    assert [Ok] + [Ok, Ok, Ok, Out(good), Ok, Ok] == [Ok, Ok, Ok, Ok, Out(good), Ok, Ok];
    var w1 := Next(w, Step(p, Ok));
    var w2 := Next(w1, Step(p, Ok));
    Writes(w1, p, Ok);
    AloneStep(w1, p, Ok, [Ok, Ok, Out(good), Ok, Ok]);
    assert [Ok] + [Ok, Ok, Out(good), Ok, Ok] == [Ok, Ok, Ok, Out(good), Ok, Ok];
    SettledAlone(w2, p, a, at, kind, cost, good);
  }

  /** After the amount is on the row. */
  lemma SettledAlone(w: World, p: nat, a: Attempt, at: nat, kind: Terminal, cost: int, good: bool)
    requires ValidJob(w.row) && w.row.state == Generating && w.row.actualCost == cost && at < |w.attempts|
    requires p in w.procs && w.procs[p] == AfterWrite(w.row, a, at, SettleCost(kind, cost))
    ensures var t := Alone(w, p, [Ok, Ok, Out(good), Ok, Ok]);
            && p in t.procs && t.procs[p] == Stopped && t.history.submits == w.history.submits
            && t.row == w.row.(state := t.row.state, version := t.row.version)
            && w.row.version < t.row.version
            && t.row.state == (match kind
                               case Completed => if good then Succeeded else Failed
                               case ProviderCancelled => if w.row.cancelRequested then Cancelled else Failed
                               case ProviderFailed => Failed)
  {
    hide Alone, Next, LocalEffect;
    var w1 := Next(w, Step(p, Ok));
    if kind == Completed {
      Writes(w, p, Ok);
      AloneStep(w, p, Ok, [Ok, Out(good), Ok, Ok]);
      assert [Ok] + [Ok, Out(good), Ok, Ok] == [Ok, Ok, Out(good), Ok, Ok];
      FinishAlone(w1, p, a, at, cost, good);
    } else {
      SaveAlone(w, p, a, at, if kind == ProviderCancelled && w.row.cancelRequested then ConfirmCancel else Fail);
      AloneConcat(w, p, [Ok, Ok], [Out(good), Ok, Ok]);
      assert [Ok, Ok] + [Out(good), Ok, Ok] == [Ok, Ok, Out(good), Ok, Ok];
      AloneStops(Alone(w, p, [Ok, Ok]), p, [Out(good), Ok, Ok]);
    }
  }

  lemma OutputAlone(w: World, p: nat, a: Attempt, at: nat, cost: int, good: bool)
    requires ValidJob(w.row) && w.row.state == Validating && w.row.actualCost == cost && at < |w.attempts|
    requires p in w.procs && w.procs[p] == Output(w.row, a, at, cost)
    ensures var t := Alone(w, p, [Out(good), Ok, Ok]);
            && p in t.procs && t.procs[p] == Stopped && t.history.submits == w.history.submits
            && t.row == w.row.(state := if good then Succeeded else Failed, version := w.row.version + 1)
  {
    hide Alone, Next, CanTransition;
    Table();
    var w1 := Next(w, Step(p, Out(good)));
    Goes(w, p, Out(good));
    AloneStep(w, p, Out(good), [Ok, Ok]);
    assert [Out(good)] + [Ok, Ok] == [Out(good), Ok, Ok];
    hide LocalEffect;
    if good {
      SaveAlone(w1, p, a.(cost := cost), at, Succeed(cost));
    } else {
      hide ValidJob;
      Writes(w1, p, Ok);
      AloneStep(w1, p, Ok, [Ok]);
      assert [Ok] + [Ok] == [Ok, Ok];
      AloneStops(Next(w1, Step(p, Ok)), p, [Ok]);
    }
  }

  lemma FinishAlone(w: World, p: nat, a: Attempt, at: nat, cost: int, good: bool)
    requires ValidJob(w.row) && w.row.state == Downloading && w.row.actualCost == cost && at < |w.attempts|
    requires p in w.procs && w.procs[p] == Guarded(w.row, a, at, Validate(cost))
    ensures var t := Alone(w, p, [Ok, Out(good), Ok, Ok]);
            && p in t.procs && t.procs[p] == Stopped && t.history.submits == w.history.submits
            && t.row == w.row.(state := if good then Succeeded else Failed, version := t.row.version)
            && w.row.version < t.row.version
  {
    hide Alone, Next, ValidJob, CanTransition, LocalEffect;
    Table();
    var w1 := Next(w, Step(p, Ok));
    Writes(w, p, Ok);
    AloneStep(w, p, Ok, [Out(good), Ok, Ok]);
    assert [Ok] + [Out(good), Ok, Ok] == [Ok, Out(good), Ok, Ok];
    OutputAlone(w1, p, a, at, cost, good);
  }

  /** What a current copy tells at these points. */
  lemma ReadyAt(w: World, p: nat)
    requires Inv(w) && p in w.procs
    ensures ValidJob(w.row)
    ensures (w.procs[p].CreateAttempt? || w.procs[p].RegisterEffect?) && w.procs[p].job == w.row ==>
              w.row.state == Submitting
    ensures w.procs[p].Poll? && w.procs[p].job == w.row ==> w.row.state == Generating
  {
    assert ProcOk(w, p, w.procs[p]);
  }

  lemma PlacedAt(w: World, p: nat)
    requires AllPlaced(w) && p in w.procs && (w.procs[p].Poll? || w.procs[p].Submit?)
    ensures w.procs[p].at < |w.attempts|
  {
    assert Placed(w.procs[p], |w.attempts|);
  }

  lemma NoAnswer(w: World, p: nat, c: Choice)
    requires p in w.procs && w.procs[p].Poll? && !c.StatusTerminal?
    ensures var t, pc := Next(w, Step(p, c)), w.procs[p];
            && p in t.procs && t.procs[p] == SaveThenWrite(pc.job, pc.attempt, pc.at, AwaitProvider)
            && t.row == w.row && t.attempts == w.attempts && t.history.submits == w.history.submits
  {
    Goes(w, p, c);
  }

  lemma NoClaim(w: World, p: nat, c: Choice)
    requires p in w.procs && (w.procs[p].CreateAttempt? || w.procs[p].RegisterEffect?) && c != Ok
    ensures var t, pc := Next(w, Step(p, c)), w.procs[p];
            && p in t.procs && t.procs[p].Guarded? && t.procs[p].job == pc.job && t.procs[p].write == Fail
            && t.row == w.row && t.attempts == w.attempts && t.history.submits == w.history.submits
  {
    Goes(w, p, c);
  }

  /** Without a terminal answer the job waits for the provider again, unchanged otherwise. */
  lemma PendingAlone(w: World, p: nat, c: Choice)
    requires Inv(w) && AllPlaced(w) && p in w.procs && w.procs[p].Poll? && w.procs[p].job == w.row && !c.StatusTerminal?
    ensures var t := Alone(w, p, [c, Ok, Ok]);
            && p in t.procs && t.procs[p] == Stopped && t.history.submits == w.history.submits
            && t.row == w.row.(state := AwaitingExternal, version := w.row.version + 1)
  {
    hide Inv, AllPlaced, Placed, ProcOk, Alone, Next, ValidJob, CanTransition, LocalEffect, AfterWrite;
    var pc := w.procs[p];
    ReadyAt(w, p);
    PlacedAt(w, p);
    Table();
    var w1 := Next(w, Step(p, c));
    NoAnswer(w, p, c);
    AloneStep(w, p, c, [Ok, Ok]);
    assert [c] + [Ok, Ok] == [c, Ok, Ok];
    SaveAlone(w1, p, pc.attempt, pc.at, AwaitProvider);
  }

  /** An attempt is saved, then the row is written, and that is all. */
  lemma SaveAlone(w: World, p: nat, a: Attempt, at: nat, wr: Write)
    requires ValidJob(w.row) && at < |w.attempts| && p in w.procs && w.procs[p] == SaveThenWrite(w.row, a, at, wr)
    requires wr in {AwaitProvider, Fail, ConfirmCancel, Cancel, Reconcile} || (wr.Succeed? && 0 <= wr.cost)
    requires CanTransition(w.row.state, Target(w.row, wr).state)
    ensures var t := Alone(w, p, [Ok, Ok]);
            && p in t.procs && t.procs[p] == Stopped && t.history.submits == w.history.submits
            && t.row == Target(w.row, wr).(version := w.row.version + 1) && t.attempts == w.attempts[at := a]
  {
    hide Alone, Next, LocalEffect, ValidJob, CanTransition;
    Saves(w, p, [Ok]);
    assert [Ok] + [Ok] == [Ok, Ok];
    var w1 := Next(w, Step(p, Ok));
    var w2 := Next(w1, Step(p, Ok));
    Writes(w1, p, Ok);
    AloneStep(w1, p, Ok, []);
    assert [Ok] + [] == [Ok];
    AloneStops(w2, p, []);
  }

  /** Submitting with nothing in between: an accepted submission leaves the worker polling a generating
      job whose attempt carries the provider's id; a rejected one fails the job; an unknown one leaves it
      waiting, without an id, for reconciliation. Each is one call of the provider. */
  lemma SubmitAlone(w: World, p: nat, c: Choice)
    requires Inv(w) && AllPlaced(w) && Traced(w)
    requires p in w.procs && w.procs[p].Submit? && w.procs[p].job == w.row
    ensures var pc, t := w.procs[p], Alone(w, p, [c, Ok, Ok, Ok]);
            && p in t.procs && t.history.submits == w.history.submits + 1
            && match c
               case SubmitOk(id) =>
                 && t.row == w.row.(state := Generating, version := w.row.version + 2)
                 && t.procs[p] == Poll(t.row, pc.attempt.(externalId := id), pc.at)
                 && t.attempts == w.attempts[pc.at := pc.attempt.(externalId := id)]
               case SubmitRejected =>
                 t.row == w.row.(state := Failed, version := w.row.version + 1) && t.procs[p] == Stopped
                 && t.attempts == w.attempts[pc.at := pc.attempt]
               case _ =>
                 t.row == w.row.(state := AwaitingExternal, version := w.row.version + 1) && t.procs[p] == Stopped
                 && t.attempts == w.attempts[pc.at := pc.attempt]
  {
    hide Inv, AllPlaced, ProcOk, Alone, Next, Traced, Told, CanTransition, Target, AfterWrite, ValidJob, Placed;
    var pc := w.procs[p];
    ReadyAt(w, p);
    PlacedAt(w, p);
    assert w.row.state == Submitting by { SubmitterKnows(w, p); }
    var w1 := Next(w, Step(p, c));
    Goes(w, p, c);
    AloneStep(w, p, c, [Ok, Ok, Ok]);
    assert [c] + [Ok, Ok, Ok] == [c, Ok, Ok, Ok];
    hide LocalEffect;
    if c.SubmitOk? {
      AcceptedAlone(w1, p, pc.attempt.(externalId := c.externalId), pc.at);
    } else {
      RefusedAlone(w1, p, pc.attempt, pc.at, if c.SubmitRejected? then Fail else AwaitProvider);
    }
  }

  lemma AcceptedAlone(w: World, p: nat, a: Attempt, at: nat)
    requires ValidJob(w.row) && w.row.state == Submitting && at < |w.attempts|
    requires p in w.procs && w.procs[p] == SaveThenWrite(w.row, a, at, MarkSubmitted)
    ensures var t := Alone(w, p, [Ok, Ok, Ok]);
            && p in t.procs && t.history.submits == w.history.submits && t.procs[p] == Poll(t.row, a, at)
            && t.row == w.row.(state := Generating, version := w.row.version + 2) && t.attempts == w.attempts[at := a]
  {
    hide Alone, Next, LocalEffect, ValidJob, CanTransition;
    Table();
    Saves(w, p, [Ok, Ok]);
    assert [Ok] + [Ok, Ok] == [Ok, Ok, Ok];
    var w2 := Next(w, Step(p, Ok));
    var w3 := Next(w2, Step(p, Ok));
    Writes(w2, p, Ok);
    AloneStep(w2, p, Ok, [Ok]);
    assert [Ok] + [Ok] == [Ok, Ok];
    var w4 := Next(w3, Step(p, Ok));
    Writes(w3, p, Ok);
    AloneStep(w3, p, Ok, []);
    assert [Ok] + [] == [Ok];
    NothingMore(w4, p);
  }

  lemma RefusedAlone(w: World, p: nat, a: Attempt, at: nat, wr: Write)
    requires ValidJob(w.row) && w.row.state == Submitting && at < |w.attempts| && wr in {Fail, AwaitProvider}
    requires p in w.procs && w.procs[p] == SaveThenWrite(w.row, a, at, wr)
    ensures var t := Alone(w, p, [Ok, Ok, Ok]);
            && p in t.procs && t.procs[p] == Stopped && t.history.submits == w.history.submits
            && t.row == w.row.(state := if wr == Fail then Failed else AwaitingExternal, version := w.row.version + 1)
            && t.attempts == w.attempts[at := a]
  {
    hide Alone, Next;
    SaveAlone(w, p, a, at, wr);
    AloneConcat(w, p, [Ok, Ok], [Ok]);
    assert [Ok, Ok] + [Ok] == [Ok, Ok, Ok];
    AloneStops(Alone(w, p, [Ok, Ok]), p, [Ok]);
  }

  lemma SubmitterKnows(w: World, p: nat)
    requires Traced(w) && p in w.procs && w.procs[p].Submit? && w.procs[p].job == w.row
    ensures w.row.state == Submitting
  {
    assert Told(w, p, w.procs[p]);
  }

  lemma NothingMore(w: World, p: nat)
    ensures Alone(w, p, []) == w
  {
  }

  lemma {:induction false} AloneConcat(w: World, p: nat, xs: seq<Choice>, ys: seq<Choice>)
    ensures Alone(w, p, xs + ys) == Alone(Alone(w, p, xs), p, ys)
    decreases |xs|
  {
    hide Next;
    if xs == [] {
      assert xs + ys == ys;
    } else {
      assert (xs + ys)[1..] == xs[1..] + ys;
      AloneConcat(Next(w, Step(p, xs[0])), p, xs[1..], ys);
    }
  }

  /** A new operation reads the row. */
  lemma Starts(w: World, p: nat, op: Op)
    requires p !in w.procs
    ensures var t := Next(Next(w, Start(p, op)), Step(p, Ok));
            && p in t.procs && t.procs[p] == AfterRead(w.row, op)
            && t.row == w.row && t.attempts == w.attempts && t.history.submits == w.history.submits
  {
    hide AfterRead;
  }

  /** A worker that picks up a queued job claims it, records one new attempt and is ready to submit;
      a managed job is bound to its effect in between. */
  lemma QueuedIsClaimed(w: World, p: nat)
    requires ValidJob(w.row) && w.row.state == Queued && w.row.attemptCount < w.row.maxAttempts && p !in w.procs
    ensures var read := Next(Next(w, Start(p, Process)), Step(p, Ok));
            var t := Alone(read, p, if w.row.managed then [Ok, Ok, Ok, Ok, Ok, Ok] else [Ok, Ok, Ok]);
            && p in t.procs && t.procs[p] == Submit(t.row, NO_ATTEMPT, |w.attempts|)
            && t.attempts == w.attempts + [NO_ATTEMPT] && t.history.submits == w.history.submits
            && t.row == w.row.(state := Submitting, attemptCount := w.row.attemptCount + 1,
                               effectBound := w.row.effectBound || w.row.managed, version := t.row.version)
  {
    hide Alone, Next;
    Starts(w, p, Process);
    var w1 := Next(Next(w, Start(p, Process)), Step(p, Ok));
    var w2 := Next(w1, Step(p, Ok));
    Goes(w1, p, Ok);
    var w3 := Next(w2, Step(p, Ok));
    Writes(w2, p, Ok);
    var w4 := Next(w3, Step(p, Ok));
    Goes(w3, p, Ok);
    assert w4.attempts == w.attempts + [NO_ATTEMPT];
    if w.row.managed {
      AloneStep(w1, p, Ok, [Ok, Ok, Ok, Ok, Ok]);
      assert [Ok] + [Ok, Ok, Ok, Ok, Ok] == [Ok, Ok, Ok, Ok, Ok, Ok];
      AloneStep(w2, p, Ok, [Ok, Ok, Ok, Ok]);
      assert [Ok] + [Ok, Ok, Ok, Ok] == [Ok, Ok, Ok, Ok, Ok];
      AloneStep(w3, p, Ok, [Ok, Ok, Ok]);
      assert [Ok] + [Ok, Ok, Ok] == [Ok, Ok, Ok, Ok];
      BindAlone(w4, p, |w.attempts|);
    } else {
      AloneStep(w1, p, Ok, [Ok, Ok]);
      assert [Ok] + [Ok, Ok] == [Ok, Ok, Ok];
      AloneStep(w2, p, Ok, [Ok]);
      assert [Ok] + [Ok] == [Ok, Ok];
      AloneStep(w3, p, Ok, []);
      assert [Ok] + [] == [Ok];
      NothingMore(w4, p);
    }
  }

  lemma BindAlone(w: World, p: nat, at: nat)
    requires ValidJob(w.row) && w.row.state == Submitting && w.row.managed && at < |w.attempts|
    requires p in w.procs && w.procs[p] == RegisterEffect(w.row, NO_ATTEMPT, at) && w.attempts[at] == NO_ATTEMPT
    ensures var t := Alone(w, p, [Ok, Ok, Ok]);
            && p in t.procs && t.procs[p] == Submit(t.row, NO_ATTEMPT, at)
            && t.attempts == w.attempts && t.history.submits == w.history.submits
            && t.row == w.row.(effectBound := true, version := w.row.version + 1)
  {
    hide Alone, Next;
    var w1 := Next(w, Step(p, Ok));
    Goes(w, p, Ok);
    AloneStep(w, p, Ok, [Ok, Ok]);
    assert [Ok] + [Ok, Ok] == [Ok, Ok, Ok];
    var w2 := Next(w1, Step(p, Ok));
    Goes(w1, p, Ok);
    AloneStep(w1, p, Ok, [Ok]);
    assert [Ok] + [Ok] == [Ok, Ok];
    var w3 := Next(w2, Step(p, Ok));
    Writes(w2, p, Ok);
    AloneStep(w2, p, Ok, []);
    assert [Ok] + [] == [Ok];
    NothingMore(w3, p);
  }

  lemma FailsAlone(w: World, p: nat)
    requires ValidJob(w.row) && w.row.state == Submitting
    requires p in w.procs && w.procs[p].Guarded? && w.procs[p].job == w.row && w.procs[p].write == Fail
    ensures var t := Alone(w, p, [Ok]);
            && t.row == w.row.(state := Failed, version := w.row.version + 1)
            && t.attempts == w.attempts && t.history.submits == w.history.submits
            && p in t.procs && t.procs[p] == Stopped
  {
    hide Alone, Next, ValidJob, CanTransition, LocalEffect;
    Table();
    var w2 := Next(w, Step(p, Ok));
    Writes(w, p, Ok);
    AloneStep(w, p, Ok, []);
    assert [Ok] + [] == [Ok];
    NothingMore(w2, p);
  }

  /** When the attempt cannot be recorded or the effect not registered, the claimed job fails without a
      call of the provider. */
  lemma ClaimFails(w: World, p: nat, c: Choice)
    requires Inv(w) && p in w.procs && c != Ok
    requires (w.procs[p].CreateAttempt? || w.procs[p].RegisterEffect?) && w.procs[p].job == w.row
    ensures var t := Alone(w, p, [c, Ok]);
            && t.row == w.row.(state := Failed, version := w.row.version + 1)
            && t.attempts == w.attempts && t.history.submits == w.history.submits
            && p in t.procs && t.procs[p] == Stopped
  {
    hide Inv, ProcOk, Alone, Next, ValidJob, CanTransition, LocalEffect, PcReady, CopyOf, BeforeSubmit;
    ReadyAt(w, p);
    var w1 := Next(w, Step(p, c));
    NoClaim(w, p, c);
    AloneStep(w, p, c, [Ok]);
    assert [c] + [Ok] == [c, Ok];
    FailsAlone(w1, p);
  }

  /** When an attempt cannot be saved, the operation ends there: the row write that was to follow is not
      made, whatever it was. */
  lemma SaveFails(w: World, p: nat, c: Choice, rest: seq<Choice>)
    requires p in w.procs && w.procs[p].SaveThenWrite? && c != Ok
    ensures var t := Alone(w, p, [c] + rest);
            && t.row == w.row && t.attempts == w.attempts && t.history.submits == w.history.submits
            && p in t.procs && t.procs[p] == Stopped
  {
    hide Alone, Next;
    Goes(w, p, c);
    AloneStep(w, p, c, rest);
    AloneStops(Next(w, Step(p, c)), p, rest);
  }

  /** A job that waits for a retry is queued first; from there it is as above. */
  lemma RetryIsQueued(w: World, p: nat)
    requires ValidJob(w.row) && w.row.state == RetryWait && p !in w.procs
    ensures var t := Alone(Next(Next(w, Start(p, Process)), Step(p, Ok)), p, [Ok]);
            && t.row == w.row.(state := Queued, version := w.row.version + 1)
            && p in t.procs && t.procs[p] == Preflight(t.row)
            && t.attempts == w.attempts && t.history.submits == w.history.submits
  {
    hide Alone, Next;
    Starts(w, p, Process);
    var w1 := Next(Next(w, Start(p, Process)), Step(p, Ok));
    var w2 := Next(w1, Step(p, Ok));
    Writes(w1, p, Ok);
    AloneStep(w1, p, Ok, []);
    assert [Ok] + [] == [Ok];
    NothingMore(w2, p);
  }

  /** A worker that resumes a waiting job polls its last attempt without submitting again; a job whose
      attempt is missing or has no provider id fails. */
  lemma WaitingIsPolled(w: World, p: nat)
    requires ValidJob(w.row) && w.row.state == AwaitingExternal && p !in w.procs
    ensures var t := Alone(Next(Next(w, Start(p, Process)), Step(p, Ok)), p, [Ok, Ok, Ok]);
            && p in t.procs && t.attempts == w.attempts && t.history.submits == w.history.submits
            && if w.attempts == [] || w.attempts[|w.attempts| - 1].externalId == ""
               then t.row == w.row.(state := Failed, version := w.row.version + 1) && t.procs[p] == Stopped
               else t.row == w.row.(state := Generating, version := w.row.version + 1)
                    && t.procs[p] == Poll(t.row, w.attempts[|w.attempts| - 1], |w.attempts| - 1)
  {
    hide Alone, Next;
    Starts(w, p, Process);
    var w1 := Next(Next(w, Start(p, Process)), Step(p, Ok));
    var w2 := Next(w1, Step(p, Ok));
    Goes(w1, p, Ok);
    AloneStep(w1, p, Ok, [Ok, Ok]);
    assert [Ok] + [Ok, Ok] == [Ok, Ok, Ok];
    var w3 := Next(w2, Step(p, Ok));
    Goes(w2, p, Ok);
    AloneStep(w2, p, Ok, [Ok]);
    assert [Ok] + [Ok] == [Ok, Ok];
    var w4 := Next(w3, Step(p, Ok));
    Writes(w3, p, Ok);
    AloneStep(w3, p, Ok, []);
    assert [Ok] + [] == [Ok];
    NothingMore(w4, p);
  }

  /** In any other state a worker leaves the job alone. */
  lemma OthersAreLeft(w: World, p: nat, cs: seq<Choice>)
    requires p !in w.procs && w.row.state !in {Queued, RetryWait, AwaitingExternal}
    ensures var t := Alone(Next(Next(w, Start(p, Process)), Step(p, Ok)), p, cs);
            t.row == w.row && t.attempts == w.attempts && t.history.submits == w.history.submits
  {
    hide Alone, Next;
    Starts(w, p, Process);
    AloneStops(Next(Next(w, Start(p, Process)), Step(p, Ok)), p, cs);
  }

  // ---------------------------------------------------------------- what people may do to the job

  /** An approval queues a job that waits for it, on the version it was given for; else nothing. */
  lemma ApproveAlone(w: World, p: nat, expected: int)
    requires ValidJob(w.row) && p !in w.procs
    ensures var t := Alone(Next(Next(w, Start(p, ApproveCost(expected))), Step(p, Ok)), p, [Ok]);
            && t.attempts == w.attempts && t.history.submits == w.history.submits
            && t.row == if expected == w.row.version && w.row.state in {AwaitingCostApproval, BudgetBlocked}
                        then w.row.(state := Queued, version := w.row.version + 1) else w.row
  {
    hide Alone, Next;
    Starts(w, p, ApproveCost(expected));
    var w1 := Next(Next(w, Start(p, ApproveCost(expected))), Step(p, Ok));
    var w2 := Next(w1, Step(p, Ok));
    AloneStep(w1, p, Ok, []);
    assert [Ok] + [] == [Ok];
    NothingMore(w2, p);
    if w1.procs[p].Guarded? { Writes(w1, p, Ok); } else { AloneStops(w1, p, [Ok]); }
  }

  /** A cancellation on the right version of a job that can still be cancelled: without a provider id, or
      when the provider agrees, the job is cancelled; when the adapter is unavailable nothing happens;
      and when the provider does not answer clearly the request is recorded and the job waits, if it can. */
  lemma CancelAlone(w: World, p: nat, expected: int, c: Choice)
    requires ValidJob(w.row) && p !in w.procs
    ensures var t := Alone(Next(Next(w, Start(p, CancelJob(expected))), Step(p, Ok)), p, [Ok, c, Ok, Ok]);
            var submitted := w.attempts != [] && w.attempts[|w.attempts| - 1].externalId != "";
            && t.attempts == w.attempts && t.history.submits == w.history.submits
            && t.row == if expected != w.row.version || w.row.state in {Downloading, Validating, Succeeded, Failed}
                           || (submitted && c == Unavailable)
                        then w.row
                        else if !submitted || c == Ok
                        then w.row.(state := Cancelled, cancelRequested := true, version := w.row.version + 1)
                        else if w.row.state in {Draft, Submitting, Submitted, Generating, AwaitingExternal}
                        then w.row.(state := AwaitingExternal, cancelRequested := true, version := w.row.version + 1)
                        else w.row
  {
    hide Alone, Next, LocalEffect, ValidJob;
    Starts(w, p, CancelJob(expected));
    WhereCancelled(w.row.state);
    hide CanTransition;
    var w1 := Next(Next(w, Start(p, CancelJob(expected))), Step(p, Ok));
    if w1.procs[p] == Stopped {
      AloneStops(w1, p, [Ok, c, Ok, Ok]);
    } else {
      LoadedAlone(w1, p, c);
    }
  }

  lemma WhereCancelled(s: State)
    ensures CanTransition(s, Cancelled) <==> s !in {Downloading, Validating, Succeeded, Failed}
  {
  }

  lemma LoadedAlone(w: World, p: nat, c: Choice)
    requires ValidJob(w.row) && CanTransition(w.row.state, Cancelled) && p in w.procs && w.procs[p] == CancelLoad(w.row)
    ensures var t := Alone(w, p, [Ok, c, Ok, Ok]);
            var submitted := w.attempts != [] && w.attempts[|w.attempts| - 1].externalId != "";
            && t.attempts == w.attempts && t.history.submits == w.history.submits
            && t.row == if submitted && c == Unavailable then w.row
                        else if !submitted || c == Ok
                        then w.row.(state := Cancelled, cancelRequested := true, version := w.row.version + 1)
                        else if w.row.state in {Draft, Submitting, Submitted, Generating, AwaitingExternal}
                        then w.row.(state := AwaitingExternal, cancelRequested := true, version := w.row.version + 1)
                        else w.row
  {
    hide Alone, Next, ValidJob, CanTransition, LocalEffect;
    var w2 := Next(w, Step(p, Ok));
    AttemptsLoaded(w, p);
    AloneStep(w, p, Ok, [c, Ok, Ok]);
    assert [Ok] + [c, Ok, Ok] == [Ok, c, Ok, Ok];
    var w3 := Next(w2, Step(p, c));
    AloneStep(w2, p, c, [Ok, Ok]);
    assert [c] + [Ok, Ok] == [c, Ok, Ok];
    if w2.procs[p].Guarded? {
      Writes(w2, p, c);
      AloneStops(w3, p, [Ok, Ok]);
    } else {
      CancelCalled(w2, p, c);
      CancelEnds(w3, p, w.attempts[|w.attempts| - 1], |w.attempts| - 1, c);
    }
  }

  lemma AttemptsLoaded(w: World, p: nat)
    requires p in w.procs && w.procs[p] == CancelLoad(w.row)
    ensures var t := Next(w, Step(p, Ok));
            && p in t.procs && t.row == w.row && t.attempts == w.attempts && t.history.submits == w.history.submits
            && t.procs[p] == if w.attempts == [] || w.attempts[|w.attempts| - 1].externalId == ""
                             then Guarded(w.row, NO_ATTEMPT, 0, Cancel)
                             else CancelCall(w.row, w.attempts[|w.attempts| - 1], |w.attempts| - 1)
  {
    Goes(w, p, Ok);
  }

  lemma CancelCalled(w: World, p: nat, c: Choice)
    requires p in w.procs && w.procs[p].CancelCall?
    ensures var t, pc := Next(w, Step(p, c)), w.procs[p];
            && p in t.procs && t.row == w.row && t.attempts == w.attempts && t.history.submits == w.history.submits
            && t.procs[p] == if c == Unavailable then Stopped
                             else if c == Ok then SaveThenWrite(pc.job, pc.attempt, pc.at, Cancel)
                             else Guarded(pc.job, pc.attempt, pc.at, CancelUnknown)
  {
    Goes(w, p, c);
  }

  lemma CancelEnds(w: World, p: nat, a: Attempt, at: nat, c: Choice)
    requires ValidJob(w.row) && at < |w.attempts| && w.attempts[at] == a && CanTransition(w.row.state, Cancelled)
    requires p in w.procs && w.procs[p] == if c == Unavailable then Stopped
                                           else if c == Ok then SaveThenWrite(w.row, a, at, Cancel)
                                           else Guarded(w.row, a, at, CancelUnknown)
    ensures var t := Alone(w, p, [Ok, Ok]);
            && t.attempts == w.attempts && t.history.submits == w.history.submits
            && t.row == if c == Unavailable then w.row
                        else if c == Ok
                        then w.row.(state := Cancelled, cancelRequested := true, version := w.row.version + 1)
                        else if w.row.state in {Draft, Submitting, Submitted, Generating, AwaitingExternal}
                        then w.row.(state := AwaitingExternal, cancelRequested := true, version := w.row.version + 1)
                        else w.row
  {
    hide Alone, Next;
    if c == Unavailable {
      AloneStops(w, p, [Ok, Ok]);
    } else if c == Ok {
      SaveAlone(w, p, a, at, Cancel);
    } else {
      UnclearAlone(w, p, a, at);
    }
  }

  lemma WhereUnclear(s: State)
    ensures CanTransition(s, AwaitingExternal)
            <==> s in {Draft, Submitting, Submitted, Generating, AwaitingExternal}
  {
  }

  lemma UnclearAlone(w: World, p: nat, a: Attempt, at: nat)
    requires ValidJob(w.row) && at < |w.attempts| && w.attempts[at] == a && CanTransition(w.row.state, Cancelled)
    requires p in w.procs && w.procs[p] == Guarded(w.row, a, at, CancelUnknown)
    ensures var t := Alone(w, p, [Ok, Ok]);
            && t.attempts == w.attempts && t.history.submits == w.history.submits
            && t.row == if w.row.state in {Draft, Submitting, Submitted, Generating, AwaitingExternal}
                        then w.row.(state := AwaitingExternal, cancelRequested := true, version := w.row.version + 1)
                        else w.row
  {
    WhereUnclear(w.row.state);
    hide Alone, Next, ValidJob, CanTransition;
    var w1 := Next(w, Step(p, Ok));
    Writes(w, p, Ok);
    AloneStep(w, p, Ok, [Ok]);
    assert [Ok] + [Ok] == [Ok, Ok];
    if w1.procs[p] == Stopped {
      AloneStops(w1, p, [Ok]);
    } else {
      var w2 := Next(w1, Step(p, Ok));
      Goes(w1, p, Ok);
      AloneStep(w1, p, Ok, []);
      assert [Ok] + [] == [Ok];
      NothingMore(w2, p);
    }
  }

  /** A reconciliation binds a well-formed provider id to the last attempt of a waiting job, on the right
      version, exactly when that attempt has none; the state never changes. */
  lemma ReconcileAlone(w: World, p: nat, expected: int, id: string)
    requires ValidJob(w.row) && p !in w.procs
    ensures var t := Alone(Next(Next(w, Start(p, ReconcileSubmit(expected, id))), Step(p, Ok)), p, [Ok, Ok, Ok]);
            var last := |w.attempts| - 1;
            var binds := expected == w.row.version && w.row.state == AwaitingExternal
                         && 0 < |id| <= 256 && '/' !in id && '?' !in id && '#' !in id
                         && w.attempts != [] && w.attempts[last].externalId == "";
            && t.history.submits == w.history.submits
            && t.row == (if binds then w.row.(version := w.row.version + 1) else w.row)
            && t.attempts == if binds then w.attempts[last := w.attempts[last].(externalId := id)] else w.attempts
  {
    hide Alone, Next;
    Starts(w, p, ReconcileSubmit(expected, id));
    var w1 := Next(Next(w, Start(p, ReconcileSubmit(expected, id))), Step(p, Ok));
    if w1.procs[p] == Stopped {
      AloneStops(w1, p, [Ok, Ok, Ok]);
    } else {
      var w2 := Next(w1, Step(p, Ok));
      Goes(w1, p, Ok);
      AloneStep(w1, p, Ok, [Ok, Ok]);
      assert [Ok] + [Ok, Ok] == [Ok, Ok, Ok];
      if w2.procs[p] == Stopped {
        AloneStops(w2, p, [Ok, Ok]);
      } else {
        var last := |w.attempts| - 1;
        SaveAlone(w2, p, w.attempts[last].(externalId := id), last, Reconcile);
      }
    }
  }
}
