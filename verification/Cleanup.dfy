/** Durable cleanup of a speculative blob: claim, delete, finalize over compare-and-set on the
    diagnostic row, with lease-expiry reclaim by other workers and manual retries.

    As in MediaJobs, an operation is a program counter that touches shared state at most once per
    step; a schedule interleaves any number of scanning workers and manual retries, lets time
    pass, and may stop any of them between two steps. Times are whole seconds. */
module Cleanup {
  import opened Wrappers
  import opened Schedules

  datatype Status = Pending | Retrying | Cleaned | NotFound | Failed

  datatype Diagnostic = Diagnostic(
    status: Status, version: int, attemptCount: int, nextRetryAt: Option<int>, updatedAt: int)

  const CLAIM_LEASE := 300
  const HOUR := 3600

  predicate Done(s: Status) { s == Cleaned || s == NotFound }

  predicate ValidDiagnostic(d: Diagnostic) {
    1 <= d.version && 0 <= d.attemptCount && (Done(d.status) ==> d.nextRetryAt.None?)
  }

  predicate ValidTransition(from: Status, to: Status) {
    match from
    case Pending => to == Retrying
    case Retrying => to in {Cleaned, NotFound, Failed}
    case Failed => to == Retrying
    case _ => false
  }

  /** UpdateRuntimeCleanupDiagnostic, the store's compare-and-set. */
  predicate Accepts(row: Diagnostic, value: Diagnostic) {
    ValidDiagnostic(value) && value.version == row.version + 1 && ValidTransition(row.status, value.status)
  }

  // ---------------------------------------------------------------- backoff

  function Pow2(n: nat): (r: int)
    ensures 1 <= r
  {
    if n == 0 then 1 else 2 * Pow2(n - 1)
  }

  lemma {:induction false} Pow2Monotone(m: nat, n: nat)
    requires m <= n
    ensures Pow2(m) <= Pow2(n)
  {
    if m < n { Pow2Monotone(m, n - 1); }
  }

  function Min(a: int, b: int): int { if a < b then a else b }

  /** Doubling from one minute, capped at one hour, for every attempt count. */
  function Backoff(attemptCount: int): int {
    Min(60 * Pow2(if attemptCount < 1 then 0 else attemptCount - 1), HOUR)
  }

  /** The first delay is a minute; each next one is twice the last, up to an hour. */
  lemma BackoffDoubles(attemptCount: int)
    ensures attemptCount <= 1 ==> Backoff(attemptCount) == 60
    ensures 1 <= attemptCount ==> Backoff(attemptCount + 1) == Min(2 * Backoff(attemptCount), 3600)
  {
  }

  method RetryDelay(attemptCount: int) returns (delay: int)
    ensures delay == Backoff(attemptCount)
    ensures 60 <= delay <= 3600 && (attemptCount <= 1 ==> delay == 60)
  {
    var count := if attemptCount < 1 then 1 else attemptCount;
    delay := 60;
    var i := 1;
    while i < count && delay < HOUR
      invariant 1 <= i <= count
      invariant delay == 60 * Pow2(i - 1)
    {
      delay := delay * 2;
      i := i + 1;
    }
    Pow2Monotone(i - 1, count - 1);
    if delay > HOUR {
      delay := HOUR;
    }
  }

  // ---------------------------------------------------------------- the protocol

  datatype Outcome = Deleted | Missing | Refused

  datatype Pc =
    | ScanList
    | ScanItem(item: Diagnostic)
    | Reclaim(item: Diagnostic, at: int)
    | RetryRead
    | ClaimWrite(item: Diagnostic, at: int)
    | Delete(claim: Diagnostic)
    | Finalize(claim: Diagnostic, outcome: Outcome, at: int)
    | Stopped

  /** How the blob store answers: success, not found, or an error that may or may not have erased. */
  datatype Choice = DeleteOk | DeleteNotFound | DeleteError(erased: bool)

  datatype Action =
    | StartWorker(p: nat) | StartRetry(p: nat) | Step(p: nat, choice: Choice) | Crash(p: nat) | Tick(seconds: nat)

  datatype World = World(row: Diagnostic, blob: bool, now: int, procs: map<nat, Pc>, claims: nat)

  function Expired(d: Diagnostic, at: int): Diagnostic {
    d.(status := Failed, nextRetryAt := Some(at), version := d.version + 1, updatedAt := at)
  }

  function Claimed(d: Diagnostic, at: int): Diagnostic {
    d.(status := Retrying, nextRetryAt := None, attemptCount := d.attemptCount + 1, version := d.version + 1,
       updatedAt := at)
  }

  function Finalized(claim: Diagnostic, outcome: Outcome, at: int): Diagnostic {
    var d := claim.(version := claim.version + 1, updatedAt := at);
    match outcome
    case Deleted => d.(status := Cleaned, nextRetryAt := None)
    case Missing => d.(status := NotFound, nextRetryAt := None)
    case Refused => d.(status := Failed, nextRetryAt := Some(at + Backoff(d.attemptCount)))
  }

  /** The worker's decision about one listed diagnostic. */
  function Decide(item: Diagnostic, now: int): Pc {
    if item.status == Retrying then
      if now - item.updatedAt < CLAIM_LEASE then Stopped else Reclaim(item, now)
    else if Done(item.status) then Stopped
    else if item.status == Failed && item.nextRetryAt.Some? && now < item.nextRetryAt.value then Stopped
    else RetryRead
  }

  function Goto(w: World, p: nat, pc: Pc): World { w.(procs := w.procs[p := pc]) }

  /** What one step leaves behind: the row, the blob, the next program point, and whether it
      won a claim. */
  datatype Effect = Effect(row: Diagnostic, blob: bool, pc: Pc, won: bool)

  /** A guarded row write; a refused write stops the operation. */
  function Guarded(row: Diagnostic, blob: bool, value: Diagnostic, next: Pc): Effect {
    if Accepts(row, value) then Effect(value, blob, next, next.Delete?) else Effect(row, blob, Stopped, false)
  }

  function StepEffect(row: Diagnostic, blob: bool, now: int, pc: Pc, c: Choice): Effect {
    match pc
    case ScanList => Effect(row, blob, ScanItem(row), false)
    case ScanItem(item) => Effect(row, blob, Decide(item, now), false)
    case Reclaim(item, at) => Guarded(row, blob, Expired(item, at), RetryRead)
    case RetryRead =>
      Effect(row, blob, if row.status in {Pending, Failed} then ClaimWrite(row, now) else Stopped, false)
    case ClaimWrite(item, at) => Guarded(row, blob, Claimed(item, at), Delete(Claimed(item, at)))
    case Delete(claim) =>
      (match c
       case DeleteOk => Effect(row, false, Finalize(claim, Deleted, now), false)
       case DeleteNotFound => Effect(row, blob, Finalize(claim, if blob then Refused else Missing, now), false)
       case DeleteError(erased) => Effect(row, blob && !erased, Finalize(claim, Refused, now), false))
    case Finalize(claim, outcome, at) => Guarded(row, blob, Finalized(claim, outcome, at), Stopped)
    case Stopped => Effect(row, blob, Stopped, false)
  }

  function StepOf(w: World, p: nat, c: Choice): World
    requires p in w.procs
  {
    var e := StepEffect(w.row, w.blob, w.now, w.procs[p], c);
    World(e.row, e.blob, w.now, w.procs[p := e.pc], w.claims + if e.won then 1 else 0)
  }

  function Next(w: World, action: Action): World {
    match action
    case StartWorker(p) => if p in w.procs then w else Goto(w, p, ScanList)
    case StartRetry(p) => if p in w.procs then w else Goto(w, p, RetryRead)
    case Step(p, c) => if p in w.procs then StepOf(w, p, c) else w
    case Crash(p) => if p in w.procs then Goto(w, p, Stopped) else w
    case Tick(seconds) => w.(now := w.now + seconds)
  }

  ghost predicate Initial(w: World) {
    && ValidDiagnostic(w.row) && w.row.status in {Pending, Failed}
    && w.procs == map[] && w.claims == w.row.attemptCount
  }

  // ---------------------------------------------------------------- the inductive invariant

  predicate Holds(pc: Pc) { pc.Delete? || pc.Finalize? }

  ghost predicate Older(copy: Diagnostic, row: Diagnostic) {
    ValidDiagnostic(copy) && copy.version <= row.version && (copy.version == row.version ==> copy == row)
  }

  ghost predicate ProcOk(row: Diagnostic, blob: bool, pc: Pc) {
    match pc
    case ScanItem(item) => Older(item, row)
    case Reclaim(item, _) => Older(item, row) && item.status == Retrying
    case ClaimWrite(item, _) => Older(item, row) && item.status in {Pending, Failed}
    case Delete(claim) => Older(claim, row) && claim.status == Retrying
    case Finalize(claim, outcome, _) =>
      Older(claim, row) && claim.status == Retrying && (outcome != Refused ==> !blob)
    case _ => true
  }

  ghost predicate Inv(w: World) {
    && ValidDiagnostic(w.row)
    && w.claims == w.row.attemptCount
    && (Done(w.row.status) ==> !w.blob)
    && (forall p :: p in w.procs ==> ProcOk(w.row, w.blob, w.procs[p]))
    && (forall p, q :: p in w.procs && q in w.procs && p != q && Holds(w.procs[p]) && Holds(w.procs[q])
          ==> w.procs[p].claim.version != w.procs[q].claim.version)
  }

  /** Any other operation's facts survive a step that keeps the row or moves its version up, and
      never brings the blob back. */
  lemma OtherProcOk(w: World, w': World, pc: Pc)
    requires ProcOk(w.row, w.blob, pc)
    requires w'.row == w.row || w.row.version < w'.row.version
    requires w'.blob ==> w.blob
    ensures ProcOk(w'.row, w'.blob, pc)
  {
  }

  lemma OwnStepOk(w: World, pc: Pc, c: Choice)
    requires ProcOk(w.row, w.blob, pc) && ValidDiagnostic(w.row)
    ensures var e := StepEffect(w.row, w.blob, w.now, pc, c);
            && ValidDiagnostic(e.row)
            && (e.row == w.row || e.row.version == w.row.version + 1)
            && (e.blob ==> w.blob)
            && (e.row != w.row && Done(e.row.status) ==> !e.blob)
            && e.row.attemptCount == w.row.attemptCount + (if e.won then 1 else 0)
            && (Holds(e.pc) ==> (e.pc.claim.version == e.row.version && e.row != w.row)
                                || (Holds(pc) && e.pc.claim == pc.claim))
            && ProcOk(e.row, e.blob, e.pc)
  {
  }

  lemma StepKeepsInv(w: World, p: nat, c: Choice)
    requires Inv(w) && p in w.procs
    ensures Inv(StepOf(w, p, c))
  {
    var w' := StepOf(w, p, c);
    assert ProcOk(w.row, w.blob, w.procs[p]);
    OwnStepOk(w, w.procs[p], c);
    forall q | q in w'.procs ensures ProcOk(w'.row, w'.blob, w'.procs[q]) {
      if q != p {
        assert ProcOk(w.row, w.blob, w.procs[q]);
        OtherProcOk(w, w', w.procs[q]);
      }
    }
    forall q | q in w.procs && q != p && Holds(w.procs[q]) && Holds(w'.procs[p])
      ensures w'.procs[p].claim.version != w.procs[q].claim.version
    {
      assert ProcOk(w.row, w.blob, w.procs[q]);
    }
  }

  lemma NextKeepsInv(w: World, action: Action)
    requires Inv(w)
    ensures Inv(Next(w, action))
  {
    if action.Step? && action.p in w.procs {
      StepKeepsInv(w, action.p, action.choice);
    } else {
      var w' := Next(w, action);
      forall q | q in w'.procs ensures ProcOk(w'.row, w'.blob, w'.procs[q]) {
        if q in w.procs { assert ProcOk(w.row, w.blob, w.procs[q]); }
      }
    }
  }

  lemma RunKeepsInv(w: World, schedule: seq<Action>)
    requires Inv(w)
    ensures Inv(Run(Next, w, schedule))
  {
    forall v, a | Inv(v) ensures Inv(Next(v, a)) { NextKeepsInv(v, a); }
    RunInvariant(Next, Inv, w, schedule);
  }

  // ---------------------------------------------------------------- the theorems, over every schedule

  /** The live claim: an operation between claim and finalize whose claim is the row itself. */
  predicate HoldsLive(w: World, p: nat) {
    p in w.procs && Holds(w.procs[p]) && w.procs[p].claim.version == w.row.version
  }

  /** At every point: at most one live claim, it is exactly the retrying row, attempts equal
      successful claims, and a finished cleanup means the blob is gone. */
  lemma ProtocolSafety(w0: World, schedule: seq<Action>, p: nat, q: nat)
    requires Initial(w0)
    ensures var w := Run(Next, w0, schedule);
            && (HoldsLive(w, p) && HoldsLive(w, q) ==> p == q)
            && (HoldsLive(w, p) ==> w.row.status == Retrying && w.procs[p].claim == w.row)
            && w.claims == w.row.attemptCount
            && (Done(w.row.status) ==> !w.blob)
  {
    RunKeepsInv(w0, schedule);
    var w := Run(Next, w0, schedule);
    if p in w.procs { assert ProcOk(w.row, w.blob, w.procs[p]); }
  }

  /** v is what w became: the row at w's version, or a later one. */
  ghost predicate Later(w: World, v: World) {
    w.row.version <= v.row.version && (w.row.version == v.row.version ==> v.row == w.row)
  }

  lemma NextIsLater(w: World, action: Action)
    requires Inv(w)
    ensures Later(w, Next(w, action))
  {
    if action.Step? && action.p in w.procs {
      assert ProcOk(w.row, w.blob, w.procs[action.p]);
      OwnStepOk(w, w.procs[action.p], action.choice);
    }
  }

  /** The row only ever moves to a higher version; equal versions mean the same row. */
  lemma VersionsIncrease(w: World, schedule: seq<Action>)
    requires Inv(w)
    ensures Later(w, Run(Next, w, schedule))
  {
    hide Next, Inv;
    forall v, a | Inv(v) && Later(w, v) ensures Inv(Next(v, a)) && Later(w, Next(v, a)) {
      NextKeepsInv(v, a);
      NextIsLater(v, a);
    }
    RunInvariant(Next, v => Inv(v) && Later(w, v), w, schedule);
  }

  /** Cleaned and not-found are absorbing: no later step changes the row at all. */
  lemma DoneIsAbsorbing(w: World, schedule: seq<Action>)
    requires Inv(w) && Done(w.row.status)
    ensures Run(Next, w, schedule).row == w.row
  {
    forall v: World, a | v.row == w.row ensures Next(v, a).row == w.row {
    }
    RunInvariant(Next, (v: World) => v.row == w.row, w, schedule);
  }

  /** p holds a claim that is no longer the row, or has stopped. */
  ghost predicate Superseded(w: World, p: nat, claim: Diagnostic) {
    && p in w.procs
    && (w.procs[p] == Stopped || (Holds(w.procs[p]) && w.procs[p].claim == claim && claim.version < w.row.version))
  }

  lemma SupersededStays(w: World, p: nat, claim: Diagnostic, action: Action)
    requires Inv(w) && Superseded(w, p, claim)
    ensures Superseded(Next(w, action), p, claim)
    ensures action.Step? && action.p == p ==> Next(w, action).row == w.row
  {
    NextIsLater(w, action);
  }

  /** A worker whose claim was taken over keeps its stale claim or stops, and none of its own
      steps moves the row again. */
  lemma LateResultRefused(w: World, schedule: seq<Action>, p: nat, c: Choice)
    requires Inv(w) && p in w.procs && Holds(w.procs[p]) && w.procs[p].claim.version < w.row.version
    ensures var w' := Run(Next, w, schedule);
            Superseded(w', p, w.procs[p].claim) && Next(w', Step(p, c)).row == w'.row
  {
    hide Next, Inv;
    var claim := w.procs[p].claim;
    forall v, a | Inv(v) && Superseded(v, p, claim) ensures Inv(Next(v, a)) && Superseded(Next(v, a), p, claim) {
      NextKeepsInv(v, a);
      SupersededStays(v, p, claim, a);
    }
    RunInvariant(Next, v => Inv(v) && Superseded(v, p, claim), w, schedule);
    SupersededStays(Run(Next, w, schedule), p, claim, Step(p, c));
  }

  // ---------------------------------------------------------------- recovery

  /** From a readable pending or failed row, claim, delete and finalize run to completion. */
  lemma RetryCompletes(w: World, p: nat) returns (schedule: seq<Action>)
    requires Inv(w) && p in w.procs && w.procs[p] == RetryRead && w.row.status in {Pending, Failed}
    ensures Run(Next, w, schedule).row.status == Cleaned
  {
    var s := Step(p, DeleteOk);
    var w1 := Next(w, s);
    var w2 := Next(w1, s);
    var w3 := Next(w2, s);
    var w4 := Next(w3, s);
    assert w2.procs[p] == Delete(Claimed(w.row, w.now)) && w2.row == Claimed(w.row, w.now);
    assert w4.row.status == Cleaned;
    schedule := [s] + [s] + [s] + [s];
    RunOne(Next, w, s); RunOne(Next, w1, s); RunOne(Next, w2, s); RunOne(Next, w3, s);
    RunConcat(Next, w, [s], [s]);
    RunConcat(Next, w, [s] + [s], [s]);
    RunConcat(Next, w, [s] + [s] + [s], [s]);
  }

  /** A worker that starts after every lease and backoff has run out completes the cleanup. */
  lemma WorkerCompletes(w: World, p: nat) returns (schedule: seq<Action>)
    requires Inv(w) && p in w.procs && w.procs[p] == ScanItem(w.row) && !Done(w.row.status)
    requires w.row.updatedAt + CLAIM_LEASE <= w.now
    requires w.row.nextRetryAt.Some? ==> w.row.nextRetryAt.value <= w.now
    ensures Run(Next, w, schedule).row.status == Cleaned
  {
    var s := Step(p, DeleteOk);
    var w1 := Next(w, s);
    NextKeepsInv(w, s);
    RunOne(Next, w, s);
    if w.row.status == Retrying {
      var w2 := Next(w1, s);
      NextKeepsInv(w1, s);
      RunOne(Next, w1, s);
      assert w2.procs[p] == RetryRead && w2.row.status == Failed;
      var rest := RetryCompletes(w2, p);
      RunConcat(Next, w1, [s], rest);
      schedule := [s] + ([s] + rest);
      RunConcat(Next, w, [s], [s] + rest);
    } else {
      var rest := RetryCompletes(w1, p);
      schedule := [s] + rest;
      RunConcat(Next, w, [s], rest);
    }
  }

  /** No interleaving of crashes and abandoned claims wedges the diagnostic: whatever happened
      before, waiting out the lease and starting one fresh worker can finish the cleanup. */
  lemma AlwaysRecoverable(w0: World, before: seq<Action>, novel: nat)
    requires Initial(w0) && novel !in Run(Next, w0, before).procs && !Done(Run(Next, w0, before).row.status)
    ensures exists after :: Done(Run(Next, w0, before + after).row.status)
  {
    RunKeepsInv(w0, before);
    var w := Run(Next, w0, before);
    var head := [Tick(Wait(w)), StartWorker(novel), Step(novel, DeleteOk)];
    var w3 := Next(Next(Next(w, head[0]), head[1]), head[2]);
    assert head[1..] == [head[1], head[2]] && [head[1], head[2]][1..] == [head[2]];
    RunOne(Next, Next(Next(w, head[0]), head[1]), head[2]);
    assert Run(Next, w, head) == w3;
    RunKeepsInv(w, head);
    var tail := WorkerCompletes(w3, novel);
    RunConcat(Next, w, head, tail);
    RunConcat(Next, w0, before, head + tail);
    assert Done(Run(Next, w0, before + (head + tail)).row.status);
  }

  /** Long enough for any lease or backoff recorded on the row to have run out. */
  function Wait(w: World): nat {
    var lease := w.row.updatedAt + CLAIM_LEASE - w.now;
    var retry := if w.row.nextRetryAt.Some? then w.row.nextRetryAt.value - w.now else 0;
    (if 0 < lease then lease else 0) + (if 0 < retry then retry else 0)
  }

  // ---------------------------------------------------------------- the reconcile loop's report

  datatype WriteResult = Stored | Raced | Broken
  datatype RetryResult = Finished(status: Status) | DeleteFailed(status: Status) | RetryRaced | RetryBroken

  /** What the environment answers while one listed item is handled. */
  datatype Turn = Turn(now: int, reclaim: WriteResult, retry: RetryResult)

  datatype Report = Report(scanned: nat, reclaimed: nat, claimed: nat, cleaned: nat, notFound: nat, failed: nat,
                           skipped: nat)

  predicate RetryAnswer(r: RetryResult) {
    match r
    case Finished(status) => Done(status)
    case DeleteFailed(status) => status == Failed
    case _ => true
  }

  datatype Verdict = Skipped | CleanedUp | Vanished | Undeleted | Aborted

  /** What becomes of one listed item: whether its expired claim is taken back, and the result. */
  datatype Entry = Entry(reclaimed: bool, verdict: Verdict)

  function Retried(r: RetryResult): Verdict {
    match r
    case Finished(status) => if status == Cleaned then CleanedUp else Vanished
    case DeleteFailed(_) => Undeleted
    case RetryRaced => Skipped
    case RetryBroken => Aborted
  }

  function Judge(item: Diagnostic, t: Turn): Entry {
    match Decide(item, t.now)
    case Stopped => Entry(false, Skipped)
    case Reclaim(_, _) =>
      (match t.reclaim
       case Raced => Entry(false, Skipped)
       case Broken => Entry(false, Aborted)
       case Stored => Entry(true, Retried(t.retry)))
    case _ => Entry(false, Retried(t.retry))
  }

  function Counted(r: Report, e: Entry): Report {
    var s := if e.reclaimed then r.(reclaimed := r.reclaimed + 1) else r;
    match e.verdict
    case Skipped => s.(skipped := s.skipped + 1)
    case CleanedUp => s.(claimed := s.claimed + 1, cleaned := s.cleaned + 1)
    case Vanished => s.(claimed := s.claimed + 1, notFound := s.notFound + 1)
    case Undeleted => s.(claimed := s.claimed + 1, failed := s.failed + 1)
    case Aborted => s
  }

  function Tally(items: seq<Diagnostic>, turns: seq<Turn>, n: nat): Report
    requires n <= |items| == |turns|
  {
    if n == 0 then Report(|items|, 0, 0, 0, 0, 0, 0)
    else Counted(Tally(items, turns, n - 1), Judge(items[n - 1], turns[n - 1]))
  }

  /** Every judged item is counted once as skipped or claimed, every claim once by its result. */
  lemma {:induction false} TallyConserves(items: seq<Diagnostic>, turns: seq<Turn>, n: nat)
    requires n <= |items| == |turns| && forall i :: 0 <= i < n ==> Judge(items[i], turns[i]).verdict != Aborted
    ensures var r := Tally(items, turns, n);
            r.scanned == |items| && r.skipped + r.claimed == n && r.claimed == r.cleaned + r.notFound + r.failed
            && r.reclaimed <= n
  {
    if n > 0 { TallyConserves(items, turns, n - 1); }
  }

  /** The items among the first n that come to the verdict, and those whose claim is taken back. */
  function Which(items: seq<Diagnostic>, turns: seq<Turn>, n: nat, v: Verdict): set<nat>
    requires n <= |items| == |turns|
  {
    set i: nat | 0 <= i < n && Judge(items[i], turns[i]).verdict == v
  }

  function Reclaims(items: seq<Diagnostic>, turns: seq<Turn>, n: nat): set<nat>
    requires n <= |items| == |turns|
  {
    set i: nat | 0 <= i < n && Judge(items[i], turns[i]).reclaimed
  }

  lemma WhichMore(items: seq<Diagnostic>, turns: seq<Turn>, n: nat, v: Verdict)
    requires n < |items| == |turns|
    ensures |Which(items, turns, n + 1, v)|
            == |Which(items, turns, n, v)| + if Judge(items[n], turns[n]).verdict == v then 1 else 0
  {
    hide Judge;
    assert Which(items, turns, n + 1, v)
           == Which(items, turns, n, v) + if Judge(items[n], turns[n]).verdict == v then {n} else {};
  }

  lemma ReclaimsMore(items: seq<Diagnostic>, turns: seq<Turn>, n: nat)
    requires n < |items| == |turns|
    ensures |Reclaims(items, turns, n + 1)|
            == |Reclaims(items, turns, n)| + if Judge(items[n], turns[n]).reclaimed then 1 else 0
  {
    hide Judge;
    assert Reclaims(items, turns, n + 1)
           == Reclaims(items, turns, n) + if Judge(items[n], turns[n]).reclaimed then {n} else {};
  }

  /** Each counter is the number of items that came to it. */
  lemma {:induction false} TallyCounts(items: seq<Diagnostic>, turns: seq<Turn>, n: nat)
    requires n <= |items| == |turns|
    ensures var r := Tally(items, turns, n);
            && r.reclaimed == |Reclaims(items, turns, n)|
            && r.skipped == |Which(items, turns, n, Skipped)|
            && r.cleaned == |Which(items, turns, n, CleanedUp)|
            && r.notFound == |Which(items, turns, n, Vanished)|
            && r.failed == |Which(items, turns, n, Undeleted)|
  {
    hide Judge;
    if n > 0 {
      TallyCounts(items, turns, n - 1);
      ReclaimsMore(items, turns, n - 1);
      WhichMore(items, turns, n - 1, Skipped);
      WhichMore(items, turns, n - 1, CleanedUp);
      WhichMore(items, turns, n - 1, Vanished);
      WhichMore(items, turns, n - 1, Undeleted);
    } else {
      assert Reclaims(items, turns, 0) == {} && forall v :: Which(items, turns, 0, v) == {};
    }
  }

  /** Taking an item up: its lease has run out and the claim was taken back, or it is pending, or it has
      failed and its retry time has come. */
  predicate TakenUp(item: Diagnostic, t: Turn) {
    match item.status
    case Retrying => t.now - item.updatedAt >= 300 && t.reclaim == Stored
    case Pending => true
    case Failed => item.nextRetryAt.Some? ==> item.nextRetryAt.value <= t.now
    case _ => false
  }

  /** What one item comes to. It is left alone exactly when it is done, retrying within the lease, failed
      with its retry time ahead, or somebody else was faster; a claim is taken back exactly when its lease
      of three hundred seconds has run out; and what is taken up counts as the retry came out. */
  lemma Judged(item: Diagnostic, t: Turn)
    requires RetryAnswer(t.retry)
    ensures var e := Judge(item, t);
            && (e.reclaimed <==> item.status == Retrying && t.now - item.updatedAt >= 300 && t.reclaim == Stored)
            && (e.verdict == Skipped
                <==> || item.status in {Cleaned, NotFound}
                     || (item.status == Retrying && (t.now - item.updatedAt < 300 || t.reclaim == Raced))
                     || (item.status == Failed && item.nextRetryAt.Some? && t.now < item.nextRetryAt.value)
                     || (TakenUp(item, t) && t.retry == RetryRaced))
            && (e.verdict == CleanedUp <==> TakenUp(item, t) && t.retry == Finished(Cleaned))
            && (e.verdict == Vanished <==> TakenUp(item, t) && t.retry == Finished(NotFound))
            && (e.verdict == Undeleted <==> TakenUp(item, t) && t.retry == DeleteFailed(Failed))
            && (e.verdict == Aborted
                <==> || (item.status == Retrying && t.now - item.updatedAt >= 300 && t.reclaim == Broken)
                     || (TakenUp(item, t) && t.retry == RetryBroken))
  {
  }

  lemma ReportIs(items: seq<Diagnostic>, turns: seq<Turn>)
    requires |turns| == |items| && forall i :: 0 <= i < |turns| ==> RetryAnswer(turns[i].retry)
    ensures forall n :: 0 <= n <= |items| ==>
              var r := Tally(items, turns, n);
              && r.reclaimed == |Reclaims(items, turns, n)|
              && r.skipped == |Which(items, turns, n, Skipped)|
              && r.cleaned == |Which(items, turns, n, CleanedUp)|
              && r.notFound == |Which(items, turns, n, Vanished)|
              && r.failed == |Which(items, turns, n, Undeleted)|
  {
    forall n: nat | n <= |items| { TallyCounts(items, turns, n); }
  }

  /** The report is the tally of the items up to the first one that aborts the pass, if any, and
      accounts for every item exactly when the pass completes. */
  method Scan(items: seq<Diagnostic>, turns: seq<Turn>) returns (r: Report, completed: bool, ghost n: nat)
    requires |turns| == |items|
    requires forall i :: 0 <= i < |turns| ==> RetryAnswer(turns[i].retry)
    ensures n <= |items|
    ensures forall i :: 0 <= i < n && (i + 1 < n || completed) ==> Judge(items[i], turns[i]).verdict != Aborted
    ensures r == Tally(items, turns, n)
    ensures completed ==> n == |items|
    ensures !completed ==> n > 0 && Judge(items[n - 1], turns[n - 1]).verdict == Aborted
    ensures r.scanned == |items| && r.claimed == r.cleaned + r.notFound + r.failed
    ensures completed <==> r.skipped + r.claimed == r.scanned
  {
    r := Report(|items|, 0, 0, 0, 0, 0, 0);
    completed, n := false, 0;
    for i := 0 to |items|
      invariant n == i && !completed && r == Tally(items, turns, i)
      invariant forall k :: 0 <= k < i ==> Judge(items[k], turns[k]).verdict != Aborted
    {
      TallyConserves(items, turns, i);
      n := i + 1;
      var current := items[i];
      var now := turns[i].now;
      if current.status == Retrying {
        if now - current.updatedAt < CLAIM_LEASE {
          r := r.(skipped := r.skipped + 1);
          continue;
        }
        if turns[i].reclaim == Raced {
          r := r.(skipped := r.skipped + 1);
          continue;
        }
        if turns[i].reclaim == Broken {
          return;
        }
        r := r.(reclaimed := r.reclaimed + 1);
        current := Expired(current, now);
      }
      if Done(current.status) {
        r := r.(skipped := r.skipped + 1);
        continue;
      }
      if current.status == Failed && current.nextRetryAt.Some? && now < current.nextRetryAt.value {
        r := r.(skipped := r.skipped + 1);
        continue;
      }
      match turns[i].retry {
        case DeleteFailed(_) => r := r.(claimed := r.claimed + 1, failed := r.failed + 1);
        case RetryRaced => r := r.(skipped := r.skipped + 1);
        case RetryBroken => return;
        case Finished(status) =>
          if status == Cleaned {
            r := r.(claimed := r.claimed + 1, cleaned := r.cleaned + 1);
          } else {
            r := r.(claimed := r.claimed + 1, notFound := r.notFound + 1);
          }
      }
    }
    TallyConserves(items, turns, |items|);
    completed := true;
  }

  /** A limit that makes no sense counts as a hundred. */
  function Bound(limit: int): (n: nat)
    ensures 1 <= n <= 500
  {
    if limit <= 0 || limit > 500 then 100 else limit
  }

  /** Scans the first diagnostics of the listing and reports how many came to what: each counter is the
      number of the items handled that ended so, and every item is accounted for exactly when no item
      aborted the pass. An item is left alone exactly when it is done, retrying within the lease, failed
      with its retry time ahead, or somebody else was faster. */
  method Reconcile(listing: seq<Diagnostic>, limit: int, turns: seq<Turn>)
    returns (r: Report, completed: bool, ghost items: seq<Diagnostic>, ghost n: nat)
    requires |turns| == if |listing| <= Bound(limit) then |listing| else Bound(limit)
    requires forall i :: 0 <= i < |turns| ==> RetryAnswer(turns[i].retry)
    ensures items <= listing && |items| == |turns| == r.scanned <= 500 && n <= |items|
    ensures |items| == Min(|listing|, if 1 <= limit <= 500 then limit else 100)
    ensures completed ==> n == |items|
    ensures completed <==> r.skipped + r.claimed == r.scanned
    ensures r.claimed == r.cleaned + r.notFound + r.failed
    ensures r.reclaimed == |Reclaims(items, turns, n)|
            && r.skipped == |Which(items, turns, n, Skipped)|
            && r.cleaned == |Which(items, turns, n, CleanedUp)|
            && r.notFound == |Which(items, turns, n, Vanished)|
            && r.failed == |Which(items, turns, n, Undeleted)|
    ensures forall i :: 0 <= i < n ==>
              && (Judge(items[i], turns[i]).reclaimed
                  <==> items[i].status == Retrying && turns[i].now - items[i].updatedAt >= 300
                       && turns[i].reclaim == Stored)
              && (Judge(items[i], turns[i]).verdict == Skipped
                  <==> || items[i].status in {Cleaned, NotFound}
                       || (items[i].status == Retrying
                           && (turns[i].now - items[i].updatedAt < 300 || turns[i].reclaim == Raced))
                       || (items[i].status == Failed && items[i].nextRetryAt.Some?
                           && turns[i].now < items[i].nextRetryAt.value)
                       || (TakenUp(items[i], turns[i]) && turns[i].retry == RetryRaced))
    ensures !completed <==> n > 0 && Judge(items[n - 1], turns[n - 1]).verdict == Aborted
  {
    hide Tally, Which, Reclaims, Judge;
    var bound := Bound(limit);
    var page := if |listing| <= bound then listing else listing[..bound];
    items := page;
    r, completed, n := Scan(page, turns);
    ReportIs(page, turns);
    forall i | 0 <= i < |page| { Judged(page[i], turns[i]); }
  }
}
