/** When a claim may be taken back, over every interleaving, and what a worker or a manual retry does to
    the diagnostic when nothing comes in between. */
module CleanupRuns {
  import opened Wrappers
  import opened Schedules
  import opened Cleanup

  /** A claim was found to have outlived its lease when the worker looked at the clock. */
  predicate PcTimed(pc: Pc, now: int) {
    match pc
    case Reclaim(item, at) => item.status == Retrying && item.updatedAt + 300 <= at <= now
    case ClaimWrite(_, at) => at <= now
    case Finalize(_, _, at) => at <= now
    case _ => true
  }

  ghost predicate Timed(w: World) { forall p :: p in w.procs ==> PcTimed(w.procs[p], w.now) }

  lemma StepTimed(row: Diagnostic, blob: bool, now: int, pc: Pc, c: Choice)
    requires PcTimed(pc, now)
    ensures PcTimed(StepEffect(row, blob, now, pc, c).pc, now)
  {
  }

  lemma NextKeepsTimed(w: World, a: Action)
    requires Timed(w)
    ensures Timed(Next(w, a))
  {
    hide StepEffect;
    if a.Step? && a.p in w.procs { StepTimed(w.row, w.blob, w.now, w.procs[a.p], a.choice); }
  }

  lemma Reached(w0: World, schedule: seq<Action>)
    requires Initial(w0)
    ensures Inv(Run(Next, w0, schedule)) && Timed(Run(Next, w0, schedule))
  {
    RunKeepsInv(w0, schedule);
    assert Timed(w0);
    hide Next, Timed;
    forall v, a | Timed(v) ensures Timed(Next(v, a)) { NextKeepsTimed(v, a); }
    RunInvariant(Next, v => Timed(v), w0, schedule);
  }

  /** In every reached state: a claimed row is turned into a failed one only by its holder, or by a worker
      that had seen the claim at least three hundred seconds old; the row then says when, and may be
      retried at once. */
  lemma LeaseIsRespected(w0: World, schedule: seq<Action>, a: Action)
    requires Initial(w0)
    ensures var w := Run(Next, w0, schedule);
            var t := Next(w, a);
            w.row.status == Retrying && t.row.status == Failed ==>
              a.Step? && a.p in w.procs
              && (HoldsLive(w, a.p)
                  || (w.row.updatedAt + 300 <= t.row.updatedAt <= w.now && t.row.nextRetryAt == Some(t.row.updatedAt)
                      && t.row.attemptCount == w.row.attemptCount))
  {
    Reached(w0, schedule);
    var w := Run(Next, w0, schedule);
    if a.Step? && a.p in w.procs { assert ProcOk(w.row, w.blob, w.procs[a.p]); }
  }

  /** Every other change of the row is a claim, which counts an attempt, or the holder's own result. */
  lemma OnlyTheirMoves(w0: World, schedule: seq<Action>, a: Action)
    requires Initial(w0)
    ensures var w := Run(Next, w0, schedule);
            var t := Next(w, a);
            t.row != w.row ==>
              match t.row.status
              case Retrying =>
                w.row.status in {Pending, Failed} && t.row.attemptCount == w.row.attemptCount + 1 && HoldsLive(t, a.p)
              case Cleaned => a.Step? && HoldsLive(w, a.p) && t.row.attemptCount == w.row.attemptCount && !t.blob
              case NotFound => a.Step? && HoldsLive(w, a.p) && t.row.attemptCount == w.row.attemptCount && !t.blob
              case Failed => w.row.status == Retrying && t.row.attemptCount == w.row.attemptCount
              case Pending => false
  {
    Reached(w0, schedule);
    var w := Run(Next, w0, schedule);
    assert a.Step? && a.p in w.procs ==> ProcOk(w.row, w.blob, w.procs[a.p]);
  }

  // ---------------------------------------------------------------- operations with nothing in between

  /** What p's own answers lead to when nothing else moves. */
  function Alone(w: World, p: nat, c: Choice, n: nat): World
    decreases n
  {
    if n == 0 then w else Alone(Next(w, Step(p, c)), p, c, n - 1)
  }

  function Steps(p: nat, c: Choice, n: nat): seq<Action> { seq(n, _ => Step(p, c)) }

  lemma {:induction false} AloneIsRun(w: World, p: nat, c: Choice, n: nat)
    ensures Alone(w, p, c, n) == Run(Next, w, Steps(p, c, n))
    decreases n
  {
    hide Next;
    if n > 0 {
      AloneIsRun(Next(w, Step(p, c)), p, c, n - 1);
      assert Steps(p, c, n)[1..] == Steps(p, c, n - 1);
    }
  }

  lemma AloneStops(w: World, p: nat, c: Choice, n: nat)
    requires p in w.procs && w.procs[p] == Stopped
    ensures Alone(w, p, c, n) == w
    decreases n
  {
    if n > 0 {
      assert w.procs[p := Stopped] == w.procs;
      AloneStops(w, p, c, n - 1);
    }
  }

  lemma Goes(w: World, p: nat, c: Choice, n: nat)
    requires p in w.procs
    ensures var t, e := Next(w, Step(p, c)), StepEffect(w.row, w.blob, w.now, w.procs[p], c);
            && p in t.procs && t.row == e.row && t.blob == e.blob && t.procs[p] == e.pc && t.now == w.now
            && Alone(w, p, c, n + 1) == Alone(t, p, c, n)
  {
    hide StepEffect;
  }

  /** The delete succeeded, found nothing, or did not work. */
  function ResultOf(c: Choice, blob: bool): Status {
    match c
    case DeleteOk => Cleaned
    case DeleteNotFound => if blob then Failed else NotFound
    case DeleteError(_) => Failed
  }

  /** The row after one claimed, attempted and finalized deletion that started from the given row. */
  predicate Attempted(before: Diagnostic, after: Diagnostic, c: Choice, blob: bool, now: int) {
    && after.status == ResultOf(c, blob) && after.version == before.version + 2
    && after.attemptCount == before.attemptCount + 1 && after.updatedAt == now
    && after.nextRetryAt == if after.status == Failed then Some(now + Backoff(after.attemptCount)) else None
  }

  /** A retry of a row that may be claimed. */
  lemma RetryAlone(w: World, p: nat, c: Choice)
    requires ValidDiagnostic(w.row) && p in w.procs && w.procs[p] == RetryRead
    ensures var t := Alone(w, p, c, 4);
            && p in t.procs && t.procs[p] == Stopped
            && if w.row.status in {Pending, Failed}
               then Attempted(w.row, t.row, c, w.blob, w.now)
                 && t.blob == (w.blob && c != DeleteOk && c != DeleteError(true))
               else t.row == w.row && t.blob == w.blob
  {
    hide Next, Backoff;
    var w1 := Next(w, Step(p, c));
    Goes(w, p, c, 3);
    if w.row.status in {Pending, Failed} {
      ClaimAlone(w1, p, c);
    } else {
      AloneStops(w1, p, c, 3);
    }
  }

  lemma ClaimAlone(w: World, p: nat, c: Choice)
    requires ValidDiagnostic(w.row) && w.row.status in {Pending, Failed}
    requires p in w.procs && w.procs[p] == ClaimWrite(w.row, w.now)
    ensures var t := Alone(w, p, c, 3);
            && p in t.procs && t.procs[p] == Stopped && Attempted(w.row, t.row, c, w.blob, w.now)
            && t.blob == (w.blob && c != DeleteOk && c != DeleteError(true))
  {
    hide Next, Backoff;
    var w1 := Next(w, Step(p, c));
    Goes(w, p, c, 2);
    var w2 := Next(w1, Step(p, c));
    Goes(w1, p, c, 1);
    var w3 := Next(w2, Step(p, c));
    Goes(w2, p, c, 0);
  }

  /** What a fresh worker makes of the diagnostic: nothing while it is done, claimed within its lease or
      waiting for its retry time; else it takes back an expired claim, deletes and records the result. */
  lemma WorkerAlone(w: World, p: nat, c: Choice)
    requires ValidDiagnostic(w.row) && p !in w.procs
    ensures var d, t := w.row, Alone(Next(w, StartWorker(p)), p, c, 8);
            && p in t.procs && t.procs[p] == Stopped
            && if || d.status in {Cleaned, NotFound}
                  || (d.status == Retrying && w.now - d.updatedAt < 300)
                  || (d.status == Failed && d.nextRetryAt.Some? && w.now < d.nextRetryAt.value)
               then t.row == d && t.blob == w.blob
               else
                 && Attempted(d.(version := if d.status == Retrying then d.version + 1 else d.version), t.row, c,
                              w.blob, w.now)
                 && t.blob == (w.blob && c != DeleteOk && c != DeleteError(true))
  {
    hide Next, Backoff;
    var d := w.row;
    var s0 := Next(w, StartWorker(p));
    StartsScan(w, p);
    var s1 := Next(s0, Step(p, c));
    Goes(s0, p, c, 7);
    var s2 := Next(s1, Step(p, c));
    Goes(s1, p, c, 6);
    if s2.procs[p] == Stopped {
      AloneStops(s2, p, c, 6);
    } else if d.status == Retrying {
      var s3 := Next(s2, Step(p, c));
      Goes(s2, p, c, 5);
      RetryAlone(s3, p, c);
      AloneAdds(s3, p, c, 4, 1);
      AloneStops(Alone(s3, p, c, 4), p, c, 1);
    } else {
      RetryAlone(s2, p, c);
      AloneAdds(s2, p, c, 4, 2);
      AloneStops(Alone(s2, p, c, 4), p, c, 2);
    }
  }

  lemma StartsScan(w: World, p: nat)
    requires p !in w.procs
    ensures Next(w, StartWorker(p)) == w.(procs := w.procs[p := ScanList])
  {
  }

  lemma {:induction false} AloneAdds(w: World, p: nat, c: Choice, m: nat, n: nat)
    ensures Alone(w, p, c, m + n) == Alone(Alone(w, p, c, m), p, c, n)
    decreases m
  {
    hide Next;
    if m > 0 { AloneAdds(Next(w, Step(p, c)), p, c, m - 1, n); }
  }
}
