/** What admission is worth over whole runs: the cost the store reports for a provider, the cost its
    jobs really reserve, and how the two come apart while a billed job is still open. */
module BatchBudget {
  import opened Wrappers
  import opened Schedules
  import opened BatchAdmission

  // ---------------------------------------------------------------- sums over a provider's jobs

  function Sum(jobs: seq<Job>, p: string, amount: Job -> int): int {
    if jobs == [] then 0
    else Sum(jobs[..|jobs| - 1], p, amount) + if jobs[|jobs| - 1].provider == p then amount(jobs[|jobs| - 1]) else 0
  }

  function Sum64(jobs: seq<Job>, p: string, amount: Job -> int): int {
    if jobs == [] then 0
    else
      var rest := Sum64(jobs[..|jobs| - 1], p, amount);
      if jobs[|jobs| - 1].provider == p then Add64(rest, amount(jobs[|jobs| - 1])) else rest
  }

  lemma {:induction false} SumConcat(xs: seq<Job>, ys: seq<Job>, p: string, amount: Job -> int)
    ensures Sum(xs + ys, p, amount) == Sum(xs, p, amount) + Sum(ys, p, amount)
  {
    if ys == [] {
      assert xs + ys == xs;
    } else {
      SumConcat(xs, ys[..|ys| - 1], p, amount);
      assert (xs + ys)[..|xs + ys| - 1] == xs + ys[..|ys| - 1];
    }
  }

  lemma SumOne(job: Job, p: string, amount: Job -> int)
    ensures Sum([job], p, amount) == if job.provider == p then amount(job) else 0
  {
    assert [job][..0] == [];
  }

  /** Replacing one job changes the sum by the difference of the two amounts. */
  lemma SumUpdate(jobs: seq<Job>, i: nat, job: Job, p: string, amount: Job -> int)
    requires i < |jobs| && job.provider == jobs[i].provider
    ensures Sum(jobs[i := job], p, amount)
            == Sum(jobs, p, amount) + if job.provider == p then amount(job) - amount(jobs[i]) else 0
  {
    assert jobs == jobs[..i] + [jobs[i]] + jobs[i + 1..];
    assert jobs[i := job] == jobs[..i] + [job] + jobs[i + 1..];
    SumConcat(jobs[..i] + [jobs[i]], jobs[i + 1..], p, amount);
    SumConcat(jobs[..i] + [job], jobs[i + 1..], p, amount);
    SumConcat(jobs[..i], [jobs[i]], p, amount);
    SumConcat(jobs[..i], [job], p, amount);
    SumOne(jobs[i], p, amount);
    SumOne(job, p, amount);
  }

  /** Amounts that compare job by job compare in sum. */
  lemma {:induction false} SumAtMost(jobs: seq<Job>, p: string, f: Job -> int, g: Job -> int, h: Job -> int)
    requires forall i :: 0 <= i < |jobs| ==> f(jobs[i]) <= g(jobs[i]) + h(jobs[i])
    ensures Sum(jobs, p, f) <= Sum(jobs, p, g) + Sum(jobs, p, h)
  {
    if jobs != [] { SumAtMost(jobs[..|jobs| - 1], p, f, g, h); }
  }

  lemma {:induction false} SumSplits(jobs: seq<Job>, p: string, f: Job -> int, g: Job -> int, h: Job -> int)
    requires forall i :: 0 <= i < |jobs| ==> f(jobs[i]) == g(jobs[i]) + h(jobs[i])
    ensures Sum(jobs, p, f) == Sum(jobs, p, g) + Sum(jobs, p, h)
  {
    if jobs != [] { SumSplits(jobs[..|jobs| - 1], p, f, g, h); }
  }

  lemma {:induction false} Sum64IsExact(jobs: seq<Job>, p: string, amount: Job -> int)
    requires forall i :: 0 <= i < |jobs| ==> 0 <= amount(jobs[i])
    ensures 0 <= Sum(jobs, p, amount)
    ensures Sum(jobs, p, amount) <= MAX_64 ==> Sum64(jobs, p, amount) == Sum(jobs, p, amount)
  {
    if jobs != [] { Sum64IsExact(jobs[..|jobs| - 1], p, amount); }
  }

  // ---------------------------------------------------------------- what the store reports

  function Actual(j: Job): int { j.actual }

  function OpenEstimate(j: Job): int { if j.state == Settled then 0 else j.cost }

  /** The reported cost of a job: what it was billed, plus its estimate until it is settled. */
  function CommittedOf(j: Job): int { j.actual + OpenEstimate(j) }

  function Zero(j: Job): int { 0 }

  function Open(j: Job): int { if j.state == Settled then 0 else 1 }

  function CommittedCost(jobs: seq<Job>, p: string): int { Sum(jobs, p, CommittedOf) }

  function ActiveJobs(jobs: seq<Job>, p: string): int { Sum(jobs, p, Open) }

  /** The usage as the store computes it, in its own integers. */
  function UsageIn(stored: seq<Job>): string -> Option<Usage> {
    p => Some(Usage(Add64(Sum64(stored, p, Actual), Sum64(stored, p, OpenEstimate)), ActiveJobs(stored, p)))
  }

  /** What the job really reserves: its bill once there is one, else its estimate. */
  function ReservedOf(j: Job): int { if j.billed || j.state == Settled then j.actual else j.cost }

  /** The estimate of a job that has its bill and is still open, which the store counts on top. */
  function DoubledOf(j: Job): int { if j.billed && j.state != Settled then j.cost else 0 }

  function OverrunOf(j: Job): int { if j.actual > j.cost then j.actual - j.cost else 0 }

  /** What the job holds of the budget within its estimate. */
  function HeldOf(j: Job): int { if j.state != Settled || j.actual > j.cost then j.cost else j.actual }

  predicate JobOk(j: Job) {
    0 <= j.cost && 0 <= j.actual && (!j.billed ==> j.actual == 0) && j.state in {Queued, Settled}
  }

  predicate JobsOk(jobs: seq<Job>) { forall i :: 0 <= i < |jobs| ==> JobOk(jobs[i]) }

  /** The reported cost is the reserved cost plus the estimates counted twice; so it is within a
      budget exactly when these two together are. */
  lemma CommittedIsReservedAndDoubled(jobs: seq<Job>, p: string)
    requires JobsOk(jobs)
    ensures CommittedCost(jobs, p) == Sum(jobs, p, ReservedOf) + Sum(jobs, p, DoubledOf)
  {
    SumSplits(jobs, p, CommittedOf, ReservedOf, DoubledOf);
  }

  /** A job never reserves more than it holds plus what it was billed over its estimate. */
  lemma ReservedIsHeldAndOverrun(jobs: seq<Job>, p: string)
    requires JobsOk(jobs)
    ensures Sum(jobs, p, ReservedOf) <= Sum(jobs, p, HeldOf) + Sum(jobs, p, OverrunOf)
  {
    SumAtMost(jobs, p, ReservedOf, HeldOf, OverrunOf);
  }

  lemma {:induction false} SumZero(jobs: seq<Job>, p: string)
    ensures Sum(jobs, p, Zero) == 0
  {
    if jobs != [] { SumZero(jobs[..|jobs| - 1], p); }
  }

  lemma HeldIsCommitted(jobs: seq<Job>, p: string)
    requires JobsOk(jobs)
    ensures 0 <= Sum(jobs, p, HeldOf) <= CommittedCost(jobs, p)
  {
    SumAtMost(jobs, p, HeldOf, CommittedOf, Zero);
    SumAtMost(jobs, p, Zero, HeldOf, Zero);
    SumZero(jobs, p);
  }

  /** The store's own sums are right as long as the true one fits. */
  lemma UsageIsExact(jobs: seq<Job>, p: string)
    requires JobsOk(jobs)
    ensures 0 <= CommittedCost(jobs, p)
    ensures CommittedCost(jobs, p) <= MAX_64 ==>
              UsageIn(jobs)(p) == Some(Usage(CommittedCost(jobs, p), ActiveJobs(jobs, p)))
  {
    SumSplits(jobs, p, CommittedOf, Actual, OpenEstimate);
    Sum64IsExact(jobs, p, Actual);
    Sum64IsExact(jobs, p, OpenEstimate);
  }

  predicate NewJobs(jobs: seq<Job>) {
    forall i :: 0 <= i < |jobs| ==> 0 <= jobs[i].cost && !jobs[i].billed && jobs[i].actual == 0
  }

  lemma {:induction false} EnqueuedSums(jobs: seq<Job>, p: string)
    requires NewJobs(jobs)
    ensures JobsOk(Enqueued(jobs)) && Sum(Enqueued(jobs), p, HeldOf) == Share(jobs, p)
    ensures CommittedCost(Enqueued(jobs), p) == Share(jobs, p) && ActiveJobs(Enqueued(jobs), p) == Places(jobs, p)
  {
    if jobs != [] {
      EnqueuedSums(jobs[..|jobs| - 1], p);
      assert Enqueued(jobs)[..|jobs| - 1] == Enqueued(jobs[..|jobs| - 1]);
    }
  }

  // ---------------------------------------------------------------- runs

  /** overflowed records that a batch was admitted although its sum with the reported cost did not
      fit 64 bits; modest, that no estimate was above the ceiling and no bill above its estimate. */
  datatype World = World(stored: seq<Job>, overflowed: bool, modest: bool)

  const START := World([], false, true)

  /** A batch is checked and created in one step. A bill is recorded while the job stays open; it
      may be recorded again; settling comes later. */
  datatype Act = Batch(jobs: seq<Job>) | RecordCost(i: nat, actual: int) | Finish(i: nat)

  ghost predicate Overflows(bindingOf: string -> Option<Limits>, stored: seq<Job>, jobs: seq<Job>) {
    exists p :: && Named(jobs, p) && bindingOf(p).Some? && bindingOf(p).value.budget > 0
                && !FitsIn64(CommittedCost(stored, p), Share(jobs, p))
  }

  ghost predicate Accepts(bindingOf: string -> Option<Limits>, stored: seq<Job>, jobs: seq<Job>) {
    |jobs| <= 100 && NewJobs(jobs) && Admissible(bindingOf, UsageIn(stored), jobs)
  }

  predicate IsOpen(stored: seq<Job>, i: nat) { i < |stored| && stored[i].state != Settled }

  ghost function Next(bindingOf: string -> Option<Limits>, ceiling: int, w: World, a: Act): World {
    match a
    case Batch(jobs) =>
      if !Accepts(bindingOf, w.stored, jobs) then w
      else World(w.stored + Enqueued(jobs), w.overflowed || Overflows(bindingOf, w.stored, jobs),
                 w.modest && forall i :: 0 <= i < |jobs| ==> jobs[i].cost <= ceiling)
    case RecordCost(i, actual) =>
      if !IsOpen(w.stored, i) || actual < 0 then w
      else w.(stored := w.stored[i := w.stored[i].(billed := true, actual := actual)],
              modest := w.modest && actual <= w.stored[i].cost)
    case Finish(i) =>
      if !IsOpen(w.stored, i) then w else w.(stored := w.stored[i := w.stored[i].(state := Settled)])
  }

  /** The admission of a batch against the store's own usage is the run's batch step: what it admits
      is accepted there and leaves the same jobs. */
  method AdmitAgainstStore(admission: Admission, bindingOf: string -> Option<Limits>, requests: seq<Option<Job>>,
                           confirmed: bool, ghost ceiling: int, ghost w: World)
    returns (r: Decision)
    requires CurrenciesNamed(requests) && w.stored == admission.stored
    requires Preparable(requests) ==> NewJobs(JobsOf(requests))
    modifies admission
    ensures r.Admitted? ==> Preparable(requests) && Accepts(bindingOf, w.stored, JobsOf(requests))
                            && admission.stored == Next(bindingOf, ceiling, w, Batch(JobsOf(requests))).stored
    ensures !r.Admitted? ==> admission.stored == w.stored
    ensures r.Blocked? && Preparable(requests) ==> Next(bindingOf, ceiling, w, Batch(JobsOf(requests))) == w
  {
    hide Preparable, Admissible, Fresh, NewJobs, Overflows;
    r := admission.CreateBatch(bindingOf, UsageIn(admission.stored), requests, confirmed);
  }

  predicate Limited(bindingOf: string -> Option<Limits>, p: string) { p != "fake" && bindingOf(p).Some? }

  ghost predicate ActiveOk(bindingOf: string -> Option<Limits>, stored: seq<Job>, p: string) {
    Limited(bindingOf, p) ==> ActiveJobs(stored, p) <= bindingOf(p).value.concurrency
  }

  ghost predicate HeldOk(bindingOf: string -> Option<Limits>, stored: seq<Job>, p: string) {
    Limited(bindingOf, p) && bindingOf(p).value.budget > 0 ==> Sum(stored, p, HeldOf) <= bindingOf(p).value.budget
  }

  ghost predicate Inv(bindingOf: string -> Option<Limits>, w: World) {
    && JobsOk(w.stored)
    && (forall p :: ActiveOk(bindingOf, w.stored, p) && (!w.overflowed ==> HeldOk(bindingOf, w.stored, p)))
  }

  lemma {:induction false} ShareOfNone(jobs: seq<Job>, p: string)
    requires forall i :: 0 <= i < |jobs| ==> jobs[i].provider != p
    ensures Share(jobs, p) == 0 && Places(jobs, p) == 0
  {
    if jobs != [] { ShareOfNone(jobs[..|jobs| - 1], p); }
  }

  lemma BatchKeeps(bindingOf: string -> Option<Limits>, stored: seq<Job>, jobs: seq<Job>, p: string)
    requires JobsOk(stored) && Accepts(bindingOf, stored, jobs)
    ensures var t := stored + Enqueued(jobs);
            && JobsOk(t) && (ActiveOk(bindingOf, stored, p) ==> ActiveOk(bindingOf, t, p))
            && (HeldOk(bindingOf, stored, p) && !Overflows(bindingOf, stored, jobs) ==> HeldOk(bindingOf, t, p))
  {
    hide Sum, Sum64, Share, Share64, Places, Enqueued, Add64;
    EnqueuedSums(jobs, p);
    SumConcat(stored, Enqueued(jobs), p, HeldOf);
    SumConcat(stored, Enqueued(jobs), p, Open);
    HeldIsCommitted(stored, p);
    UsageIsExact(stored, p);
    if Named(jobs, p) {
      AdmittedIsWithinLimits(bindingOf, UsageIn(stored), jobs, p);
      WithinWhenItFits(bindingOf, UsageIn(stored), jobs, p);
    } else if p != "fake" {
      ShareOfNone(jobs, p);
    }
  }

  lemma WithinWhenItFits(bindingOf: string -> Option<Limits>, usageOf: string -> Option<Usage>, jobs: seq<Job>,
                         p: string)
    requires Admissible(bindingOf, usageOf, jobs) && Named(jobs, p) && NewJobs(jobs)
    ensures bindingOf(p).Some? && usageOf(p).Some?
    ensures bindingOf(p).value.budget > 0 && FitsIn64(usageOf(p).value.committed, Share(jobs, p)) ==>
              usageOf(p).value.committed + Share(jobs, p) <= bindingOf(p).value.budget
  {
    assert BudgetOk(bindingOf, usageOf, jobs, p) && ConcurrencyOk(bindingOf, usageOf, jobs, p);
    hide Share, Share64, Places, Named;
    SumsAreExact(jobs, p);
  }

  lemma ChangeKeeps(bindingOf: string -> Option<Limits>, stored: seq<Job>, i: nat, job: Job, p: string)
    requires JobsOk(stored) && i < |stored| && JobOk(job) && job.provider == stored[i].provider
    requires HeldOf(job) <= HeldOf(stored[i]) && Open(job) <= Open(stored[i])
    ensures JobsOk(stored[i := job])
    ensures ActiveOk(bindingOf, stored, p) ==> ActiveOk(bindingOf, stored[i := job], p)
    ensures HeldOk(bindingOf, stored, p) ==> HeldOk(bindingOf, stored[i := job], p)
  {
    hide Sum;
    SumUpdate(stored, i, job, p, HeldOf);
    SumUpdate(stored, i, job, p, Open);
  }

  lemma NextKeepsInv(bindingOf: string -> Option<Limits>, ceiling: int, w: World, a: Act)
    requires Inv(bindingOf, w)
    ensures Inv(bindingOf, Next(bindingOf, ceiling, w, a))
  {
    hide ActiveOk, HeldOk, Accepts, Overflows, Enqueued;
    var t := Next(bindingOf, ceiling, w, a);
    if t != w {
      forall p
        ensures JobsOk(t.stored) && ActiveOk(bindingOf, t.stored, p)
        ensures (!t.overflowed ==> HeldOk(bindingOf, t.stored, p))
      {
        assert ActiveOk(bindingOf, w.stored, p);
        match a
        case Batch(jobs) => BatchKeeps(bindingOf, w.stored, jobs, p);
        case RecordCost(i, actual) =>
          ChangeKeeps(bindingOf, w.stored, i, w.stored[i].(billed := true, actual := actual), p);
        case Finish(i) => ChangeKeeps(bindingOf, w.stored, i, w.stored[i].(state := Settled), p);
      }
      assert JobsOk(t.stored) by { assert ActiveOk(bindingOf, t.stored, ""); }
    }
  }

  lemma RunKeepsInv(bindingOf: string -> Option<Limits>, ceiling: int, schedule: seq<Act>)
    requires forall p :: Limited(bindingOf, p) ==> 0 <= bindingOf(p).value.concurrency
    ensures Inv(bindingOf, Run((w, a) => Next(bindingOf, ceiling, w, a), START, schedule))
  {
    assert Inv(bindingOf, START);
    hide Inv, Next;
    forall w: World, a: Act | Inv(bindingOf, w) ensures Inv(bindingOf, Next(bindingOf, ceiling, w, a)) {
      NextKeepsInv(bindingOf, ceiling, w, a);
    }
    RunInvariant((w, a) => Next(bindingOf, ceiling, w, a), (w: World) => Inv(bindingOf, w), START, schedule);
  }

  /** Over every run of batches, bills and settlements: a provider's open jobs never exceed its
      concurrency. Unless an overflowing batch was admitted, what its jobs reserve never exceeds a
      positive budget by more than they were billed over their estimates; and the cost the store
      reports is within the budget exactly when the reserved cost and the estimates of
      billed but open jobs are together. */
  lemma BudgetsHoldOverRuns(bindingOf: string -> Option<Limits>, ceiling: int, schedule: seq<Act>, p: string)
    requires Limited(bindingOf, p) && forall q :: Limited(bindingOf, q) ==> 0 <= bindingOf(q).value.concurrency
    ensures var w, limits := Run((w, a) => Next(bindingOf, ceiling, w, a), START, schedule), bindingOf(p).value;
            && (forall i :: 0 <= i < |w.stored| ==> w.stored[i].state in {Queued, Settled})
            && ActiveJobs(w.stored, p) <= limits.concurrency
            && (limits.budget > 0 && !w.overflowed ==>
                  Sum(w.stored, p, ReservedOf) <= limits.budget + Sum(w.stored, p, OverrunOf))
            && (CommittedCost(w.stored, p) <= limits.budget
                <==> Sum(w.stored, p, ReservedOf) + Sum(w.stored, p, DoubledOf) <= limits.budget)
  {
    hide Sum;
    RunKeepsInv(bindingOf, ceiling, schedule);
    var w := Run((w, a) => Next(bindingOf, ceiling, w, a), START, schedule);
    assert ActiveOk(bindingOf, w.stored, p) && (!w.overflowed ==> HeldOk(bindingOf, w.stored, p));
    ReservedIsHeldAndOverrun(w.stored, p);
    CommittedIsReservedAndDoubled(w.stored, p);
  }

  // ---------------------------------------------------------------- when nothing can overflow

  function Times(n: nat, c: int): int { if n == 0 then 0 else Times(n - 1, c) + c }

  lemma {:induction false} TimesUpTo(n: nat, m: nat, c: int)
    requires n <= m && c >= 0
    ensures 0 <= Times(n, c) <= Times(m, c)
    decreases m
  {
    if n < m { TimesUpTo(n, m - 1, c); } else if n > 0 { TimesUpTo(n - 1, n - 1, c); }
  }

  lemma {:induction false} TimesIsProduct(n: nat, c: int)
    ensures Times(n, c) == n * c
  {
    if n > 0 {
      TimesIsProduct(n - 1, c);
      assert n * c == (n - 1) * c + c;
    }
  }

  predicate Modest(ceiling: int, jobs: seq<Job>) {
    forall i :: 0 <= i < |jobs| ==> jobs[i].cost <= ceiling && jobs[i].actual <= jobs[i].cost
  }

  lemma {:induction false} DoubledIsBounded(jobs: seq<Job>, p: string, ceiling: int)
    requires 0 <= ceiling && JobsOk(jobs) && Modest(ceiling, jobs)
    ensures 0 <= ActiveJobs(jobs, p) && Sum(jobs, p, DoubledOf) <= Times(ActiveJobs(jobs, p), ceiling)
  {
    if jobs != [] {
      var init := jobs[..|jobs| - 1];
      DoubledIsBounded(init, p, ceiling);
      TimesUpTo(ActiveJobs(init, p), ActiveJobs(init, p) + 1, ceiling);
    }
  }

  lemma {:induction false} ShareIsBounded(jobs: seq<Job>, p: string, ceiling: int)
    requires 0 <= ceiling && forall i :: 0 <= i < |jobs| ==> 0 <= jobs[i].cost <= ceiling
    ensures 0 <= Share(jobs, p) <= Times(|jobs|, ceiling)
  {
    if jobs != [] { ShareIsBounded(jobs[..|jobs| - 1], p, ceiling); }
  }

  /** A full batch at the ceiling, on top of a full budget and every open job counted twice, fits. */
  ghost predicate Roomy(bindingOf: string -> Option<Limits>, ceiling: int) {
    && 0 <= ceiling
    && forall p :: bindingOf(p).Some? ==>
         0 <= bindingOf(p).value.concurrency
         && 100 * ceiling + bindingOf(p).value.concurrency * ceiling + bindingOf(p).value.budget <= MAX_64
  }

  ghost predicate ModestInv(bindingOf: string -> Option<Limits>, ceiling: int, w: World) {
    Inv(bindingOf, w) && (w.modest ==> !w.overflowed && Modest(ceiling, w.stored))
  }

  lemma ModestBatchFits(bindingOf: string -> Option<Limits>, ceiling: int, w: World, jobs: seq<Job>, p: string)
    requires ModestInv(bindingOf, ceiling, w) && w.modest && Roomy(bindingOf, ceiling)
    requires Accepts(bindingOf, w.stored, jobs)
    requires forall i :: 0 <= i < |jobs| ==> jobs[i].cost <= ceiling
    requires Named(jobs, p) && bindingOf(p).Some? && bindingOf(p).value.budget > 0
    ensures FitsIn64(CommittedCost(w.stored, p), Share(jobs, p))
  {
    hide Sum, Share, Accepts, Named;
    var limits := bindingOf(p).value;
    assert p != "fake" by { NamedIsReal(jobs, p); }
    assert ActiveOk(bindingOf, w.stored, p) && HeldOk(bindingOf, w.stored, p);
    CommittedIsReservedAndDoubled(w.stored, p);
    SumAtMost(w.stored, p, ReservedOf, HeldOf, Zero);
    SumZero(w.stored, p);
    HeldIsCommitted(w.stored, p);
    DoubledIsBounded(w.stored, p, ceiling);
    AcceptedAreNew(bindingOf, w.stored, jobs);
    ShareIsBounded(jobs, p, ceiling);
    TimesUpTo(|jobs|, 100, ceiling);
    TimesUpTo(ActiveJobs(w.stored, p), limits.concurrency, ceiling);
    TimesIsProduct(100, ceiling);
    TimesIsProduct(limits.concurrency, ceiling);
  }

  lemma NamedIsReal(jobs: seq<Job>, p: string)
    requires Named(jobs, p)
    ensures p != "fake"
  {
  }

  lemma AcceptedAreNew(bindingOf: string -> Option<Limits>, stored: seq<Job>, jobs: seq<Job>)
    requires Accepts(bindingOf, stored, jobs)
    ensures |jobs| <= 100 && NewJobs(jobs)
  {
  }

  lemma ModestStep(bindingOf: string -> Option<Limits>, ceiling: int, w: World, a: Act)
    requires ModestInv(bindingOf, ceiling, w) && Roomy(bindingOf, ceiling)
    ensures ModestInv(bindingOf, ceiling, Next(bindingOf, ceiling, w, a))
  {
    NextKeepsInv(bindingOf, ceiling, w, a);
    hide Inv, Accepts, FitsIn64, Named, Roomy, CommittedCost, Share;
    if a.Batch? && Accepts(bindingOf, w.stored, a.jobs) && Next(bindingOf, ceiling, w, a).modest {
      forall p | Named(a.jobs, p) && bindingOf(p).Some? && bindingOf(p).value.budget > 0
        ensures FitsIn64(CommittedCost(w.stored, p), Share(a.jobs, p))
      {
        ModestBatchFits(bindingOf, ceiling, w, a.jobs, p);
      }
      AcceptedAreNew(bindingOf, w.stored, a.jobs);
    }
  }

  /** When estimates stay under a ceiling for which there is room and no bill exceeds its estimate,
      no admitted batch ever overflows and no provider ever reserves more than its budget. */
  lemma ModestRunsStayWithinBudget(bindingOf: string -> Option<Limits>, ceiling: int, schedule: seq<Act>, p: string)
    requires Roomy(bindingOf, ceiling) && Limited(bindingOf, p)
    ensures var w := Run((w, a) => Next(bindingOf, ceiling, w, a), START, schedule);
            w.modest ==>
              !w.overflowed
              && (bindingOf(p).value.budget > 0 ==> Sum(w.stored, p, ReservedOf) <= bindingOf(p).value.budget)
  {
    assert ModestInv(bindingOf, ceiling, START);
    var w := Run((w, a) => Next(bindingOf, ceiling, w, a), START, schedule);
    assert ModestInv(bindingOf, ceiling, w) by {
      hide ModestInv, Next, Roomy;
      forall v: World, a: Act | ModestInv(bindingOf, ceiling, v)
        ensures ModestInv(bindingOf, ceiling, Next(bindingOf, ceiling, v, a))
      {
        ModestStep(bindingOf, ceiling, v, a);
      }
      RunInvariant((w, a) => Next(bindingOf, ceiling, w, a), (v: World) => ModestInv(bindingOf, ceiling, v), START,
                   schedule);
    }
    if w.modest {
      assert HeldOk(bindingOf, w.stored, p);
      SumAtMost(w.stored, p, ReservedOf, HeldOf, Zero);
      SumZero(w.stored, p);
    }
  }

  // ---------------------------------------------------------------- where the reported cost goes wrong

  function Ten(): Job { Job("p", "CNY", 10, "k", AwaitingCostApproval, false, 0) }

  function TenLimits(p: string): Option<Limits> { Some(Limits(10, 1)) }

  /** One job with an estimate and a bill of ten under a budget of ten: between its bill and its
      settlement the store reports twenty. */
  lemma BilledOpenJobCountsTwice()
    ensures var next := (w, a) => Next(TenLimits, 10, w, a);
            var billed := Run(next, START, [Batch([Ten()]), RecordCost(0, 10)]);
            var settled := Run(next, START, [Batch([Ten()]), RecordCost(0, 10), Finish(0)]);
            && !billed.overflowed && billed.modest
            && CommittedCost(billed.stored, "p") == 20 && Sum(billed.stored, "p", ReservedOf) == 10
            && CommittedCost(settled.stored, "p") == 10
  {
    var next := (w, a) => Next(TenLimits, 10, w, a);
    var queued := Ten().(state := Queued);
    var billed := queued.(billed := true, actual := 10);
    var w1 := World([queued], false, true);
    var w2 := World([billed], false, true);
    var w3 := World([billed.(state := Settled)], false, true);
    TenIsAccepted();
    assert [] + Enqueued([Ten()]) == [queued];
    assert Next(TenLimits, 10, START, Batch([Ten()])) == w1;
    assert [queued][0 := billed] == [billed];
    assert Next(TenLimits, 10, w1, RecordCost(0, 10)) == w2;
    assert Next(TenLimits, 10, w2, Finish(0)) == w3;
    RunPath(next, [START, w1, w2], [Batch([Ten()]), RecordCost(0, 10)]);
    RunPath(next, [START, w1, w2, w3], [Batch([Ten()]), RecordCost(0, 10), Finish(0)]);
    SumOne(billed, "p", CommittedOf);
    SumOne(billed, "p", ReservedOf);
    SumOne(billed.(state := Settled), "p", CommittedOf);
  }

  lemma SingleJob(job: Job)
    requires 0 <= job.cost <= MAX_64
    ensures Share([job], job.provider) == Share64([job], job.provider) == job.cost && Places([job], job.provider) == 1
  {
    AppendSums([], job, job.provider);
    assert [] + [job] == [job];
  }

  lemma TenIsAccepted()
    ensures Accepts(TenLimits, [], [Ten()]) && !Overflows(TenLimits, [], [Ten()])
  {
    SingleJob(Ten());
    assert forall p :: Named([Ten()], p) ==> p == "p";
  }

  // ---------------------------------------------------------------- two batches checked at once

  /** Nothing guards the creation. Two batches that were both checked against the same usage leave
      a provider within its limits exactly when checking the second one after the first had been
      created would have let it through. */
  lemma ConcurrentPairIsSafe(bindingOf: string -> Option<Limits>, stored: seq<Job>, a: seq<Job>, b: seq<Job>, p: string)
    requires JobsOk(stored) && NewJobs(a) && NewJobs(b) && Limited(bindingOf, p)
    ensures var one, both := stored + Enqueued(a), stored + Enqueued(a) + Enqueued(b);
            && CommittedCost(both, p) == CommittedCost(stored, p) + Share(a, p) + Share(b, p)
            && ActiveJobs(both, p) == ActiveJobs(stored, p) + Places(a, p) + Places(b, p)
            && (ActiveJobs(both, p) <= bindingOf(p).value.concurrency <==> ConcurrencyOk(bindingOf, UsageIn(one), b, p))
            && (bindingOf(p).value.budget > 0 && FitsIn64(CommittedCost(one, p), Share(b, p)) ==>
                  (CommittedCost(both, p) <= bindingOf(p).value.budget <==> BudgetOk(bindingOf, UsageIn(one), b, p)))
  {
    hide Sum, Sum64, Share, Share64, Places, Enqueued;
    var one := stored + Enqueued(a);
    EnqueuedSums(a, p);
    EnqueuedSums(b, p);
    SumConcat(stored, Enqueued(a), p, CommittedOf);
    SumConcat(one, Enqueued(b), p, CommittedOf);
    SumConcat(stored, Enqueued(a), p, Open);
    SumConcat(one, Enqueued(b), p, Open);
    UsageIsExact(one, p);
    SumsAreExact(b, p);
  }

  function Six(key: string): Job { Job("p", "CNY", 6, key, AwaitingCostApproval, false, 0) }

  lemma SixIsAccepted(key: string)
    ensures Accepts((p: string) => Some(Limits(10, 2)), [], [Six(key)])
    ensures NewJobs([Six(key)]) && Share([Six(key)], "p") == 6
  {
    SingleJob(Six(key));
    assert forall p :: Named([Six(key)], p) ==> p == "p";
  }

  /** Two such batches, each within a budget of ten, that together commit twelve. */
  lemma ConcurrentChecksOverspend()
    ensures var limits := (p: string) => Some(Limits(10, 2));
            && Accepts(limits, [], [Six("a")]) && Accepts(limits, [], [Six("b")])
            && CommittedCost(Enqueued([Six("a")]) + Enqueued([Six("b")]), "p") == 12
  {
    hide Accepts, Enqueued;
    SixIsAccepted("a");
    SixIsAccepted("b");
    EnqueuedSums([Six("a")], "p");
    EnqueuedSums([Six("b")], "p");
    SumConcat(Enqueued([Six("a")]), Enqueued([Six("b")]), "p", CommittedOf);
  }
}
