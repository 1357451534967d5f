/** Admission of a batch of media jobs: grouped budget and concurrency arithmetic in 64-bit
    integers, then creation of all the jobs or none. */
module BatchAdmission {
  import opened Wrappers

  datatype State = AwaitingCostApproval | Queued | Settled

  /** cost is the estimate; billed says that a terminal provider answer has set the actual cost. */
  datatype Job = Job(provider: string, currency: string, cost: int, key: string, state: State, billed: bool,
                     actual: int)

  datatype Limits = Limits(budget: int, concurrency: int)

  datatype Usage = Usage(committed: int, active: int)

  const MAX_64 := 0x7fff_ffff_ffff_ffff

  /** Addition of two signed 64-bit integers, wrapping around. */
  function Add64(a: int, b: int): int {
    if a + b > MAX_64 then a + b - 0x1_0000_0000_0000_0000
    else if a + b < -MAX_64 - 1 then a + b + 0x1_0000_0000_0000_0000
    else a + b
  }

  // ---------------------------------------------------------------- shares

  function Share(jobs: seq<Job>, p: string): int {
    if jobs == [] then 0
    else Share(jobs[..|jobs| - 1], p) + if jobs[|jobs| - 1].provider == p then jobs[|jobs| - 1].cost else 0
  }

  function Places(jobs: seq<Job>, p: string): nat {
    if jobs == [] then 0 else Places(jobs[..|jobs| - 1], p) + if jobs[|jobs| - 1].provider == p then 1 else 0
  }

  function Total(jobs: seq<Job>): int {
    if jobs == [] then 0 else Total(jobs[..|jobs| - 1]) + jobs[|jobs| - 1].cost
  }

  /** The same sums as the program's integers give them. */
  function Share64(jobs: seq<Job>, p: string): int {
    if jobs == [] then 0
    else if jobs[|jobs| - 1].provider == p then Add64(Share64(jobs[..|jobs| - 1], p), jobs[|jobs| - 1].cost)
    else Share64(jobs[..|jobs| - 1], p)
  }

  function Total64(jobs: seq<Job>): int {
    if jobs == [] then 0 else Add64(Total64(jobs[..|jobs| - 1]), jobs[|jobs| - 1].cost)
  }

  /** They are the true sums as long as these fit. */
  lemma {:induction false} SumsAreExact(jobs: seq<Job>, p: string)
    requires forall i :: 0 <= i < |jobs| ==> 0 <= jobs[i].cost
    ensures 0 <= Share(jobs, p) <= Total(jobs)
    ensures Share(jobs, p) <= MAX_64 ==> Share64(jobs, p) == Share(jobs, p)
    ensures Total(jobs) <= MAX_64 ==> Total64(jobs) == Total(jobs)
  {
    if jobs != [] { SumsAreExact(jobs[..|jobs| - 1], p); }
  }

  /** The indexes of a provider's jobs, in order. */
  function Indexes(jobs: seq<Job>, p: string): seq<nat> {
    if jobs == [] then []
    else Indexes(jobs[..|jobs| - 1], p) + if jobs[|jobs| - 1].provider == p then [|jobs| - 1] else []
  }

  lemma {:induction false} IndexesAre(jobs: seq<Job>, p: string)
    ensures forall i :: 0 <= i < |Indexes(jobs, p)| ==>
              Indexes(jobs, p)[i] < |jobs| && jobs[Indexes(jobs, p)[i]].provider == p
    ensures |Indexes(jobs, p)| == Places(jobs, p)
  {
    if jobs != [] { IndexesAre(jobs[..|jobs| - 1], p); }
  }

  function Picked(jobs: seq<Job>, indexes: seq<nat>): int
    requires forall i :: 0 <= i < |indexes| ==> indexes[i] < |jobs|
  {
    if indexes == [] then 0 else Add64(Picked(jobs, indexes[..|indexes| - 1]), jobs[indexes[|indexes| - 1]].cost)
  }

  lemma {:induction false} PickedPrefix(jobs: seq<Job>, more: seq<Job>, indexes: seq<nat>)
    requires forall i :: 0 <= i < |indexes| ==> indexes[i] < |jobs|
    ensures Picked(jobs + more, indexes) == Picked(jobs, indexes)
  {
    if indexes != [] { PickedPrefix(jobs, more, indexes[..|indexes| - 1]); }
  }

  /** Summing a provider's group gives its share. */
  lemma {:induction false} GroupIsShare(jobs: seq<Job>, p: string)
    ensures (forall i :: 0 <= i < |Indexes(jobs, p)| ==> Indexes(jobs, p)[i] < |jobs|)
    ensures Picked(jobs, Indexes(jobs, p)) == Share64(jobs, p)
  {
    IndexesAre(jobs, p);
    if jobs != [] {
      var init, last := jobs[..|jobs| - 1], jobs[|jobs| - 1];
      IndexesAre(init, p);
      GroupIsShare(init, p);
      assert jobs == init + [last];
      var group := Indexes(init, p);
      PickedPrefix(init, [last], group);
      if last.provider == p {
        assert Indexes(jobs, p) == group + [|init|] && (group + [|init|])[..|group|] == group;
      } else {
        assert Indexes(jobs, p) == group;
      }
    }
  }

  // ---------------------------------------------------------------- the two checks

  /** Skipped when the binding cannot be read or sets no budget. */
  predicate BudgetOk(bindingOf: string -> Option<Limits>, usageOf: string -> Option<Usage>, jobs: seq<Job>, p: string) {
    bindingOf(p).Some? && bindingOf(p).value.budget > 0 ==>
      usageOf(p).Some? && Add64(usageOf(p).value.committed, Share64(jobs, p)) <= bindingOf(p).value.budget
  }

  predicate ConcurrencyOk(bindingOf: string -> Option<Limits>, usageOf: string -> Option<Usage>, jobs: seq<Job>,
                          p: string) {
    bindingOf(p).Some? && usageOf(p).Some?
    && usageOf(p).value.active + Places(jobs, p) <= bindingOf(p).value.concurrency
  }

  predicate Named(jobs: seq<Job>, p: string) {
    p != "fake" && exists i :: 0 <= i < |jobs| && jobs[i].provider == p
  }

  method GroupByProvider(jobs: seq<Job>) returns (groups: map<string, seq<nat>>)
    ensures forall p :: p in groups <==> Named(jobs, p)
    ensures forall p :: p in groups ==> groups[p] == Indexes(jobs, p) && groups[p] != []
  {
    groups := map[];
    for i := 0 to |jobs|
      invariant forall p :: p in groups <==> Named(jobs[..i], p)
      invariant forall p :: p in groups ==> groups[p] == Indexes(jobs[..i], p) && groups[p] != []
      invariant forall p :: p !in groups && p != "fake" ==> Indexes(jobs[..i], p) == []
    {
      ghost var was := groups;
      var job := jobs[i];
      forall p ensures Named(jobs[..i + 1], p) <==> Named(jobs[..i], p) || (p != "fake" && p == job.provider)
               ensures Indexes(jobs[..i + 1], p) == Indexes(jobs[..i], p) + if p == job.provider then [i] else [] {
        OneMoreJob(jobs, i, p);
      }
      if job.provider == "fake" {
        continue;
      }
      groups := groups[job.provider := (if job.provider in groups then groups[job.provider] else []) + [i]];
    }
    assert jobs[..|jobs|] == jobs;
  }

  lemma OneMoreJob(jobs: seq<Job>, i: nat, p: string)
    requires i < |jobs|
    ensures Named(jobs[..i + 1], p) <==> Named(jobs[..i], p) || (p != "fake" && p == jobs[i].provider)
    ensures Indexes(jobs[..i + 1], p) == Indexes(jobs[..i], p) + if p == jobs[i].provider then [i] else []
  {
    var more := jobs[..i + 1];
    assert more[..i] == jobs[..i] && more[i] == jobs[i];
    if Named(jobs[..i], p) {
      var k :| 0 <= k < i && jobs[..i][k].provider == p;
      assert more[k].provider == p;
    }
  }

  datatype Blocker = Blocker(index: nat, code: string)

  const BUDGET_LOOKUP_FAILED := "MEDIA_BATCH_BUDGET_LOOKUP_FAILED"
  const BUDGET_EXCEEDED := "MEDIA_BATCH_MONTHLY_BUDGET_EXCEEDED"
  const CONCURRENCY_LOOKUP_FAILED := "MEDIA_BATCH_CONCURRENCY_LOOKUP_FAILED"
  const CONCURRENCY_EXCEEDED := "MEDIA_BATCH_CONCURRENCY_EXCEEDED"

  method Requested(jobs: seq<Job>, indexes: seq<nat>) returns (sum: int)
    requires forall i :: 0 <= i < |indexes| ==> indexes[i] < |jobs|
    ensures sum == Picked(jobs, indexes)
  {
    sum := 0;
    for i := 0 to |indexes|
      invariant sum == Picked(jobs, indexes[..i])
    {
      assert indexes[..i + 1][..i] == indexes[..i];
      sum := Add64(sum, jobs[indexes[i]].cost);
    }
    assert indexes[..|indexes|] == indexes;
  }

  method BudgetBlockers(bindingOf: string -> Option<Limits>, usageOf: string -> Option<Usage>, jobs: seq<Job>)
    returns (blockers: seq<Blocker>)
    ensures blockers == [] <==> forall p :: Named(jobs, p) ==> BudgetOk(bindingOf, usageOf, jobs, p)
    ensures forall b :: b in blockers
              <==> b.index < |jobs| && First(jobs, b.index) && var p := jobs[b.index].provider;
                   && Named(jobs, p) && !BudgetOk(bindingOf, usageOf, jobs, p)
                   && b.code == if usageOf(p).None? then BUDGET_LOOKUP_FAILED else BUDGET_EXCEEDED
  {
    hide Add64, Named, Share64;
    var groups := GroupByProvider(jobs);
    blockers := [];
    var rest := groups.Keys;
    while rest != {}
      invariant rest <= groups.Keys
      invariant forall b :: b in blockers ==> b.index < |jobs|
      invariant forall b :: b in blockers
                  <==> b.index < |jobs| && First(jobs, b.index) && var p := jobs[b.index].provider;
                       && p in groups && p !in rest && !BudgetOk(bindingOf, usageOf, jobs, p)
                       && b.code == if usageOf(p).None? then BUDGET_LOOKUP_FAILED else BUDGET_EXCEEDED
      decreases rest
    {
      var p :| p in rest;
      rest := rest - {p};
      GroupIsShare(jobs, p);
      FirstIndex(jobs, p);
      var requested := Requested(jobs, groups[p]);
      var ok := WithinBudget(bindingOf(p), usageOf(p), requested);
      if !ok {
        var code := if usageOf(p).None? then BUDGET_LOOKUP_FAILED else BUDGET_EXCEEDED;
        blockers := blockers + [Blocker(groups[p][0], code)];
      }
    }
    forall p | Named(jobs, p) && !BudgetOk(bindingOf, usageOf, jobs, p) ensures blockers != [] {
      FirstIndex(jobs, p);
      var code := if usageOf(p).None? then BUDGET_LOOKUP_FAILED else BUDGET_EXCEEDED;
      assert Blocker(Indexes(jobs, p)[0], code) in blockers;
    }
    if blockers != [] { assert blockers[0] in blockers; }
  }

  /** No earlier job has the same provider. */
  predicate First(jobs: seq<Job>, i: nat)
    requires i < |jobs|
  {
    forall k :: 0 <= k < i ==> jobs[k].provider != jobs[i].provider
  }

  lemma {:induction false} FirstIndex(jobs: seq<Job>, p: string)
    requires Indexes(jobs, p) != []
    ensures var i := Indexes(jobs, p)[0];
            i < |jobs| && jobs[i].provider == p && First(jobs, i)
    ensures forall i :: 0 <= i < |jobs| && jobs[i].provider == p && First(jobs, i) ==> i == Indexes(jobs, p)[0]
  {
    var init := jobs[..|jobs| - 1];
    if Indexes(init, p) != [] {
      FirstIndex(init, p);
    } else {
      NoIndexes(init, p);
    }
  }

  lemma {:induction false} NoIndexes(jobs: seq<Job>, p: string)
    requires Indexes(jobs, p) == []
    ensures forall i :: 0 <= i < |jobs| ==> jobs[i].provider != p
  {
    if jobs != [] { NoIndexes(jobs[..|jobs| - 1], p); }
  }

  /** A binding that cannot be read, or without a budget, does not block; unreadable usage does. */
  method WithinBudget(binding: Option<Limits>, usage: Option<Usage>, requested: int) returns (ok: bool)
    ensures ok
            <==> (binding.Some? && binding.value.budget > 0
                  ==> usage.Some? && Add64(usage.value.committed, requested) <= binding.value.budget)
  {
    if binding.None? || binding.value.budget <= 0 {
      return true;
    }
    if usage.None? {
      return false;
    }
    ok := Add64(usage.value.committed, requested) <= binding.value.budget;
  }

  method ConcurrencyBlockers(bindingOf: string -> Option<Limits>, usageOf: string -> Option<Usage>, jobs: seq<Job>)
    returns (blockers: seq<Blocker>)
    ensures blockers == [] <==> forall p :: Named(jobs, p) ==> ConcurrencyOk(bindingOf, usageOf, jobs, p)
    ensures forall b :: b in blockers
              <==> b.index < |jobs| && First(jobs, b.index) && var p := jobs[b.index].provider;
                   && Named(jobs, p) && !ConcurrencyOk(bindingOf, usageOf, jobs, p)
                   && b.code == if bindingOf(p).None? || usageOf(p).None? then CONCURRENCY_LOOKUP_FAILED
                                else CONCURRENCY_EXCEEDED
  {
    hide Named, Places;
    var groups := GroupByProvider(jobs);
    blockers := [];
    var rest := groups.Keys;
    while rest != {}
      invariant rest <= groups.Keys
      invariant forall b :: b in blockers
                  <==> b.index < |jobs| && First(jobs, b.index) && var p := jobs[b.index].provider;
                       && p in groups && p !in rest && !ConcurrencyOk(bindingOf, usageOf, jobs, p)
                       && b.code == if bindingOf(p).None? || usageOf(p).None? then CONCURRENCY_LOOKUP_FAILED
                                    else CONCURRENCY_EXCEEDED
      decreases rest
    {
      var p :| p in rest;
      rest := rest - {p};
      IndexesAre(jobs, p);
      FirstIndex(jobs, p);
      var binding, usage := bindingOf(p), usageOf(p);
      if binding.None? || usage.None? {
        blockers := blockers + [Blocker(groups[p][0], CONCURRENCY_LOOKUP_FAILED)];
        continue;
      }
      if usage.value.active + |groups[p]| > binding.value.concurrency {
        blockers := blockers + [Blocker(groups[p][0], CONCURRENCY_EXCEEDED)];
      }
    }
    forall p | Named(jobs, p) && !ConcurrencyOk(bindingOf, usageOf, jobs, p) ensures blockers != [] {
      FirstIndex(jobs, p);
      var lookup := bindingOf(p).None? || usageOf(p).None?;
      assert Blocker(Indexes(jobs, p)[0], if lookup then CONCURRENCY_LOOKUP_FAILED else CONCURRENCY_EXCEEDED)
             in blockers;
    }
    if blockers != [] { assert blockers[0] in blockers; }
  }

  /** What the two checks of a provider come to. Without a readable binding, or without a positive budget,
      no budget is checked; with one, usage that cannot be read blocks, and otherwise what is committed and
      asked for must stay within the budget as far as it fits 64 bits. The places in use and asked for must
      be known and within the limit. The built-in provider is not checked at all. */
  lemma ChecksMean(bindingOf: string -> Option<Limits>, usageOf: string -> Option<Usage>, jobs: seq<Job>, p: string)
    requires forall i :: 0 <= i < |jobs| ==> 0 <= jobs[i].cost
    ensures !Named(jobs, "fake")
    ensures p != "fake" ==> (Named(jobs, p) <==> exists j :: j in jobs && j.provider == p)
    ensures bindingOf(p) == None
            ==> BudgetOk(bindingOf, usageOf, jobs, p) && !ConcurrencyOk(bindingOf, usageOf, jobs, p)
    ensures bindingOf(p).Some? && bindingOf(p).value.budget <= 0 ==> BudgetOk(bindingOf, usageOf, jobs, p)
    ensures bindingOf(p).Some? && bindingOf(p).value.budget > 0 && usageOf(p) == None ==>
              !BudgetOk(bindingOf, usageOf, jobs, p)
    ensures bindingOf(p).Some? && bindingOf(p).value.budget > 0 && usageOf(p).Some?
            && FitsIn64(usageOf(p).value.committed, Share(jobs, p)) ==>
              (BudgetOk(bindingOf, usageOf, jobs, p)
               <==> usageOf(p).value.committed + Share(jobs, p) <= bindingOf(p).value.budget)
    ensures usageOf(p) == None ==> !ConcurrencyOk(bindingOf, usageOf, jobs, p)
    ensures bindingOf(p).Some? && usageOf(p).Some? ==>
              (ConcurrencyOk(bindingOf, usageOf, jobs, p)
               <==> usageOf(p).value.active + |set i | 0 <= i < |jobs| && jobs[i].provider == p|
                    <= bindingOf(p).value.concurrency)
  {
    hide Share, Share64, Places;
    SumsAreExact(jobs, p);
    PlacesCount(jobs, p);
    if j :| j in jobs && j.provider == p {
      var i :| 0 <= i < |jobs| && jobs[i] == j;
      assert jobs[i].provider == p;
    }
  }

  lemma {:induction false} PlacesCount(jobs: seq<Job>, p: string)
    ensures Places(jobs, p) == |set i | 0 <= i < |jobs| && jobs[i].provider == p|
  {
    var all := set i | 0 <= i < |jobs| && jobs[i].provider == p;
    if jobs == [] {
      assert all == {};
    } else {
      var n := |jobs| - 1;
      var init := jobs[..n];
      PlacesCount(init, p);
      assert all == (set i | 0 <= i < |init| && init[i].provider == p) + if jobs[n].provider == p then {n} else {};
    }
  }

  // ---------------------------------------------------------------- one batch

  datatype Decision =
    | Invalid | Blocked(blockers: seq<Blocker>) | ConfirmationRequired | StoreRefused
    | Admitted(jobs: seq<Job>, currency: string, estimated: int)

  /** Every request was prepared, and all in one currency. */
  predicate Preparable(requests: seq<Option<Job>>) {
    && (forall i :: 0 <= i < |requests| ==> requests[i].Some?)
    && (forall i, j :: 0 <= i < j < |requests| ==> requests[i].value.currency == requests[j].value.currency)
  }

  function JobsOf(requests: seq<Option<Job>>): seq<Job>
    requires Preparable(requests)
  {
    seq(|requests|, i requires 0 <= i < |requests| => requests[i].value)
  }

  predicate Fresh(stored: seq<Job>, jobs: seq<Job>) {
    && (forall i, j :: 0 <= i < j < |jobs| ==> jobs[i].key != jobs[j].key)
    && (forall i, j :: 0 <= i < |jobs| && 0 <= j < |stored| ==> jobs[i].key != stored[j].key)
  }

  predicate KeysDistinct(jobs: seq<Job>) { forall i, j :: 0 <= i < j < |jobs| ==> jobs[i].key != jobs[j].key }

  function Enqueued(jobs: seq<Job>): seq<Job> { seq(|jobs|, i requires 0 <= i < |jobs| => jobs[i].(state := Queued)) }

  ghost predicate Admissible(bindingOf: string -> Option<Limits>, usageOf: string -> Option<Usage>, jobs: seq<Job>) {
    forall p :: Named(jobs, p) ==> BudgetOk(bindingOf, usageOf, jobs, p) && ConcurrencyOk(bindingOf, usageOf, jobs, p)
  }

  class Admission {
    var stored: seq<Job>

    constructor ()
      ensures stored == []
    {
      stored := [];
    }

    /** Prepares every request; a failed one or a second currency is a blocker. */
    method Prepare(requests: seq<Option<Job>>)
      returns (blockers: seq<Blocker>, jobs: seq<Job>, currency: string, estimated: int)
      requires CurrenciesNamed(requests)
      ensures blockers == [] <==> Preparable(requests)
      ensures blockers == [] ==> jobs == JobsOf(requests) && estimated == Total64(jobs)
      ensures blockers == [] && requests != [] ==> currency == requests[0].value.currency
    {
      hide Add64;
      blockers, jobs, currency, estimated := [], [], "", 0;
      for i := 0 to |requests|
        invariant blockers == [] ==>
                    Preparable(requests[..i]) && jobs == JobsOf(requests[..i]) && estimated == Total64(jobs)
        invariant blockers == [] ==> currency == if i == 0 then "" else requests[0].value.currency
        invariant blockers != [] ==> !Preparable(requests)
      {
        if requests[i].None? {
          blockers := blockers + [Blocker(i, "MEDIA_JOB_REFUSED")];
          continue;
        }
        var job := requests[i].value;
        if currency == "" {
          currency := job.currency;
        } else if currency != job.currency {
          if blockers == [] { assert requests[0].value.currency != requests[i].value.currency; }
          blockers := blockers + [Blocker(i, "MEDIA_BATCH_CURRENCY_MISMATCH")];
          continue;
        }
        estimated := Add64(estimated, job.cost);
        if blockers == [] { PreparedMore(requests, i); }
        assert (jobs + [job])[..|jobs|] == jobs;
        jobs := jobs + [job];
      }
      assert requests[..|requests|] == requests;
    }

    /** Creates every job of the batch, queued, or nothing. */
    method CreateBatch(bindingOf: string -> Option<Limits>, usageOf: string -> Option<Usage>,
                       requests: seq<Option<Job>>, confirmed: bool)
      returns (r: Decision)
      requires CurrenciesNamed(requests)
      modifies this
      ensures r.Admitted? <==> 1 <= |requests| <= 100 && Preparable(requests) && var jobs := JobsOf(requests);
                               Admissible(bindingOf, usageOf, jobs) && (Total64(jobs) > 0 ==> confirmed)
                               && Fresh(old(stored), jobs)
      ensures r.Admitted? ==>
                r.jobs == Enqueued(JobsOf(requests)) && r.currency == requests[0].value.currency
                && r.estimated == Total64(JobsOf(requests))
      ensures r.Admitted? ==>
                && |r.jobs| == |requests|
                && (forall i :: 0 <= i < |requests| ==>
                      requests[i].Some? && r.jobs[i] == requests[i].value.(state := Queued)
                      && r.jobs[i].currency == r.currency)
                && (r.estimated > 0 ==> confirmed)
      ensures stored == if r.Admitted? then old(stored) + r.jobs else old(stored)
      ensures KeysDistinct(old(stored)) ==> KeysDistinct(stored)
      ensures r.Invalid? <==> |requests| == 0 || |requests| > 100
      ensures r.Blocked?
              <==> 1 <= |requests| <= 100 && !(Preparable(requests) && Admissible(bindingOf, usageOf, JobsOf(requests)))
    {
      hide Add64, BudgetOk, ConcurrencyOk, Named, Fresh, Preparable;
      if |requests| == 0 || |requests| > 100 {
        return Invalid;
      }
      var blockers, jobs, currency, estimated := Prepare(requests);
      if |blockers| > 0 {
        return Blocked(blockers);
      }
      blockers := BudgetBlockers(bindingOf, usageOf, jobs);
      var more := ConcurrencyBlockers(bindingOf, usageOf, jobs);
      blockers := blockers + more;
      if |blockers| > 0 {
        return Blocked(blockers);
      }
      if estimated > 0 && !confirmed {
        return ConfirmationRequired;
      }
      if !Fresh(stored, jobs) {
        return StoreRefused;
      }
      var queued := Enqueued(jobs);
      EnqueuedAre(requests);
      if KeysDistinct(stored) { FreshKeys(stored, jobs); }
      stored := stored + queued;
      r := Admitted(queued, currency, estimated);
    }
  }

  lemma EnqueuedAre(requests: seq<Option<Job>>)
    requires Preparable(requests)
    ensures var jobs := Enqueued(JobsOf(requests));
            |jobs| == |requests|
            && forall i :: 0 <= i < |requests| ==>
                 requests[i].Some? && jobs[i] == requests[i].value.(state := Queued)
                 && jobs[i].currency == requests[0].value.currency
  {
    forall i | 0 < i < |requests| ensures requests[0].value.currency == requests[i].value.currency { }
  }

  lemma FreshKeys(stored: seq<Job>, jobs: seq<Job>)
    requires Fresh(stored, jobs) && KeysDistinct(stored)
    ensures KeysDistinct(stored + Enqueued(jobs))
  {
  }

  /** A prepared job always names its currency. */
  predicate CurrenciesNamed(requests: seq<Option<Job>>) {
    forall i :: 0 <= i < |requests| && requests[i].Some? ==> requests[i].value.currency != ""
  }

  lemma PreparedMore(requests: seq<Option<Job>>, i: nat)
    requires i < |requests| && Preparable(requests[..i]) && requests[i].Some?
    requires i > 0 ==> requests[i].value.currency == requests[0].value.currency
    ensures Preparable(requests[..i + 1]) && JobsOf(requests[..i + 1]) == JobsOf(requests[..i]) + [requests[i].value]
  {
    var more := requests[..i + 1];
    forall j | 0 <= j < i ensures more[j].Some? && more[j].value.currency == more[i].value.currency {
      assert more[j] == requests[..i][j];
      if j > 0 { assert requests[..i][0].value.currency == requests[..i][j].value.currency; }
    }
    forall j, k | 0 <= j < k < |more| ensures more[j].value.currency == more[k].value.currency {
      assert more[j].Some? && more[j].value.currency == more[i].value.currency;
    }
  }

  // ---------------------------------------------------------------- what admission guarantees

  predicate FitsIn64(committed: int, share: int) { 0 <= committed && 0 <= share && committed + share <= MAX_64 }

  /** Whatever lookup failed: an admitted batch keeps every provider within its concurrency, and
      it keeps a provider within a positive budget exactly when the true sum fits 64 bits. */
  lemma AdmittedIsWithinLimits(bindingOf: string -> Option<Limits>, usageOf: string -> Option<Usage>, jobs: seq<Job>,
                               p: string)
    requires Admissible(bindingOf, usageOf, jobs) && Named(jobs, p) && forall i :: 0 <= i < |jobs| ==> 0 <= jobs[i].cost
    ensures bindingOf(p).Some? && usageOf(p).Some?
    ensures usageOf(p).value.active + Places(jobs, p) <= bindingOf(p).value.concurrency
    ensures 0 <= usageOf(p).value.committed && 0 < bindingOf(p).value.budget <= MAX_64 ==>
              (usageOf(p).value.committed + Share(jobs, p) <= bindingOf(p).value.budget
               <==> FitsIn64(usageOf(p).value.committed, Share(jobs, p)))
  {
    assert BudgetOk(bindingOf, usageOf, jobs, p) && ConcurrencyOk(bindingOf, usageOf, jobs, p);
    hide Share, Share64, Places, Named;
    SumsAreExact(jobs, p);
  }

  lemma AppendSums(jobs: seq<Job>, job: Job, p: string)
    ensures Share([], p) == Share64([], p) == Total([]) == Total64([]) == Places([], p) == 0
    ensures var more := jobs + [job];
            && Total(more) == Total(jobs) + job.cost && Total64(more) == Add64(Total64(jobs), job.cost)
            && Share(more, p) == (if job.provider == p then Share(jobs, p) + job.cost else Share(jobs, p))
            && Share64(more, p) == (if job.provider == p then Add64(Share64(jobs, p), job.cost) else Share64(jobs, p))
            && Places(more, p) == (if job.provider == p then Places(jobs, p) + 1 else Places(jobs, p))
  {
    assert (jobs + [job])[..|jobs|] == jobs;
  }

  function Costly(key: string): Job { Job("p", "CNY", MAX_64, key, AwaitingCostApproval, false, 0) }

  /** Two jobs whose sum wraps to a negative amount pass both checks against a budget of one; the
      batch is reported at minus two and asks for no confirmation. */
  lemma OverflowSlipsThrough(key: string, other: string)
    ensures var jobs := [Costly(key), Costly(other)];
            && Admissible(p => Some(Limits(1, 2)), p => Some(Usage(0, 0)), jobs)
            && Total64(jobs) == -2 && Share(jobs, "p") == Total(jobs) == MAX_64 + MAX_64
  {
    var a, b := Costly(key), Costly(other);
    AppendSums([], a, "p");
    AppendSums([a], b, "p");
    assert [] + [a] == [a] && [a] + [b] == [a, b];
    hide Share, Share64, Places, Total, Total64;
    assert forall p :: Named([a, b], p) ==> p == "p";
  }
}
