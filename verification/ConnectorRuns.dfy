/** Many syncs of one binding: leased, interleaved, stopped anywhere and replayed, with an adapter
    that may answer the same cursor differently each time. */
module ConnectorRuns {
  import opened Wrappers
  import opened Schedules
  import opened Connector

  datatype Pc = Idle | Leased | Syncing(cursor: string, page: Page, pos: nat)

  datatype Receipt = Receipt(previous: string, page: Page)

  /** log holds the committed receipts; strays are the ids written since a committed page last
      covered them; overlapped records that a lease expired while its owner was still at work. */
  datatype World = World(
    records: Mapping, cursor: string, lease: Option<nat>, workers: map<nat, Pc>, log: seq<Receipt>,
    strays: set<string>, overlapped: bool)

  datatype Act =
    | Acquire(w: nat) | Pull(w: nat, page: Page) | Save(w: nat) | Commit(w: nat) | Fail(w: nat) | Crash(w: nat) | Expire

  function PcOf(v: World, w: nat): Pc { if w in v.workers then v.workers[w] else Idle }

  function Released(v: World, w: nat): World {
    v.(lease := if v.lease == Some(w) then None else v.lease, workers := v.workers[w := Idle])
  }

  function RecordIds(rs: seq<Record>): set<string> { set i | 0 <= i < |rs| :: rs[i].id }

  function Next(v: World, a: Act): World {
    match a
    case Acquire(w) =>
      if PcOf(v, w) == Idle && v.lease == None then v.(lease := Some(w), workers := v.workers[w := Leased]) else v
    case Pull(w, page) =>
      if PcOf(v, w) != Leased then v
      else if !DistinctIds(page.records) then Released(v, w)
      else v.(workers := v.workers[w := Syncing(v.cursor, page, 0)])
    case Save(w) =>
      var pc := PcOf(v, w);
      if pc.Syncing? && pc.pos < |pc.page.records| then
        var r := pc.page.records[pc.pos];
        v.(records := v.records[r.id := r.entry], workers := v.workers[w := pc.(pos := pc.pos + 1)],
           strays := v.strays + {r.id})
      else v
    case Commit(w) =>
      var pc := PcOf(v, w);
      if !pc.Syncing? || pc.pos < |pc.page.records| then v
      else if v.cursor == pc.cursor && v.lease == Some(w) then
        v.(cursor := pc.page.next, lease := None, workers := v.workers[w := Idle],
           log := v.log + [Receipt(pc.cursor, pc.page)],
           strays := v.strays - RecordIds(pc.page.records))
      else Released(v, w)
    case Fail(w) => Released(v, w)
    case Crash(w) => v.(workers := v.workers[w := Idle])
    case Expire =>
      v.(lease := None, overlapped := v.overlapped || (v.lease.Some? && PcOf(v, v.lease.value) != Idle))
  }

  function Init(start: string): World { World(map[], start, None, map[], [], {}, false) }

  // ---------------------------------------------------------------- receipts

  /** The receipts lead, page after page, from the first cursor to the present one. */
  ghost predicate Chain(start: string, log: seq<Receipt>, cursor: string) {
    (forall i :: 0 <= i < |log| ==> Link(CursorAt(start, log, i), log[i])) && cursor == CursorAt(start, log, |log|)
  }

  ghost predicate Link(cursor: string, r: Receipt) { r.previous == cursor && DistinctIds(r.page.records) }

  function CursorAt(start: string, log: seq<Receipt>, i: nat): string
    requires i <= |log|
  {
    if i == 0 then start else log[i - 1].page.next
  }

  ghost predicate PcOk(pc: Pc) { pc.Syncing? ==> DistinctIds(pc.page.records) && pc.pos <= |pc.page.records| }

  ghost predicate ChainInv(start: string, v: World) {
    Chain(start, v.log, v.cursor) && forall w: nat :: PcOk(PcOf(v, w))
  }

  lemma ChainMore(start: string, log: seq<Receipt>, cursor: string, page: Page)
    requires Chain(start, log, cursor) && DistinctIds(page.records)
    ensures Chain(start, log + [Receipt(cursor, page)], page.next)
  {
    var r := Receipt(cursor, page);
    forall i | 0 <= i < |log| + 1 ensures Link(CursorAt(start, log + [r], i), (log + [r])[i]) {
      hide CursorAt, Link;
      CursorAtMore(start, log, r, i);
      if i == |log| { LinkHere(cursor, page); }
    }
  }

  lemma CursorAtMore(start: string, log: seq<Receipt>, r: Receipt, i: nat)
    requires i <= |log|
    ensures CursorAt(start, log + [r], i) == CursorAt(start, log, i)
  {
  }

  lemma LinkHere(cursor: string, page: Page)
    requires DistinctIds(page.records)
    ensures Link(cursor, Receipt(cursor, page))
  {
  }

  lemma ChainStep(start: string, v: World, a: Act)
    requires ChainInv(start, v)
    ensures ChainInv(start, Next(v, a))
  {
    hide DistinctIds, Chain;
    var t := Next(v, a);
    forall w: nat ensures PcOk(PcOf(t, w)) { assert PcOk(PcOf(v, w)); }
    if a.Commit? {
      assert PcOk(PcOf(v, a.w));
      if t.log != v.log { ChainMore(start, v.log, v.cursor, PcOf(v, a.w).page); }
    }
  }

  /** Whatever the interleaving, lease expiry included, no page is skipped or committed out of
      turn: the committed receipts chain from the first cursor to the current one. */
  lemma ReceiptsChain(start: string, schedule: seq<Act>)
    ensures ChainInv(start, Run(Next, Init(start), schedule))
  {
    forall v: World, a: Act | ChainInv(start, v) ensures ChainInv(start, Next(v, a)) { ChainStep(start, v, a); }
    RunInvariant(Next, (v: World) => ChainInv(start, v), Init(start), schedule);
  }

  // ---------------------------------------------------------------- the mapping

  function Fold(log: seq<Receipt>): Mapping {
    if log == [] then map[] else ApplyAll(Fold(log[..|log| - 1]), log[|log| - 1].page.records)
  }

  /** Without overlap only the lease owner is at work, from the current cursor, what it wrote is
      there, and outside the strays the mapping is the committed fold. */
  ghost predicate QuietInv(v: World) {
    && (forall w: nat :: OwnerOk(v, w) && PcOk(PcOf(v, w)) && WorkerOk(v, PcOf(v, w)))
    && forall id :: AgreesOn(v, id)
  }

  ghost predicate OwnerOk(v: World, w: nat) { PcOf(v, w) != Idle ==> v.lease == Some(w) }

  ghost predicate AgreesOn(v: World, id: string) {
    id !in v.strays ==> Lookup(v.records, id) == Lookup(Fold(v.log), id)
  }

  ghost predicate WorkerOk(v: World, pc: Pc) {
    pc.Syncing? ==>
      pc.cursor == v.cursor && forall i :: 0 <= i < pc.pos && i < |pc.page.records| ==> Wrote(v, pc.page.records[i])
  }

  ghost predicate Wrote(v: World, r: Record) { r.id in v.strays && Lookup(v.records, r.id) == Some(r.entry) }

  lemma SaveKeeps(v: World, w: nat)
    requires QuietInv(v)
    ensures QuietInv(Next(v, Save(w)))
  {
    hide Fold, Wrote;
    var t, pc := Next(v, Save(w)), PcOf(v, w);
    assert OwnerOk(v, w) && PcOk(pc) && WorkerOk(v, pc);
    if t != v {
      forall u: nat ensures OwnerOk(t, u) && PcOk(PcOf(t, u)) && WorkerOk(t, PcOf(t, u)) {
        assert OwnerOk(v, u) && PcOk(PcOf(v, u));
        if u == w { WroteMore(v, w); }
      }
      forall id ensures AgreesOn(t, id) { assert AgreesOn(v, id); }
    }
  }

  lemma WroteMore(v: World, w: nat)
    requires PcOf(v, w).Syncing? && PcOk(PcOf(v, w)) && WorkerOk(v, PcOf(v, w))
    requires PcOf(v, w).pos < |PcOf(v, w).page.records|
    ensures WorkerOk(Next(v, Save(w)), PcOf(Next(v, Save(w)), w))
  {
    var t, pc := Next(v, Save(w)), PcOf(v, w);
    forall i | 0 <= i < pc.pos + 1 ensures Wrote(t, pc.page.records[i]) {
      if i < pc.pos { assert Wrote(v, pc.page.records[i]); }
    }
  }

  lemma CommitKeeps(v: World, w: nat)
    requires QuietInv(v)
    ensures QuietInv(Next(v, Commit(w)))
  {
    var t, pc := Next(v, Commit(w)), PcOf(v, w);
    assert OwnerOk(v, w) && PcOk(pc) && WorkerOk(v, pc);
    forall u: nat ensures OwnerOk(t, u) && PcOk(PcOf(t, u)) && WorkerOk(t, PcOf(t, u)) {
      assert OwnerOk(v, u) && PcOk(PcOf(v, u)) && WorkerOk(v, PcOf(v, u));
    }
    forall id ensures AgreesOn(t, id) {
      assert AgreesOn(v, id);
      if t.log != v.log { CommitAgrees(v, w, id); }
    }
  }

  /** After a commit the page's records are in both, and everything else is as before. */
  lemma CommitAgrees(v: World, w: nat, id: string)
    requires QuietInv(v) && Next(v, Commit(w)).log != v.log
    ensures AgreesOn(Next(v, Commit(w)), id)
  {
    hide Fold, DistinctIds, LastFor, ApplyAll;
    var pc := PcOf(v, w);
    assert PcOk(pc) && WorkerOk(v, pc) && AgreesOn(v, id);
    var rs := pc.page.records;
    FoldMore(v.log, Receipt(pc.cursor, pc.page));
    ApplyAllLookup(Fold(v.log), rs, id);
    if i :| 0 <= i < |rs| && rs[i].id == id {
      DistinctLast(rs, i);
      assert Wrote(v, rs[i]);
    } else {
      NoneFor(rs, id);
    }
  }

  lemma {:induction false} NoneFor(rs: seq<Record>, id: string)
    requires forall i :: 0 <= i < |rs| ==> rs[i].id != id
    ensures LastFor(rs, id).None?
  {
    if rs != [] { NoneFor(rs[..|rs| - 1], id); }
  }

  lemma FoldMore(log: seq<Receipt>, r: Receipt)
    ensures Fold(log + [r]) == ApplyAll(Fold(log), r.page.records)
  {
    assert (log + [r])[..|log|] == log;
  }

  lemma OtherKeeps(v: World, a: Act)
    requires QuietInv(v) && !Next(v, a).overlapped && !a.Save? && !a.Commit?
    ensures QuietInv(Next(v, a))
  {
    hide Fold, DistinctIds, Wrote;
    var t := Next(v, a);
    forall u: nat ensures OwnerOk(t, u) && PcOk(PcOf(t, u)) && WorkerOk(t, PcOf(t, u)) {
      assert OwnerOk(v, u) && PcOk(PcOf(v, u)) && WorkerOk(v, PcOf(v, u));
      if !a.Expire? { assert OwnerOk(v, a.w); }
      WorkerFrame(v, t, PcOf(v, u));
    }
    forall id ensures AgreesOn(t, id) { assert AgreesOn(v, id); }
  }

  /** What a worker knows depends on cursor, strays and records only. */
  lemma WorkerFrame(v: World, t: World, pc: Pc)
    requires t.cursor == v.cursor && t.strays == v.strays && t.records == v.records && WorkerOk(v, pc)
    ensures WorkerOk(t, pc)
  {
    forall r: Record | Wrote(v, r) ensures Wrote(t, r) { }
  }

  lemma QuietStep(v: World, a: Act)
    requires !v.overlapped ==> QuietInv(v)
    ensures !Next(v, a).overlapped ==> QuietInv(Next(v, a))
  {
    if !Next(v, a).overlapped {
      assert !v.overlapped;
      match a
      case Save(w) => SaveKeeps(v, w);
      case Commit(w) => CommitKeeps(v, w);
      case _ => OtherKeeps(v, a);
    }
  }

  lemma QuietRun(start: string, schedule: seq<Act>)
    ensures var v := Run(Next, Init(start), schedule); !v.overlapped ==> QuietInv(v)
  {
    assert QuietInv(Init(start));
    hide QuietInv, Next;
    forall v: World, a: Act | !v.overlapped ==> QuietInv(v) ensures !Next(v, a).overlapped ==> QuietInv(Next(v, a)) {
      QuietStep(v, a);
    }
    RunInvariant(Next, (v: World) => !v.overlapped ==> QuietInv(v), Init(start), schedule);
  }

  /** Under non-overlapping leases, at every cursor commit of every run the mapping is the
      last-write-wins fold of all committed pages, except possibly on strays: ids that stopped syncs
      wrote and no committed page has covered since. It is the fold entirely exactly when the
      strays happen to agree with it, and so whenever the page covers all that was written. */
  lemma CommitsAreFolds(start: string, schedule: seq<Act>, w: nat)
    ensures var v := Run(Next, Init(start), schedule);
            var t := Next(v, Commit(w));
            t.log != v.log && !v.overlapped ==>
              && (forall id :: id !in t.strays ==> Lookup(t.records, id) == Lookup(Fold(t.log), id))
              && (t.records == Fold(t.log) <==> forall id :: id in t.strays ==>
                    Lookup(t.records, id) == Lookup(Fold(t.log), id))
              && (v.strays <= RecordIds(PcOf(v, w).page.records) ==> t.records == Fold(t.log))
  {
    hide Fold, DistinctIds, Run;
    var v := Run(Next, Init(start), schedule);
    var t := Next(v, Commit(w));
    QuietRun(start, schedule);
    if t.log != v.log && !v.overlapped {
      CommitKeeps(v, w);
      forall id | id !in t.strays ensures Lookup(t.records, id) == Lookup(Fold(t.log), id) { assert AgreesOn(t, id); }
      if forall id :: id in t.strays ==> Lookup(t.records, id) == Lookup(Fold(t.log), id) {
        SameLookups(t.records, Fold(t.log));
      }
    }
  }

  // ---------------------------------------------------------------- an adapter that repeats itself

  /** The pull of this step, if it is one, answers as the function says. */
  predicate Answers(pull: string -> Page, v: World, a: Act) { a.Pull? ==> a.page == pull(v.cursor) }

  predicate RunAnswers(pull: string -> Page, v: World, schedule: seq<Act>)
    decreases |schedule|
  {
    schedule == [] || (Answers(pull, v, schedule[0]) && RunAnswers(pull, Next(v, schedule[0]), schedule[1..]))
  }

  /** Only the page at the cursor has been begun. */
  ghost predicate SteadyInv(pull: string -> Page, v: World) {
    && v.strays <= RecordIds(pull(v.cursor).records)
    && forall w: nat :: PcOf(v, w).Syncing? ==> PcOf(v, w).page == pull(v.cursor)
  }

  lemma SteadyStep(pull: string -> Page, v: World, a: Act)
    requires QuietInv(v) && SteadyInv(pull, v) && Answers(pull, v, a) && !Next(v, a).overlapped
    ensures SteadyInv(pull, Next(v, a))
  {
    hide Fold, DistinctIds, Wrote, AgreesOn;
    var t := Next(v, a);
    forall u: nat ensures PcOf(t, u).Syncing? ==> PcOf(t, u).page == pull(t.cursor) {
      assert OwnerOk(v, u) && (PcOf(v, u).Syncing? ==> PcOf(v, u).page == pull(v.cursor));
      if !a.Expire? { assert OwnerOk(v, a.w) && (PcOf(v, a.w).Syncing? ==> PcOf(v, a.w).page == pull(v.cursor)); }
    }
    if a.Save? && PcOf(v, a.w).Syncing? && PcOf(v, a.w).pos < |PcOf(v, a.w).page.records| {
      assert PcOf(v, a.w).page.records[PcOf(v, a.w).pos].id in RecordIds(pull(v.cursor).records);
    }
  }

  lemma {:induction false} SteadyRun(pull: string -> Page, v: World, schedule: seq<Act>)
    requires RunAnswers(pull, v, schedule) && (!v.overlapped ==> QuietInv(v) && SteadyInv(pull, v))
    ensures var t := Run(Next, v, schedule); !t.overlapped ==> QuietInv(t) && SteadyInv(pull, t)
    decreases |schedule|
  {
    hide QuietInv, SteadyInv, Next;
    if schedule != [] {
      var u := Next(v, schedule[0]);
      QuietStep(v, schedule[0]);
      if !u.overlapped {
        OverlapStays(v, schedule[0]);
        SteadyStep(pull, v, schedule[0]);
      }
      SteadyRun(pull, u, schedule[1..]);
    }
  }

  lemma OverlapStays(v: World, a: Act)
    ensures v.overlapped ==> Next(v, a).overlapped
  {
  }

  /** When the adapter answers each cursor with one page, every commit of every run is a fold,
      whatever was stopped and replayed before. */
  lemma SteadyCommitsAreFolds(pull: string -> Page, start: string, schedule: seq<Act>, w: nat)
    requires RunAnswers(pull, Init(start), schedule)
    ensures var v := Run(Next, Init(start), schedule);
            var t := Next(v, Commit(w));
            t.log != v.log && !v.overlapped ==> t.records == Fold(t.log)
  {
    hide Fold, Run, RunAnswers;
    var v := Run(Next, Init(start), schedule);
    assert QuietInv(Init(start)) by { QuietStart(start); }
    SteadyRun(pull, Init(start), schedule);
    CommitsAreFolds(start, schedule, w);
    hide QuietInv;
    assert PcOf(v, w).Syncing? && !v.overlapped ==> PcOf(v, w).page == pull(v.cursor);
  }

  lemma QuietStart(start: string)
    ensures QuietInv(Init(start))
  {
  }

  // ---------------------------------------------------------------- where the fold is lost

  function OneRecord(id: string, version: string, next: string): Page {
    Page([Record(id, Entry(version, "", true))], next)
  }

  /** A worker takes the lease, pulls a page of one record, saves and commits it. */
  function Lap(w: nat, page: Page): seq<Act> { [Acquire(w), Pull(w, page), Save(w), Commit(w)] }

  lemma LapCommits(v: World, w: nat, page: Page)
    requires v.lease == None && PcOf(v, w) == Idle && |page.records| == 1
    ensures Run(Next, v, Lap(w, page))
            == v.(records := v.records[page.records[0].id := page.records[0].entry], cursor := page.next,
                  workers := v.workers[w := Idle],
                  log := v.log + [Receipt(v.cursor, page)], strays := v.strays - {page.records[0].id})
  {
    LapSteps(v, w, page);
    hide Next;
    RunFour(Next, v, Acquire(w), Pull(w, page), Save(w), Commit(w));
  }

  lemma LapSteps(v: World, w: nat, page: Page)
    requires v.lease == None && PcOf(v, w) == Idle && |page.records| == 1
    ensures Next(Next(Next(Next(v, Acquire(w)), Pull(w, page)), Save(w)), Commit(w))
            == v.(records := v.records[page.records[0].id := page.records[0].entry], cursor := page.next,
                  workers := v.workers[w := Idle],
                  log := v.log + [Receipt(v.cursor, page)], strays := v.strays - {page.records[0].id})
  {
    assert DistinctIds(page.records) && RecordIds(page.records) == {page.records[0].id};
    hide DistinctIds, RecordIds;
    var s1 := v.(lease := Some(w), workers := v.workers[w := Leased]);
    assert Next(v, Acquire(w)) == s1;
    var s2 := s1.(workers := v.workers[w := Syncing(v.cursor, page, 0)]);
    assert Next(s1, Pull(w, page)) == s2 by { assert s1.workers[w := Syncing(v.cursor, page, 0)] == s2.workers; }
    var s3 := s2.(records := v.records[page.records[0].id := page.records[0].entry],
                  workers := v.workers[w := Syncing(v.cursor, page, 1)],
                  strays := v.strays + {page.records[0].id});
    assert Next(s2, Save(w)) == s3 by { assert s2.workers[w := Syncing(v.cursor, page, 1)] == s3.workers; }
    assert s3.workers[w := Idle] == v.workers[w := Idle];
    assert s3.strays - {page.records[0].id} == v.strays - {page.records[0].id};
  }

  lemma FoldOne(m: Mapping, log: seq<Receipt>, previous: string, page: Page)
    requires |page.records| == 1 && Fold(log) == m
    ensures Fold(log + [Receipt(previous, page)]) == m[page.records[0].id := page.records[0].entry]
  {
    FoldMore(log, Receipt(previous, page));
    assert page.records == [page.records[0]] && page.records[..0] == [];
  }

  lemma FoldNone()
    ensures Fold([]) == map[]
  {
  }

  const X1 := OneRecord("x", "1", "a")
  const X2 := OneRecord("x", "2", "b")
  const Y1 := OneRecord("y", "1", "a")

  /** Worker 0 holds page one but its lease is gone. */
  const STALLED := World(map[], "", None, map[0 := Syncing("", X1, 0)], [], {}, true)

  lemma ReachStalled()
    ensures Run(Next, Init(""), [Acquire(0), Pull(0, X1), Expire]) == STALLED
  {
    var s1 := World(map[], "", Some(0), map[0 := Leased], [], {}, false);
    var s2 := s1.(workers := map[0 := Syncing("", X1, 0)]);
    assert DistinctIds(X1.records);
    assert Next(Init(""), Acquire(0)) == s1;
    assert Next(s1, Pull(0, X1)) == s2;
    assert Next(s2, Expire) == STALLED;
    RunPath(Next, [Init(""), s1, s2, STALLED], [Acquire(0), Pull(0, X1), Expire]);
  }

  /** Under overlap the fold is lost even with an adapter that repeats itself: worker 0's lease
      expires while it holds page one, worker 1 commits pages one and two, then worker 0 saves its
      stale record, which nothing guards. */
  lemma OverlapLosesTheFold()
    ensures var v := Run(Next, Init(""), [Acquire(0), Pull(0, X1), Expire] + Lap(1, X1) + Lap(1, X2) + [Save(0)]);
            v.overlapped && v.records == map["x" := Entry("1", "", true)]
            && Fold(v.log) == map["x" := Entry("2", "", true)]
  {
    hide Next, Run, Fold;
    var head := [Acquire(0), Pull(0, X1), Expire];
    ReachStalled();
    assert STALLED.lease == None && PcOf(STALLED, 1) == Idle;
    LapCommits(STALLED, 1, X1);
    var one := Run(Next, STALLED, Lap(1, X1));
    LapCommits(one, 1, X2);
    var two := Run(Next, one, Lap(1, X2));
    RunConcat(Next, Init(""), head, Lap(1, X1));
    RunConcat(Next, Init(""), head + Lap(1, X1), Lap(1, X2));
    RunConcat(Next, Init(""), head + Lap(1, X1) + Lap(1, X2), [Save(0)]);
    RunOne(Next, two, Save(0));
    StaleSave(two);
    FoldNone();
    FoldOne(map[], [], "", X1);
    FoldOne(map["x" := Entry("1", "", true)], [] + [Receipt("", X1)], "a", X2);
  }

  lemma StaleSave(v: World)
    requires PcOf(v, 0) == Syncing("", X1, 0)
    ensures var t := Next(v, Save(0));
            t.records == v.records["x" := Entry("1", "", true)] && t.log == v.log && t.overlapped == v.overlapped
  {
  }

  /** Worker 0 wrote x and died; its lease has run out since. */
  const LEFT_BEHIND := World(map["x" := Entry("1", "", true)], "", None, map[0 := Idle], [], {"x"}, false)

  lemma ReachLeftBehind()
    ensures Run(Next, Init(""), [Acquire(0), Pull(0, X1), Save(0), Crash(0), Expire]) == LEFT_BEHIND
  {
    var s1 := World(map[], "", Some(0), map[0 := Leased], [], {}, false);
    var s2 := s1.(workers := map[0 := Syncing("", X1, 0)]);
    var s3 := World(map["x" := Entry("1", "", true)], "", Some(0), map[0 := Syncing("", X1, 1)], [], {"x"}, false);
    var s4 := s3.(workers := map[0 := Idle]);
    assert DistinctIds(X1.records);
    assert Next(Init(""), Acquire(0)) == s1;
    assert Next(s1, Pull(0, X1)) == s2;
    assert Next(s2, Save(0)) == s3;
    assert Next(s3, Crash(0)) == s4;
    assert Next(s4, Expire) == LEFT_BEHIND;
    RunPath(Next, [Init(""), s1, s2, s3, s4, LEFT_BEHIND], [Acquire(0), Pull(0, X1), Save(0), Crash(0), Expire]);
  }

  /** Without overlap, but with an adapter that answers the same cursor differently: worker 0 stops
      after writing x, worker 1 is given another page and commits it, and x stays behind although
      no committed page has it. */
  lemma ChangedPageLeavesAStray()
    ensures var v := Run(Next, Init(""), [Acquire(0), Pull(0, X1), Save(0), Crash(0), Expire] + Lap(1, Y1));
            && !v.overlapped && v.strays == {"x"} && "x" in v.records && Fold(v.log) == map["y" := Entry("1", "", true)]
  {
    hide Next, Run, Fold;
    ReachLeftBehind();
    assert LEFT_BEHIND.lease == None && PcOf(LEFT_BEHIND, 1) == Idle;
    LapCommits(LEFT_BEHIND, 1, Y1);
    RunConcat(Next, Init(""), [Acquire(0), Pull(0, X1), Save(0), Crash(0), Expire], Lap(1, Y1));
    FoldNone();
    FoldOne(map[], [], "", Y1);
  }

  // ---------------------------------------------------------------- what each step may change

  /** The cursor moves and a receipt is written only by the holder of the lease, with the whole page
      written, from the very cursor the page was pulled at. */
  lemma OnlyTheHolderCommits(v: World, a: Act)
    ensures var t := Next(v, a);
            if && a.Commit? && PcOf(v, a.w).Syncing? && PcOf(v, a.w).pos >= |PcOf(v, a.w).page.records|
               && v.lease == Some(a.w) && PcOf(v, a.w).cursor == v.cursor
            then
              var page := PcOf(v, a.w).page;
              t.cursor == page.next && t.log == v.log + [Receipt(v.cursor, page)] && t.lease == None
              && t.records == v.records && PcOf(t, a.w) == Idle
            else t.cursor == v.cursor && t.log == v.log
  {
  }

  /** The lease is taken only while nobody has it, and lost only by its holder's end or by expiry. */
  lemma LeaseChanges(v: World, a: Act)
    ensures var t := Next(v, a);
            && (t.lease != v.lease && t.lease.Some? ==> v.lease == None && a == Acquire(t.lease.value))
            && (t.lease != v.lease && t.lease.None? ==>
                  a == Expire || (a.Pull? && v.lease == Some(a.w)) || (a.Commit? && v.lease == Some(a.w))
                  || a == Fail(v.lease.value))
  {
  }

  /** Records are written one at a time, in page order, by a worker that has pulled their page. */
  lemma OnlyPulledRecordsAreWritten(v: World, a: Act)
    ensures var t := Next(v, a);
            t.records != v.records ==>
              && a.Save? && PcOf(v, a.w).Syncing? && var pc := PcOf(v, a.w);
              && pc.pos < |pc.page.records| && PcOf(t, a.w) == pc.(pos := pc.pos + 1)
              && t.records == v.records[pc.page.records[pc.pos].id := pc.page.records[pc.pos].entry]
  {
  }

  function Saves(w: nat, n: nat): seq<Act> { seq(n, _ => Save(w)) }

  /** A sync that nothing interrupts takes the free lease, writes the page record by record, moves the
      cursor to the page's next one and gives the lease back. */
  lemma SyncAlone(v: World, w: nat, page: Page)
    requires v.lease == None && PcOf(v, w) == Idle && DistinctIds(page.records)
    ensures var t := Run(Next, v, [Acquire(w), Pull(w, page)] + Saves(w, |page.records|) + [Commit(w)]);
            && t.records == ApplyAll(v.records, page.records) && t.cursor == page.next && t.lease == None
            && t.log == v.log + [Receipt(v.cursor, page)] && PcOf(t, w) == Idle && t.overlapped == v.overlapped
            && t.strays == v.strays - RecordIds(page.records)
  {
    hide DistinctIds, ApplyAll;
    var n := |page.records|;
    var head := [Acquire(w), Pull(w, page)];
    var v1 := Next(v, Acquire(w));
    var v2 := Next(v1, Pull(w, page));
    RunPath(Next, [v, v1, v2], head);
    assert PcOf(v2, w) == Syncing(v.cursor, page, 0) && v2.lease == Some(w);
    SavesAlone(v2, w, v.cursor, page, 0);
    RunConcat(Next, v, head, Saves(w, n));
    RunConcat(Next, v, head + Saves(w, n), [Commit(w)]);
    var v3 := Run(Next, v, head + Saves(w, n));
    RunOne(Next, v3, Commit(w));
    assert page.records[0..] == page.records;
    assert v3.strays == v2.strays + RecordIds(page.records);
  }

  lemma {:induction false} SavesAlone(v: World, w: nat, cursor: string, page: Page, pos: nat)
    requires pos <= |page.records| && PcOf(v, w) == Syncing(cursor, page, pos)
    ensures var t := Run(Next, v, Saves(w, |page.records| - pos));
            && t.records == ApplyAll(v.records, page.records[pos..])
               && PcOf(t, w) == Syncing(cursor, page, |page.records|)
            && t.cursor == v.cursor && t.lease == v.lease && t.log == v.log && t.overlapped == v.overlapped
            && t.strays == v.strays + RecordIds(page.records[pos..])
    decreases |page.records| - pos
  {
    hide ApplyAll;
    var rs := page.records;
    if pos == |rs| {
      assert rs[pos..] == [];
      ApplyNone(v.records);
    } else {
      var v1 := Next(v, Save(w));
      assert Saves(w, |rs| - pos)[1..] == Saves(w, |rs| - (pos + 1));
      SavesAlone(v1, w, cursor, page, pos + 1);
      ApplyFirst(v.records, rs[pos], rs[pos + 1..]);
      assert rs[pos..] == [rs[pos]] + rs[pos + 1..];
      IdsFirst(rs[pos], rs[pos + 1..]);
    }
  }

  lemma ApplyNone(m: Mapping)
    ensures ApplyAll(m, []) == m
  {
  }

  lemma {:induction false} ApplyFirst(m: Mapping, r: Record, rs: seq<Record>)
    ensures ApplyAll(m, [r] + rs) == ApplyAll(m[r.id := r.entry], rs)
  {
    if rs == [] {
      assert [r] + rs == [r] && [r][..0] == [];
    } else {
      var n := |rs| - 1;
      assert ([r] + rs)[..|rs|] == [r] + rs[..n];
      ApplyFirst(m, r, rs[..n]);
    }
  }

  lemma IdsFirst(r: Record, rs: seq<Record>)
    ensures RecordIds([r] + rs) == {r.id} + RecordIds(rs)
  {
    var all := [r] + rs;
    forall i | 0 <= i < |rs| ensures rs[i].id in RecordIds(all) { assert all[i + 1] == rs[i]; }
    assert all[0] == r;
  }
}
