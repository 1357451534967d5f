/** All-or-nothing import of performance observations, deduplicated against the batch itself and
    against everything stored. Several imports may be under way: each checks, then commits. */
module PerformanceImport {
  import opened Wrappers
  import opened Schedules

  /** fieldsOk stands for the checks of one row's own fields; text is trimmed and case-folded. */
  datatype Row = Row(number: int, fieldsOk: bool, snapshotId: string, currency: string, spend: real, gmv: real,
                     key: string, body: string)

  datatype Snapshot = Snapshot(projectId: string, eligible: bool)

  datatype Observation = Observation(
    id: string, batchId: string, projectId: string, number: int, snapshotId: string,
    currency: string, spend: real, gmv: real, roi: Option<real>, key: string, body: string)

  datatype Batch = Batch(id: string, projectId: string, currency: string, count: nat)

  /** sourceOk stands for the checks of source name, format and hash. */
  datatype Input = Input(projectId: string, sourceOk: bool, rows: seq<Row>, dryRun: bool)

  datatype Stored = Stored(snapshots: map<string, Snapshot>, observations: seq<Observation>, batches: map<string,
                           Batch>)

  // ---------------------------------------------------------------- what an import accepts

  predicate SnapshotOk(s: Stored, projectId: string, id: string) {
    id != "" ==> id in s.snapshots && s.snapshots[id].projectId == projectId && s.snapshots[id].eligible
  }

  predicate Known(s: Stored, projectId: string, key: string) {
    exists i :: 0 <= i < |s.observations| && s.observations[i].projectId == projectId && s.observations[i].key == key
  }

  predicate OneCurrency(rows: seq<Row>) {
    forall i, j :: 0 <= i < j < |rows| && rows[i].currency != "" && rows[j].currency != "" ==>
      rows[i].currency == rows[j].currency
  }

  predicate DistinctKeys(rows: seq<Row>) {
    forall i, j :: 0 <= i < j < |rows| ==> rows[i].key != rows[j].key
  }

  predicate RowsOk(s: Stored, projectId: string, rows: seq<Row>) {
    forall i :: 0 <= i < |rows| ==> rows[i].fieldsOk && SnapshotOk(s, projectId, rows[i].snapshotId)
  }

  /** No row is wrong, no two clash, and none is there already. */
  predicate Acceptable(s: Stored, input: Input) {
    && 1 <= |input.rows| <= 1000 && input.sourceOk
    && RowsOk(s, input.projectId, input.rows) && OneCurrency(input.rows) && DistinctKeys(input.rows)
    && forall i :: 0 <= i < |input.rows| ==> !Known(s, input.projectId, input.rows[i].key)
  }

  /** The first currency named, "" if none. */
  function BatchCurrency(rows: seq<Row>): string {
    if rows == [] then ""
    else var c := BatchCurrency(rows[..|rows| - 1]); if c == "" then rows[|rows| - 1].currency else c
  }

  function ObservationOf(projectId: string, row: Row, index: nat): Observation {
    Observation("", "", projectId, if row.number <= 0 then index + 1 else row.number,
                row.snapshotId, row.currency, row.spend, row.gmv,
                if row.spend > 0.0 then Some(row.gmv / row.spend) else None, row.key, row.body)
  }

  function ObservationsOf(projectId: string, rows: seq<Row>): seq<Observation> {
    seq(|rows|, i requires 0 <= i < |rows| => ObservationOf(projectId, rows[i], i))
  }

  function Identified(os: seq<Observation>, ids: nat -> string, batchId: string): seq<Observation> {
    seq(|os|, i requires 0 <= i < |os| => os[i].(id := ids(i), batchId := batchId))
  }

  /** Result of a call: None when rejected, else the batch and its rows. */
  datatype Result = Result(batch: Batch, rows: seq<Observation>)

  function Accepted(s: Stored, input: Input, ids: nat -> string, batchId: string): Option<Result> {
    if !Acceptable(s, input) then None
    else
      var rows := ObservationsOf(input.projectId, input.rows);
      var id := if input.dryRun then "" else batchId;
      Some(Result(Batch(id, input.projectId, BatchCurrency(input.rows), |input.rows|),
                  if input.dryRun then rows else Identified(rows, ids, batchId)))
  }

  predicate Clashes(s: Stored, rows: seq<Observation>) {
    exists i :: 0 <= i < |rows| && Known(s, rows[i].projectId, rows[i].key)
  }

  /** The store's own check and write: all rows or none. */
  function Committed(s: Stored, r: Result): Stored {
    if r.batch.id in s.batches || Clashes(s, r.rows) then s
    else s.(observations := s.observations + r.rows, batches := s.batches[r.batch.id := r.batch])
  }

  // ---------------------------------------------------------------- one call

  /** The currency scan: a clash is seen against the first currency named. */
  lemma CurrencyStep(rows: seq<Row>, i: nat)
    requires i < |rows| && OneCurrency(rows[..i])
    ensures var c := BatchCurrency(rows[..i]);
            && (OneCurrency(rows[..i + 1]) <==> c == "" || rows[i].currency == "" || rows[i].currency == c)
            && BatchCurrency(rows[..i + 1]) == (if c == "" then rows[i].currency else c)
            && (!OneCurrency(rows[..i + 1]) ==> !OneCurrency(rows))
  {
    assert rows[..i + 1][..i] == rows[..i];
    var c := BatchCurrency(rows[..i]);
    CurrencyIsNamed(rows[..i]);
    if c != "" {
      var k :| 0 <= k < i && rows[..i][k].currency == c;
      assert rows[..i + 1][k].currency == c && rows[..i + 1][i] == rows[i];
    }
  }

  lemma {:induction false} CurrencyIsNamed(rows: seq<Row>)
    ensures var c := BatchCurrency(rows);
            if c == "" then forall i :: 0 <= i < |rows| ==> rows[i].currency == ""
            else exists i :: 0 <= i < |rows| && rows[i].currency == c
  {
    if rows != [] {
      var init := rows[..|rows| - 1];
      CurrencyIsNamed(init);
      var c := BatchCurrency(init);
      if c != "" {
        var i :| 0 <= i < |init| && init[i].currency == c;
        assert rows[i].currency == c;
      } else {
        assert forall i :: 0 <= i < |init| ==> rows[i] == init[i];
        assert rows[|rows| - 1].currency == BatchCurrency(rows);
      }
    }
  }

  /** All rows of an unmixed batch are in its currency, or in none. */
  lemma CurrencyIsCommon(rows: seq<Row>, i: nat)
    requires OneCurrency(rows) && i < |rows|
    ensures rows[i].currency == "" || rows[i].currency == BatchCurrency(rows)
  {
    hide OneCurrency, BatchCurrency;
    CurrencyIsNamed(rows);
    var c := BatchCurrency(rows);
    if c != "" {
      var k :| 0 <= k < |rows| && rows[k].currency == c;
      PairAgrees(rows, i, k);
    }
  }

  lemma PairAgrees(rows: seq<Row>, i: nat, k: nat)
    requires OneCurrency(rows) && i < |rows| && k < |rows|
    ensures rows[i].currency == "" || rows[k].currency == "" || rows[i].currency == rows[k].currency
  {
    if i < k {
      assert rows[i].currency != "" && rows[k].currency != "" ==> rows[i].currency == rows[k].currency;
    }
  }

  class Importer {
    var snapshots: map<string, Snapshot>
    var observations: seq<Observation>
    var batches: map<string, Batch>

    ghost function State(): Stored
      reads this
    {
      Stored(snapshots, observations, batches)
    }

    constructor (known: map<string, Snapshot>)
      ensures State() == Stored(known, [], map[])
    {
      snapshots, observations, batches := known, [], map[];
    }

    /** One pass over the rows, collecting errors, remembering keys, the currency and snapshots. */
    method CheckRows(projectId: string, rows: seq<Row>)
      returns (errors: nat, currency: string, result: seq<Observation>)
      ensures errors == 0 <==> RowsOk(State(), projectId, rows) && OneCurrency(rows) && DistinctKeys(rows)
      ensures errors == 0 ==> currency == BatchCurrency(rows) && result == ObservationsOf(projectId, rows)
    {
      errors, currency, result := 0, "", [];
      var keys: set<string> := {};
      var cache: map<string, Snapshot> := map[];
      for i := 0 to |rows|
        invariant forall id :: id in cache ==> id in snapshots && cache[id] == snapshots[id]
        invariant forall key :: key in keys <==> exists k :: 0 <= k < i && rows[k].key == key
        invariant errors == 0 ==>
                    RowsOk(State(), projectId, rows[..i]) && OneCurrency(rows[..i]) && DistinctKeys(rows[..i])
        invariant errors == 0 ==> currency == BatchCurrency(rows[..i]) && result == ObservationsOf(projectId, rows[..i])
        invariant errors > 0 ==> !(RowsOk(State(), projectId, rows) && OneCurrency(rows) && DistinctKeys(rows))
      {
        var row := rows[i];
        var snapshotOk;
        snapshotOk, cache := CheckSnapshot(projectId, row.snapshotId, cache);
        var mixed := row.currency != "" && currency != "" && row.currency != currency;
        var clean := row.fieldsOk && snapshotOk && !mixed && row.key !in keys;
        if errors == 0 { RowStep(State(), projectId, rows, i); }
        if row.currency != "" && currency == "" {
          currency := row.currency;
        }
        keys := keys + {row.key};
        if !clean {
          errors := errors + 1;
          continue;
        }
        result := result + [ObservationOf(projectId, row, i)];
      }
      assert rows[..|rows|] == rows;
    }

    /** A snapshot is loaded once per batch. */
    method CheckSnapshot(projectId: string, id: string, cache: map<string, Snapshot>)
      returns (ok: bool, more: map<string, Snapshot>)
      requires forall s :: s in cache ==> s in snapshots && cache[s] == snapshots[s]
      ensures ok <==> SnapshotOk(State(), projectId, id)
      ensures forall s :: s in more ==> s in snapshots && more[s] == snapshots[s]
    {
      more := cache;
      if id == "" {
        return true, more;
      }
      if id !in more {
        if id !in snapshots {
          return false, more;
        }
        more := more[id := snapshots[id]];
      }
      ok := more[id].projectId == projectId && more[id].eligible;
    }

    /** Which of the rows are stored already. */
    method AnyKnown(projectId: string, rows: seq<Observation>) returns (known: bool)
      ensures known <==> exists i :: 0 <= i < |rows| && Known(State(), projectId, rows[i].key)
    {
      known := false;
      for i := 0 to |rows|
        invariant known <==> exists k :: 0 <= k < i && Known(State(), projectId, rows[k].key)
      {
        for j := 0 to |observations|
          invariant known <==> (exists k :: 0 <= k < i && Known(State(), projectId, rows[k].key))
                               || (exists l :: 0 <= l < j && observations[l].projectId == projectId
                                               && observations[l].key == rows[i].key)
        {
          if observations[j].projectId == projectId && observations[j].key == rows[i].key {
            known := true;
          }
        }
        assert Known(State(), projectId, rows[i].key)
               <==> exists l :: 0 <= l < |observations| && observations[l].projectId == projectId
                                && observations[l].key == rows[i].key;
      }
    }

    /** Rejected and dry-run imports write nothing; the others write the whole batch. */
    method Import(input: Input, ids: nat -> string, batchId: string) returns (r: Option<Result>)
      requires batchId !in batches
      modifies this
      ensures r == Accepted(old(State()), input, ids, batchId)
      ensures r.None? || input.dryRun ==> State() == old(State())
      ensures r.Some? && !input.dryRun ==>
                && batches == old(batches)[batchId := r.value.batch]
                && observations == old(observations) + r.value.rows && snapshots == old(snapshots)
                && State() == Committed(old(State()), r.value)
    {
      hide RowsOk, OneCurrency, DistinctKeys, Known;
      if |input.rows| == 0 || |input.rows| > 1000 || !input.sourceOk {
        return None;
      }
      var errors, currency, rows := CheckRows(input.projectId, input.rows);
      if errors > 0 {
        return None;
      }
      var known := AnyKnown(input.projectId, rows);
      assert |rows| == |input.rows| && forall i :: 0 <= i < |rows| ==> rows[i].key == input.rows[i].key;
      if known {
        assert exists i :: 0 <= i < |input.rows| && Known(State(), input.projectId, input.rows[i].key);
        return None;
      }
      var id := if input.dryRun then "" else batchId;
      var batch := Batch(id, input.projectId, currency, |input.rows|);
      if input.dryRun {
        return Some(Result(batch, rows));
      }
      rows := Identified(rows, ids, batchId);
      assert !Clashes(State(), rows);
      batches := batches[batchId := batch];
      observations := observations + rows;
      r := Some(Result(batch, rows));
    }
  }

  /** What one more row decides. */
  lemma RowStep(s: Stored, projectId: string, rows: seq<Row>, i: nat)
    requires i < |rows| && RowsOk(s, projectId, rows[..i]) && OneCurrency(rows[..i]) && DistinctKeys(rows[..i])
    ensures var row, c, more := rows[i], BatchCurrency(rows[..i]), rows[..i + 1];
            var clean := row.fieldsOk && SnapshotOk(s, projectId, row.snapshotId)
              && (c == "" || row.currency == "" || row.currency == c)
                         && !exists k :: 0 <= k < i && rows[k].key == row.key;
            && (clean <==> RowsOk(s, projectId, more) && OneCurrency(more) && DistinctKeys(more))
            && BatchCurrency(more) == (if c == "" then row.currency else c)
            && (!clean ==> !(RowsOk(s, projectId, rows) && OneCurrency(rows) && DistinctKeys(rows)))
            && ObservationsOf(projectId, more)
               == ObservationsOf(projectId, rows[..i]) + [ObservationOf(projectId, row, i)]
  {
    hide OneCurrency, SnapshotOk, BatchCurrency;
    CurrencyStep(rows, i);
    var more := rows[..i + 1];
    assert forall k :: 0 <= k < i ==> more[k] == rows[..i][k] == rows[k];
    assert more[i] == rows[i];
    if k :| 0 <= k < i && rows[k].key == rows[i].key { assert more[k].key == more[i].key; }
  }

  /** What an acceptable batch is: one to a thousand rows from a good source, each good in itself and of no
      snapshot or an eligible one of the project; no two rows of two currencies, no two with one key, and
      none whose key the project has already. */
  lemma AcceptableMeans(s: Stored, input: Input)
    ensures var rows := input.rows;
            Acceptable(s, input)
            <==> && 1 <= |rows| <= 1000 && input.sourceOk
                 && (forall i :: 0 <= i < |rows| ==>
                       && rows[i].fieldsOk
                       && (rows[i].snapshotId == ""
                           || (rows[i].snapshotId in s.snapshots
                               && s.snapshots[rows[i].snapshotId] == Snapshot(input.projectId, true))))
                 && (forall i, j :: 0 <= i < j < |rows| ==>
                       && rows[i].key != rows[j].key
                       && (rows[i].currency == "" || rows[j].currency == "" || rows[i].currency == rows[j].currency))
                 && (forall i, o :: 0 <= i < |rows| && o in s.observations ==>
                       o.projectId != input.projectId || o.key != rows[i].key)
  {
    var rows := input.rows;
    hide OneCurrency, DistinctKeys, RowsOk;
    PairsMean(rows);
    RowsMean(s, input.projectId, rows);
    forall i | 0 <= i < |rows|
      ensures Known(s, input.projectId, rows[i].key)
              <==> exists o :: o in s.observations && o.projectId == input.projectId && o.key == rows[i].key
    {
      if Known(s, input.projectId, rows[i].key) {
        var k :| 0 <= k < |s.observations| && s.observations[k].projectId == input.projectId
                 && s.observations[k].key == rows[i].key;
        assert s.observations[k] in s.observations;
      }
    }
  }

  lemma PairsMean(rows: seq<Row>)
    ensures OneCurrency(rows) && DistinctKeys(rows)
            <==> forall i, j :: 0 <= i < j < |rows| ==>
                   && rows[i].key != rows[j].key
                   && (rows[i].currency == "" || rows[j].currency == "" || rows[i].currency == rows[j].currency)
  {
  }

  lemma RowsMean(s: Stored, projectId: string, rows: seq<Row>)
    ensures RowsOk(s, projectId, rows)
            <==> forall i :: 0 <= i < |rows| ==>
                   && rows[i].fieldsOk
                   && (rows[i].snapshotId == ""
                       || (rows[i].snapshotId in s.snapshots
                           && s.snapshots[rows[i].snapshotId] == Snapshot(projectId, true)))
  {
  }

  /** What an accepted batch becomes: its rows in order, numbered by position where they have no number,
      with gross value over spend where there was spend; under the batch's id and project, in the
      currency that its rows name, if any does. A dry run gives no ids. */
  lemma AcceptedMeans(s: Stored, input: Input, ids: nat -> string, batchId: string)
    requires Accepted(s, input, ids, batchId).Some?
    ensures var r, rows := Accepted(s, input, ids, batchId).value, input.rows;
            && r.batch.id == (if input.dryRun then "" else batchId) && r.batch.projectId == input.projectId
            && r.batch.count == |r.rows| == |rows|
            && (forall i :: 0 <= i < |rows| ==> rows[i].currency in {"", r.batch.currency})
            && (r.batch.currency != "" ==> exists i :: 0 <= i < |rows| && rows[i].currency == r.batch.currency)
            && forall i :: 0 <= i < |rows| ==>
                 var o, row := r.rows[i], rows[i];
                 && o.id == (if input.dryRun then "" else ids(i)) && o.batchId == r.batch.id
                 && o.projectId == input.projectId
                 && o.number == (if row.number > 0 then row.number else i + 1)
                 && o.snapshotId == row.snapshotId && o.currency == row.currency && o.key == row.key
                    && o.body == row.body
                 && o.spend == row.spend && o.gmv == row.gmv && (o.roi.Some? <==> row.spend > 0.0)
                 && (o.roi.Some? ==> o.roi.value * row.spend == row.gmv)
  {
    hide RowsOk, DistinctKeys, Known, BatchCurrency, OneCurrency;
    CurrencyIsNamed(input.rows);
    forall i | 0 <= i < |input.rows| ensures input.rows[i].currency in {"", BatchCurrency(input.rows)} {
      CurrencyIsCommon(input.rows, i);
    }
  }

  /** The commit writes all rows and the batch exactly when the batch is new and no stored observation has
      the project and key of one of the rows; else nothing. */
  lemma CommittedMeans(s: Stored, r: Result)
    ensures Committed(s, r)
            == if r.batch.id !in s.batches
                  && (forall o, q :: o in s.observations && q in r.rows ==>
                        o.projectId != q.projectId || o.key != q.key)
               then Stored(s.snapshots, s.observations + r.rows, s.batches[r.batch.id := r.batch]) else s
  {
    if Clashes(s, r.rows) {
      var i :| 0 <= i < |r.rows| && Known(s, r.rows[i].projectId, r.rows[i].key);
      var k :| 0 <= k < |s.observations| && s.observations[k].projectId == r.rows[i].projectId
               && s.observations[k].key == r.rows[i].key;
      assert s.observations[k] in s.observations && r.rows[i] in r.rows;
    }
    if o, q :| o in s.observations && q in r.rows && o.projectId == q.projectId && o.key == q.key {
      var i :| 0 <= i < |r.rows| && r.rows[i] == q;
      var k :| 0 <= k < |s.observations| && s.observations[k] == o;
      assert Known(s, r.rows[i].projectId, r.rows[i].key);
    }
  }

  /** On any given state a dry run succeeds exactly when the real import would write, and reports
      the same batch and rows apart from the ids. */
  lemma DryRunPredicts(s: Stored, input: Input, ids: nat -> string, batchId: string)
    requires !input.dryRun && batchId !in s.batches
    ensures var dry, done := Accepted(s, input.(dryRun := true), ids, batchId), Accepted(s, input, ids, batchId);
            && (dry.Some? <==> done.Some?)
            && (done.Some? ==>
                  && Committed(s, done.value) == s.(observations := s.observations + done.value.rows,
                                                    batches := s.batches[batchId := done.value.batch])
                  && |done.value.rows| == |dry.value.rows| && dry.value.batch == done.value.batch.(id := "")
                  && forall i :: 0 <= i < |dry.value.rows| ==>
                    dry.value.rows[i] == done.value.rows[i].(id := "", batchId := ""))
  {
    hide RowsOk, OneCurrency, DistinctKeys, Known;
  }

  // ---------------------------------------------------------------- many imports at once

  datatype World = World(stored: Stored, pending: map<nat, Result>)

  datatype Act = Prepare(p: nat, input: Input, ids: nat -> string, batchId: string) | Commit(p: nat) | Forget(p: nat)

  function Next(w: World, a: Act): World {
    match a
    case Prepare(p, input, ids, batchId) =>
      var r := Accepted(w.stored, input, ids, batchId);
      if r.Some? && !input.dryRun then w.(pending := w.pending[p := r.value]) else w
    case Commit(p) =>
      if p in w.pending then World(Committed(w.stored, w.pending[p]), w.pending - {p}) else w
    case Forget(p) => w.(pending := w.pending - {p})
  }

  predicate Apart(o: Observation, q: Observation) { o.projectId != q.projectId || o.key != q.key }

  predicate AllApart(os: seq<Observation>) {
    forall i, j :: 0 <= i < j < |os| ==> Apart(os[i], os[j])
  }

  predicate InBatch(o: Observation, b: Batch) {
    o.batchId == b.id && o.projectId == b.projectId && (o.currency == "" || o.currency == b.currency)
  }

  function CountOf(os: seq<Observation>, batchId: string): nat {
    if os == [] then 0 else CountOf(os[..|os| - 1], batchId) + if os[|os| - 1].batchId == batchId then 1 else 0
  }

  ghost predicate ResultOk(r: Result) {
    && AllApart(r.rows) && |r.rows| == r.batch.count
    && forall i :: 0 <= i < |r.rows| ==> InBatch(r.rows[i], r.batch)
  }

  /** Keys are pairwise distinct within a project; every observation belongs to a batch of its
      project and currency; every batch has as many observations as it says. */
  ghost predicate StoredOk(s: Stored) {
    && AllApart(s.observations)
    && (forall i :: 0 <= i < |s.observations| ==>
          s.observations[i].batchId in s.batches && InBatch(s.observations[i], s.batches[s.observations[i].batchId]))
    && (forall b :: b in s.batches ==> s.batches[b].id == b && CountOf(s.observations, b) == s.batches[b].count)
  }

  ghost predicate Inv(w: World) {
    StoredOk(w.stored) && forall p :: p in w.pending ==> ResultOk(w.pending[p])
  }

  lemma AcceptedIsOk(s: Stored, input: Input, ids: nat -> string, batchId: string)
    requires !input.dryRun && Accepted(s, input, ids, batchId).Some?
    ensures ResultOk(Accepted(s, input, ids, batchId).value)
  {
    var r := Accepted(s, input, ids, batchId).value;
    forall i | 0 <= i < |r.rows| ensures InBatch(r.rows[i], r.batch) { CurrencyIsCommon(input.rows, i); }
  }

  lemma {:induction false} CountConcat(xs: seq<Observation>, ys: seq<Observation>, b: string)
    ensures CountOf(xs + ys, b) == CountOf(xs, b) + CountOf(ys, b)
  {
    if ys == [] {
      assert xs + ys == xs;
    } else {
      CountConcat(xs, ys[..|ys| - 1], b);
      assert (xs + ys)[..|xs + ys| - 1] == xs + ys[..|ys| - 1];
    }
  }

  lemma {:induction false} CountUniform(xs: seq<Observation>, b: string, yes: bool)
    requires forall i :: 0 <= i < |xs| ==> (xs[i].batchId == b) == yes
    ensures CountOf(xs, b) == if yes then |xs| else 0
  {
    if xs != [] { CountUniform(xs[..|xs| - 1], b, yes); }
  }

  lemma CommitKeeps(s: Stored, r: Result)
    requires StoredOk(s) && ResultOk(r)
    ensures StoredOk(Committed(s, r))
  {
    var t := Committed(s, r);
    if t != s {
      CommitApart(s, r);
      CommitInBatch(s, r);
      CommitCounts(s, r);
    }
  }

  lemma CommitApart(s: Stored, r: Result)
    requires AllApart(s.observations) && ResultOk(r) && !Clashes(s, r.rows)
    ensures AllApart(s.observations + r.rows)
  {
    var os, n := s.observations + r.rows, |s.observations|;
    forall i, j | 0 <= i < j < |os| ensures Apart(os[i], os[j]) {
      if i < n <= j { assert !Known(s, r.rows[j - n].projectId, r.rows[j - n].key); }
    }
  }

  lemma CommitInBatch(s: Stored, r: Result)
    requires StoredOk(s) && ResultOk(r) && r.batch.id !in s.batches
    ensures var os, bs := s.observations + r.rows, s.batches[r.batch.id := r.batch];
            forall i :: 0 <= i < |os| ==> os[i].batchId in bs && InBatch(os[i], bs[os[i].batchId])
  {
    hide AllApart, CountOf;
  }

  lemma CommitCounts(s: Stored, r: Result)
    requires StoredOk(s) && ResultOk(r) && r.batch.id !in s.batches
    ensures var os, bs := s.observations + r.rows, s.batches[r.batch.id := r.batch];
            forall b :: b in bs ==> bs[b].id == b && CountOf(os, b) == bs[b].count
  {
    hide AllApart, CountOf;
    var os, bs := s.observations + r.rows, s.batches[r.batch.id := r.batch];
    forall b | b in bs ensures bs[b].id == b && CountOf(os, b) == bs[b].count {
      CountConcat(s.observations, r.rows, b);
      CountUniform(r.rows, b, b == r.batch.id);
      if b == r.batch.id { CountUniform(s.observations, b, false); }
    }
  }

  lemma NextKeepsInv(w: World, a: Act)
    requires Inv(w)
    ensures Inv(Next(w, a))
  {
    hide StoredOk, ResultOk, Accepted, Committed;
    match a
    case Prepare(p, input, ids, batchId) =>
      if !input.dryRun && Accepted(w.stored, input, ids, batchId).Some? { AcceptedIsOk(w.stored, input, ids, batchId); }
    case Commit(p) =>
      if p in w.pending { CommitKeeps(w.stored, w.pending[p]); }
    case Forget(p) =>
  }

  /** Over any interleaving of imports, no two stored observations of a project share a key, each
      is in its batch's currency or in none, and each batch is complete. */
  lemma ImportsStayDistinct(snapshots: map<string, Snapshot>, schedule: seq<Act>)
    ensures StoredOk(Run(Next, World(Stored(snapshots, [], map[]), map[]), schedule).stored)
  {
    forall w: World, a: Act | Inv(w) ensures Inv(Next(w, a)) { NextKeepsInv(w, a); }
    RunInvariant(Next, (w: World) => Inv(w), World(Stored(snapshots, [], map[]), map[]), schedule);
  }
}
