/** Connector synchronisation: pages of external records are written one mapping at a time and the
    cursor moves only when a whole page is in. Syncs are leased, may stop anywhere and are replayed. */
module Connector {
  import opened Wrappers

  datatype Entry = Entry(version: string, digest: string, deleted: bool)

  datatype Record = Record(id: string, entry: Entry)

  datatype Page = Page(records: seq<Record>, next: string)

  type Mapping = map<string, Entry>

  // ---------------------------------------------------------------- a page and what it writes

  /** Last write wins. */
  function ApplyAll(m: Mapping, rs: seq<Record>): Mapping {
    if rs == [] then m else ApplyAll(m, rs[..|rs| - 1])[rs[|rs| - 1].id := rs[|rs| - 1].entry]
  }

  /** The last record of the page for an external id. */
  function LastFor(rs: seq<Record>, id: string): Option<Entry> {
    if rs == [] then None
    else if rs[|rs| - 1].id == id then Some(rs[|rs| - 1].entry)
    else LastFor(rs[..|rs| - 1], id)
  }

  function Lookup(m: Mapping, id: string): Option<Entry> {
    if id in m then Some(m[id]) else None
  }

  lemma {:induction false} ApplyAllLookup(m: Mapping, rs: seq<Record>, id: string)
    ensures Lookup(ApplyAll(m, rs), id) == if LastFor(rs, id).Some? then LastFor(rs, id) else Lookup(m, id)
  {
    if rs != [] { ApplyAllLookup(m, rs[..|rs| - 1], id); }
  }

  lemma SameLookups(m: Mapping, n: Mapping)
    requires forall id :: Lookup(m, id) == Lookup(n, id)
    ensures m == n
  {
    forall id ensures id in m <==> id in n { assert Lookup(m, id) == Lookup(n, id); }
    forall id | id in m ensures m[id] == n[id] { assert Lookup(m, id) == Lookup(n, id); }
  }

  /** A sync stopped after p[..k] and then a full pass over q: the result is that of q alone
      exactly when each id the stopped part wrote is rewritten by q or was written unchanged. */
  lemma ReplayOfAnotherPage(m: Mapping, p: seq<Record>, q: seq<Record>)
    ensures ApplyAll(ApplyAll(m, p), q) == ApplyAll(m, q)
            <==> forall id :: LastFor(p, id).Some? && LastFor(q, id).None? ==> LastFor(p, id) == Lookup(m, id)
  {
    var twice, once := ApplyAll(ApplyAll(m, p), q), ApplyAll(m, q);
    forall id ensures Lookup(twice, id) == Lookup(once, id)
                      <==> (LastFor(p, id).Some? && LastFor(q, id).None? ==> LastFor(p, id) == Lookup(m, id)) {
      ApplyAllLookup(ApplyAll(m, p), q, id);
      ApplyAllLookup(m, p, id);
      ApplyAllLookup(m, q, id);
    }
    if forall id :: Lookup(twice, id) == Lookup(once, id) { SameLookups(twice, once); }
  }

  lemma {:induction false} PrefixIsCovered(rs: seq<Record>, k: nat, id: string)
    requires k <= |rs| && LastFor(rs[..k], id).Some?
    ensures LastFor(rs, id).Some?
  {
    if k < |rs| {
      assert rs[..|rs| - 1][..k] == rs[..k];
      PrefixIsCovered(rs[..|rs| - 1], k, id);
    } else {
      assert rs[..k] == rs;
    }
  }

  /** Replaying the same page from the unmoved cursor equals one uninterrupted pass. */
  lemma ReplayConverges(m: Mapping, rs: seq<Record>, k: nat)
    requires k <= |rs|
    ensures ApplyAll(ApplyAll(m, rs[..k]), rs) == ApplyAll(m, rs)
  {
    forall id | LastFor(rs[..k], id).Some? ensures LastFor(rs, id).Some? { PrefixIsCovered(rs, k, id); }
    ReplayOfAnotherPage(m, rs[..k], rs);
  }

  predicate DistinctIds(rs: seq<Record>) {
    forall i, j :: 0 <= i < j < |rs| ==> rs[i].id != rs[j].id
  }

  lemma {:induction false} DistinctLast(rs: seq<Record>, i: nat)
    requires DistinctIds(rs) && i < |rs|
    ensures LastFor(rs, rs[i].id) == Some(rs[i].entry)
  {
    if i < |rs| - 1 { DistinctLast(rs[..|rs| - 1], i); }
  }

  // ---------------------------------------------------------------- one sync

  /** A record as the adapter returns it. updated and deletedAt say whether the timestamps are set. */
  datatype RawRecord = RawRecord(id: string, version: string, updated: bool, deleted: bool, deletedAt: bool,
                                 body: string, mime: string)

  datatype Pulled = Pulled(records: seq<RawRecord>, next: string, hasMore: bool)

  function Normalized(digest: string -> string, r: RawRecord): Record {
    Record(r.id, Entry(r.version, if r.deleted then "" else "sha256:" + digest(r.body), r.deleted))
  }

  predicate RawOk(r: RawRecord) {
    r.id != "" && r.version != "" && r.updated && if r.deleted then r.body == "" && r.deletedAt
                                                  else r.body != "" && r.mime != ""
  }

  predicate PulledOk(limit: int, p: Pulled) {
    |p.records| <= (if limit <= 0 then 100 else limit) && limit <= 1000 && (p.hasMore ==> p.next != "")
    && RawsOk(p.records)
  }

  predicate RawsOk(rs: seq<RawRecord>) {
    && (forall i :: 0 <= i < |rs| ==> RawOk(rs[i]))
    && (forall i, j :: 0 <= i < j < |rs| ==> rs[i].id != rs[j].id)
  }

  function Tombstones(rs: seq<RawRecord>): nat {
    if rs == [] then 0 else Tombstones(rs[..|rs| - 1]) + if rs[|rs| - 1].deleted then 1 else 0
  }

  lemma SameIdsDistinct(raws: seq<RawRecord>, rs: seq<Record>)
    requires RawsOk(raws) && |raws| == |rs| && forall i :: 0 <= i < |rs| ==> rs[i].id == raws[i].id
    ensures DistinctIds(rs)
  {
  }

  function Ids(rs: seq<RawRecord>): set<string> {
    if rs == [] then {} else Ids(rs[..|rs| - 1]) + {rs[|rs| - 1].id}
  }

  lemma {:induction false} IdsAre(rs: seq<RawRecord>, id: string)
    ensures id in Ids(rs) <==> exists i :: 0 <= i < |rs| && rs[i].id == id
  {
    if rs != [] {
      IdsAre(rs[..|rs| - 1], id);
      if id in Ids(rs[..|rs| - 1]) {
        var i :| 0 <= i < |rs| - 1 && rs[..|rs| - 1][i].id == id;
        assert rs[i].id == id;
      }
    }
  }

  /** What the scan decides at record i. */
  lemma ScanStep(rs: seq<RawRecord>, i: nat)
    requires i < |rs| && RawsOk(rs[..i])
    ensures RawsOk(rs[..i + 1]) <==> RawOk(rs[i]) && rs[i].id !in Ids(rs[..i])
    ensures !RawsOk(rs[..i + 1]) ==> !RawsOk(rs)
    ensures Ids(rs[..i + 1]) == Ids(rs[..i]) + {rs[i].id}
    ensures Tombstones(rs[..i + 1]) == Tombstones(rs[..i]) + if rs[i].deleted then 1 else 0
  {
    hide RawOk;
    IdsAre(rs[..i], rs[i].id);
    assert rs[..i + 1][..i] == rs[..i];
    if rs[i].id in Ids(rs[..i]) {
      var k :| 0 <= k < i && rs[..i][k].id == rs[i].id;
      assert rs[..i + 1][k].id == rs[..i + 1][i].id;
    }
  }

  /** Checks a pulled page and fills in the digests; every record is an upsert or a tombstone. */
  method CheckPage(digest: string -> string, limit: int, p: Pulled)
    returns (r: Option<Page>, upserts: nat, tombstones: nat)
    ensures r.Some? <==> PulledOk(limit, p)
    ensures r.Some? ==> DistinctIds(r.value.records) && |r.value.records| == |p.records| && r.value.next == p.next
    ensures r.Some? ==> forall i :: 0 <= i < |p.records| ==> r.value.records[i] == Normalized(digest, p.records[i])
    ensures r.Some? ==> tombstones == Tombstones(p.records) && upserts + tombstones == |p.records|
    ensures r.Some? <==>
              && |p.records| <= (if limit <= 0 then 100 else limit) && limit <= 1000 && (p.hasMore ==> p.next != "")
              && (forall i :: 0 <= i < |p.records| ==> WellFormed(p.records[i]))
              && (forall i, j :: 0 <= i < j < |p.records| ==> p.records[i].id != p.records[j].id)
    ensures r.Some? ==>
              && tombstones == |set i | 0 <= i < |p.records| && p.records[i].deleted|
              && forall i :: 0 <= i < |p.records| ==>
                   var raw, entry := p.records[i], r.value.records[i].entry;
                   && r.value.records[i].id == raw.id && entry.version == raw.version && entry.deleted == raw.deleted
                   && entry.digest == if raw.deleted then "" else "sha256:" + digest(raw.body)
  {
    PulledMeans(limit, p);
    TombstonesAre(p.records);
    hide DistinctIds, RawOk, RawsOk, Ids, Tombstones;
    r, upserts, tombstones := None, 0, 0;
    var top := if limit <= 0 then 100 else limit;
    if top > 1000 || |p.records| > top || (p.hasMore && p.next == "") {
      return;
    }
    var seen: set<string> := {};
    var records: seq<Record> := [];
    ScanStart(p.records);
    for i := 0 to |p.records|
      invariant |records| == i && upserts + tombstones == i && tombstones == Tombstones(p.records[..i])
      invariant forall k :: 0 <= k < i ==> records[k] == Normalized(digest, p.records[k])
      invariant seen == Ids(p.records[..i]) && RawsOk(p.records[..i])
    {
      var raw := p.records[i];
      ScanStep(p.records, i);
      if !RawOk(raw) || raw.id in seen {
        return;
      }
      seen := seen + {raw.id};
      if raw.deleted {
        tombstones := tombstones + 1;
      } else {
        upserts := upserts + 1;
      }
      records := records + [Normalized(digest, raw)];
    }
    assert p.records[..|p.records|] == p.records;
    SameIdsDistinct(p.records, records);
    r := Some(Page(records, p.next));
  }

  /** Identified, versioned and dated; a deletion has a time and no body, anything else a body with its type. */
  predicate WellFormed(r: RawRecord) {
    && |r.id| > 0 && |r.version| > 0 && r.updated
    && (r.deleted ==> |r.body| == 0 && r.deletedAt) && (!r.deleted ==> |r.body| > 0 && |r.mime| > 0)
  }

  lemma PulledMeans(limit: int, p: Pulled)
    ensures PulledOk(limit, p)
            <==> && |p.records| <= (if limit <= 0 then 100 else limit) && limit <= 1000 && (p.hasMore ==> p.next != "")
                 && (forall i :: 0 <= i < |p.records| ==> WellFormed(p.records[i]))
                 && (forall i, j :: 0 <= i < j < |p.records| ==> p.records[i].id != p.records[j].id)
  {
  }

  lemma {:induction false} TombstonesAre(rs: seq<RawRecord>)
    ensures Tombstones(rs) == |set i | 0 <= i < |rs| && rs[i].deleted|
  {
    var all := set i | 0 <= i < |rs| && rs[i].deleted;
    if rs == [] {
      assert all == {};
    } else {
      var n := |rs| - 1;
      var init := rs[..n];
      TombstonesAre(init);
      assert all == (set i | 0 <= i < |init| && init[i].deleted) + if rs[n].deleted then {n} else {};
    }
  }

  lemma ScanStart(rs: seq<RawRecord>)
    ensures RawsOk(rs[..0]) && Ids(rs[..0]) == {} && Tombstones(rs[..0]) == 0
  {
  }

  /** No later record among the first n has the same id. */
  predicate LastOfId(rs: seq<Record>, i: nat, n: nat)
    requires i < n <= |rs|
  {
    forall j :: i < j < n ==> rs[j].id != rs[i].id
  }

  lemma {:induction false} LastForMeans(rs: seq<Record>, id: string)
    ensures LastFor(rs, id).None? <==> forall i :: 0 <= i < |rs| ==> rs[i].id != id
    ensures forall i ::
            0 <= i < |rs| && rs[i].id == id && LastOfId(rs, i, |rs|) ==> LastFor(rs, id) == Some(rs[i].entry)
  {
    if rs != [] {
      var n := |rs| - 1;
      LastForMeans(rs[..n], id);
      forall i | 0 <= i < |rs| && rs[i].id == id && LastOfId(rs, i, |rs|) ensures LastFor(rs, id) == Some(rs[i].entry) {
        if i < n { assert LastOfId(rs[..n], i, n); }
      }
    }
  }

  /** Writing the first n records leaves each id with its last record, and no other id touched. */
  lemma SyncMeans(m: Mapping, rs: seq<Record>, n: nat)
    requires n <= |rs|
    ensures forall i :: 0 <= i < n && LastOfId(rs, i, n) ==>
              Lookup(ApplyAll(m, rs[..n]), rs[i].id) == Some(rs[i].entry)
    ensures forall id :: (forall i :: 0 <= i < n ==> rs[i].id != id) ==>
              Lookup(ApplyAll(m, rs[..n]), id) == Lookup(m, id)
  {
    hide ApplyAll, LastFor, Lookup;
    forall i | 0 <= i < n && LastOfId(rs, i, n)
      ensures Lookup(ApplyAll(m, rs[..n]), rs[i].id) == Some(rs[i].entry)
    {
      ApplyAllLookup(m, rs[..n], rs[i].id);
      LastForMeans(rs[..n], rs[i].id);
      assert LastOfId(rs[..n], i, n);
    }
    forall id | forall i :: 0 <= i < n ==> rs[i].id != id
      ensures Lookup(ApplyAll(m, rs[..n]), id) == Lookup(m, id)
    {
      ApplyAllLookup(m, rs[..n], id);
      LastForMeans(rs[..n], id);
    }
  }

  class Binding {
    var records: Mapping
    var cursor: string

    constructor (start: string)
      ensures records == map[] && cursor == start
    {
      records, cursor := map[], start;
    }

    /** Saves the mapping unless version, digest and deletion already agree. */
    method Materialize(r: Record)
      modifies this`records
      ensures records == old(records)[r.id := r.entry]
    {
      if r.id in records && records[r.id] == r.entry {
        assert records[r.id := r.entry] == records;
        return;
      }
      records := records[r.id := r.entry];
    }

    /** Writes the page record by record; stopping early leaves the cursor where it was. */
    method Sync(page: Page, stop: nat) returns (committed: bool)
      modifies this
      ensures committed <==> stop >= |page.records|
      ensures records == ApplyAll(old(records), if committed then page.records else page.records[..stop])
      ensures cursor == if committed then page.next else old(cursor)
      ensures var n := if committed then |page.records| else stop;
              && (forall i :: 0 <= i < n && LastOfId(page.records, i, n) ==>
                    Lookup(records, page.records[i].id) == Some(page.records[i].entry))
              && (forall id :: (forall i :: 0 <= i < n ==> page.records[i].id != id) ==>
                    Lookup(records, id) == Lookup(old(records), id))
    {
      SyncMeans(records, page.records, if stop >= |page.records| then |page.records| else stop);
      for i := 0 to |page.records|
        invariant i <= stop && cursor == old(cursor)
        invariant records == ApplyAll(old(records), page.records[..i])
      {
        if i == stop {
          return false;
        }
        assert page.records[..i + 1][..i] == page.records[..i];
        Materialize(page.records[i]);
      }
      assert page.records[..|page.records|] == page.records;
      cursor := page.next;
      committed := true;
    }
  }
}
