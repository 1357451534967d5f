/** Finalizations of runtime attempts in flight together, with retries and crashes: what the event of
    a success then finds. */
module RuntimeResultRuns {
  import opened Wrappers
  import opened Paths
  import opened Schedules
  import opened RuntimeResult

  /** A finalization between its blob write and its dispatch, or before its deferred cleanup. */
  datatype Pc = Stored(input: Input, env: Env) | Ended(input: Input, env: Env, kept: bool)

  datatype World = World(store: Store, procs: map<nat, Pc>)

  datatype Act = Begin(p: nat, input: Input, env: Env) | Dispatch(p: nat) | Clean(p: nat) | Crash(p: nat)

  const Start := World(Store(map[], map[]), map[])

  predicate PlainId(id: Id) { SlashFree(id.tenant) && SlashFree(id.attempt) }

  predicate Begins(h: Hashes, w: World, a: Act) {
    a.Begin? && a.p !in w.procs && PlainId(a.input.id) && Starts(h, a.input, a.env)
  }

  predicate Dispatches(w: World, a: Act) { a.Dispatch? && a.p in w.procs && w.procs[a.p].Stored? }

  predicate Cleans(w: World, a: Act) { a.Clean? && a.p in w.procs && w.procs[a.p].Ended? }

  /** Every act is one atomic effect; a crash skips what is left of a finalization. */
  function Next(h: Hashes, w: World, a: Act): World {
    if Begins(h, w, a) then World(PutOn(h, w.store, a.input), w.procs[a.p := Stored(a.input, a.env)])
    else if Dispatches(w, a) then
      var pc := w.procs[a.p];
      World(DispatchOn(h, w.store, pc.input, pc.env),
            w.procs[a.p := Ended(pc.input, pc.env, Keeps(h, w.store, pc.input, pc.env))])
    else if Cleans(w, a) then
      var pc := w.procs[a.p];
      World(CleanOn(h, w.store, pc.input, pc.env, pc.kept), w.procs - {a.p})
    else if a.Crash? then w.(procs := w.procs - {a.p})
    else w
  }

  function From(h: Hashes, w: World, schedule: seq<Act>): World { Run((v, a) => Next(h, v, a), w, schedule) }

  function At(h: Hashes, schedule: seq<Act>): World { From(h, Start, schedule) }

  lemma AtLast(h: Hashes, schedule: seq<Act>)
    requires schedule != []
    ensures At(h, schedule) == Next(h, At(h, schedule[..|schedule| - 1]), schedule[|schedule| - 1])
  {
    var front, last := schedule[..|schedule| - 1], schedule[|schedule| - 1];
    assert schedule == front + [last];
    RunConcat((v, a) => Next(h, v, a), Start, front, [last]);
    RunOne((v, a) => Next(h, v, a), At(h, front), last);
  }

  /** With nothing in between, the three acts are the worker's whole finalization. */
  lemma UninterruptedIsFinalized(h: Hashes, w: World, p: nat, input: Input, env: Env)
    requires p !in w.procs && PlainId(input.id)
    ensures From(h, w, [Begin(p, input, env), Dispatch(p), Clean(p)])
            == World(Finalized(h, w.store, input, env), w.procs)
  {
    hide PutOn, DispatchOn, CleanOn, Keeps, Starts, PlainId;
    var begin := Begin(p, input, env);
    var w1 := Next(h, w, begin);
    var w2 := Next(h, w1, Dispatch(p));
    var w3 := Next(h, w2, Clean(p));
    RunPath((v, a) => Next(h, v, a), [w, w1, w2, w3], [begin, Dispatch(p), Clean(p)]);
    if Starts(h, input, env) { assert w.procs[p := w2.procs[p]] - {p} == w.procs; }
  }

  // ---------------------------------------------------------------- what a run leaves behind

  /** A finalization that got as far as the dispatch. */
  datatype Sending = Sending(input: Input, env: Env)

  function Sends(h: Hashes, schedule: seq<Act>): set<Sending> {
    if schedule == [] then {}
    else
      var front, last := schedule[..|schedule| - 1], schedule[|schedule| - 1];
      Sends(h, front) + if Begins(h, At(h, front), last) then {Sending(last.input, last.env)} else {}
  }

  predicate Proper(h: Hashes, x: Sending) { PlainId(x.input.id) && Starts(h, x.input, x.env) }

  predicate Writes(h: Hashes, x: Sending, key: string) { Holds(h, x.input) && KeyOf(h, x.input) == key }

  ghost predicate BlobSent(h: Hashes, sent: set<Sending>, key: string, body: string) {
    exists x :: x in sent && Writes(h, x, key) && x.input.payload == body
  }

  ghost predicate AttemptSent(h: Hashes, sent: set<Sending>, id: Id, a: Attempt) {
    exists x :: x in sent && Target(x.input.id) == id && a == AttemptOf(h, x.input, x.env)
  }

  /** Processes, blobs and attempts all come from what was sent. */
  ghost predicate Inv(h: Hashes, sent: set<Sending>, w: World) {
    && (forall x :: x in sent ==> Proper(h, x))
    && (forall p :: p in w.procs ==> Sending(w.procs[p].input, w.procs[p].env) in sent)
    && (forall k :: k in w.store.blobs ==> BlobSent(h, sent, k, w.store.blobs[k]))
    && (forall id :: id in w.store.attempts ==> AttemptSent(h, sent, id, w.store.attempts[id]))
  }

  /** What an act adds to the sendings. */
  function Added(h: Hashes, w: World, a: Act): set<Sending> {
    if Begins(h, w, a) then {Sending(a.input, a.env)} else {}
  }

  lemma NextKeepsInv(h: Hashes, sent: set<Sending>, w: World, a: Act)
    requires Inv(h, sent, w)
    ensures Inv(h, sent + Added(h, w, a), Next(h, w, a))
  {
    hide Starts, PlainId, KeyOf, Taken, Keeps, AttemptOf, Target, Holds;
    var more, v := sent + Added(h, w, a), Next(h, w, a);
    forall k | k in v.store.blobs ensures BlobSent(h, more, k, v.store.blobs[k]) {
      if k in w.store.blobs && w.store.blobs[k] == v.store.blobs[k] {
        var x :| x in sent && Writes(h, x, k) && x.input.payload == v.store.blobs[k];
        assert x in more;
      } else {
        assert Writes(h, Sending(a.input, a.env), k);
      }
    }
    forall id | id in v.store.attempts ensures AttemptSent(h, more, id, v.store.attempts[id]) {
      if id in w.store.attempts && w.store.attempts[id] == v.store.attempts[id] {
        var x :| x in sent && Target(x.input.id) == id && v.store.attempts[id] == AttemptOf(h, x.input, x.env);
        assert x in more;
      } else {
        assert Sending(w.procs[a.p].input, w.procs[a.p].env) in more;
      }
    }
  }

  lemma {:induction false} RunKeepsInv(h: Hashes, schedule: seq<Act>)
    ensures Inv(h, Sends(h, schedule), At(h, schedule))
  {
    hide Next, Begins, Proper, BlobSent, AttemptSent;
    if schedule != [] {
      var front, last := schedule[..|schedule| - 1], schedule[|schedule| - 1];
      RunKeepsInv(h, front);
      NextKeepsInv(h, Sends(h, front), At(h, front), last);
      AtLast(h, schedule);
    }
  }

  // ---------------------------------------------------------------- when a stored result is gone

  /** The cleanup of a finalization that did not keep its payload. */
  predicate Deletes(h: Hashes, w: World, a: Act, key: string) {
    Cleans(w, a) && var pc := w.procs[a.p]; Writes(h, Sending(pc.input, pc.env), key) && !pc.kept && pc.env.deletable
  }

  predicate Puts(h: Hashes, w: World, a: Act, key: string) {
    Begins(h, w, a) && Writes(h, Sending(a.input, a.env), key)
  }

  /** Some act of the run deletes the key and no later one stores it again. */
  ghost predicate DeletedLast(h: Hashes, schedule: seq<Act>, key: string) {
    exists i :: 0 <= i < |schedule| && DeletedAt(h, schedule, i, key)
  }

  ghost predicate DeletedAt(h: Hashes, schedule: seq<Act>, i: nat, key: string)
    requires i < |schedule|
  {
    && Deletes(h, At(h, schedule[..i]), schedule[i], key)
    && forall j :: i < j < |schedule| ==> !Puts(h, At(h, schedule[..j]), schedule[j], key)
  }

  lemma BlobStep(h: Hashes, w: World, a: Act, key: string)
    ensures key in Next(h, w, a).store.blobs
            <==> Puts(h, w, a, key) || (key in w.store.blobs && !Deletes(h, w, a, key))
  {
    hide Starts, PlainId, KeyOf, Taken, Keeps, AttemptOf, Target, Holds;
  }

  lemma DeletedStep(h: Hashes, schedule: seq<Act>, key: string)
    requires schedule != []
    ensures var front, last := schedule[..|schedule| - 1], schedule[|schedule| - 1];
            DeletedLast(h, schedule, key)
            <==> Deletes(h, At(h, front), last, key)
                 || (DeletedLast(h, front, key) && !Puts(h, At(h, front), last, key))
  {
    hide Deletes, Puts, At;
    var n := |schedule| - 1;
    var front, last := schedule[..n], schedule[n];
    forall i | 0 <= i <= n ensures i <= |front| && front[..i] == schedule[..i] { }
    forall i | 0 <= i < n
      ensures DeletedAt(h, schedule, i, key) <==> DeletedAt(h, front, i, key) && !Puts(h, At(h, front), last, key)
    {
      assert schedule[..i] == front[..i];
      assert schedule[..n] == front;
      if DeletedAt(h, front, i, key) && !Puts(h, At(h, front), last, key) {
        forall j | i < j < |schedule| ensures !Puts(h, At(h, schedule[..j]), schedule[j], key) {
          if j < n { assert front[..j] == schedule[..j]; }
        }
      }
      if DeletedAt(h, schedule, i, key) {
        forall j | i < j < |front| ensures !Puts(h, At(h, front[..j]), front[j], key) {
          assert front[..j] == schedule[..j];
        }
      }
    }
    if Deletes(h, At(h, front), last, key) { assert DeletedAt(h, schedule, n, key); }
    if DeletedLast(h, schedule, key) && !Deletes(h, At(h, front), last, key) {
      var i :| 0 <= i < |schedule| && DeletedAt(h, schedule, i, key);
      assert i < n;
    }
  }

  ghost predicate SentKey(h: Hashes, sent: set<Sending>, key: string) {
    exists x :: x in sent && Writes(h, x, key)
  }

  lemma SentStep(h: Hashes, schedule: seq<Act>, key: string)
    requires schedule != []
    ensures var front, last := schedule[..|schedule| - 1], schedule[|schedule| - 1];
            && (SentKey(h, Sends(h, schedule), key)
                <==> SentKey(h, Sends(h, front), key) || Puts(h, At(h, front), last, key))
            && !(Puts(h, At(h, front), last, key) && Deletes(h, At(h, front), last, key))
  {
    hide Writes, At, Starts, PlainId;
    var front, last := schedule[..|schedule| - 1], schedule[|schedule| - 1];
    if SentKey(h, Sends(h, front), key) {
      var x :| x in Sends(h, front) && Writes(h, x, key);
      assert x in Sends(h, schedule);
    }
    if Puts(h, At(h, front), last, key) { assert Sending(last.input, last.env) in Sends(h, schedule); }
  }

  /** A key the run has stored is there exactly when it was not deleted last. */
  lemma {:induction false} KeyIsThere(h: Hashes, schedule: seq<Act>, key: string)
    ensures key in At(h, schedule).store.blobs
            <==> SentKey(h, Sends(h, schedule), key) && !DeletedLast(h, schedule, key)
  {
    hide Next, Begins, Writes, Deletes, Puts, DeletedLast;
    if schedule == [] {
      assert At(h, schedule) == Start;
    } else {
      hide SentKey, Sends, From;
      var front, last := schedule[..|schedule| - 1], schedule[|schedule| - 1];
      KeyIsThere(h, front, key);
      AtLast(h, schedule);
      BlobStep(h, At(h, front), last, key);
      DeletedStep(h, schedule, key);
      SentStep(h, schedule, key);
    }
  }

  /** The process p has dispatched without keeping its payload at act j, and has not been at it since. */
  ghost predicate Dropped(h: Hashes, schedule: seq<Act>, p: nat, j: nat, x: Sending)
  {
    j < |schedule| && schedule[j] == Dispatch(p)
    && var w := At(h, schedule[..j]);
       p in w.procs && w.procs[p] == Stored(x.input, x.env) && !Keeps(h, w.store, x.input, x.env)
  }

  /** Behind every unkept payload stands a dispatch that was refused, or whose refresh failed after
      the commit, or that turned an invalid success into a failure. */
  lemma {:induction false} UnkeptHasACause(h: Hashes, schedule: seq<Act>, p: nat)
    requires var w := At(h, schedule); p in w.procs && w.procs[p].Ended? && !w.procs[p].kept
    ensures var pc := At(h, schedule).procs[p];
            exists j: nat :: Dropped(h, schedule, p, j, Sending(pc.input, pc.env))
  {
    hide Keeps, PutOn, DispatchOn, CleanOn;
    if schedule != [] {
      hide From;
      var n := |schedule| - 1;
      var front, last := schedule[..n], schedule[n];
      AtLast(h, schedule);
      var pc := At(h, schedule).procs[p];
      if last == Dispatch(p) && Dispatches(At(h, front), last) {
        assert Dropped(h, schedule, p, n, Sending(pc.input, pc.env));
      } else {
        UnkeptHasACause(h, front, p);
        var j: nat :| Dropped(h, front, p, j, Sending(pc.input, pc.env));
        assert front[..j] == schedule[..j];
        assert Dropped(h, schedule, p, j, Sending(pc.input, pc.env));
      }
    }
  }

  // ---------------------------------------------------------------- what the event of a success finds

  /** The attempt was committed as a success by this sending. */
  predicate CommittedBy(h: Hashes, s: Store, x: Sending) {
    && Proper(h, x) && Target(x.input.id) in s.attempts
    && s.attempts[Target(x.input.id)] == AttemptOf(h, x.input, x.env)
    && AttemptOf(h, x.input, x.env).state == Succeeded
  }

  function EventOutcome(h: Hashes, s: Store, id: Id): Outcome
    requires id in s.attempts
  {
    Consumed(h, s, id.tenant, SuccessOf(s, id))
  }

  /** What the event finds, given what is stored under the key. */
  lemma CommittedOutcome(h: Hashes, s: Store, x: Sending)
    requires HashesOk(h) && CommittedBy(h, s, x)
    ensures var outcome := EventOutcome(h, s, Target(x.input.id));
            if TrimSpace(x.input.id.attempt) == "" then outcome == EventInvalid
            else if x.input.payload == "" then outcome == NoResult
            else if !Readable(x.input.id) then outcome == BadReference
            else if KeyOf(h, x.input) !in s.blobs then outcome == Missing
            else
              var body := s.blobs[KeyOf(h, x.input)];
              |body| <= MAX_PAYLOAD && h.sum(body) == h.sum(x.input.payload) ==> outcome == Deliver(body)
  {
    hide ResultRefs, ParseRef, ResultKey, SlashFree, Readable, TrimSpace, Hex64, AttemptOf, Reserved;
    SuccessIsValidated(h, x);
    AttemptRefs(h, x.input, x.env);
    TrimTwice(x.input.id.attempt);
    if x.input.payload != "" {
      assert Hex64(h.sum(x.input.payload).value);
      RawRefParses(x.input.id, h.sum(x.input.payload).value);
    }
  }

  /** What is committed as a success was validated, unless the worker named no state. */
  lemma SuccessIsValidated(h: Hashes, x: Sending)
    ensures AttemptOf(h, x.input, x.env).state == Succeeded
            <==> x.input.state == None || (x.input.state == Some(Succeeded) && x.env.businessOk)
  {
    hide SortedRefs, KeyOf;
  }

  /** What the blob at a sent key is. */
  lemma BlobIsSent(h: Hashes, sent: set<Sending>, w: World, x: Sending)
    requires Inv(h, sent, w) && x in sent && Holds(h, x.input) && KeyOf(h, x.input) in w.store.blobs
    ensures var body := w.store.blobs[KeyOf(h, x.input)];
            |body| <= MAX_PAYLOAD && h.sum(body) == h.sum(x.input.payload)
            && exists y :: y in sent && SameResult(h, x, y) && y.input.payload == body
  {
    hide ResultKey, SlashFree;
    var key := KeyOf(h, x.input);
    assert BlobSent(h, sent, key, w.store.blobs[key]);
    var y :| y in sent && Writes(h, y, key) && y.input.payload == w.store.blobs[key];
    assert Proper(h, x) && Proper(h, y);
    KeyInjective(x.input.id.tenant, x.input.id.attempt, h.sum(x.input.payload).value, y.input.id.tenant,
                 y.input.id.attempt, h.sum(y.input.payload).value);
    assert SameResult(h, x, y);
  }

  predicate SameResult(h: Hashes, x: Sending, y: Sending) {
    x.input.id == y.input.id && h.sum(x.input.payload) == h.sum(y.input.payload)
  }

  /** The sending x accounts for the outcome: no result if it had no payload; a bad reference if its id
      cannot be read back; nothing found if its key was deleted last; else a payload of its digest
      that was sent under its id. */
  ghost predicate Accounts(h: Hashes, schedule: seq<Act>, x: Sending, outcome: Outcome)
    requires Proper(h, x)
  {
    if x.input.payload == "" then outcome == NoResult
    else if !Readable(x.input.id) then outcome == BadReference
    else if DeletedLast(h, schedule, KeyOf(h, x.input)) then outcome == Missing
    else
      exists y :: y in Sends(h, schedule) && SameResult(h, x, y) && outcome == Deliver(y.input.payload)
  }

  /** Over every schedule of finalizations, retries and crashes, the event of a succeeded attempt is
      accounted for by a sending for that attempt which was validated or named no state. */
  lemma SuccessIsAccountedFor(h: Hashes, schedule: seq<Act>, id: Id)
    requires HashesOk(h)
    ensures var s := At(h, schedule).store;
            id in s.attempts && s.attempts[id].state == Succeeded ==>
              var outcome := EventOutcome(h, s, id);
              if TrimSpace(id.attempt) == "" then outcome == EventInvalid
              else exists x :: x in Sends(h, schedule) && Target(x.input.id) == id && Proper(h, x)
                               && (x.input.state == None || x.env.businessOk) && Accounts(h, schedule, x, outcome)
  {
    hide Next, Sends, At, KeyOf, AttemptOf, Readable, TrimSpace, DeletedLast, EventOutcome, Proper, BlobSent, Accounts;
    var w, sent := At(h, schedule), Sends(h, schedule);
    RunKeepsInv(h, schedule);
    if id in w.store.attempts && w.store.attempts[id].state == Succeeded {
      assert AttemptSent(h, sent, id, w.store.attempts[id]);
      var x :| x in sent && Target(x.input.id) == id && w.store.attempts[id] == AttemptOf(h, x.input, x.env);
      SuccessIsValidated(h, x);
      TrimTwice(x.input.id.attempt);
      SentOutcome(h, schedule, x);
    }
  }

  lemma SentOutcome(h: Hashes, schedule: seq<Act>, x: Sending)
    requires HashesOk(h) && x in Sends(h, schedule) && CommittedBy(h, At(h, schedule).store, x)
    ensures var outcome := EventOutcome(h, At(h, schedule).store, Target(x.input.id));
            if TrimSpace(x.input.id.attempt) == "" then outcome == EventInvalid
            else Accounts(h, schedule, x, outcome)
  {
    hide Next, Sends, At, KeyOf, AttemptOf, Readable, TrimSpace, DeletedLast, EventOutcome, Reserved, PlainId;
    var w, sent := At(h, schedule), Sends(h, schedule);
    CommittedOutcome(h, w.store, x);
    if x.input.payload != "" {
      var key := KeyOf(h, x.input);
      RunKeepsInv(h, schedule);
      KeyIsThere(h, schedule, key);
      assert Writes(h, x, key);
      if key in w.store.blobs { BlobIsSent(h, sent, w, x); }
    }
  }

  /** Behind every deleted key stands a finalization of that key that dropped its payload. */
  lemma DeletionHasACause(h: Hashes, schedule: seq<Act>, key: string)
    requires DeletedLast(h, schedule, key)
    ensures exists p, j, y :: Dropped(h, schedule, p, j, y) && Writes(h, y, key) && y.env.deletable
  {
    hide At, Writes;
    var i :| 0 <= i < |schedule| && DeletedAt(h, schedule, i, key);
    var front, p := schedule[..i], schedule[i].p;
    var pc := At(h, front).procs[p];
    UnkeptHasACause(h, front, p);
    var y := Sending(pc.input, pc.env);
    var j: nat :| Dropped(h, front, p, j, y);
    assert front[..j] == schedule[..j];
    assert Dropped(h, schedule, p, j, y);
  }

  /** Over every schedule whose ids can be read back the event finds no result or a sent payload, or
      misses one that a finalization of the same key dropped from a store that can delete. */
  lemma ReadableIdsAreServed(h: Hashes, schedule: seq<Act>, id: Id)
    requires HashesOk(h) && forall x :: x in Sends(h, schedule) ==> Readable(x.input.id)
    ensures var s := At(h, schedule).store;
            id in s.attempts && s.attempts[id].state == Succeeded && TrimSpace(id.attempt) != "" ==>
              var outcome := EventOutcome(h, s, id);
              || outcome == NoResult || outcome.Deliver?
              || (outcome == Missing
                  && exists p, j, y :: Dropped(h, schedule, p, j, y) && Target(y.input.id) == id && y.env.deletable)
  {
    hide Next, Sends, At, KeyOf, Readable, TrimSpace, DeletedLast, EventOutcome, Proper, Dropped;
    var s := At(h, schedule).store;
    SuccessIsAccountedFor(h, schedule, id);
    if id in s.attempts && s.attempts[id].state == Succeeded && TrimSpace(id.attempt) != "" {
      var x :| x in Sends(h, schedule) && Target(x.input.id) == id && Proper(h, x)
               && Accounts(h, schedule, x, EventOutcome(h, s, id));
      if EventOutcome(h, s, id) == Missing {
        MissingIsDeleted(h, schedule, x);
        DeletionHasACause(h, schedule, KeyOf(h, x.input));
        var p, j, y :| Dropped(h, schedule, p, j, y) && Writes(h, y, KeyOf(h, x.input)) && y.env.deletable;
        DroppedWasSent(h, schedule, p, j, y);
        SameKeySameId(h, x, y);
      }
    }
  }

  lemma MissingIsDeleted(h: Hashes, schedule: seq<Act>, x: Sending)
    requires Proper(h, x) && Accounts(h, schedule, x, Missing)
    ensures Holds(h, x.input) && DeletedLast(h, schedule, KeyOf(h, x.input))
  {
  }

  lemma DroppedWasSent(h: Hashes, schedule: seq<Act>, p: nat, j: nat, y: Sending)
    requires Dropped(h, schedule, p, j, y)
    ensures Proper(h, y)
  {
    hide At, Proper;
    RunKeepsInv(h, schedule[..j]);
  }

  lemma SameKeySameId(h: Hashes, x: Sending, y: Sending)
    requires Proper(h, x) && Proper(h, y) && Holds(h, x.input) && Holds(h, y.input)
    ensures KeyOf(h, x.input) == KeyOf(h, y.input) <==> SameResult(h, x, y)
  {
    hide ResultKey, SlashFree;
    if KeyOf(h, x.input) == KeyOf(h, y.input) {
      KeyInjective(x.input.id.tenant, x.input.id.attempt, h.sum(x.input.payload).value, y.input.id.tenant,
                   y.input.id.attempt, h.sum(y.input.payload).value);
    }
  }

  // ---------------------------------------------------------------- whose payload an event may get

  /** A delivery to any event comes from a sending for its attempt under its job run, validated unless it
      named no state; the payload was sent under the same id with the same digest. */
  ghost predicate Delivers(h: Hashes, sent: set<Sending>, id: Id, jobRun: string, body: string) {
    exists x, y :: && x in sent && y in sent && Target(x.input.id) == id && x.input.jobRun == jobRun
                   && (x.input.state == None || x.env.businessOk) && SameResult(h, x, y) && y.input.payload == body
  }

  /** In every reached state, whatever event comes in: an event that names another job run or result
      digest than the committed one is refused, and what is delivered was sent for the event's attempt
      under the event's job run. */
  lemma DeliveredWasSent(h: Hashes, schedule: seq<Act>, tenant: string, event: Event)
    requires HashesOk(h)
    ensures var s, id := At(h, schedule).store, Id(tenant, event.attempt);
            var outcome := Consumed(h, s, tenant, event);
            && (id in s.attempts && event.kind == "attempt.succeeded" && TrimSpace(event.attempt) != ""
                && (s.attempts[id].jobRun != event.jobRun
                    || (event.resultDigest != "" && event.resultDigest != s.attempts[id].resultDigest)) ==>
                  outcome == EventConflict)
            && (outcome.Deliver? ==> Delivers(h, Sends(h, schedule), id, event.jobRun, outcome.body))
  {
    hide Next, Sends, At, KeyOf, Readable, TrimSpace, DeletedLast, Proper, BlobSent, Accounts, ParseRef, ResultRefs,
      StateOf;
    var s, id := At(h, schedule).store, Id(tenant, event.attempt);
    var outcome, sent := Consumed(h, s, tenant, event), Sends(h, schedule);
    if outcome.Deliver? {
      RunKeepsInv(h, schedule);
      assert AttemptSent(h, sent, id, s.attempts[id]);
      var x :| x in sent && Target(x.input.id) == id && s.attempts[id] == AttemptOf(h, x.input, x.env);
      SuccessIsValidated(h, x);
      TrimTwice(x.input.id.attempt);
      assert outcome == EventOutcome(h, s, id);
      SentOutcome(h, schedule, x);
      DeliveredAccounts(h, schedule, x, outcome.body);
    }
  }

  lemma DeliveredAccounts(h: Hashes, schedule: seq<Act>, x: Sending, body: string)
    requires Proper(h, x) && Accounts(h, schedule, x, Deliver(body))
    ensures exists y :: y in Sends(h, schedule) && SameResult(h, x, y) && y.input.payload == body
  {
  }

  // ---------------------------------------------------------------- one finalization, and what follows

  /** A first finalization that commits a success with a payload. */
  predicate FirstSuccess(h: Hashes, s: Store, x: Sending) {
    && Proper(h, x) && x.input.payload != "" && Target(x.input.id) !in s.attempts
    && Taken(h, s, x.input, x.env) && AttemptOf(h, x.input, x.env).state == Succeeded
  }

  /** Nothing in flight concerns the id. */
  ghost predicate Quiet(w: World, id: Id) {
    forall p :: p in w.procs ==> PlainId(w.procs[p].input.id) && w.procs[p].input.id != id
  }

  /** The attempt and the blob of x stay as they are while nothing is finalized under its id. */
  lemma OthersStepAside(h: Hashes, w: World, a: Act, x: Sending)
    requires Proper(h, x) && Holds(h, x.input) && Quiet(w, x.input.id) && Target(x.input.id) in w.store.attempts
    requires a.Begin? ==> a.input.id != x.input.id
    ensures var v, id, key := Next(h, w, a), Target(x.input.id), KeyOf(h, x.input);
            && Quiet(v, x.input.id)
            && id in v.store.attempts && v.store.attempts[id] == w.store.attempts[id]
            && (key in v.store.blobs <==> key in w.store.blobs)
            && (key in v.store.blobs ==> v.store.blobs[key] == w.store.blobs[key])
  {
    hide ResultKey, SlashFree, Taken, Keeps, Reserved, AttemptOf, Target;
    if Begins(h, w, a) || Cleans(w, a) {
      var y := if a.Begin? then Sending(a.input, a.env) else Sending(w.procs[a.p].input, w.procs[a.p].env);
      if Holds(h, y.input) && KeyOf(h, y.input) == KeyOf(h, x.input) {
        KeyInjective(x.input.id.tenant, x.input.id.attempt, h.sum(x.input.payload).value, y.input.id.tenant,
                     y.input.id.attempt, h.sum(y.input.payload).value);
      }
    }
  }

  lemma {:induction false} OthersKeepTheResult(h: Hashes, w: World, later: seq<Act>, x: Sending)
    requires Proper(h, x) && Holds(h, x.input) && Quiet(w, x.input.id) && Target(x.input.id) in w.store.attempts
    requires forall i :: 0 <= i < |later| && later[i].Begin? ==> later[i].input.id != x.input.id
    ensures var v, id, key := From(h, w, later), Target(x.input.id), KeyOf(h, x.input);
            && id in v.store.attempts && v.store.attempts[id] == w.store.attempts[id]
            && (key in v.store.blobs <==> key in w.store.blobs)
            && (key in v.store.blobs ==> v.store.blobs[key] == w.store.blobs[key])
    decreases |later|
  {
    hide Proper, Holds, KeyOf, Target, Next, Quiet;
    if later != [] {
      OthersStepAside(h, w, later[0], x);
      OthersKeepTheResult(h, Next(h, w, later[0]), later[1..], x);
    }
  }

  lemma FirstSuccessStore(h: Hashes, s: Store, x: Sending)
    requires FirstSuccess(h, s, x)
    ensures var t, key := Finalized(h, s, x.input, x.env), KeyOf(h, x.input);
            && CommittedBy(h, t, x)
            && (key in t.blobs <==> x.env.refreshOk || !x.env.deletable)
            && (key in t.blobs ==> t.blobs[key] == x.input.payload)
  {
    hide KeyOf, AttemptOf, Reserved, PlainId;
    SuccessIsValidated(h, x);
  }

  /** A first finalization commits a success with a payload. Through everything finalized later under
      other ids, its event then gives the payload, byte for byte, exactly when the id can be read back
      and the job's refresh succeeded or the store cannot delete; otherwise a readable id finds nothing. */
  lemma CommittedResultIsDelivered(h: Hashes, w: World, x: Sending, later: seq<Act>)
    requires HashesOk(h) && FirstSuccess(h, w.store, x) && Quiet(w, x.input.id)
    requires forall i :: 0 <= i < |later| && later[i].Begin? ==> later[i].input.id != x.input.id
    ensures var t, id := From(h, World(Finalized(h, w.store, x.input, x.env), w.procs), later).store,
            Target(x.input.id);
            && id in t.attempts
            && EventOutcome(h, t, id)
               == if TrimSpace(id.attempt) == "" then EventInvalid
                  else if !Readable(x.input.id) then BadReference
                  else if x.env.refreshOk || !x.env.deletable then Deliver(x.input.payload)
                  else Missing
  {
    hide KeyOf, AttemptOf, Reserved, PlainId, Finalized, Next, From, EventOutcome, Taken, Readable, TrimSpace;
    var v := World(Finalized(h, w.store, x.input, x.env), w.procs);
    FirstSuccessStore(h, w.store, x);
    OthersKeepTheResult(h, v, later, x);
    TrimTwice(x.input.id.attempt);
    CommittedOutcome(h, From(h, v, later).store, x);
  }

  lemma AttemptStays(h: Hashes, w: World, a: Act, id: Id)
    requires id in w.store.attempts
    ensures id in Next(h, w, a).store.attempts && Next(h, w, a).store.attempts[id] == w.store.attempts[id]
  {
    hide Taken, Keeps, AttemptOf, Starts, KeyOf;
  }

  /** A committed outcome is never replaced. */
  lemma {:induction false} AttemptsAreFinal(h: Hashes, w: World, later: seq<Act>, id: Id)
    requires id in w.store.attempts
    ensures var s := From(h, w, later).store; id in s.attempts && s.attempts[id] == w.store.attempts[id]
    decreases |later|
  {
    hide Next;
    if later != [] {
      AttemptStays(h, w, later[0], id);
      AttemptsAreFinal(h, Next(h, w, later[0]), later[1..], id);
    }
  }

  /** An attempt id sent with a leading blank finds the attempt and commits its success, but whatever
      happens later the event is refused as a bad reference. */
  lemma BlankIdIsUnreadable(h: Hashes, w: World, x: Sending, later: seq<Act>)
    requires HashesOk(h) && CommittedBy(h, w.store, x) && x.input.payload != "" && x.input.id == Id("t", " a1")
    ensures var t := From(h, w, later).store;
            Id("t", "a1") in t.attempts && EventOutcome(h, t, Id("t", "a1")) == BadReference
  {
    hide KeyOf, AttemptOf, Reserved, PlainId, Next, From, EventOutcome;
    assert " a1"[1..] == "a1";
    assert TrimLeft(" a1") == TrimLeft("a1") == "a1";
    assert TrimSpace(" a1") == TrimRight("a1") == "a1";
    AttemptsAreFinal(h, w, later, Id("t", "a1"));
    CommittedOutcome(h, From(h, w, later).store, x);
  }

  // ---------------------------------------------------------------- a second finalization of the attempt

  /** What makes a finalization of the terminal attempt a drop its payload. */
  predicate Loses(h: Hashes, a: Attempt, y: Sending) {
    || DigestConflicts(h, y.input) || BusinessFails(y.input, y.env) || !y.env.admitted || !y.env.refreshOk
    || a.state != AttemptOf(h, y.input, y.env).state || a.resultDigest != AttemptOf(h, y.input, y.env).resultDigest
  }

  /** In every reached world in which a success's payload is stored and another finalization of the
      attempt stands before its dispatch: after that one's dispatch and cleanup the result is missing
      exactly when it sent the same id and a payload of the same digest, it loses, and the store can
      delete. */
  lemma RivalDeletesTheResult(h: Hashes, schedule: seq<Act>, x: Sending, p: nat)
    requires var w := At(h, schedule);
             && HashesOk(h) && x in Sends(h, schedule) && CommittedBy(h, w.store, x) && Readable(x.input.id)
             && Holds(h, x.input) && KeyOf(h, x.input) in w.store.blobs
             && p in w.procs && w.procs[p].Stored? && Target(w.procs[p].input.id) == Target(x.input.id)
    ensures var w, id := At(h, schedule), Target(x.input.id);
            var y, t := Sending(w.procs[p].input, w.procs[p].env), From(h, w, [Dispatch(p), Clean(p)]).store;
            && id in t.attempts
            && (EventOutcome(h, t, id) == Missing
                <==> y.input.payload != "" && SameResult(h, x, y) && Loses(h, w.store.attempts[id], y)
                     && y.env.deletable)
  {
    hide KeyOf, AttemptOf, Reserved, PlainId, Next, From, EventOutcome, Readable, At, Sends, Target, DigestConflicts;
    var w, id := At(h, schedule), Target(x.input.id);
    var y, t := Sending(w.procs[p].input, w.procs[p].env), From(h, w, [Dispatch(p), Clean(p)]).store;
    RunKeepsInv(h, schedule);
    BlobIsSent(h, Sends(h, schedule), w, x);
    DispatchAndClean(h, w, p);
    if y.input.payload != "" { SameKeySameId(h, x, y); }
    ReadableIsNamed(x.input.id);
    CommittedOutcome(h, t, x);
  }

  lemma ReadableIsNamed(id: Id)
    requires Readable(id)
    ensures TrimSpace(id.attempt) != ""
  {
  }

  lemma DispatchAndClean(h: Hashes, w: World, p: nat)
    requires p in w.procs && w.procs[p].Stored? && Target(w.procs[p].input.id) in w.store.attempts
    ensures var y, t := Sending(w.procs[p].input, w.procs[p].env), From(h, w, [Dispatch(p), Clean(p)]).store;
            var lost := Holds(h, y.input) && Loses(h, w.store.attempts[Target(y.input.id)], y) && y.env.deletable;
            t == if lost then w.store.(blobs := w.store.blobs - {KeyOf(h, y.input)}) else w.store
  {
    hide KeyOf, AttemptOf, Target, DigestConflicts;
    var w1 := Next(h, w, Dispatch(p));
    var w2 := Next(h, w1, Clean(p));
    RunPath((v, a) => Next(h, v, a), [w, w1, w2], [Dispatch(p), Clean(p)]);
  }

  /** A retry that sends the same id and a payload of the same digest, run without interruption,
      stores the payload again: the event gives it unless the retry loses and the store can delete. */
  lemma RetryDecides(h: Hashes, s: Store, x: Sending, y: Sending)
    requires HashesOk(h) && CommittedBy(h, s, x) && Readable(x.input.id) && x.input.payload != ""
    requires Proper(h, y) && y.input.payload != "" && SameResult(h, x, y)
    ensures var t, id := Finalized(h, s, y.input, y.env), Target(x.input.id);
            && id in t.attempts
            && EventOutcome(h, t, id)
               == if Loses(h, s.attempts[id], y) && y.env.deletable then Missing else Deliver(y.input.payload)
  {
    hide ResultKey, AttemptOf, Reserved, PlainId, EventOutcome, Readable, DigestConflicts;
    ReadableIsNamed(x.input.id);
    CommittedOutcome(h, Finalized(h, s, y.input, y.env), x);
  }

  /** Sending the same finalization again, with its references in any order, brings the result back
      once everything works. */
  lemma IdenticalRetryRestores(h: Hashes, s: Store, x: Sending, refs: seq<string>, env: Env)
    requires HashesOk(h) && CommittedBy(h, s, x) && Readable(x.input.id) && x.input.payload != ""
    requires !DigestConflicts(h, x.input) && env.putOk && env.businessOk && env.admitted && env.refreshOk
    requires RefSet(refs) == RefSet(x.input.refs)
    ensures var t, id := Finalized(h, s, x.input.(refs := refs), env), Target(x.input.id);
            id in t.attempts && EventOutcome(h, t, id) == Deliver(x.input.payload)
  {
    hide KeyOf, Reserved, PlainId, EventOutcome, Readable, SortedRefs, RefSet, TrimSpace;
    var y := Sending(x.input.(refs := refs), env);
    SuccessIsValidated(h, x);
    OutcomeIgnoresOrder(h, x.input, refs, env);
    NoneReserved(x.input.refs, refs);
    RetryDecides(h, s, x, y);
  }

  lemma NoneReserved(xs: seq<string>, ys: seq<string>)
    requires RefSet(xs) == RefSet(ys) && forall i :: 0 <= i < |xs| ==> !Reserved(xs[i])
    ensures forall i :: 0 <= i < |ys| ==> !Reserved(ys[i])
  {
    hide TrimSpace;
    forall i | 0 <= i < |ys| && TrimSpace(ys[i]) != "" ensures !Reserved(ys[i]) {
      assert TrimSpace(ys[i]) in RefSet(xs);
    }
  }

  // ---------------------------------------------------------------- runs that lose a result

  function Sample(digest: string): Input {
    Input(Id("t", "a1"), "j", Some(Succeeded), [], "", digest, "", "", "{}")
  }

  function Working(refreshOk: bool): Env { Env(true, true, true, false, refreshOk, true) }

  lemma SampleStarts(h: Hashes, digest: string, refreshOk: bool)
    requires h.sum("{}").Some? && TrimSpace(digest) == digest != ""
    ensures var x := Sending(Sample(digest), Working(refreshOk));
            && Proper(h, x) && Holds(h, x.input) && Readable(x.input.id) && Target(x.input.id) == x.input.id
            && !DigestConflicts(h, x.input)
            && AttemptOf(h, x.input, x.env).state == Succeeded && AttemptOf(h, x.input, x.env).resultDigest == digest
  {
    hide SortedRefs, KeyOf;
    assert TrimSpace("a1") == "a1" && TrimSpace("t") == "t" && TrimSpace("") == "";
  }

  lemma NothingLater(h: Hashes, w: World)
    ensures From(h, w, []) == w
  {
  }

  /** The refresh of the job fails after the commit: the success stays and its result is gone. */
  lemma RefreshErrorLosesTheResult(h: Hashes)
    requires HashesOk(h) && h.sum("{}").Some?
    ensures var s := At(h, [Begin(0, Sample("x"), Working(false)), Dispatch(0), Clean(0)]).store;
            && Id("t", "a1") in s.attempts && s.attempts[Id("t", "a1")].state == Succeeded
            && EventOutcome(h, s, Id("t", "a1")) == Missing
  {
    hide Next, From, AttemptOf, EventOutcome, Proper, Readable, TrimSpace, DigestConflicts, Finalized;
    var x := Sending(Sample("x"), Working(false));
    assert TrimSpace("x") == "x" by { TrimmedStays("x"); }
    SampleStarts(h, "x", false);
    assert Proper(h, x);
    UninterruptedIsFinalized(h, Start, 0, x.input, x.env);
    FirstSuccessStore(h, Start.store, x);
    CommittedResultIsDelivered(h, Start, x, []);
    NothingLater(h, World(Finalized(h, Start.store, x.input, x.env), map[]));
    ReadableIsNamed(x.input.id);
  }

  /** A worker that names no state has its invalid payload committed as a success and delivered. */
  lemma UnstatedIsNotValidated(h: Hashes)
    requires HashesOk(h) && h.sum("{}").Some?
    ensures var env := Working(true).(businessOk := false);
            var s := At(h, [Begin(0, Sample("x").(state := None), env), Dispatch(0), Clean(0)]).store;
            && Id("t", "a1") in s.attempts && s.attempts[Id("t", "a1")].state == Succeeded
            && EventOutcome(h, s, Id("t", "a1")) == Deliver("{}")
  {
    hide Next, From, EventOutcome, Proper, Readable, TrimSpace, DigestConflicts, Finalized, KeyOf, SortedRefs;
    var x := Sending(Sample("x").(state := None), Working(true).(businessOk := false));
    assert TrimSpace("x") == "x" by { TrimmedStays("x"); }
    SampleStarts(h, "x", true);
    assert Proper(h, x) && !DigestConflicts(h, x.input) by { UnstatedStarts(h); }
    UninterruptedIsFinalized(h, Start, 0, x.input, x.env);
    SuccessIsValidated(h, x);
    FirstSuccessStore(h, Start.store, x);
    CommittedResultIsDelivered(h, Start, x, []);
    NothingLater(h, World(Finalized(h, Start.store, x.input, x.env), map[]));
    ReadableIsNamed(x.input.id);
  }

  lemma UnstatedStarts(h: Hashes)
    requires h.sum("{}").Some?
    ensures var x := Sending(Sample("x").(state := None), Working(true).(businessOk := false));
            Proper(h, x) && !DigestConflicts(h, x.input)
  {
    hide KeyOf;
    assert TrimSpace("") == "";
  }

  lemma {:induction false} SendsGrow(h: Hashes, schedule: seq<Act>, n: nat)
    requires n <= |schedule|
    ensures Sends(h, schedule[..n]) <= Sends(h, schedule)
  {
    hide Begins, At;
    if n < |schedule| {
      var front := schedule[..|schedule| - 1];
      SendsGrow(h, front, n);
      assert front[..n] == schedule[..n];
    } else {
      assert schedule[..n] == schedule;
    }
  }

  lemma FirstSends(h: Hashes, a: Act)
    requires Begins(h, Start, a)
    ensures Sends(h, [a]) == {Sending(a.input, a.env)}
  {
    hide Begins;
    assert [a][..0] == [];
    assert At(h, []) == Start;
  }

  const FIRST := Begin(0, Sample("x"), Working(true))
  const SECOND := Begin(1, Sample("y"), Working(true))

  lemma TwoInFlight(h: Hashes)
    requires HashesOk(h) && h.sum("{}").Some?
    ensures var front, x := [FIRST, SECOND, Dispatch(0), Clean(0)], Sending(Sample("x"), Working(true));
            var w := At(h, front);
            && x in Sends(h, front) && CommittedBy(h, w.store, x) && Holds(h, x.input) && Readable(x.input.id)
            && KeyOf(h, x.input) in w.store.blobs
            && w.procs == map[1 := Stored(Sample("y"), Working(true))]
            && w.store.attempts[Id("t", "a1")].resultDigest == "x"
  {
    hide AttemptOf, Reserved, PlainId, Readable, TrimSpace, DigestConflicts, KeyOf, Sends;
    assert TrimSpace("x") == "x" by { TrimmedStays("x"); }
    assert TrimSpace("y") == "y" by { TrimmedStays("y"); }
    SampleStarts(h, "x", true);
    SampleStarts(h, "y", true);
    var front := [FIRST, SECOND, Dispatch(0), Clean(0)];
    var w1 := Next(h, Start, FIRST);
    var w2 := Next(h, w1, SECOND);
    var w3 := Next(h, w2, Dispatch(0));
    var w4 := Next(h, w3, Clean(0));
    assert w2.store.attempts == map[];
    assert w3.procs[0].kept;
    RunPath((v, a) => Next(h, v, a), [Start, w1, w2, w3, w4], front);
    assert At(h, front) == w4;
    FirstSends(h, FIRST);
    SendsGrow(h, front, 1);
    assert front[..1] == [FIRST];
  }

  /** One payload is sent twice with two result digests, both stored before either is dispatched: the
      second is refused, and its cleanup takes the first one's result. */
  lemma TwoDigestsLoseTheResult(h: Hashes)
    requires HashesOk(h) && h.sum("{}").Some?
    ensures var s := At(h, [FIRST, SECOND, Dispatch(0), Clean(0)] + [Dispatch(1), Clean(1)]).store;
            && Id("t", "a1") in s.attempts && s.attempts[Id("t", "a1")].state == Succeeded
            && EventOutcome(h, s, Id("t", "a1")) == Missing
  {
    hide AttemptOf, Reserved, PlainId, Readable, TrimSpace, DigestConflicts, KeyOf, Sends, Next, EventOutcome, Starts;
    assert TrimSpace("y") == "y" by { TrimmedStays("y"); }
    SampleStarts(h, "y", true);
    var front := [FIRST, SECOND, Dispatch(0), Clean(0)];
    var x := Sending(Sample("x"), Working(true));
    TwoInFlight(h);
    TargetOfSample("x");
    TargetOfSample("y");
    RivalDeletesTheResult(h, front, x, 1);
    RunConcat((v, a) => Next(h, v, a), Start, front, [Dispatch(1), Clean(1)]);
    AttemptsAreFinal(h, At(h, front), [Dispatch(1), Clean(1)], Id("t", "a1"));
  }

  lemma TargetOfSample(digest: string)
    ensures Target(Sample(digest).id) == Id("t", "a1")
  {
    TrimmedStays("a1");
  }
}
