/** Handing a worker's structured result to its consumer: the producer stores the payload under a
    content-addressed key and commits a reference; the consumer parses the reference and checks
    the digest of what it reads. */
module RuntimeResult {
  import opened Wrappers
  import opened Paths
  import opened Text
  import opened Sorting

  const REF_PREFIX := "runtime-result:"
  const MAX_PAYLOAD := 4 * 1024 * 1024

  predicate Hex(c: char) { '0' <= c <= '9' || 'a' <= c <= 'f' || 'A' <= c <= 'F' }

  /** What decodes to thirty-two bytes. */
  predicate Hex64(d: string) { |d| == 64 && forall i :: 0 <= i < |d| ==> Hex(d[i]) }

  /** runtime/results/TENANT/ATTEMPT/DIGEST.json */
  function ResultKey(tenant: string, attempt: string, digest: string): string {
    "runtime" + "/" + ("results" + "/" + (tenant + "/" + (attempt + "/" + (digest + ".json"))))
  }

  datatype Parsed = Parsed(key: string, digest: string)

  function ParseRef(ref: string, tenant: string, attempt: string): Option<Parsed> {
    var key := TrimPrefix(TrimSpace(ref), REF_PREFIX);
    var wanted := "runtime/results/" + TrimSpace(tenant) + "/" + TrimSpace(attempt);
    if key == "" || key == ref || Ext(key) != ".json" || Dir(key) != wanted then None
    else
      var digest := TrimSuffix(Base(key), ".json");
      if Hex64(digest) then Some(Parsed(key, digest)) else None
  }

  lemma KeyParts(tenant: string, attempt: string, digest: string)
    requires SlashFree(tenant) && SlashFree(attempt) && Hex64(digest)
    ensures var key := ResultKey(tenant, attempt, digest);
            var dir := "runtime" + "/" + "results" + "/" + tenant + "/" + attempt;
            Base(key) == digest + ".json" && Ext(key) == ".json" && Dir(key) == Clean(dir + "/")
  {
    var key, base := ResultKey(tenant, attempt, digest), digest + ".json";
    var dir := "runtime" + "/" + "results" + "/" + tenant + "/" + attempt;
    hide Base, Ext, Dir, Clean, IsSpace;
    Regroup("runtime", "results", tenant, attempt, base);
    assert key == dir + "/" + base;
    assert SlashFree(base) by {
      forall i | 0 <= i < |base| ensures base[i] != '/' { if i < 64 { assert Hex(digest[i]); } }
    }
    DirBaseOf(dir, base);
    ExtOf(dir + "/" + digest, "json");
    assert dir + "/" + digest + "." + "json" == key;
  }

  lemma RefIsTrimmed(key: string)
    requires key != "" && key[|key| - 1] == 'n'
    ensures TrimSpace(REF_PREFIX + key) == REF_PREFIX + key
  {
    var ref := REF_PREFIX + key;
    assert ref[0] == 'r' && ref[|ref| - 1] == 'n';
    TrimmedStays(ref);
  }

  /** For slash-free ids the parser gives back the key and digest the producer wrote exactly when
      the reader's ids, trimmed, are the ones written and neither is empty, "." or "..". */
  lemma RefRoundTrip(tenant: string, attempt: string, digest: string, reader: string, reading: string)
    requires SlashFree(tenant) && SlashFree(attempt) && SlashFree(reader) && SlashFree(reading) && Hex64(digest)
    ensures var key := ResultKey(tenant, attempt, digest);
            var readable := TrimSpace(reader) == tenant && TrimSpace(reading) == attempt && !Special(tenant)
              && !Special(attempt);
            ParseRef(REF_PREFIX + key, reader, reading) == if readable then Some(Parsed(key, digest)) else None
  {
    hide Base, Ext, Dir, Clean, IsSpace, Hex64, TrimLeft, TrimRight;
    var key := ResultKey(tenant, attempt, digest);
    var ref := REF_PREFIX + key;
    assert TrimSpace(ref) == ref by { RefIsTrimmed(key); }
    assert ref[|REF_PREFIX|..] == key;
    KeyParts(tenant, attempt, digest);
    var base := digest + ".json";
    assert base[|base| - 5..] == ".json" && base[..|base| - 5] == digest;
    TrimmedIsSlashFree(reader);
    TrimmedIsSlashFree(reading);
    CleanFour("runtime", "results", tenant, attempt, TrimSpace(reader), TrimSpace(reading));
    WantedDirectory(TrimSpace(reader), TrimSpace(reading));
  }

  lemma WantedDirectory(tenant: string, attempt: string)
    ensures "runtime" + "/" + "results" + "/" + tenant + "/" + attempt == "runtime/results/" + tenant + "/" + attempt
  {
  }

  /** No two results share a key unless attempt and digest agree. */
  lemma KeyInjective(t: string, a: string, d: string, t': string, a': string, d': string)
    requires SlashFree(t) && SlashFree(a) && SlashFree(t') && SlashFree(a')
    requires ResultKey(t, a, d) == ResultKey(t', a', d')
    ensures t == t' && a == a' && d == d'
  {
    KeySplits(t, a, d);
    KeySplits(t', a', d');
    var s, s' := ["runtime", "results", t, a] + Split(d + ".json"),
      ["runtime", "results", t', a'] + Split(d' + ".json");
    assert s == s';
    assert t == s[2] == s'[2] && a == s[3] == s'[3];
    var key := ResultKey(t, a, d);
    assert d == key[|key| - 5 - |d|..|key| - 5] && |d| == |d'|;
    assert d' == key[|key| - 5 - |d|..|key| - 5];
  }

  lemma KeySplits(t: string, a: string, d: string)
    requires SlashFree(t) && SlashFree(a)
    ensures Split(ResultKey(t, a, d)) == ["runtime", "results", t, a] + Split(d + ".json")
  {
    hide Split;
    var s1 := d + ".json";
    SplitFirst(a, s1);
    SplitFirst(t, a + "/" + s1);
    SplitFirst("results", t + "/" + (a + "/" + s1));
    SplitFirst("runtime", "results" + "/" + (t + "/" + (a + "/" + s1)));
  }

  // ---------------------------------------------------------------- producer

  datatype Id = Id(tenant: string, attempt: string)

  datatype AttemptState = Succeeded | RetryableFailed | FailedAttempt | CancelledAttempt

  datatype Attempt = Attempt(jobRun: string, state: AttemptState, refs: seq<string>, resultDigest: string)

  /** attempts holds the terminal ones. */
  datatype Store = Store(blobs: map<string, string>, attempts: map<Id, Attempt>)

  /** id is as the worker sent it, which may name no state; jobRun belongs to the attempt that was
      found; summary and error code are as cleaned for storage. */
  datatype Input = Input(
    id: Id, jobRun: string, state: Option<AttemptState>, refs: seq<string>, outputDigest: string, resultDigest: string,
    summary: string, errorCode: string, payload: string)

  /** What a result digest is computed from when the worker sent none. */
  datatype Final = Final(state: AttemptState, refs: seq<string>, outputDigest: string, summary: string,
                         errorCode: string)

  /** sum is the digest of a JSON payload, if it is one; digestOf that of a final outcome. */
  datatype Hashes = Hashes(sum: string -> Option<string>, digestOf: Final -> string)

  ghost predicate HashesOk(h: Hashes) {
    forall p :: h.sum(p).Some? ==> Hex64(h.sum(p).value)
  }

  /** The attempt is looked up under the trimmed id; the result key is written with the raw one. */
  function Target(id: Id): Id { Id(id.tenant, TrimSpace(id.attempt)) }

  /** What the surroundings answer: the blob write, the business validation of a success, the checks
      of the dispatch before its commit, whether no retry is left, the refresh of the job after the
      commit, and whether the blob store can delete. */
  datatype Env = Env(putOk: bool, businessOk: bool, admitted: bool, exhausted: bool, refreshOk: bool, deletable: bool)

  predicate Reserved(ref: string) { HasPrefix(TrimSpace(ref), REF_PREFIX) }

  predicate Storable(h: Hashes, payload: string) { h.sum(payload).Some? && |payload| <= MAX_PAYLOAD }

  function KeyOf(h: Hashes, input: Input): string
    requires h.sum(input.payload).Some?
  {
    ResultKey(input.id.tenant, input.id.attempt, h.sum(input.payload).value)
  }

  /** The finalization gets as far as the dispatch, with its payload stored if it has one. */
  predicate Starts(h: Hashes, input: Input, env: Env) {
    && (forall i :: 0 <= i < |input.refs| ==> !Reserved(input.refs[i]))
    && (input.payload != "" ==> Storable(h, input.payload) && env.putOk)
  }

  /** It has stored a payload under its key. */
  predicate Holds(h: Hashes, input: Input) { input.payload != "" && Storable(h, input.payload) }

  predicate DigestConflicts(h: Hashes, input: Input) {
    && Holds(h, input) && TrimSpace(input.outputDigest) != ""
    && TrimSpace(input.outputDigest) != "sha256:" + h.sum(input.payload).value
  }

  predicate BusinessFails(input: Input, env: Env) { input.state == Some(Succeeded) && !env.businessOk }

  /** No state counts as success, and a last failure is final. */
  function StateOf(input: Input, env: Env): AttemptState {
    match input.state
    case None => Succeeded
    case Some(s) => if s == RetryableFailed && env.exhausted then FailedAttempt else s
  }

  function Inserted(x: string, sorted: seq<string>): seq<string> {
    if sorted == [] || StrLe(x, sorted[0]) then [x] + sorted else [sorted[0]] + Inserted(x, sorted[1..])
  }

  /** The references trimmed, without blank or repeated ones, in order. */
  function SortedRefs(refs: seq<string>): seq<string> {
    if refs == [] then []
    else
      var sorted, ref := SortedRefs(refs[..|refs| - 1]), TrimSpace(refs[|refs| - 1]);
      if ref == "" || ref in sorted then sorted else Inserted(ref, sorted)
  }

  /** The outcome as dispatched: a success whose business validation fails is turned into a failure
      without outputs. */
  function FinalOf(h: Hashes, input: Input, env: Env): Final {
    if BusinessFails(input, env) then Final(FailedAttempt, [], "", input.summary, "RUNTIME_BUSINESS_RESULT_INVALID")
    else
      var state := StateOf(input, env);
      var code := if state == Succeeded then "" else input.errorCode;
      if Holds(h, input) then
        var refs := SortedRefs(input.refs + [REF_PREFIX + KeyOf(h, input)]);
        Final(state, refs, "sha256:" + h.sum(input.payload).value, input.summary, code)
      else Final(state, SortedRefs(input.refs), TrimSpace(input.outputDigest), input.summary, code)
  }

  function AttemptOf(h: Hashes, input: Input, env: Env): Attempt {
    var f, sent := FinalOf(h, input, env), TrimSpace(input.resultDigest);
    Attempt(input.jobRun, f.state, f.refs, if sent != "" then sent else "sha256:" + h.digestOf(f))
  }

  /** The store takes an outcome for an open attempt, and for a terminal one if state and result
      digest are those it has. */
  predicate Taken(h: Hashes, s: Store, input: Input, env: Env) {
    var a, id := AttemptOf(h, input, env), Target(input.id);
    && !DigestConflicts(h, input) && env.admitted
    && (id in s.attempts ==> s.attempts[id].state == a.state && s.attempts[id].resultDigest == a.resultDigest)
  }

  /** The payload is kept only if the dispatch was taken, the job refreshed after the commit, and the
      business validation passed. */
  predicate Keeps(h: Hashes, s: Store, input: Input, env: Env) {
    Taken(h, s, input, env) && env.refreshOk && !BusinessFails(input, env)
  }

  function PutOn(h: Hashes, s: Store, input: Input): Store {
    if Holds(h, input) then s.(blobs := s.blobs[KeyOf(h, input) := input.payload]) else s
  }

  function DispatchOn(h: Hashes, s: Store, input: Input, env: Env): Store {
    if Taken(h, s, input, env) && Target(input.id) !in s.attempts
    then s.(attempts := s.attempts[Target(input.id) := AttemptOf(h, input, env)])
    else s
  }

  function CleanOn(h: Hashes, s: Store, input: Input, env: Env, kept: bool): Store {
    if Holds(h, input) && !kept && env.deletable then s.(blobs := s.blobs - {KeyOf(h, input)}) else s
  }

  /** The net effect of one finalization with nothing in between, of an open or a terminal attempt. */
  function Finalized(h: Hashes, s: Store, input: Input, env: Env): Store {
    if !Starts(h, input, env) then s
    else
      var put := PutOn(h, s, input);
      CleanOn(h, DispatchOn(h, put, input, env), input, env, Keeps(h, put, input, env))
  }

  /** What the dispatch answers: nothing committed, committed, or committed and then failed. */
  datatype Answer = NotTaken | Committed | CommittedThenFailed

  datatype Report = Refused | CommittedWithError | BusinessError | Done

  class Worker {
    var blobs: map<string, string>
    var attempts: map<Id, Attempt>

    ghost function State(): Store
      reads this
    {
      Store(blobs, attempts)
    }

    constructor ()
      ensures State() == Store(map[], map[])
    {
      blobs, attempts := map[], map[];
    }

    method Persist(h: Hashes, input: Input, env: Env) returns (key: string)
      modifies this`blobs
      ensures key != "" <==> Storable(h, input.payload) && env.putOk
      ensures key != "" ==> key == KeyOf(h, input) && blobs == old(blobs)[key := input.payload]
      ensures key == "" ==> blobs == old(blobs)
    {
      var digest := h.sum(input.payload);
      if digest.None? || |input.payload| > MAX_PAYLOAD || !env.putOk {
        return "";
      }
      key := ResultKey(input.id.tenant, input.id.attempt, digest.value);
      blobs := blobs[key := input.payload];
    }

    method AnyReserved(refs: seq<string>) returns (r: bool)
      ensures r <==> exists i :: 0 <= i < |refs| && Reserved(refs[i])
    {
      for i := 0 to |refs|
        invariant forall k :: 0 <= k < i ==> !Reserved(refs[k])
      {
        if Reserved(refs[i]) {
          return true;
        }
      }
      r := false;
    }

    /** Commits the outcome of an open attempt, or compares it with a terminal one; then refreshes the
        job, which may fail after the commit. */
    method Dispatch(h: Hashes, input: Input, env: Env) returns (answer: Answer)
      requires !DigestConflicts(h, input)
      modifies this`attempts
      ensures State() == DispatchOn(h, old(State()), input, env)
      ensures answer == if !Taken(h, old(State()), input, env) then NotTaken
                        else if env.refreshOk then Committed else CommittedThenFailed
      ensures answer == NotTaken
              <==> || !env.admitted
                   || (Target(input.id) in old(attempts)
                       && (old(attempts)[Target(input.id)].state != AttemptOf(h, input, env).state
                           || old(attempts)[Target(input.id)].resultDigest != AttemptOf(h, input, env).resultDigest))
    {
      var a, id := AttemptOf(h, input, env), Target(input.id);
      if !env.admitted {
        return NotTaken;
      }
      if id in attempts {
        if attempts[id].state != a.state || attempts[id].resultDigest != a.resultDigest {
          return NotTaken;
        }
      } else {
        attempts := attempts[id := a];
      }
      answer := if env.refreshOk then Committed else CommittedThenFailed;
    }

    /** The body of the finalization: what it stored, and whether to keep it. */
    method Attempted(h: Hashes, input: Input, env: Env) returns (report: Report, resultKey: string, keepResult: bool)
      modifies this
      ensures Starts(h, input, env) ==>
                State() == DispatchOn(h, PutOn(h, old(State()), input), input, env)
                && keepResult == Keeps(h, PutOn(h, old(State()), input), input, env)
                && resultKey == if Holds(h, input) then KeyOf(h, input) else ""
      ensures !Starts(h, input, env) ==> State() == old(State()) && resultKey == ""
      ensures report.Done? <==> Starts(h, input, env) && Keeps(h, PutOn(h, old(State()), input), input, env)
      ensures report.CommittedWithError?
              <==> Starts(h, input, env) && Taken(h, PutOn(h, old(State()), input), input, env) && !env.refreshOk
      ensures report.BusinessError?
              <==> && Starts(h, input, env) && Taken(h, PutOn(h, old(State()), input), input, env) && env.refreshOk
                   && BusinessFails(input, env)
    {
      hide Reserved, ResultKey, FinalOf, Target;
      report, resultKey, keepResult := Refused, "", false;
      var reserved := AnyReserved(input.refs);
      if reserved {
        return;
      }
      if input.payload != "" {
        resultKey := Persist(h, input, env);
        if resultKey == "" {
          return;
        }
        if DigestConflicts(h, input) {
          return;
        }
      }
      var answer := Dispatch(h, input, env);
      if answer != Committed {
        report := if answer == NotTaken then Refused else CommittedWithError;
        return;
      }
      if BusinessFails(input, env) {
        return BusinessError, resultKey, keepResult;
      }
      keepResult := true;
      report := Done;
    }

    /** Runs the body and then, on every way out, the deferred deletion. */
    method Finalize(h: Hashes, input: Input, env: Env) returns (report: Report)
      modifies this
      ensures State() == Finalized(h, old(State()), input, env)
      ensures report.BusinessError?
              <==> && Starts(h, input, env) && Taken(h, PutOn(h, old(State()), input), input, env) && env.refreshOk
                   && input.state == Some(Succeeded) && !env.businessOk
      ensures report.CommittedWithError?
              <==> Starts(h, input, env) && Taken(h, PutOn(h, old(State()), input), input, env) && !env.refreshOk
      ensures report.Done? <==> Starts(h, input, env) && Keeps(h, PutOn(h, old(State()), input), input, env)
    {
      hide Starts, Keeps, DispatchOn, Holds, KeyOf, ResultKey;
      var resultKey, keepResult;
      report, resultKey, keepResult := Attempted(h, input, env);
      if resultKey != "" && !keepResult && env.deletable {
        blobs := blobs - {resultKey};
      }
      KeyIsNamed(h, input);
    }

    /** Checks the event against the attempt, collects the attempt's result references and resolves
        the only one. */
    method Consume(h: Hashes, tenant: string, event: Event) returns (outcome: Outcome)
      ensures outcome == Consumed(h, State(), tenant, event)
      ensures outcome == Ignored <==> event.kind != "attempt.succeeded"
      ensures outcome == EventInvalid <==> event.kind == "attempt.succeeded" && TrimSpace(event.attempt) == ""
      ensures outcome == Unknown
              <==> event.kind == "attempt.succeeded" && TrimSpace(event.attempt) != ""
                   && Id(tenant, event.attempt) !in attempts
      ensures outcome == EventConflict
              <==> && event.kind == "attempt.succeeded" && TrimSpace(event.attempt) != ""
                   && var id := Id(tenant, event.attempt);
                   && id in attempts
                   && (attempts[id].state != Succeeded || attempts[id].jobRun != event.jobRun
                       || (event.resultDigest != "" && event.resultDigest != attempts[id].resultDigest))
      ensures outcome.Deliver?
              <==> && event.kind == "attempt.succeeded" && TrimSpace(event.attempt) != ""
                   && var id := Id(tenant, event.attempt);
                   && id in attempts && attempts[id].state == Succeeded && attempts[id].jobRun == event.jobRun
                   && (event.resultDigest == "" || event.resultDigest == attempts[id].resultDigest)
                   && exists i :: 0 <= i < |attempts[id].refs| && OnlyPrefixed(attempts[id].refs, i)
                        && GoodBlob(h, blobs, ParseRef(attempts[id].refs[i], tenant, event.attempt))
      ensures outcome.Deliver? ==>
                var refs := attempts[Id(tenant, event.attempt)].refs;
                exists i :: 0 <= i < |refs| && OnlyPrefixed(refs, i)
                  && var parsed := ParseRef(refs[i], tenant, event.attempt);
                     parsed.Some? && parsed.value.key in blobs && outcome.body == blobs[parsed.value.key]
    {
      hide ParseRef, TrimSpace;
      ConsumedCases(h, State(), tenant, event);
      AgreedCases(h, State(), tenant, event);
      if event.kind != "attempt.succeeded" {
        return Ignored;
      }
      if TrimSpace(event.attempt) == "" {
        return EventInvalid;
      }
      var id := Id(tenant, event.attempt);
      if id !in attempts {
        return Unknown;
      }
      if attempts[id].state != Succeeded || attempts[id].jobRun != event.jobRun {
        return EventConflict;
      }
      if event.resultDigest != "" && event.resultDigest != attempts[id].resultDigest {
        return EventConflict;
      }
      var refs := attempts[id].refs;
      var results: seq<string> := [];
      for i := 0 to |refs|
        invariant results == ResultRefs(refs[..i])
      {
        assert refs[..i + 1][..i] == refs[..i];
        if HasPrefix(refs[i], REF_PREFIX) {
          results := results + [refs[i]];
        }
      }
      assert refs[..|refs|] == refs;
      if |results| == 0 {
        return NoResult;
      }
      if |results| != 1 {
        return Ambiguous;
      }
      var parsed := ParseRef(results[0], id.tenant, id.attempt);
      if parsed.None? {
        return BadReference;
      }
      if parsed.value.key !in blobs {
        return Missing;
      }
      var body := blobs[parsed.value.key];
      if |body| > MAX_PAYLOAD {
        return TooLarge;
      }
      var digest := h.sum(body);
      if digest.None? {
        return NotJson;
      }
      if digest.value != parsed.value.digest {
        return DigestMismatch;
      }
      outcome := Deliver(body);
    }
  }

  lemma KeyIsNamed(h: Hashes, input: Input)
    ensures Holds(h, input) ==> KeyOf(h, input) != "" && KeyOf(h, input)[|KeyOf(h, input)| - 1] == 'n'
  {
  }

  // ---------------------------------------------------------------- consumer

  datatype Event = Event(kind: string, attempt: string, jobRun: string, resultDigest: string)

  datatype Outcome =
    | Ignored | EventInvalid | Unknown | EventConflict | NoResult | Ambiguous | BadReference | Missing | TooLarge
    | NotJson | DigestMismatch | Deliver(body: string)

  function ResultRefs(refs: seq<string>): seq<string> {
    if refs == [] then []
    else ResultRefs(refs[..|refs| - 1]) + if HasPrefix(refs[|refs| - 1], REF_PREFIX) then [refs[|refs| - 1]] else []
  }

  function Consumed(h: Hashes, s: Store, tenant: string, event: Event): Outcome {
    var id := Id(tenant, event.attempt);
    if event.kind != "attempt.succeeded" then Ignored
    else if TrimSpace(event.attempt) == "" then EventInvalid
    else if id !in s.attempts then Unknown
    else if s.attempts[id].state != Succeeded || s.attempts[id].jobRun != event.jobRun then EventConflict
    else if event.resultDigest != "" && event.resultDigest != s.attempts[id].resultDigest then EventConflict
    else Handed(h, s.blobs, id, ResultRefs(s.attempts[id].refs))
  }

  function Handed(h: Hashes, blobs: map<string, string>, id: Id, results: seq<string>): Outcome {
    if results == [] then NoResult
    else if |results| > 1 then Ambiguous
    else Resolved(h, blobs, ParseRef(results[0], id.tenant, id.attempt))
  }

  /** The event that reports the attempt's success. */
  function SuccessOf(s: Store, id: Id): Event
    requires id in s.attempts
  {
    Event("attempt.succeeded", id.attempt, s.attempts[id].jobRun, s.attempts[id].resultDigest)
  }

  function Resolved(h: Hashes, blobs: map<string, string>, parsed: Option<Parsed>): Outcome {
    if parsed.None? then BadReference
    else if parsed.value.key !in blobs then Missing
    else
      var body := blobs[parsed.value.key];
      if |body| > MAX_PAYLOAD then TooLarge
      else if h.sum(body).None? then NotJson
      else if h.sum(body).value != parsed.value.digest then DigestMismatch
      else Deliver(body)
  }

  /** The reference at i carries the prefix, and no other does. */
  predicate OnlyPrefixed(refs: seq<string>, i: nat)
    requires i < |refs|
  {
    HasPrefix(refs[i], REF_PREFIX) && forall j :: 0 <= j < |refs| && j != i ==> !HasPrefix(refs[j], REF_PREFIX)
  }

  /** What was parsed names a stored body of bounded size and of the digest it gives. */
  predicate GoodBlob(h: Hashes, blobs: map<string, string>, parsed: Option<Parsed>) {
    && parsed.Some? && parsed.value.key in blobs
    && |blobs[parsed.value.key]| <= 4194304 && h.sum(blobs[parsed.value.key]) == Some(parsed.value.digest)
  }

  lemma {:induction false} ResultRefsAre(refs: seq<string>)
    ensures ResultRefs(refs) == [] <==> forall i :: 0 <= i < |refs| ==> !HasPrefix(refs[i], REF_PREFIX)
    ensures |ResultRefs(refs)| == 1 <==> exists i :: 0 <= i < |refs| && OnlyPrefixed(refs, i)
    ensures forall i :: 0 <= i < |refs| && OnlyPrefixed(refs, i) ==> ResultRefs(refs) == [refs[i]]
  {
    hide HasPrefix;
    if refs != [] {
      var n := |refs| - 1;
      var front := refs[..n];
      ResultRefsAre(front);
      if HasPrefix(refs[n], REF_PREFIX) {
        if |ResultRefs(refs)| == 1 { assert OnlyPrefixed(refs, n); }
        forall i | 0 <= i < |refs| && OnlyPrefixed(refs, i) ensures i == n { }
      } else {
        forall i | 0 <= i < n ensures OnlyPrefixed(refs, i) <==> OnlyPrefixed(front, i) {
          assert forall j :: 0 <= j < n ==> front[j] == refs[j];
        }
      }
    }
  }

  /** What the consumer's answer means, read off the stored attempt and the event. */
  lemma ConsumedCases(h: Hashes, s: Store, tenant: string, event: Event)
    ensures var outcome, id := Consumed(h, s, tenant, event), Id(tenant, event.attempt);
            var named := event.kind == "attempt.succeeded" && TrimSpace(event.attempt) != "";
            && (outcome == Ignored <==> event.kind != "attempt.succeeded")
            && (outcome == EventInvalid <==> event.kind == "attempt.succeeded" && TrimSpace(event.attempt) == "")
            && (outcome == Unknown <==> named && id !in s.attempts)
            && (outcome == EventConflict
                <==> && named && id in s.attempts
                     && (s.attempts[id].state != Succeeded || s.attempts[id].jobRun != event.jobRun
                         || (event.resultDigest != "" && event.resultDigest != s.attempts[id].resultDigest)))
  {
    hide ParseRef, TrimSpace, ResultRefs;
  }

  /** The event is a named success and agrees with the stored attempt in job run and digest. */
  predicate Agrees(s: Store, tenant: string, event: Event) {
    && event.kind == "attempt.succeeded" && TrimSpace(event.attempt) != ""
    && var id := Id(tenant, event.attempt);
    && id in s.attempts && s.attempts[id].state == Succeeded && s.attempts[id].jobRun == event.jobRun
    && (event.resultDigest == "" || event.resultDigest == s.attempts[id].resultDigest)
  }

  /** What becomes of an event that agrees: no reference carries the prefix; more than one does; the only
      one does not parse; it names nothing stored; or it names a good blob, which is delivered. */
  lemma AgreedCases(h: Hashes, s: Store, tenant: string, event: Event)
    ensures Consumed(h, s, tenant, event).Deliver? ==> Agrees(s, tenant, event)
    ensures Agrees(s, tenant, event) ==>
              var outcome, refs := Consumed(h, s, tenant, event), s.attempts[Id(tenant, event.attempt)].refs;
              && (outcome == NoResult <==> forall i :: 0 <= i < |refs| ==> !HasPrefix(refs[i], REF_PREFIX))
              && (outcome == Ambiguous
                  <==> (exists i :: 0 <= i < |refs| && HasPrefix(refs[i], REF_PREFIX))
                       && forall i :: 0 <= i < |refs| ==> !OnlyPrefixed(refs, i))
              && forall i :: 0 <= i < |refs| && OnlyPrefixed(refs, i) ==>
                   var parsed := ParseRef(refs[i], tenant, event.attempt);
                   && (outcome == BadReference <==> parsed.None?)
                   && (outcome == Missing <==> parsed.Some? && parsed.value.key !in s.blobs)
                   && (outcome.Deliver? <==> GoodBlob(h, s.blobs, parsed))
                   && (outcome.Deliver? ==> outcome.body == s.blobs[parsed.value.key])
    ensures Consumed(h, s, tenant, event).Deliver? ==>
              var refs := s.attempts[Id(tenant, event.attempt)].refs;
              exists i :: 0 <= i < |refs| && OnlyPrefixed(refs, i)
  {
    hide ParseRef, TrimSpace, ResultRefs, OnlyPrefixed;
    if Agrees(s, tenant, event) {
      var refs := s.attempts[Id(tenant, event.attempt)].refs;
      ResultRefsAre(refs);
      hide HasPrefix;
    }
  }

  // ---------------------------------------------------------------- they agree

  lemma {:induction false} TrimRightKeepsPrefix(s: string, prefix: string)
    requires HasPrefix(s, prefix) && prefix != "" && !IsSpace(prefix[|prefix| - 1])
    ensures HasPrefix(TrimRight(s), prefix)
  {
    if IsSpace(s[|s| - 1]) {
      assert |s| > |prefix| by { assert |s| == |prefix| ==> s == prefix; }
      assert s[..|s| - 1][..|prefix|] == prefix;
      TrimRightKeepsPrefix(s[..|s| - 1], prefix);
    }
  }

  /** What the consumer takes for a result reference, the producer refuses from its caller. */
  lemma ResultRefsAreReserved(ref: string)
    ensures HasPrefix(ref, REF_PREFIX) ==> Reserved(ref)
  {
    if HasPrefix(ref, REF_PREFIX) {
      assert ref[0] == REF_PREFIX[0];
      TrimRightKeepsPrefix(ref, REF_PREFIX);
    }
  }

  lemma PrefixOfConcat(prefix: string, rest: string)
    ensures HasPrefix(prefix + rest, prefix)
  {
  }

  lemma EmptyHasNone()
    ensures ResultRefs([]) == []
  {
  }

  lemma {:induction false} ResultRefsConcat(xs: seq<string>, ys: seq<string>)
    ensures ResultRefs(xs + ys) == ResultRefs(xs) + ResultRefs(ys)
    decreases |ys|
  {
    hide HasPrefix;
    if ys == [] {
      assert xs + ys == xs;
    } else {
      ResultRefsConcat(xs, ys[..|ys| - 1]);
      assert (xs + ys)[..|xs + ys| - 1] == xs + ys[..|ys| - 1];
    }
  }

  lemma OneRef(ref: string)
    ensures ResultRefs([ref]) == if HasPrefix(ref, REF_PREFIX) then [ref] else []
  {
    hide HasPrefix;
    assert [ref][..0] == [];
  }

  /** Wherever a reference is inserted among ones that are no result references. */
  lemma {:induction false} InsertedResultRefs(x: string, sorted: seq<string>)
    requires ResultRefs(sorted) == []
    ensures ResultRefs(Inserted(x, sorted)) == ResultRefs([x])
  {
    hide HasPrefix, ResultRefs;
    if sorted == [] || StrLe(x, sorted[0]) {
      ResultRefsConcat([x], sorted);
    } else {
      ResultRefsConcat([sorted[0]], sorted[1..]);
      assert sorted == [sorted[0]] + sorted[1..];
      InsertedResultRefs(x, sorted[1..]);
      ResultRefsConcat([sorted[0]], Inserted(x, sorted[1..]));
    }
  }

  /** Cleaning callers' references turns none of them into a result reference. */
  lemma {:induction false} SortedHasNone(refs: seq<string>)
    requires forall i :: 0 <= i < |refs| ==> !Reserved(refs[i])
    ensures ResultRefs(SortedRefs(refs)) == []
  {
    hide ResultRefs, HasPrefix, TrimSpace;
    EmptyHasNone();
    if refs != [] {
      var sorted, ref := SortedRefs(refs[..|refs| - 1]), TrimSpace(refs[|refs| - 1]);
      SortedHasNone(refs[..|refs| - 1]);
      InsertedResultRefs(ref, sorted);
      OneRef(ref);
    }
  }

  lemma {:induction false} HasNoneMember(refs: seq<string>, ref: string)
    requires ResultRefs(refs) == [] && HasPrefix(ref, REF_PREFIX)
    ensures ref !in refs
  {
    hide HasPrefix;
    if refs != [] { HasNoneMember(refs[..|refs| - 1], ref); }
  }

  lemma SortedOneMore(refs: seq<string>, ref: string)
    requires TrimSpace(ref) == ref != "" && ref !in SortedRefs(refs)
    ensures SortedRefs(refs + [ref]) == Inserted(ref, SortedRefs(refs))
  {
    hide TrimSpace, Inserted;
    assert (refs + [ref])[..|refs|] == refs;
  }

  /** Among them the result's own reference is the only one, unchanged. */
  lemma SortedHasOne(refs: seq<string>, key: string)
    requires forall i :: 0 <= i < |refs| ==> !Reserved(refs[i])
    requires key != "" && key[|key| - 1] == 'n'
    ensures ResultRefs(SortedRefs(refs + [REF_PREFIX + key])) == [REF_PREFIX + key]
  {
    hide ResultRefs, HasPrefix, TrimSpace, Reserved, SortedRefs, Inserted;
    var ref := REF_PREFIX + key;
    SortedHasNone(refs);
    RefIsTrimmed(key);
    PrefixOfConcat(REF_PREFIX, key);
    HasNoneMember(SortedRefs(refs), ref);
    SortedOneMore(refs, ref);
    InsertedResultRefs(ref, SortedRefs(refs));
    OneRef(ref);
  }

  /** Exactly when a first finalization commits, and what: the caller's references must not be reserved,
      a payload must be stored JSON of bounded size whose digest is the one announced, if any, and the
      dispatch must be admitted. A success needs the business check, unless no state was named. */
  lemma CommitsExactly(h: Hashes, s: Store, input: Input, env: Env)
    requires Target(input.id) !in s.attempts
    ensures var t, id, sum := Finalized(h, s, input, env), Target(input.id), h.sum(input.payload);
            && t.attempts - {id} == s.attempts
            && (id in t.attempts
                <==> && env.admitted
                     && (forall i :: 0 <= i < |input.refs| ==> !HasPrefix(TrimSpace(input.refs[i]), "runtime-result:"))
                     && (input.payload != "" ==>
                           env.putOk && sum.Some? && |input.payload| <= 4 * 1024 * 1024
                           && TrimSpace(input.outputDigest) in {"", "sha256:" + sum.value}))
            && (id in t.attempts ==>
                  && t.attempts[id].jobRun == input.jobRun
                  && (TrimSpace(input.resultDigest) != "" ==>
                        t.attempts[id].resultDigest == TrimSpace(input.resultDigest))
                  && t.attempts[id].state == match input.state
                                             case None => Succeeded
                                             case Some(Succeeded) => if env.businessOk then Succeeded else FailedAttempt
                                             case Some(RetryableFailed) =>
                                               if env.exhausted then FailedAttempt else RetryableFailed
                                             case Some(state) => state)
  {
    hide SortedRefs, KeyOf, TrimSpace;
    assert map[] + s.attempts == s.attempts;
  }

  ghost predicate Injective(h: Hashes) { forall f, g :: h.digestOf(f) == h.digestOf(g) ==> f == g }

  /** Without digests of their own, two outcomes have the same result digest only if state, stored
      references and summary agree, and unless the business check failed, the output digest too; so
      the store refuses a retry that changes any of them. */
  lemma SameDigestSameOutcome(h: Hashes, x: Input, ex: Env, y: Input, ey: Env)
    requires Injective(h) && TrimSpace(x.resultDigest) == TrimSpace(y.resultDigest) == ""
    requires AttemptOf(h, x, ex).resultDigest == AttemptOf(h, y, ey).resultDigest
    ensures AttemptOf(h, x, ex).state == AttemptOf(h, y, ey).state
    ensures AttemptOf(h, x, ex).refs == AttemptOf(h, y, ey).refs
    ensures x.summary == y.summary
    ensures !BusinessFails(x, ex) && !BusinessFails(y, ey) ==>
              && (AttemptOf(h, x, ex).state != Succeeded ==> x.errorCode == y.errorCode)
              && (x.payload == y.payload == "" ==> TrimSpace(x.outputDigest) == TrimSpace(y.outputDigest))
              && (Holds(h, x) && Holds(h, y) ==> h.sum(x.payload) == h.sum(y.payload))
  {
    hide SortedRefs, KeyOf, TrimSpace, StateOf;
    var p := "sha256:";
    assert (p + h.digestOf(FinalOf(h, x, ex)))[|p|..] == (p + h.digestOf(FinalOf(h, y, ey)))[|p|..];
    var f := FinalOf(h, x, ex);
    assert f == FinalOf(h, y, ey);
    if !BusinessFails(x, ex) && !BusinessFails(y, ey) && Holds(h, x) && Holds(h, y) {
      assert (p + h.sum(x.payload).value)[|p|..] == (p + h.sum(y.payload).value)[|p|..];
    }
  }

  // ---------------------------------------------------------------- references in order

  lemma {:induction false} InsertedMembers(x: string, sorted: seq<string>)
    ensures forall r :: r in Inserted(x, sorted) <==> r == x || r in sorted
  {
    hide StrLe;
    if sorted != [] && !StrLe(x, sorted[0]) {
      InsertedMembers(x, sorted[1..]);
      assert sorted == [sorted[0]] + sorted[1..];
    }
  }

  lemma {:induction false} InsertedInOrder(x: string, sorted: seq<string>)
    requires Ordered(sorted, StrLe) && Distinct(sorted) && x !in sorted
    ensures Ordered(Inserted(x, sorted), StrLe) && Distinct(Inserted(x, sorted))
  {
    hide StrLe;
    if sorted == [] {
    } else if StrLe(x, sorted[0]) {
      forall k | 0 <= k < |sorted| ensures StrLe(x, sorted[k]) {
        if k > 0 { StrLeTransitive(x, sorted[0], sorted[k]); }
      }
    } else {
      var rest, more := sorted[1..], Inserted(x, sorted[1..]);
      StrLeTotal(x, sorted[0]);
      InsertedInOrder(x, rest);
      InsertedMembers(x, rest);
      forall k | 0 <= k < |more| ensures StrLe(sorted[0], more[k]) && sorted[0] != more[k] {
        assert more[k] in more;
        if more[k] != x { var i :| 0 <= i < |rest| && rest[i] == more[k]; assert sorted[i + 1] == rest[i]; }
      }
      InFront(sorted[0], more);
    }
  }

  lemma InFront(x: string, more: seq<string>)
    requires Ordered(more, StrLe) && Distinct(more)
    requires forall k :: 0 <= k < |more| ==> StrLe(x, more[k]) && x != more[k]
    ensures Ordered([x] + more, StrLe) && Distinct([x] + more)
  {
    hide StrLe;
  }

  /** The references of an outcome, trimmed, without the blank ones. */
  function RefSet(refs: seq<string>): set<string> {
    set i | 0 <= i < |refs| && TrimSpace(refs[i]) != "" :: TrimSpace(refs[i])
  }

  /** What is stored are these references in order, each once. */
  lemma {:induction false} SortedRefsInOrder(refs: seq<string>)
    ensures Ordered(SortedRefs(refs), StrLe) && Distinct(SortedRefs(refs))
    ensures forall r :: r in SortedRefs(refs) <==> r in RefSet(refs)
  {
    hide StrLe, TrimSpace;
    if refs != [] {
      var front, ref := refs[..|refs| - 1], TrimSpace(refs[|refs| - 1]);
      SortedRefsInOrder(front);
      if ref != "" && ref !in SortedRefs(front) { InsertedInOrder(ref, SortedRefs(front)); }
      InsertedMembers(ref, SortedRefs(front));
      assert RefSet(refs) == RefSet(front) + if ref == "" then {} else {ref} by {
        assert refs == front + [refs[|refs| - 1]];
        forall r | r in RefSet(refs) ensures r in RefSet(front) || r == ref { }
        forall i | 0 <= i < |front| && TrimSpace(front[i]) != "" ensures TrimSpace(front[i]) in RefSet(refs) {
          assert refs[i] == front[i];
        }
      }
    }
  }

  /** The committed outcome does not depend on the order, repetition and blanks of the references. */
  lemma OutcomeIgnoresOrder(h: Hashes, input: Input, refs: seq<string>, env: Env)
    requires RefSet(input.refs) == RefSet(refs)
    ensures AttemptOf(h, input.(refs := refs), env) == AttemptOf(h, input, env)
  {
    hide StrLe, TrimSpace, KeyOf, SortedRefs, ResultKey;
    SameStored(input.refs, refs);
    if Holds(h, input) {
      var own := [REF_PREFIX + KeyOf(h, input)];
      assert KeyOf(h, input.(refs := refs)) == KeyOf(h, input) by { SameKey(h, input, refs); }
      RefSetConcat(input.refs, own);
      RefSetConcat(refs, own);
      SameStored(input.refs + own, refs + own);
    }
  }

  lemma SameKey(h: Hashes, input: Input, refs: seq<string>)
    requires h.sum(input.payload).Some?
    ensures KeyOf(h, input.(refs := refs)) == KeyOf(h, input)
  {
  }

  lemma SameStored(xs: seq<string>, ys: seq<string>)
    requires RefSet(xs) == RefSet(ys)
    ensures SortedRefs(xs) == SortedRefs(ys)
  {
    hide RefSet, SortedRefs;
    SortedRefsInOrder(xs);
    SortedRefsInOrder(ys);
    SortedIdsAreUnique(SortedRefs(xs), SortedRefs(ys));
  }

  lemma RefSetConcat(xs: seq<string>, ys: seq<string>)
    ensures RefSet(xs + ys) == RefSet(xs) + RefSet(ys)
  {
    hide TrimSpace;
    var all := xs + ys;
    forall i | 0 <= i < |xs| ensures all[i] == xs[i] { }
    forall i | 0 <= i < |ys| ensures all[|xs| + i] == ys[i] { }
    forall r | r in RefSet(xs) + RefSet(ys) ensures r in RefSet(all) {
      if r in RefSet(xs) {
        var i :| 0 <= i < |xs| && TrimSpace(xs[i]) == r != "";
        assert TrimSpace(all[i]) == r;
      } else {
        var i :| 0 <= i < |ys| && TrimSpace(ys[i]) == r != "";
        assert TrimSpace(all[|xs| + i]) == r;
      }
    }
  }

  /** A committed outcome has at most one result reference: that of the payload it stored. */
  lemma AttemptRefs(h: Hashes, input: Input, env: Env)
    requires forall i :: 0 <= i < |input.refs| ==> !Reserved(input.refs[i])
    ensures ResultRefs(AttemptOf(h, input, env).refs)
            == if Holds(h, input) && !BusinessFails(input, env) then [REF_PREFIX + KeyOf(h, input)] else []
  {
    hide Reserved, ResultRefs, SortedRefs, StateOf;
    SortedHasNone(input.refs);
    EmptyHasNone();
    if Holds(h, input) {
      KeyIsNamed(h, input);
      SortedHasOne(input.refs, KeyOf(h, input));
    }
  }

  /** The id can be read back: no surrounding blanks, and neither part empty, "." or "..". */
  predicate Readable(id: Id) {
    TrimSpace(id.tenant) == id.tenant && TrimSpace(id.attempt) == id.attempt && !Special(id.tenant)
    && !Special(id.attempt)
  }

  /** Under the attempt's own id, a reference written with the raw id parses exactly when that id
      can be read back. */
  lemma RawRefParses(raw: Id, digest: string)
    requires SlashFree(raw.tenant) && SlashFree(raw.attempt) && Hex64(digest)
    ensures var id, key := Target(raw), ResultKey(raw.tenant, raw.attempt, digest);
            ParseRef(REF_PREFIX + key, id.tenant, id.attempt)
            == if Readable(raw) then Some(Parsed(key, digest)) else None
  {
    hide ParseRef, ResultKey, Special, Hex64;
    TrimmedIsSlashFree(raw.attempt);
    RefRoundTrip(raw.tenant, raw.attempt, digest, raw.tenant, TrimSpace(raw.attempt));
    TrimTwice(raw.attempt);
  }
}
