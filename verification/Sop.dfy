/** Process (SOP) versions: their content and the checks made before one is published. */
module Sop {

  datatype GateMode = NoGate | Advisory | RequiredCheck | InternalReview | ClientDecision

  /** body stands for the fields neither linted nor compared one by one. */
  datatype Stage = Stage(id: string, inputRefs: seq<string>, executionModes: seq<string>, gateIds: seq<string>,
                         body: string)

  datatype Gate = Gate(id: string, mode: GateMode, blocking: bool, assigneeRoles: seq<string>, body: string)

  /** wellFormed stands for the structural validation made on every save. */
  datatype Content = Content(
    name: string, description: string, contentTypes: seq<string>, executionMode: string,
    stages: seq<Stage>, gates: seq<Gate>, wellFormed: bool)

  predicate Human(g: Gate) { g.mode in {InternalReview, ClientDecision} }

  /** The stage's inputs come from earlier stages and it can be executed. */
  predicate StageOk(stages: seq<Stage>, i: nat)
    requires i < |stages|
  {
    && stages[i].executionModes != []
    && forall k :: 0 <= k < |stages[i].inputRefs| ==> Earlier(stages, i, stages[i].inputRefs[k])
  }

  predicate Earlier(stages: seq<Stage>, i: nat, id: string)
    requires i <= |stages|
  {
    exists j :: 0 <= j < i && stages[j].id == id
  }

  /** People block, suggestions do not. */
  predicate GateOk(g: Gate) {
    (Human(g) ==> g.blocking) && (!Human(g) && g.mode != RequiredCheck ==> !g.blocking)
  }

  ghost predicate Lints(c: Content) {
    && c.wellFormed && c.contentTypes != [] && c.stages != [] && c.executionMode != ""
    && (forall i :: 0 <= i < |c.stages| ==> StageOk(c.stages, i))
    && (forall i :: 0 <= i < |c.gates| ==> GateOk(c.gates[i]))
  }

  datatype Issue = Issue(code: string, index: nat)

  method LintStage(stage: Stage, index: nat, seen: set<string>) returns (errors: seq<Issue>)
    ensures errors == [] <==> stage.executionModes != [] && forall k :: 0 <= k < |stage.inputRefs| ==>
              stage.inputRefs[k] in seen
    ensures forall e :: e in errors <==>
              || (e == Issue("stage.input_ref.invalid", index) && exists r :: r in stage.inputRefs && r !in seen)
              || (e == Issue("stage.execution_mode.required", index) && stage.executionModes == [])
  {
    errors := [];
    for k := 0 to |stage.inputRefs|
      invariant forall e :: e in errors <==>
                  e == Issue("stage.input_ref.invalid", index) && exists r :: r in stage.inputRefs[..k] && r !in seen
      invariant errors == [] <==> forall j :: 0 <= j < k ==> stage.inputRefs[j] in seen
    {
      if stage.inputRefs[k] !in seen {
        errors := errors + [Issue("stage.input_ref.invalid", index)];
      }
    }
    if |stage.executionModes| == 0 {
      errors := errors + [Issue("stage.execution_mode.required", index)];
    }
  }

  method LintGate(gate: Gate, index: nat, used: set<string>) returns (errors: seq<Issue>, warnings: seq<Issue>)
    ensures errors == [] <==> GateOk(gate)
    ensures warnings == [] <==> gate.id in used && (Human(gate) ==> gate.assigneeRoles != [])
    ensures forall e :: e in errors <==>
              || (e == Issue("gate.required_not_blocking", index)
                  && gate.mode in {InternalReview, ClientDecision} && !gate.blocking)
              || (e == Issue("gate.optional_blocking", index) && gate.mode in {NoGate, Advisory} && gate.blocking)
    ensures forall e :: e in warnings <==>
              || (e == Issue("gate.unused", index) && gate.id !in used)
              || (e == Issue("gate.assignee_roles.empty", index)
                  && gate.mode in {InternalReview, ClientDecision} && gate.assigneeRoles == [])
  {
    Modes(gate.mode);
    errors, warnings := [], [];
    if Human(gate) && !gate.blocking {
      errors := errors + [Issue("gate.required_not_blocking", index)];
    }
    if !Human(gate) && gate.mode != RequiredCheck && gate.blocking {
      errors := errors + [Issue("gate.optional_blocking", index)];
    }
    if gate.id !in used {
      warnings := warnings + [Issue("gate.unused", index)];
    }
    if Human(gate) && |gate.assigneeRoles| == 0 {
      warnings := warnings + [Issue("gate.assignee_roles.empty", index)];
    }
  }

  lemma Modes(m: GateMode)
    ensures m !in {InternalReview, ClientDecision} && m != RequiredCheck <==> m in {NoGate, Advisory}
  {
    match m
    case _ =>
  }

  /** What can be published: well formed, of some content type and execution mode, with stages that can be
      executed and whose inputs are earlier stages, with gates at which people block and suggestions do not. */
  lemma LintsMean(c: Content)
    ensures Lints(c)
            <==> && c.wellFormed && |c.contentTypes| > 0 && |c.stages| > 0 && c.executionMode != ""
                 && (forall i :: 0 <= i < |c.stages| ==>
                       |c.stages[i].executionModes| > 0
                       && forall r :: r in c.stages[i].inputRefs ==> exists j :: 0 <= j < i && c.stages[j].id == r)
                 && (forall i :: 0 <= i < |c.gates| ==>
                       && (c.gates[i].mode in {InternalReview, ClientDecision} ==> c.gates[i].blocking)
                       && (c.gates[i].mode in {NoGate, Advisory} ==> !c.gates[i].blocking))
  {
    forall i | 0 <= i < |c.gates|
      ensures GateOk(c.gates[i])
              <==> (c.gates[i].mode in {InternalReview, ClientDecision} ==> c.gates[i].blocking)
                   && (c.gates[i].mode in {NoGate, Advisory} ==> !c.gates[i].blocking)
    {
      Modes(c.gates[i].mode);
    }
    hide GateOk;
    forall i | 0 <= i < |c.stages|
      ensures StageOk(c.stages, i)
              <==> |c.stages[i].executionModes| > 0
                   && forall r :: r in c.stages[i].inputRefs ==> exists j :: 0 <= j < i && c.stages[j].id == r
    {
      StageMeans(c.stages, i);
    }
  }

  lemma StageMeans(stages: seq<Stage>, i: nat)
    requires i < |stages|
    ensures StageOk(stages, i)
            <==> |stages[i].executionModes| > 0
                 && forall r :: r in stages[i].inputRefs ==> exists j :: 0 <= j < i && stages[j].id == r
  {
    var refs := stages[i].inputRefs;
    if StageOk(stages, i) {
      forall r | r in refs ensures exists j :: 0 <= j < i && stages[j].id == r {
        var k :| 0 <= k < |refs| && refs[k] == r;
        assert Earlier(stages, i, refs[k]);
      }
    }
    if forall r :: r in refs ==> exists j :: 0 <= j < i && stages[j].id == r {
      forall k | 0 <= k < |refs| ensures Earlier(stages, i, refs[k]) { assert refs[k] in refs; }
    }
  }

  predicate HeadError(c: Content, e: Issue) {
    || (e == Issue("schema.invalid", 0) && !c.wellFormed)
    || (e == Issue("content_type.required", 0) && |c.contentTypes| == 0)
    || (e == Issue("stage.required", 0) && |c.stages| == 0)
    || (e == Issue("execution_mode.required", 0) && c.executionMode == "")
  }

  predicate StageError(c: Content, e: Issue)
    requires e.index < |c.stages|
  {
    var stage := c.stages[e.index];
    || (e.code == "stage.input_ref.invalid" && exists r :: r in stage.inputRefs && !Earlier(c.stages, e.index, r))
    || (e.code == "stage.execution_mode.required" && |stage.executionModes| == 0)
  }

  predicate GateError(c: Content, e: Issue)
    requires e.index < |c.gates|
  {
    var gate := c.gates[e.index];
    || (e.code == "gate.required_not_blocking" && gate.mode in {InternalReview, ClientDecision} && !gate.blocking)
    || (e.code == "gate.optional_blocking" && gate.mode in {NoGate, Advisory} && gate.blocking)
  }

  /** A gate no stage uses, or at which nobody is assigned to decide. */
  predicate GateWarning(c: Content, e: Issue)
    requires e.index < |c.gates|
  {
    var gate := c.gates[e.index];
    || (e.code == "gate.unused" && forall i :: 0 <= i < |c.stages| ==> gate.id !in c.stages[i].gateIds)
    || (e.code == "gate.assignee_roles.empty" && gate.mode in {InternalReview, ClientDecision}
        && |gate.assigneeRoles| == 0)
  }

  /** The report names exactly what is wrong, and has no error exactly when the content is publishable. */
  method Lint(c: Content) returns (errors: seq<Issue>, warnings: seq<Issue>)
    ensures errors == [] <==> Lints(c)
    ensures forall e :: e in errors
              <==> || HeadError(c, e) || (e.index < |c.stages| && StageError(c, e))
                   || (e.index < |c.gates| && GateError(c, e))
    ensures forall e :: e in warnings <==> e.index < |c.gates| && GateWarning(c, e)
  {
    hide HeadError, StageError, GateError, GateWarning, StageOk, GateOk;
    var head := LintHead(c);
    var staged, used := LintStages(c);
    var gated;
    gated, warnings := LintGates(c, used);
    errors := head + staged + gated;
  }

  method LintStages(c: Content) returns (errors: seq<Issue>, used: set<string>)
    ensures errors == [] <==> forall j :: 0 <= j < |c.stages| ==> StageOk(c.stages, j)
    ensures forall e :: e in errors <==> e.index < |c.stages| && StageError(c, e)
    ensures forall g :: g in used <==> exists j :: 0 <= j < |c.stages| && g in c.stages[j].gateIds
  {
    hide StageError, StageOk;
    errors, used := [], {};
    var seen: set<string> := {};
    for i := 0 to |c.stages|
      invariant forall id :: id in seen <==> Earlier(c.stages, i, id)
      invariant forall g :: g in used <==> exists j :: 0 <= j < i && g in c.stages[j].gateIds
      invariant errors == [] <==> forall j :: 0 <= j < i ==> StageOk(c.stages, j)
      invariant forall e :: e in errors <==> e.index < i && StageError(c, e)
    {
      var found := LintStage(c.stages[i], i, seen);
      StageFound(c, i, seen, found);
      errors := errors + found;
      used := used + set g | g in c.stages[i].gateIds;
      seen := seen + {c.stages[i].id};
    }
  }

  method LintGates(c: Content, used: set<string>) returns (errors: seq<Issue>, warnings: seq<Issue>)
    requires forall g :: g in used <==> exists j :: 0 <= j < |c.stages| && g in c.stages[j].gateIds
    ensures errors == [] <==> forall j :: 0 <= j < |c.gates| ==> GateOk(c.gates[j])
    ensures forall e :: e in errors <==> e.index < |c.gates| && GateError(c, e)
    ensures forall e :: e in warnings <==> e.index < |c.gates| && GateWarning(c, e)
  {
    hide GateError, GateWarning, GateOk;
    errors, warnings := [], [];
    for i := 0 to |c.gates|
      invariant errors == [] <==> forall j :: 0 <= j < i ==> GateOk(c.gates[j])
      invariant forall e :: e in errors <==> e.index < i && GateError(c, e)
      invariant forall e :: e in warnings <==> e.index < i && GateWarning(c, e)
    {
      var found, noted := LintGate(c.gates[i], i, used);
      GateFound(c, i, used, found, noted);
      errors, warnings := errors + found, warnings + noted;
    }
  }

  method LintHead(c: Content) returns (errors: seq<Issue>)
    ensures errors == [] <==> c.wellFormed && c.contentTypes != [] && c.stages != [] && c.executionMode != ""
    ensures forall e :: e in errors <==> HeadError(c, e)
  {
    errors := [];
    if !c.wellFormed { errors := errors + [Issue("schema.invalid", 0)]; }
    if |c.contentTypes| == 0 { errors := errors + [Issue("content_type.required", 0)]; }
    if |c.stages| == 0 { errors := errors + [Issue("stage.required", 0)]; }
    if c.executionMode == "" { errors := errors + [Issue("execution_mode.required", 0)]; }
  }

  /** What linting one stage adds. */
  lemma StageFound(c: Content, i: nat, seen: set<string>, found: seq<Issue>)
    requires i < |c.stages| && forall id :: id in seen <==> Earlier(c.stages, i, id)
    requires forall e :: e in found <==>
               || (e == Issue("stage.input_ref.invalid", i) && exists r :: r in c.stages[i].inputRefs && r !in seen)
               || (e == Issue("stage.execution_mode.required", i) && c.stages[i].executionModes == [])
    ensures found == [] <==> StageOk(c.stages, i)
    ensures forall e :: e in found <==> e.index == i && StageError(c, e)
  {
    StageMeans(c.stages, i);
    if found != [] { assert found[0] in found; }
    if !StageOk(c.stages, i) {
      assert Issue("stage.input_ref.invalid", i) in found || Issue("stage.execution_mode.required", i) in found;
    }
  }

  /** What linting one gate adds. */
  lemma GateFound(c: Content, i: nat, used: set<string>, found: seq<Issue>, noted: seq<Issue>)
    requires i < |c.gates|
    requires forall g :: g in used <==> exists j :: 0 <= j < |c.stages| && g in c.stages[j].gateIds
    requires var gate := c.gates[i];
             forall e :: e in found <==>
               || (e == Issue("gate.required_not_blocking", i)
                   && gate.mode in {InternalReview, ClientDecision} && !gate.blocking)
               || (e == Issue("gate.optional_blocking", i) && gate.mode in {NoGate, Advisory} && gate.blocking)
    requires var gate := c.gates[i];
             forall e :: e in noted <==>
               || (e == Issue("gate.unused", i) && gate.id !in used)
               || (e == Issue("gate.assignee_roles.empty", i)
                   && gate.mode in {InternalReview, ClientDecision} && gate.assigneeRoles == [])
    ensures forall e :: e in found <==> e.index == i && GateError(c, e)
    ensures forall e :: e in noted <==> e.index == i && GateWarning(c, e)
  {
  }
}

/** Rolling a process back to an earlier version, and what that moves. */
module SopRollback {
  import opened Wrappers
  import opened Sorting
  import opened Sop

  datatype Status = Draft | Published | Retired

  datatype Version = Version(number: int, status: Status, digest: string, content: Content)

  /** current is 0 until a version has been published. */
  datatype Process = Process(current: int, versions: seq<Version>)

  datatype Pin = Pin(sopId: string, version: int)

  datatype Binding = Binding(pin: Pin, digest: string)

  datatype Catalog = Catalog(processes: map<string, Process>, environments: map<string, Pin>, bindings: map<string,
                             Binding>)

  predicate Numbered(versions: seq<Version>) {
    && (forall i :: 0 <= i < |versions| ==> versions[i].number >= 1)
    && (forall i, j :: 0 <= i < j < |versions| ==> versions[i].number != versions[j].number)
  }

  ghost predicate CatalogOk(c: Catalog) {
    forall id :: id in c.processes ==> Numbered(c.processes[id].versions)
  }

  predicate Has(versions: seq<Version>, number: int) {
    exists i :: 0 <= i < |versions| && versions[i].number == number
  }

  function Find(versions: seq<Version>, number: int): Version
    requires Has(versions, number)
  {
    if versions[0].number == number then versions[0] else Find(versions[1..], number)
  }

  /** The highest number, 0 when there is none. */
  function Top(versions: seq<Version>): int {
    if versions == [] then 0 else Max(Top(versions[..|versions| - 1]), versions[|versions| - 1].number)
  }

  function TopPublished(versions: seq<Version>): int {
    if versions == [] then 0
    else
      var last, rest := versions[|versions| - 1], TopPublished(versions[..|versions| - 1]);
      if last.status == Published then Max(rest, last.number) else rest
  }

  function Max(a: int, b: int): int { if a < b then b else a }

  function Previous(p: Process): int { if p.current == 0 then TopPublished(p.versions) else p.current }

  ghost predicate MayRollBack(c: Catalog, sopId: string, target: int) {
    && sopId in c.processes
    && var p := c.processes[sopId];
    && Has(p.versions, target) && Find(p.versions, target).status in {Published, Retired}
    && target != Previous(p) && Has(p.versions, Previous(p)) && Lints(Find(p.versions, target).content)
  }

  /** The target can be copied to a draft: a well-formed version that was published, other than the one
      it is to replace, which must be known. */
  ghost predicate MayCopy(c: Catalog, sopId: string, target: int) {
    && sopId in c.processes
    && var p := c.processes[sopId];
    && Has(p.versions, target) && Find(p.versions, target).status in {Published, Retired}
    && target != Previous(p) && Has(p.versions, Previous(p)) && Find(p.versions, target).content.wellFormed
  }

  /** The published copy of the target. */
  function Restored(digest: (string, int, Content) -> string, p: Process, sopId: string, target: int): Version
    requires Has(p.versions, target)
  {
    var content, number := Find(p.versions, target).content, Top(p.versions) + 1;
    Version(number, Published, "sha256:" + digest(sopId, number, content), content)
  }

  function Moved(pin: Pin, from: Pin, to: int): Pin { if pin == from then Pin(pin.sopId, to) else pin }

  function MovedBinding(b: Binding, from: Pin, v: Version): Binding {
    if b.pin == from then Binding(Pin(b.pin.sopId, v.number), v.digest) else b
  }

  /** What a rollback that goes through makes of the catalogue. */
  function RolledBack(digest: (string, int, Content) -> string, c: Catalog, sopId: string, target: int): Catalog
    requires sopId in c.processes && Has(c.processes[sopId].versions, target)
  {
    var p := c.processes[sopId];
    var v, from := Restored(digest, p, sopId, target), Pin(sopId, Previous(p));
    Catalog(
      c.processes[sopId := Process(v.number, p.versions + [v])],
      map e | e in c.environments :: Moved(c.environments[e], from, v.number),
      map b | b in c.bindings :: MovedBinding(c.bindings[b], from, v))
  }

  // ---------------------------------------------------------------- its laws

  lemma {:induction false} TopIsAbove(versions: seq<Version>)
    ensures Top(versions) >= 0 && forall i :: 0 <= i < |versions| ==> versions[i].number <= Top(versions)
  {
    if versions != [] { TopIsAbove(versions[..|versions| - 1]); }
  }

  lemma {:induction false} FindIs(versions: seq<Version>, i: nat)
    requires Numbered(versions) && i < |versions|
    ensures Has(versions, versions[i].number) && Find(versions, versions[i].number) == versions[i]
  {
    assert Has(versions, versions[i].number);
    if versions[0].number != versions[i].number { FindIs(versions[1..], i - 1); }
  }

  lemma FoundAt(versions: seq<Version>, number: int) returns (i: nat)
    requires Numbered(versions) && Has(versions, number)
    ensures i < |versions| && versions[i].number == number && Find(versions, number) == versions[i]
  {
    var k: nat :| k < |versions| && versions[k].number == number;
    FindIs(versions, k);
    i := k;
  }

  lemma AppendNumbered(versions: seq<Version>, v: Version)
    requires Numbered(versions) && v.number == Top(versions) + 1
    ensures Numbered(versions + [v])
  {
    TopIsAbove(versions);
  }

  /** Looking a version up gives the same answer after a new one has been added above it. */
  lemma FindAfterAppend(versions: seq<Version>, v: Version, number: int)
    requires Numbered(versions) && v.number == Top(versions) + 1 && Has(versions, number)
    ensures var more := versions + [v];
            Has(more, number) && Find(more, number) == Find(versions, number) && Has(more, v.number)
            && Find(more, v.number) == v
  {
    var more := versions + [v];
    AppendNumbered(versions, v);
    var i := FoundAt(versions, number);
    assert more[i] == versions[i] && more[|versions|] == v;
    FindIs(more, i);
    FindIs(more, |versions|);
  }

  /** The content a pin resolves to. */
  function Pinned(c: Catalog, pin: Pin): Content
    requires Resolves(c, pin)
  {
    Find(c.processes[pin.sopId].versions, pin.version).content
  }

  predicate Resolves(c: Catalog, pin: Pin) {
    pin.sopId in c.processes && Has(c.processes[pin.sopId].versions, pin.version)
  }

  /** The new version is above all others and carries the target's content; every earlier version
      is found as it was. */
  lemma RollbackAddsOnTop(digest: (string, int, Content) -> string, c: Catalog, sopId: string, target: int, number: int)
    requires CatalogOk(c) && MayRollBack(c, sopId, target)
    ensures var p, q := c.processes[sopId], RolledBack(digest, c, sopId, target).processes[sopId];
            && Has(q.versions, q.current) && Find(q.versions, q.current).content == Find(p.versions, target).content
            && Find(q.versions, q.current).status == Published && q.current >= 1
            && (Has(p.versions, number) ==>
                  number < q.current && Has(q.versions, number) && Find(q.versions, number) == Find(p.versions, number))
    ensures CatalogOk(RolledBack(digest, c, sopId, target))
  {
    var p := c.processes[sopId];
    var v := Restored(digest, p, sopId, target);
    FindAfterAppend(p.versions, v, target);
    AppendNumbered(p.versions, v);
    TopIsAbove(p.versions);
    if Has(p.versions, number) { FindAfterAppend(p.versions, v, number); }
  }

  /** The version a rollback replaces: the current one, or while there is none the highest published. */
  predicate PreviousIs(p: Process, k: int) {
    if p.current != 0 then k == p.current
    else
      && (forall i :: 0 <= i < |p.versions| && p.versions[i].status == Published ==> p.versions[i].number <= k)
      && (k == 0 || exists i :: 0 <= i < |p.versions| && p.versions[i].status == Published && p.versions[i].number == k)
      && k >= 0
  }

  lemma {:induction false} TopPublishedIs(versions: seq<Version>)
    ensures var k := TopPublished(versions);
            && (forall i :: 0 <= i < |versions| && versions[i].status == Published ==> versions[i].number <= k)
            && (k == 0 || exists i :: 0 <= i < |versions| && versions[i].status == Published && versions[i].number == k)
            && k >= 0
  {
    if versions != [] {
      var n := |versions| - 1;
      var init := versions[..n];
      TopPublishedIs(init);
      var k := TopPublished(init);
      if k != 0 {
        var i :| 0 <= i < n && init[i].status == Published && init[i].number == k;
        assert versions[i].status == Published && versions[i].number == k;
      }
    }
  }

  lemma {:induction false} TopIsReached(versions: seq<Version>)
    ensures Top(versions) == 0 || exists i :: 0 <= i < |versions| && versions[i].number == Top(versions)
  {
    if versions != [] {
      var init := versions[..|versions| - 1];
      TopIsReached(init);
      if i :| 0 <= i < |init| && init[i].number == Top(init) { assert versions[i].number == Top(init); }
    }
  }

  /** A rollback is possible exactly to a published or retired version that still passes the checks and
      is not the one to be replaced, which must exist. */
  lemma MayRollBackMeans(c: Catalog, sopId: string, target: int)
    requires CatalogOk(c)
    ensures MayRollBack(c, sopId, target)
            <==> && sopId in c.processes && var p := c.processes[sopId];
                 && (exists i :: 0 <= i < |p.versions| && p.versions[i].number == target
                                 && p.versions[i].status in {Published, Retired} && Lints(p.versions[i].content))
                 && !PreviousIs(p, target)
                 && exists j :: 0 <= j < |p.versions| && PreviousIs(p, p.versions[j].number)
  {
    hide Lints;
    if sopId in c.processes {
      var p := c.processes[sopId];
      OnePrevious(p);
      if Has(p.versions, target) {
        var i := FoundAt(p.versions, target);
        forall k | 0 <= k < |p.versions| && p.versions[k].number == target ensures k == i { }
      }
    }
  }

  lemma OnePrevious(p: Process)
    ensures forall k :: PreviousIs(p, k) <==> k == Previous(p)
  {
    TopPublishedIs(p.versions);
  }

  /** What a rollback makes of the catalogue: one new version, numbered just above the highest and
      published with the target's content under its own digest, is current; every default and every
      binding that was at the replaced version is at the new one, bindings with its digest; nothing
      else changes. */
  lemma RolledBackMeans(digest: (string, int, Content) -> string, c: Catalog, sopId: string, target: int, k: int)
    requires CatalogOk(c) && sopId in c.processes && Has(c.processes[sopId].versions, target)
    requires PreviousIs(c.processes[sopId], k)
    ensures var p, d := c.processes[sopId], RolledBack(digest, c, sopId, target);
            var n := d.processes[sopId].current;
            && d.processes == c.processes[sopId := d.processes[sopId]]
            && (forall i :: 0 <= i < |p.versions| ==> p.versions[i].number < n)
            && (n == 1 || exists i :: 0 <= i < |p.versions| && p.versions[i].number == n - 1)
            && (exists i :: 0 <= i < |p.versions| && p.versions[i].number == target
                  && var content := p.versions[i].content;
                  d.processes[sopId].versions
                  == p.versions + [Version(n, Published, "sha256:" + digest(sopId, n, content), content)])
            && d.environments.Keys == c.environments.Keys
            && (forall e :: e in c.environments ==>
                  d.environments[e] == if c.environments[e] == Pin(sopId, k) then Pin(sopId, n) else c.environments[e])
            && d.bindings.Keys == c.bindings.Keys
            && (forall b :: b in c.bindings ==>
                  d.bindings[b]
                  == if c.bindings[b].pin == Pin(sopId, k)
                     then Binding(Pin(sopId, n), d.processes[sopId].versions[|p.versions|].digest) else c.bindings[b])
  {
    var p := c.processes[sopId];
    OnePrevious(p);
    TopIsAbove(p.versions);
    TopIsReached(p.versions);
    var i := FoundAt(p.versions, target);
    hide Top, Find, TopPublished, PreviousIs, Numbered;
  }

  /** Where a pin ends up, and that it still resolves to its content there, when the process is
      rolled back to target and then to the version it had. */
  lemma PinComesBack(digest: (string, int, Content) -> string, c: Catalog, sopId: string, target: int, pin: Pin)
    requires CatalogOk(c) && MayRollBack(c, sopId, target) && Resolves(c, pin) && CurrentOk(c.processes[sopId])
    ensures var p, d := c.processes[sopId], RolledBack(digest, c, sopId, target);
            && MayRollBack(d, sopId, p.current) && Previous(p) == p.current
            && Previous(d.processes[sopId]) == d.processes[sopId].current
            && var e := RolledBack(digest, d, sopId, p.current);
            var there := Moved(pin, Pin(sopId, p.current), d.processes[sopId].current);
            var back := Moved(there, Pin(sopId, d.processes[sopId].current), e.processes[sopId].current);
            Resolves(e, back) && Pinned(e, back) == Pinned(c, pin)
  {
    hide Lints, Find, Has, Numbered;
    var p, d := c.processes[sopId], RolledBack(digest, c, sopId, target);
    RollbackAddsOnTop(digest, c, sopId, target, p.current);
    RollbackAddsOnTop(digest, d, sopId, p.current, d.processes[sopId].current);
    if pin.sopId == sopId {
      RollbackAddsOnTop(digest, c, sopId, target, pin.version);
      RollbackAddsOnTop(digest, d, sopId, p.current, pin.version);
    }
  }

  /** The current version is published and would still pass the checks. */
  ghost predicate CurrentOk(p: Process) {
    p.current != 0 && Has(p.versions, p.current) && Find(p.versions, p.current).status == Published
    && Lints(Find(p.versions, p.current).content)
  }

  /** Rolling back and then back again: the second rollback is possible, and every environment and
      every binding that resolved to something resolves to the same content again. */
  lemma RollbackIsReversible(digest: (string, int, Content) -> string, c: Catalog, sopId: string, target: int)
    requires CatalogOk(c) && MayRollBack(c, sopId, target) && CurrentOk(c.processes[sopId])
    ensures var p, d := c.processes[sopId], RolledBack(digest, c, sopId, target);
            && MayRollBack(d, sopId, p.current)
            && var e := RolledBack(digest, d, sopId, p.current);
            && (forall n :: n in c.environments && Resolves(c, c.environments[n]) ==>
                  n in e.environments && Resolves(e, e.environments[n])
                  && Pinned(e, e.environments[n]) == Pinned(c, c.environments[n]))
            && (forall n :: n in c.bindings && Resolves(c, c.bindings[n].pin) ==>
                  n in e.bindings && Resolves(e, e.bindings[n].pin)
                  && Pinned(e, e.bindings[n].pin) == Pinned(c, c.bindings[n].pin))
  {
    hide Lints, Find, Has, Numbered, Resolves, Restored;
    var p, d := c.processes[sopId], RolledBack(digest, c, sopId, target);
    PinComesBack(digest, c, sopId, target, Pin(sopId, target)) by { TargetResolves(c, sopId, target); }
    var e := RolledBack(digest, d, sopId, p.current);
    forall n | n in c.environments && Resolves(c, c.environments[n])
      ensures n in e.environments && Resolves(e, e.environments[n])
      ensures Pinned(e, e.environments[n]) == Pinned(c, c.environments[n])
    {
      PinComesBack(digest, c, sopId, target, c.environments[n]);
    }
    forall n | n in c.bindings && Resolves(c, c.bindings[n].pin)
      ensures n in e.bindings && Resolves(e, e.bindings[n].pin)
      ensures Pinned(e, e.bindings[n].pin) == Pinned(c, c.bindings[n].pin)
    {
      PinComesBack(digest, c, sopId, target, c.bindings[n].pin);
    }
  }

  lemma TargetResolves(c: Catalog, sopId: string, target: int)
    requires MayRollBack(c, sopId, target)
    ensures Resolves(c, Pin(sopId, target))
  {
  }

  // ---------------------------------------------------------------- as the service runs it

  datatype Outcome = Refused | LintFailed | SaveFailed | Done(version: Version, environments: nat, bindings: nat)

  class Service {
    var processes: map<string, Process>
    var environments: map<string, Pin>
    var bindings: map<string, Binding>

    ghost function State(): Catalog
      reads this
    {
      Catalog(processes, environments, bindings)
    }

    constructor ()
      ensures CatalogOk(State()) && processes == map[]
    {
      processes, environments, bindings := map[], map[], map[];
    }

    method Lookup(versions: seq<Version>, number: int) returns (found: bool, v: Version)
      ensures found <==> Has(versions, number)
      ensures found ==> v == Find(versions, number)
    {
      found, v := false, Version(0, Draft, "", Content("", "", [], "", [], [], false));
      for i := 0 to |versions|
        invariant Has(versions, number) <==> Has(versions[i..], number)
        invariant Has(versions, number) ==> Find(versions, number) == Find(versions[i..], number)
      {
        if versions[i].number == number {
          return true, versions[i];
        }
        HasStep(versions[i..], number);
        assert versions[i..][1..] == versions[i + 1..];
      }
    }

    method PreviousVersion(p: Process) returns (previous: int)
      ensures previous == Previous(p)
    {
      previous := p.current;
      if previous == 0 {
        for i := 0 to |p.versions|
          invariant previous == TopPublished(p.versions[..i])
        {
          assert p.versions[..i + 1][..i] == p.versions[..i];
          if p.versions[i].status == Published && p.versions[i].number > previous {
            previous := p.versions[i].number;
          }
        }
        assert p.versions[..|p.versions|] == p.versions;
      }
    }

    /** The store lists the versions newest first. */
    method Listing(versions: seq<Version>) returns (listed: seq<Version>)
      ensures multiset(listed) == multiset(versions) && Ordered(listed, NewestFirst)
    {
      listed := SortBy(versions, NewestFirst);
    }

    /** Copies the source version, or for 0 the newest published one, to a draft above all others. */
    method CreateDraft(sopId: string, source: int) returns (draft: Option<Version>)
      requires CatalogOk(State())
      modifies this`processes
      ensures draft.None? ==> processes == old(processes)
      ensures draft.Some? ==> sopId in old(processes) && var p := old(processes)[sopId];
                              && draft.value == Version(Top(p.versions) + 1, Draft, "", draft.value.content)
                              && processes == old(processes)[sopId := p.(versions := p.versions + [draft.value])]
                              && (exists i :: 0 <= i < |p.versions| && p.versions[i].content == draft.value.content
                                              && Source(p.versions, i, source))
      ensures draft.Some? <==> sopId in old(processes) && var versions := old(processes)[sopId].versions;
                               exists i :: 0 <= i < |versions| && Source(versions, i, source)
                                 && versions[i].content.wellFormed
    {
      if sopId !in processes {
        return None;
      }
      var p := processes[sopId];
      var listed := Listing(p.versions);
      PermutationMembers(listed, p.versions);
      var max := 0;
      var from: Option<Version> := None;
      for i := 0 to |listed|
        invariant max == Top(listed[..i])
        invariant from.Some? ==> from.value in listed[..i] && IsSource(listed[..i], from.value, source)
        invariant from.None? ==> forall k :: 0 <= k < i ==> !Qualifies(listed[k], source)
      {
        assert listed[..i + 1][..i] == listed[..i];
        var candidate := listed[i];
        if candidate.number > max {
          max := candidate.number;
        }
        if source > 0 && candidate.number == source {
          from := Some(candidate);
        }
        if source == 0 && from.None? && candidate.status == Published {
          from := Some(candidate);
        }
      }
      assert listed[..|listed|] == listed;
      TopOfMembers(listed, p.versions);
      if from.None? {
        NoSource(p.versions, listed, source);
        return None;
      }
      ghost var at :| 0 <= at < |p.versions| && p.versions[at] == from.value;
      ListedSource(p.versions, listed, at, source);
      OneSource(p.versions, at, source);
      if !from.value.content.wellFormed {
        return None;
      }
      draft := Some(Version(max + 1, Draft, "", from.value.content));
      processes := processes[sopId := p.(versions := p.versions + [draft.value])];
    }

    /** Lints and publishes the draft on top; a failed lint leaves it a draft. */
    method Publish(digest: (string, int, Content) -> string, sopId: string, draft: Version) returns (r: Option<Version>)
      requires sopId in processes
      requires var vs := processes[sopId].versions; vs != [] && vs[|vs| - 1] == draft && draft.status == Draft
      modifies this`processes
      ensures r.Some? <==> Lints(draft.content)
      ensures r.None? ==> processes == old(processes)
      ensures r.Some? ==>
                r.value == draft.(status := Published, digest := "sha256:" + digest(sopId, draft.number, draft.content))
                          && var vs := old(processes)[sopId].versions;
                          processes == old(processes)[sopId := Process(draft.number, vs[..|vs| - 1] + [r.value])]
    {
      var errors, warnings := Lint(draft.content);
      if |errors| != 0 {
        return None;
      }
      var vs := processes[sopId].versions;
      var published := draft.(status := Published, digest := "sha256:" + digest(sopId, draft.number, draft.content));
      processes := processes[sopId := Process(draft.number, vs[..|vs| - 1] + [published])];
      r := Some(published);
    }

    /** Moves the environment defaults that point at the previous version, one save at a time. */
    method MoveEnvironments(from: Pin, to: int, saved: string -> bool) returns (ok: bool, count: nat)
      modifies this`environments
      ensures environments.Keys == old(environments.Keys)
      ensures forall e :: e in environments ==>
                environments[e] == old(environments)[e] || environments[e] == Moved(old(environments)[e], from, to)
      ensures ok ==> environments == map e | e in old(environments) :: Moved(old(environments)[e], from, to)
      ensures ok ==> count == |set e | e in old(environments) && old(environments)[e] == from|
      ensures (forall e :: e in old(environments) && old(environments)[e] == from ==> saved(e)) ==> ok
    {
      ghost var start := environments;
      HitsAll(start, from);
      hide Hits;
      count := 0;
      var rest := environments.Keys;
      while rest != {}
        invariant rest <= start.Keys && environments.Keys == start.Keys
        invariant forall e :: e in start ==>
                    environments[e] == if e in rest then start[e] else Moved(start[e], from, to)
        invariant count == |Hits(start, from, rest)|
        decreases rest
      {
        var e :| e in rest;
        HitsStep(start, from, rest, e);
        rest := rest - {e};
        if environments[e] != from {
          continue;
        }
        if !saved(e) {
          return false, count;
        }
        environments := environments[e := Pin(from.sopId, to)];
        count := count + 1;
      }
      ok := true;
    }

    method MoveBindings(from: Pin, to: Version, saved: string -> bool) returns (ok: bool, count: nat)
      modifies this`bindings
      ensures bindings.Keys == old(bindings.Keys)
      ensures forall b :: b in bindings ==>
                bindings[b] == old(bindings)[b] || bindings[b] == MovedBinding(old(bindings)[b], from, to)
      ensures ok ==> bindings == map b | b in old(bindings) :: MovedBinding(old(bindings)[b], from, to)
      ensures ok ==> count == |set b | b in old(Pins(bindings)) && old(Pins(bindings))[b] == from|
      ensures (forall b :: b in old(bindings) && old(bindings)[b].pin == from ==> saved(b)) ==> ok
    {
      ghost var start := bindings;
      HitsAll(Pins(start), from);
      assert Pins(start).Keys == start.Keys;
      hide Hits;
      count := 0;
      var rest := bindings.Keys;
      while rest != {}
        invariant rest <= start.Keys && bindings.Keys == start.Keys
        invariant forall b :: b in start ==>
                    bindings[b] == if b in rest then start[b] else MovedBinding(start[b], from, to)
        invariant count == |Hits(Pins(start), from, rest)|
        decreases rest
      {
        var b :| b in rest;
        HitsStep(Pins(start), from, rest, b);
        rest := rest - {b};
        if bindings[b].pin != from {
          continue;
        }
        if !saved(b) {
          return false, count;
        }
        bindings := bindings[b := Binding(Pin(from.sopId, to.number), to.digest)];
        count := count + 1;
      }
      ok := true;
    }

    /** The part that concerns the process itself: check the target, copy it, publish the copy. */
    method Reissue(digest: (string, int, Content) -> string, sopId: string, target: int) returns (r: Reissued)
      requires CatalogOk(State())
      modifies this`processes
      ensures r.NotIssued? ==> processes == old(processes)
      ensures r.LeftDraft? ==>
                old(LintStops(State(), sopId, target)) && processes == DraftLeft(old(State()), sopId, target)
      ensures r.Issued? ==> old(MayRollBack(State(), sopId, target)) && r.previous == Previous(old(processes)[sopId])
                            && r.version == Restored(digest, old(processes)[sopId], sopId, target)
                            && processes == RolledBack(digest, old(State()), sopId, target).processes
      ensures old(MayRollBack(State(), sopId, target)) <==> r.Issued?
      ensures old(MayCopy(State(), sopId, target)) <==> !r.NotIssued?
    {
      hide Lints, Numbered, Find, Has, Top;
      if sopId !in processes {
        return NotIssued;
      }
      var p := processes[sopId];
      var found, v := Lookup(p.versions, target);
      if !found || v.status !in {Published, Retired} {
        return NotIssued;
      }
      var previous := PreviousVersion(p);
      if target == previous {
        return NotIssued;
      }
      var known, before := Lookup(p.versions, previous);
      if !known {
        return NotIssued;
      }
      TargetIsPositive(p.versions, target);
      var draft := CreateDraft(sopId, target);
      if draft.None? {
        LintsWellFormed(v.content);
        SourceIsFound(p.versions, target);
        return NotIssued;
      }
      FindSource(p.versions, target, draft.value.content);
      WellFormedSource(p.versions, target);
      var published := Publish(digest, sopId, draft.value);
      assert (p.versions + [draft.value])[..|p.versions|] == p.versions;
      r := if published.None? then LeftDraft else Issued(published.value, previous);
    }

    /** A successful rollback is RolledBack with exact counts; a refused one changes nothing; a
        failed lint leaves a draft; after a failed save each pin has been moved or is as it was. */
    method Rollback(digest: (string, int, Content) -> string, sopId: string, target: int, saved: string -> bool)
      returns (r: Outcome)
      requires CatalogOk(State())
      modifies this
      ensures r.Done? ==>
                old(MayRollBack(State(), sopId, target)) && State() == RolledBack(digest, old(State()), sopId, target)
      ensures r.Done? ==> var from := Pin(sopId, Previous(old(processes)[sopId]));
                          && r.version == Restored(digest, old(processes)[sopId], sopId, target)
                          && r.environments == |set e | e in old(environments) && old(environments)[e] == from|
                          && r.bindings == |set b | b in old(Pins(bindings)) && old(Pins(bindings))[b] == from|
      ensures r.Refused? ==> State() == old(State())
      ensures r.LintFailed? ==>
                old(LintStops(State(), sopId, target))
                  && State() == old(State()).(processes := DraftLeft(old(State()), sopId, target))
      ensures r.SaveFailed? ==>
                old(MayRollBack(State(), sopId, target)) && PartlyMoved(digest, old(State()), State(), sopId, target)
      ensures r.SaveFailed? ==> exists n :: !saved(n)
      ensures old(MayRollBack(State(), sopId, target)) && (forall n :: saved(n)) ==> r.Done?
      ensures r.Refused? <==> !old(MayCopy(State(), sopId, target))
      ensures r.LintFailed? <==> old(MayCopy(State(), sopId, target)) && !old(MayRollBack(State(), sopId, target))
    {
      hide MayCopy, MayRollBack, Has, Restored, LintStops, CatalogOk;
      var issued := Reissue(digest, sopId, target);
      if issued.NotIssued? {
        return Refused;
      }
      if issued.LeftDraft? {
        return LintFailed;
      }
      var from := Pin(sopId, issued.previous);
      var ok, environmentCount := MoveEnvironments(from, issued.version.number, saved);
      if !ok {
        return SaveFailed;
      }
      var bindingCount;
      ok, bindingCount := MoveBindings(from, issued.version, saved);
      if !ok {
        return SaveFailed;
      }
      r := Done(issued.version, environmentCount, bindingCount);
    }
  }

  datatype Reissued = NotIssued | LeftDraft | Issued(version: Version, previous: int)

  /** The target may be copied but the copy does not pass the checks. */
  ghost predicate LintStops(c: Catalog, sopId: string, target: int) {
    && sopId in c.processes && Has(c.processes[sopId].versions, target)
    && !Lints(Find(c.processes[sopId].versions, target).content)
  }

  ghost function DraftLeft(c: Catalog, sopId: string, target: int): map<string, Process>
    requires LintStops(c, sopId, target)
  {
    var p := c.processes[sopId];
    c.processes[sopId :=
      p.(versions := p.versions + [Version(Top(p.versions) + 1, Draft, "", Find(p.versions, target).content)])]
  }

  ghost predicate PartlyMoved(digest: (string, int, Content) -> string, c: Catalog, d: Catalog, sopId: string,
                              target: int)
    requires MayRollBack(c, sopId, target)
  {
    var done := RolledBack(digest, c, sopId, target);
    && d.processes == done.processes && d.environments.Keys == c.environments.Keys && d.bindings.Keys == c.bindings.Keys
    && (forall e :: e in d.environments ==>
          d.environments[e] == c.environments[e] || d.environments[e] == done.environments[e])
    && (forall b :: b in d.bindings ==> d.bindings[b] == c.bindings[b] || d.bindings[b] == done.bindings[b])
  }

  lemma LintsWellFormed(c: Content)
    ensures Lints(c) ==> c.wellFormed
  {
  }

  lemma TargetIsPositive(versions: seq<Version>, number: int)
    requires Numbered(versions) && Has(versions, number)
    ensures number > 0
  {
  }

  lemma HasStep(versions: seq<Version>, number: int)
    requires versions != [] && versions[0].number != number
    ensures Has(versions, number) <==> Has(versions[1..], number)
    ensures Has(versions, number) ==> Find(versions, number) == Find(versions[1..], number)
  {
    if Has(versions, number) {
      var i :| 0 <= i < |versions| && versions[i].number == number;
      assert versions[1..][i - 1].number == number;
    }
  }

  predicate NewestFirst(a: Version, b: Version) { a.number >= b.number }

  /** A version a draft may be copied from: the given one, or for 0 a published one. */
  predicate Qualifies(v: Version, source: int) {
    if source == 0 then v.status == Published else source > 0 && v.number == source
  }

  /** It qualifies, and of those that do it is the newest. */
  predicate IsSource(versions: seq<Version>, v: Version, source: int) {
    Qualifies(v, source)
    && forall k :: 0 <= k < |versions| && Qualifies(versions[k], source) ==> versions[k].number <= v.number
  }

  predicate Source(versions: seq<Version>, i: nat, source: int)
    requires i < |versions|
  {
    IsSource(versions, versions[i], source)
  }

  /** For 0 the source is the published version with the highest number, else the version of the number. */
  lemma SourceMeans(versions: seq<Version>, i: nat, source: int)
    requires Numbered(versions) && i < |versions|
    ensures Source(versions, i, 0)
            <==> versions[i].status == Published
                 && forall k :: 0 <= k < |versions| && versions[k].status == Published ==>
                      versions[k].number <= versions[i].number
    ensures source != 0 ==> (Source(versions, i, source) <==> versions[i].number == source)
  {
  }

  /** The highest number depends on the members only. */
  lemma TopOfMembers(xs: seq<Version>, ys: seq<Version>)
    requires forall v :: v in xs <==> v in ys
    ensures Top(xs) == Top(ys)
  {
    TopAtMost(xs, ys);
    TopAtMost(ys, xs);
  }

  lemma TopAtMost(xs: seq<Version>, ys: seq<Version>)
    requires forall v :: v in xs ==> v in ys
    ensures Top(xs) <= Top(ys)
  {
    TopIsAbove(ys);
    TopIsReached(xs);
    if i :| 0 <= i < |xs| && xs[i].number == Top(xs) {
      assert xs[i] in ys;
    }
  }

  /** What was found in the listing is the source among the versions. */
  lemma ListedSource(versions: seq<Version>, listed: seq<Version>, at: nat, source: int)
    requires (forall v :: v in listed <==> v in versions) && at < |versions| && IsSource(listed, versions[at], source)
    ensures Source(versions, at, source)
  {
    forall k | 0 <= k < |versions| && Qualifies(versions[k], source) ensures versions[k].number <= versions[at].number {
      assert versions[k] in listed;
      var i :| 0 <= i < |listed| && listed[i] == versions[k];
    }
  }

  lemma OneSource(versions: seq<Version>, i: nat, source: int)
    requires Numbered(versions) && i < |versions| && Source(versions, i, source)
    ensures forall j :: 0 <= j < |versions| && Source(versions, j, source) ==> j == i
  {
    forall j | 0 <= j < |versions| && Source(versions, j, source) ensures j == i {
      assert versions[i].number == versions[j].number;
    }
  }

  lemma SourceIsFound(versions: seq<Version>, number: int)
    requires Numbered(versions) && Has(versions, number)
    ensures exists i ::
            0 <= i < |versions| && Source(versions, i, number) && versions[i].content == Find(versions, number).content
  {
    TargetIsPositive(versions, number);
    var i := FoundAt(versions, number);
    assert Source(versions, i, number);
  }

  lemma NoSource(versions: seq<Version>, listed: seq<Version>, source: int)
    requires (forall v :: v in listed <==> v in versions)
    requires forall k :: 0 <= k < |listed| ==> !Qualifies(listed[k], source)
    ensures forall i :: 0 <= i < |versions| ==> !Source(versions, i, source)
  {
    forall i | 0 <= i < |versions| ensures !Qualifies(versions[i], source) {
      assert versions[i] in listed;
      var k :| 0 <= k < |listed| && listed[k] == versions[i];
    }
  }

  lemma FindSource(versions: seq<Version>, number: int, content: Content)
    requires Numbered(versions)
    requires exists i :: 0 <= i < |versions| && versions[i].content == content && versions[i].number == number
    ensures Has(versions, number) && Find(versions, number).content == content
  {
    var i :| 0 <= i < |versions| && versions[i].content == content && versions[i].number == number;
    FindIs(versions, i);
  }

  lemma WellFormedSource(versions: seq<Version>, number: int)
    requires Numbered(versions) && number > 0
    requires exists i :: 0 <= i < |versions| && Source(versions, i, number) && versions[i].content.wellFormed
    ensures Has(versions, number) && Find(versions, number).content.wellFormed
  {
    var i :| 0 <= i < |versions| && Source(versions, i, number) && versions[i].content.wellFormed;
    FindIs(versions, i);
  }

  /** The pins still to be visited leave out these hits. */
  function Hits(pins: map<string, Pin>, from: Pin, rest: set<string>): set<string> {
    set n | n in pins && n !in rest && pins[n] == from
  }

  lemma HitsStep(pins: map<string, Pin>, from: Pin, rest: set<string>, n: string)
    requires n in rest && n in pins
    ensures |Hits(pins, from, rest - {n})| == |Hits(pins, from, rest)| + if pins[n] == from then 1 else 0
  {
    assert Hits(pins, from, rest - {n}) == Hits(pins, from, rest) + if pins[n] == from then {n} else {};
  }

  lemma HitsAll(pins: map<string, Pin>, from: Pin)
    ensures Hits(pins, from, {}) == set n | n in pins && pins[n] == from
    ensures Hits(pins, from, pins.Keys) == {}
  {
  }

  function Pins(bindings: map<string, Binding>): map<string, Pin> {
    map b | b in bindings :: bindings[b].pin
  }
}
