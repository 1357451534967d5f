/** The change list between two process versions: paths, values before and after. */
module SopDiff {
  import opened Sop
  import opened Text
  import opened Sorting

  datatype Value =
    | Absent | TextValue(text: string) | ListValue(items: seq<string>) | StageValue(stage: Stage)
    | GateValue(gate: Gate)

  datatype Change = Change(path: string, before: Value, after: Value)

  /** What is compared: four fields, and the stages and gates by id, the last of an id counting. */
  datatype View = View(
    name: string, description: string, contentTypes: seq<string>, executionMode: string, stages: map<string, Stage>,
    gates: map<string, Gate>)

  function StageMap(stages: seq<Stage>): map<string, Stage> {
    if stages == [] then map[] else StageMap(stages[..|stages| - 1])[stages[|stages| - 1].id := stages[|stages| - 1]]
  }

  function GateMap(gates: seq<Gate>): map<string, Gate> {
    if gates == [] then map[] else GateMap(gates[..|gates| - 1])[gates[|gates| - 1].id := gates[|gates| - 1]]
  }

  function ViewOf(c: Content): View {
    View(c.name, c.description, c.contentTypes, c.executionMode, StageMap(c.stages), GateMap(c.gates))
  }

  function StagePath(id: string): string { "stages[" + id + "]" }

  function GatePath(id: string): string { "gates[" + id + "]" }

  predicate IsStagePath(p: string) { |p| >= 8 && p[..7] == "stages[" && p[|p| - 1] == ']' }

  predicate IsGatePath(p: string) { |p| >= 7 && p[..6] == "gates[" && p[|p| - 1] == ']' }

  function StageId(p: string): string
    requires IsStagePath(p)
  {
    p[7..|p| - 1]
  }

  function GateId(p: string): string
    requires IsGatePath(p)
  {
    p[6..|p| - 1]
  }

  lemma PathIds(id: string)
    ensures IsStagePath(StagePath(id)) && StageId(StagePath(id)) == id
    ensures IsGatePath(GatePath(id)) && GateId(GatePath(id)) == id
  {
    assert StagePath(id)[..7] == "stages[" && GatePath(id)[..6] == "gates[";
  }

  lemma PathOfId(p: string)
    ensures IsStagePath(p) ==> StagePath(StageId(p)) == p
    ensures IsGatePath(p) ==> GatePath(GateId(p)) == p
  {
    if IsStagePath(p) { assert p == p[..7] + p[7..|p| - 1] + [p[|p| - 1]]; }
    if IsGatePath(p) { assert p == p[..6] + p[6..|p| - 1] + [p[|p| - 1]]; }
  }

  // ---------------------------------------------------------------- reading and writing by path

  function At(v: View, p: string): Value {
    if p == "name" then TextValue(v.name)
    else if p == "description" then TextValue(v.description)
    else if p == "content_types" then ListValue(v.contentTypes)
    else if p == "default_execution_mode" then TextValue(v.executionMode)
    else if IsStagePath(p) then if StageId(p) in v.stages then StageValue(v.stages[StageId(p)]) else Absent
    else if IsGatePath(p) then if GateId(p) in v.gates then GateValue(v.gates[GateId(p)]) else Absent
    else Absent
  }

  /** Whether a value can stand at a path. */
  predicate Fits(p: string, x: Value) {
    if p in {"name", "description", "default_execution_mode"} then x.TextValue?
    else if p == "content_types" then x.ListValue?
    else if IsStagePath(p) then x.StageValue? || x.Absent?
    else if IsGatePath(p) then x.GateValue? || x.Absent?
    else x.Absent?
  }

  function Put(v: View, p: string, x: Value): View
    requires Fits(p, x)
  {
    if p == "name" then v.(name := x.text)
    else if p == "description" then v.(description := x.text)
    else if p == "content_types" then v.(contentTypes := x.items)
    else if p == "default_execution_mode" then v.(executionMode := x.text)
    else if IsStagePath(p)
      then v.(stages := if x.Absent? then v.stages - {StageId(p)} else v.stages[StageId(p) := x.stage])
    else if IsGatePath(p) then v.(gates := if x.Absent? then v.gates - {GateId(p)} else v.gates[GateId(p) := x.gate])
    else v
  }

  lemma AtFits(v: View, p: string)
    ensures Fits(p, At(v, p))
  {
  }

  lemma PutAt(v: View, p: string, x: Value, q: string)
    requires Fits(p, x)
    ensures At(Put(v, p, x), q) == if p == q then x else At(v, q)
  {
    hide StagePath, GatePath, IsStagePath, IsGatePath, StageId, GateId;
    PathOfId(p);
    PathOfId(q);
  }

  /** Views that agree at every path are equal. */
  lemma SameEverywhere(u: View, v: View)
    requires forall p :: At(u, p) == At(v, p)
    ensures u == v
  {
    assert At(u, "name") == At(v, "name") && At(u, "description") == At(v, "description");
    assert At(u, "content_types") == At(v, "content_types");
    assert At(u, "default_execution_mode") == At(v, "default_execution_mode");
    hide At;
    forall id
      ensures (id in u.stages <==> id in v.stages) && (id in u.stages ==> u.stages[id] == v.stages[id])
    {
      SameStage(u, v, id);
    }
    forall id
      ensures (id in u.gates <==> id in v.gates) && (id in u.gates ==> u.gates[id] == v.gates[id])
    {
      SameGate(u, v, id);
    }
  }

  lemma SameStage(u: View, v: View, id: string)
    requires At(u, StagePath(id)) == At(v, StagePath(id))
    ensures (id in u.stages <==> id in v.stages) && (id in u.stages ==> u.stages[id] == v.stages[id])
  {
    PathIds(id);
    FieldsArePlain(StagePath(id));
  }

  lemma SameGate(u: View, v: View, id: string)
    requires At(u, GatePath(id)) == At(v, GatePath(id))
    ensures (id in u.gates <==> id in v.gates) && (id in u.gates ==> u.gates[id] == v.gates[id])
  {
    PathIds(id);
    FieldsArePlain(GatePath(id));
  }

  // ---------------------------------------------------------------- the change list

  /** The changes at the given paths, in their order. */
  function ChangesAt(u: View, v: View, paths: seq<string>): seq<Change> {
    if paths == [] then []
    else
      var p := paths[|paths| - 1];
      ChangesAt(u, v, paths[..|paths| - 1]) + if At(u, p) == At(v, p) then [] else [Change(p, At(u, p), At(v, p))]
  }

  const FIELD_PATHS := ["name", "description", "content_types", "default_execution_mode"]

  function StagePaths(ids: seq<string>): seq<string> { seq(|ids|, i requires 0 <= i < |ids| => StagePath(ids[i])) }

  function GatePaths(ids: seq<string>): seq<string> { seq(|ids|, i requires 0 <= i < |ids| => GatePath(ids[i])) }

  /** The fields, then all stages and all gates of either version, each in order of id. */
  ghost predicate PathsOf(u: View, v: View, paths: seq<string>, stageIds: seq<string>, gateIds: seq<string>) {
    && paths == FIELD_PATHS + StagePaths(stageIds) + GatePaths(gateIds)
    && Ordered(stageIds, StrLe) && Distinct(stageIds)
    && (forall id :: id in stageIds <==> id in u.stages || id in v.stages)
    && Ordered(gateIds, StrLe) && Distinct(gateIds) && (forall id :: id in gateIds <==> id in u.gates || id in v.gates)
  }

  lemma PathsDistinct(u: View, v: View, paths: seq<string>, stageIds: seq<string>, gateIds: seq<string>)
    requires PathsOf(u, v, paths, stageIds, gateIds)
    ensures Distinct(paths)
  {
    var stages, gates := StagePaths(stageIds), GatePaths(gateIds);
    forall i, j | 0 <= i < j < |stages| ensures stages[i] != stages[j] { PathIds(stageIds[i]); PathIds(stageIds[j]); }
    forall i, j | 0 <= i < j < |gates| ensures gates[i] != gates[j] { PathIds(gateIds[i]); PathIds(gateIds[j]); }
    forall p | p in stages ensures p !in FIELD_PATHS {
      var i :| 0 <= i < |stages| && stages[i] == p;
      PathIds(stageIds[i]);
      FieldsArePlain(p);
    }
    forall p | p in gates ensures p !in FIELD_PATHS + stages {
      var i :| 0 <= i < |gates| && gates[i] == p;
      PathIds(gateIds[i]);
      FieldsArePlain(p);
      if p in stages { AStagePath(stageIds, p); }
    }
    DistinctConcat(FIELD_PATHS, stages);
    DistinctConcat(FIELD_PATHS + stages, gates);
  }

  lemma AStagePath(ids: seq<string>, p: string)
    requires p in StagePaths(ids)
    ensures IsStagePath(p)
  {
    var i :| 0 <= i < |ids| && StagePaths(ids)[i] == p;
    PathIds(ids[i]);
  }

  lemma DistinctConcat<T>(xs: seq<T>, ys: seq<T>)
    requires Distinct(xs) && Distinct(ys) && forall y :: y in ys ==> y !in xs
    ensures Distinct(xs + ys)
  {
    forall i, j | 0 <= i < j < |xs + ys| ensures (xs + ys)[i] != (xs + ys)[j] {
      if i < |xs| <= j { assert ys[j - |xs|] in ys && xs[i] in xs; }
    }
  }

  lemma FieldsArePlain(p: string)
    ensures p in FIELD_PATHS ==> !IsStagePath(p) && !IsGatePath(p)
    ensures !(IsStagePath(p) && IsGatePath(p))
  {
    if IsStagePath(p) { assert p[..7][0] == 's' && p[0] == 's'; }
    if IsGatePath(p) { assert p[..6][0] == 'g' && p[0] == 'g'; }
    assert "description"[0] == 'd' && "name"[0] == 'n' && "content_types"[0] == 'c';
    assert "default_execution_mode"[0] == 'd';
  }

  /** Off the listed paths the two versions agree. */
  lemma PathsCover(u: View, v: View, paths: seq<string>, stageIds: seq<string>, gateIds: seq<string>, p: string)
    requires PathsOf(u, v, paths, stageIds, gateIds) && p !in paths
    ensures At(u, p) == At(v, p)
  {
    assert forall i :: 0 <= i < 4 ==> paths[i] == FIELD_PATHS[i];
    assert FIELD_PATHS[0] == "name" && FIELD_PATHS[1] == "description" && FIELD_PATHS[2] == "content_types";
    assert FIELD_PATHS[3] == "default_execution_mode";
    IdIsListed(stageIds, gateIds, p);
  }

  lemma IdIsListed(stageIds: seq<string>, gateIds: seq<string>, p: string)
    ensures IsStagePath(p) && StageId(p) in stageIds ==> p in StagePaths(stageIds)
    ensures IsGatePath(p) && GateId(p) in gateIds ==> p in GatePaths(gateIds)
  {
    PathOfId(p);
    if IsStagePath(p) && StageId(p) in stageIds {
      var i :| 0 <= i < |stageIds| && stageIds[i] == StageId(p);
      assert StagePaths(stageIds)[i] == p;
    }
    if IsGatePath(p) && GateId(p) in gateIds {
      var i :| 0 <= i < |gateIds| && gateIds[i] == GateId(p);
      assert GatePaths(gateIds)[i] == p;
    }
  }

  predicate Recorded(changes: seq<Change>, p: string) {
    exists i :: 0 <= i < |changes| && changes[i].path == p
  }

  /** A faithful change list: no path twice, exactly the differing paths, their true values. */
  ghost predicate IsDiff(u: View, v: View, changes: seq<Change>) {
    && (forall i, j :: 0 <= i < j < |changes| ==> changes[i].path != changes[j].path)
    && (forall i :: 0 <= i < |changes| ==>
          changes[i].before == At(u, changes[i].path) && changes[i].after == At(v, changes[i].path))
    && (forall p :: Recorded(changes, p) <==> At(u, p) != At(v, p))
  }

  lemma {:induction false} ChangesAtAre(u: View, v: View, paths: seq<string>)
    requires Distinct(paths)
    ensures var cs := ChangesAt(u, v, paths);
            && (forall i, j :: 0 <= i < j < |cs| ==> cs[i].path != cs[j].path)
            && (forall i :: 0 <= i < |cs| ==> cs[i].before == At(u, cs[i].path) && cs[i].after == At(v, cs[i].path))
            && (forall p :: Recorded(cs, p) <==> p in paths && At(u, p) != At(v, p))
  {
    hide At;
    if paths != [] {
      var init, last := paths[..|paths| - 1], paths[|paths| - 1];
      ChangesAtAre(u, v, init);
      assert paths == init + [last] && last !in init;
      var before, cs := ChangesAt(u, v, init), ChangesAt(u, v, paths);
      assert cs == before || cs == before + [Change(last, At(u, last), At(v, last))];
      forall i | 0 <= i < |before| ensures before[i].path != last { assert Recorded(before, before[i].path); }
      forall p ensures Recorded(cs, p) <==> p in paths && At(u, p) != At(v, p) {
        var more := if At(u, last) == At(v, last) then [] else [Change(last, At(u, last), At(v, last))];
        assert cs == before + more;
        RecordedMore(before, more, p);
        RecordedOne(more, p);
      }
    }
  }

  lemma RecordedOne(cs: seq<Change>, p: string)
    requires |cs| <= 1
    ensures Recorded(cs, p) <==> |cs| == 1 && cs[0].path == p
  {
  }

  lemma RecordedMore(xs: seq<Change>, ys: seq<Change>, p: string)
    ensures Recorded(xs + ys, p) <==> Recorded(xs, p) || Recorded(ys, p)
  {
    if Recorded(xs, p) {
      var i :| 0 <= i < |xs| && xs[i].path == p;
      assert (xs + ys)[i].path == p;
    }
    if Recorded(ys, p) {
      var i :| 0 <= i < |ys| && ys[i].path == p;
      assert (xs + ys)[|xs| + i].path == p;
    }
    if Recorded(xs + ys, p) {
      var i :| 0 <= i < |xs + ys| && (xs + ys)[i].path == p;
      assert if i < |xs| then xs[i].path == p else ys[i - |xs|].path == p;
    }
  }

  lemma ChangeListIsDiff(u: View, v: View, paths: seq<string>, stageIds: seq<string>, gateIds: seq<string>)
    requires PathsOf(u, v, paths, stageIds, gateIds)
    ensures IsDiff(u, v, ChangesAt(u, v, paths))
  {
    hide At;
    PathsDistinct(u, v, paths, stageIds, gateIds);
    ChangesAtAre(u, v, paths);
    forall p ensures Recorded(ChangesAt(u, v, paths), p) <==> At(u, p) != At(v, p) {
      if p !in paths { PathsCover(u, v, paths, stageIds, gateIds, p); }
    }
  }

  // ---------------------------------------------------------------- applying it

  function Apply(v: View, changes: seq<Change>): View
    requires forall i :: 0 <= i < |changes| ==> Fits(changes[i].path, changes[i].after)
  {
    if changes == [] then v
    else Put(Apply(v, changes[..|changes| - 1]), changes[|changes| - 1].path, changes[|changes| - 1].after)
  }

  lemma {:induction false} ApplyAt(v: View, changes: seq<Change>, p: string)
    requires forall i :: 0 <= i < |changes| ==> Fits(changes[i].path, changes[i].after)
    requires forall i, j :: 0 <= i < j < |changes| ==> changes[i].path != changes[j].path
    ensures !Recorded(changes, p) ==> At(Apply(v, changes), p) == At(v, p)
    ensures forall i :: 0 <= i < |changes| && changes[i].path == p ==> At(Apply(v, changes), p) == changes[i].after
  {
    hide At, Fits, Put;
    if changes != [] {
      var init, last := changes[..|changes| - 1], changes[|changes| - 1];
      ApplyAt(v, init, p);
      PutAt(Apply(v, init), last.path, last.after, p);
      RecordedMore(init, [last], p);
      assert changes == init + [last];
      assert Recorded([last], p) <==> [last][0].path == p;
    }
  }

  /** Applying the change list to the earlier version rebuilds the later one. */
  lemma ApplyRebuilds(u: View, v: View, changes: seq<Change>)
    requires IsDiff(u, v, changes)
    ensures (forall i :: 0 <= i < |changes| ==> Fits(changes[i].path, changes[i].after)) && Apply(u, changes) == v
  {
    forall i | 0 <= i < |changes| ensures Fits(changes[i].path, changes[i].after) { AtFits(v, changes[i].path); }
    hide At, Fits;
    forall p ensures At(Apply(u, changes), p) == At(v, p) {
      ApplyAt(u, changes, p);
      if Recorded(changes, p) {
        var i :| 0 <= i < |changes| && changes[i].path == p;
        assert changes[i].after == At(v, p);
      }
    }
    SameEverywhere(Apply(u, changes), v);
  }

  /** The list is empty exactly when the compared parts agree. */
  lemma EmptyIffSame(u: View, v: View, changes: seq<Change>)
    requires IsDiff(u, v, changes)
    ensures changes == [] <==> u == v
  {
    hide At;
    if changes == [] {
      forall p ensures At(u, p) == At(v, p) { assert !Recorded(changes, p); }
      SameEverywhere(u, v);
    } else {
      assert Recorded(changes, changes[0].path);
    }
  }

  lemma {:induction false} ChangesInvert(u: View, v: View, paths: seq<string>)
    ensures Inverse(ChangesAt(u, v, paths), ChangesAt(v, u, paths))
  {
    hide At;
    if paths != [] { ChangesInvert(u, v, paths[..|paths| - 1]); }
  }

  predicate Inverse(there: seq<Change>, back: seq<Change>) {
    |there| == |back|
    && forall i :: 0 <= i < |there| ==> back[i] == Change(there[i].path, there[i].after, there[i].before)
  }

  /** Comparing the versions the other way round visits the same paths and inverts every change. */
  lemma DiffIsSymmetric(u: View, v: View, paths: seq<string>, stageIds: seq<string>, gateIds: seq<string>,
                        paths': seq<string>, stageIds': seq<string>, gateIds': seq<string>)
    requires PathsOf(u, v, paths, stageIds, gateIds) && PathsOf(v, u, paths', stageIds', gateIds')
    ensures paths == paths' && Inverse(ChangesAt(u, v, paths), ChangesAt(v, u, paths'))
  {
    hide StrLe, Inverse, ChangesAt;
    SortedIdsAreUnique(stageIds, stageIds');
    SortedIdsAreUnique(gateIds, gateIds');
    ChangesInvert(u, v, paths);
  }

  // ---------------------------------------------------------------- as computed

  method CollectStages(stages: seq<Stage>) returns (m: map<string, Stage>)
    ensures m == StageMap(stages)
  {
    m := map[];
    for i := 0 to |stages|
      invariant m == StageMap(stages[..i])
    {
      assert stages[..i + 1][..i] == stages[..i];
      m := m[stages[i].id := stages[i]];
    }
    assert stages[..|stages|] == stages;
  }

  method CollectGates(gates: seq<Gate>) returns (m: map<string, Gate>)
    ensures m == GateMap(gates)
  {
    m := map[];
    for i := 0 to |gates|
      invariant m == GateMap(gates[..i])
    {
      assert gates[..i + 1][..i] == gates[..i];
      m := m[gates[i].id := gates[i]];
    }
    assert gates[..|gates|] == gates;
  }

  /** The ids of either map, each once, sorted. */
  method SortedIds(a: set<string>, b: set<string>) returns (ids: seq<string>)
    ensures Ordered(ids, StrLe) && Distinct(ids) && forall id :: id in ids <==> id in a || id in b
  {
    var all := Listed(a);
    var rest := Listed(b - a);
    DistinctConcat(all, rest);
    assert TotalPreorder(StrLe) by { StrOrder(); }
    ids := SortBy(all + rest, StrLe);
    PermutationDistinct(all + rest, ids);
    PermutationMembers(all + rest, ids);
  }

  lemma StrOrder()
    ensures TotalPreorder(StrLe)
  {
    forall a, b ensures StrLe(a, b) || StrLe(b, a) { StrLeTotal(a, b); }
    forall a, b, c | StrLe(a, b) && StrLe(b, c) ensures StrLe(a, c) { StrLeTransitive(a, b, c); }
  }

  method Listed(s: set<string>) returns (xs: seq<string>)
    ensures Distinct(xs) && forall x :: x in xs <==> x in s
  {
    xs := [];
    var rest := s;
    while rest != {}
      invariant rest <= s && Distinct(xs) && forall x :: x in xs <==> x in s && x !in rest
      decreases rest
    {
      var x :| x in rest;
      rest := rest - {x};
      xs := xs + [x];
    }
  }

  method Add(changes: seq<Change>, path: string, before: Value, after: Value) returns (more: seq<Change>)
    ensures more == changes + if before == after then [] else [Change(path, before, after)]
  {
    more := if before == after then changes else changes + [Change(path, before, after)];
  }

  method DiffFields(from: Content, to: Content) returns (changes: seq<Change>)
    ensures changes == ChangesAt(ViewOf(from), ViewOf(to), FIELD_PATHS)
  {
    changes := Add([], "name", TextValue(from.name), TextValue(to.name));
    changes := Add(changes, "description", TextValue(from.description), TextValue(to.description));
    changes := Add(changes, "content_types", ListValue(from.contentTypes), ListValue(to.contentTypes));
    changes := Add(changes, "default_execution_mode", TextValue(from.executionMode), TextValue(to.executionMode));
    FieldChanges(ViewOf(from), ViewOf(to));
  }

  method DiffStages(from: Content, to: Content, before: seq<Change>, ghost paths: seq<string>)
    returns (changes: seq<Change>, ghost ids: seq<string>)
    requires before == ChangesAt(ViewOf(from), ViewOf(to), paths)
    ensures changes == ChangesAt(ViewOf(from), ViewOf(to), paths + StagePaths(ids))
    ensures Ordered(ids, StrLe) && Distinct(ids)
    ensures forall id :: id in ids <==> id in ViewOf(from).stages || id in ViewOf(to).stages
  {
    hide ChangesAt, At, StrLe, Ordered, Distinct;
    var fromStages := CollectStages(from.stages);
    var toStages := CollectStages(to.stages);
    var sorted := SortedIds(fromStages.Keys, toStages.Keys);
    changes, ids := before, sorted;
    assert paths + StagePaths(sorted[..0]) == paths;
    for i := 0 to |sorted|
      invariant changes == ChangesAt(ViewOf(from), ViewOf(to), paths + StagePaths(sorted[..i]))
    {
      var id := sorted[i];
      changes := Add(changes, StagePath(id), if id in fromStages then StageValue(fromStages[id]) else Absent,
                     if id in toStages then StageValue(toStages[id]) else Absent);
      StageAt(from, id);
      StageAt(to, id);
      OnePath(ViewOf(from), ViewOf(to), paths + StagePaths(sorted[..i]), StagePath(id));
      assert paths + StagePaths(sorted[..i + 1]) == paths + StagePaths(sorted[..i]) + [StagePath(id)];
    }
    assert sorted[..|sorted|] == sorted;
  }

  method DiffGates(from: Content, to: Content, before: seq<Change>, ghost paths: seq<string>)
    returns (changes: seq<Change>, ghost ids: seq<string>)
    requires before == ChangesAt(ViewOf(from), ViewOf(to), paths)
    ensures changes == ChangesAt(ViewOf(from), ViewOf(to), paths + GatePaths(ids))
    ensures Ordered(ids, StrLe) && Distinct(ids)
    ensures forall id :: id in ids <==> id in ViewOf(from).gates || id in ViewOf(to).gates
  {
    hide ChangesAt, At, StrLe, Ordered, Distinct;
    var fromGates := CollectGates(from.gates);
    var toGates := CollectGates(to.gates);
    var sorted := SortedIds(fromGates.Keys, toGates.Keys);
    changes, ids := before, sorted;
    assert paths + GatePaths(sorted[..0]) == paths;
    for i := 0 to |sorted|
      invariant changes == ChangesAt(ViewOf(from), ViewOf(to), paths + GatePaths(sorted[..i]))
    {
      var id := sorted[i];
      changes := Add(changes, GatePath(id), if id in fromGates then GateValue(fromGates[id]) else Absent,
                     if id in toGates then GateValue(toGates[id]) else Absent);
      GateAt(from, id);
      GateAt(to, id);
      OnePath(ViewOf(from), ViewOf(to), paths + GatePaths(sorted[..i]), GatePath(id));
      assert paths + GatePaths(sorted[..i + 1]) == paths + GatePaths(sorted[..i]) + [GatePath(id)];
    }
    assert sorted[..|sorted|] == sorted;
  }

  /** The change list, in the order fields, stages by id, gates by id. */
  method DiffVersions(from: Content, to: Content)
    returns (changes: seq<Change>, same: bool, ghost paths: seq<string>, ghost stageIds: seq<string>,
             ghost gateIds: seq<string>)
    ensures PathsOf(ViewOf(from), ViewOf(to), paths, stageIds, gateIds)
    ensures changes == ChangesAt(ViewOf(from), ViewOf(to), paths) && IsDiff(ViewOf(from), ViewOf(to), changes)
    ensures same <==> ViewOf(from) == ViewOf(to)
  {
    hide ChangesAt, At, StrLe, Ordered, Distinct, IsDiff, ViewOf;
    changes := DiffFields(from, to);
    changes, stageIds := DiffStages(from, to, changes, FIELD_PATHS);
    paths := FIELD_PATHS + StagePaths(stageIds);
    changes, gateIds := DiffGates(from, to, changes, paths);
    paths := paths + GatePaths(gateIds);
    same := |changes| == 0;
    ChangeListIsDiff(ViewOf(from), ViewOf(to), paths, stageIds, gateIds);
    EmptyIffSame(ViewOf(from), ViewOf(to), changes);
  }

  lemma OnePath(u: View, v: View, paths: seq<string>, p: string)
    ensures ChangesAt(u, v, paths + [p]) == ChangesAt(u, v, paths)
            + if At(u, p) == At(v, p) then [] else [Change(p, At(u, p), At(v, p))]
  {
    assert (paths + [p])[..|paths|] == paths;
  }

  lemma FieldChanges(u: View, v: View)
    ensures ChangesAt(u, v, FIELD_PATHS)
            == (if u.name == v.name then [] else [Change("name", TextValue(u.name), TextValue(v.name))])
             + (if u.description == v.description then []
                else [Change("description", TextValue(u.description), TextValue(v.description))])
             + (if u.contentTypes == v.contentTypes then []
                else [Change("content_types", ListValue(u.contentTypes), ListValue(v.contentTypes))])
             + (if u.executionMode == v.executionMode then []
                else [Change("default_execution_mode", TextValue(u.executionMode), TextValue(v.executionMode))])
  {
    OnePath(u, v, [], "name");
    OnePath(u, v, ["name"], "description");
    OnePath(u, v, ["name", "description"], "content_types");
    OnePath(u, v, ["name", "description", "content_types"], "default_execution_mode");
    assert [] + ["name"] == ["name"] && ["name"] + ["description"] == ["name", "description"];
    assert ["name", "description"] + ["content_types"] == ["name", "description", "content_types"];
    assert ["name", "description", "content_types"] + ["default_execution_mode"] == FIELD_PATHS;
  }

  lemma StageAt(c: Content, id: string)
    ensures At(ViewOf(c), StagePath(id)) == (var m := StageMap(c.stages); if id in m then StageValue(m[id]) else Absent)
  {
    PathIds(id);
    FieldsArePlain(StagePath(id));
  }

  lemma GateAt(c: Content, id: string)
    ensures At(ViewOf(c), GatePath(id)) == (var m := GateMap(c.gates); if id in m then GateValue(m[id]) else Absent)
  {
    PathIds(id);
    FieldsArePlain(GatePath(id));
  }

  // ---------------------------------------------------------------- read off the two versions

  /** The last stage of the id, as a value. */
  predicate StageIs(stages: seq<Stage>, id: string, x: Value) {
    || (x == Absent && NoStage(stages, id))
    || exists i :: 0 <= i < |stages| && LastStageAt(stages, i, id) && x == StageValue(stages[i])
  }

  predicate NoStage(stages: seq<Stage>, id: string) { forall i :: 0 <= i < |stages| ==> stages[i].id != id }

  predicate LastStageAt(stages: seq<Stage>, i: nat, id: string)
    requires i < |stages|
  {
    stages[i].id == id && forall j :: i < j < |stages| ==> stages[j].id != id
  }

  predicate GateIs(gates: seq<Gate>, id: string, x: Value) {
    || (x == Absent && NoGate(gates, id))
    || exists i :: 0 <= i < |gates| && LastGateAt(gates, i, id) && x == GateValue(gates[i])
  }

  predicate NoGate(gates: seq<Gate>, id: string) { forall i :: 0 <= i < |gates| ==> gates[i].id != id }

  predicate LastGateAt(gates: seq<Gate>, i: nat, id: string)
    requires i < |gates|
  {
    gates[i].id == id && forall j :: i < j < |gates| ==> gates[j].id != id
  }

  lemma OneStage(stages: seq<Stage>, id: string, x: Value, y: Value)
    requires StageIs(stages, id, x) && StageIs(stages, id, y)
    ensures x == y
  {
  }

  lemma SameStageIs(stages: seq<Stage>, id: string, x: Value)
    requires stages != [] && stages[|stages| - 1].id != id && StageIs(stages[..|stages| - 1], id, x)
    ensures StageIs(stages, id, x)
  {
    hide NoStage, LastStageAt;
    var n := |stages| - 1;
    var init := stages[..n];
    if x == Absent && NoStage(init, id) {
      assert NoStage(stages, id) by { StillNoStage(stages, id); }
    } else {
      var i :| 0 <= i < n && LastStageAt(init, i, id) && x == StageValue(init[i]);
      StillLastStage(stages, i, id);
      assert stages[i] == init[i];
    }
  }

  lemma StillNoStage(stages: seq<Stage>, id: string)
    requires stages != [] && stages[|stages| - 1].id != id && NoStage(stages[..|stages| - 1], id)
    ensures NoStage(stages, id)
  {
    forall i | 0 <= i < |stages| - 1 ensures stages[i].id != id { assert stages[..|stages| - 1][i] == stages[i]; }
  }

  lemma StillLastStage(stages: seq<Stage>, i: nat, id: string)
    requires stages != [] && stages[|stages| - 1].id != id && i < |stages| - 1
             && LastStageAt(stages[..|stages| - 1], i, id)
    ensures LastStageAt(stages, i, id)
  {
    forall j | i < j < |stages| - 1 ensures stages[j].id != id { assert stages[..|stages| - 1][j] == stages[j]; }
  }

  lemma LastStageIs(stages: seq<Stage>)
    requires stages != []
    ensures StageIs(stages, stages[|stages| - 1].id, StageValue(stages[|stages| - 1]))
  {
    assert LastStageAt(stages, |stages| - 1, stages[|stages| - 1].id);
  }

  lemma {:induction false} StageMapIs(stages: seq<Stage>, id: string)
    ensures var m := StageMap(stages); StageIs(stages, id, if id in m then StageValue(m[id]) else Absent)
  {
    if stages != [] {
      hide StageIs;
      var n := |stages| - 1;
      StageMapIs(stages[..n], id);
      if stages[n].id == id {
        LastStageIs(stages);
      } else {
        var m := StageMap(stages[..n]);
        SameStageIs(stages, id, if id in m then StageValue(m[id]) else Absent);
      }
    }
  }

  lemma OneGate(gates: seq<Gate>, id: string, x: Value, y: Value)
    requires GateIs(gates, id, x) && GateIs(gates, id, y)
    ensures x == y
  {
  }

  lemma SameGateIs(gates: seq<Gate>, id: string, x: Value)
    requires gates != [] && gates[|gates| - 1].id != id && GateIs(gates[..|gates| - 1], id, x)
    ensures GateIs(gates, id, x)
  {
    hide NoGate, LastGateAt;
    var n := |gates| - 1;
    var init := gates[..n];
    if x == Absent && NoGate(init, id) {
      assert NoGate(gates, id) by { StillNoGate(gates, id); }
    } else {
      var i :| 0 <= i < n && LastGateAt(init, i, id) && x == GateValue(init[i]);
      StillLastGate(gates, i, id);
      assert gates[i] == init[i];
    }
  }

  lemma StillNoGate(gates: seq<Gate>, id: string)
    requires gates != [] && gates[|gates| - 1].id != id && NoGate(gates[..|gates| - 1], id)
    ensures NoGate(gates, id)
  {
    forall i | 0 <= i < |gates| - 1 ensures gates[i].id != id { assert gates[..|gates| - 1][i] == gates[i]; }
  }

  lemma StillLastGate(gates: seq<Gate>, i: nat, id: string)
    requires gates != [] && gates[|gates| - 1].id != id && i < |gates| - 1 && LastGateAt(gates[..|gates| - 1], i, id)
    ensures LastGateAt(gates, i, id)
  {
    forall j | i < j < |gates| - 1 ensures gates[j].id != id { assert gates[..|gates| - 1][j] == gates[j]; }
  }

  lemma LastGateIs(gates: seq<Gate>)
    requires gates != []
    ensures GateIs(gates, gates[|gates| - 1].id, GateValue(gates[|gates| - 1]))
  {
    assert LastGateAt(gates, |gates| - 1, gates[|gates| - 1].id);
  }

  lemma {:induction false} GateMapIs(gates: seq<Gate>, id: string)
    ensures var m := GateMap(gates); GateIs(gates, id, if id in m then GateValue(m[id]) else Absent)
  {
    if gates != [] {
      hide GateIs;
      var n := |gates| - 1;
      GateMapIs(gates[..n], id);
      if gates[n].id == id {
        LastGateIs(gates);
      } else {
        var m := GateMap(gates[..n]);
        SameGateIs(gates, id, if id in m then GateValue(m[id]) else Absent);
      }
    }
  }

  lemma RecordedChange(u: View, v: View, changes: seq<Change>, p: string, x: Value, y: Value)
    requires IsDiff(u, v, changes)
    ensures At(u, p) == x && At(v, p) == y ==> (Change(p, x, y) in changes <==> x != y)
  {
    hide At;
    if At(u, p) == x && At(v, p) == y && x != y {
      assert Recorded(changes, p);
      var i :| 0 <= i < |changes| && changes[i].path == p;
      assert changes[i] == Change(p, x, y);
    }
    if Change(p, x, y) in changes {
      var i :| 0 <= i < |changes| && changes[i] == Change(p, x, y);
      assert Recorded(changes, p);
    }
  }

  /** What the list reports: each of the four fields that differ, under its name. */
  lemma FieldsReported(from: Content, to: Content, changes: seq<Change>)
    requires IsDiff(ViewOf(from), ViewOf(to), changes)
    ensures Change("name", TextValue(from.name), TextValue(to.name)) in changes <==> from.name != to.name
    ensures Change("description", TextValue(from.description), TextValue(to.description)) in changes
            <==> from.description != to.description
    ensures Change("content_types", ListValue(from.contentTypes), ListValue(to.contentTypes)) in changes
            <==> from.contentTypes != to.contentTypes
    ensures Change("default_execution_mode", TextValue(from.executionMode), TextValue(to.executionMode)) in changes
            <==> from.executionMode != to.executionMode
  {
    var u, v := ViewOf(from), ViewOf(to);
    hide IsDiff;
    RecordedChange(u, v, changes, "name", TextValue(from.name), TextValue(to.name));
    RecordedChange(u, v, changes, "description", TextValue(from.description), TextValue(to.description));
    RecordedChange(u, v, changes, "content_types", ListValue(from.contentTypes), ListValue(to.contentTypes));
    RecordedChange(u, v, changes, "default_execution_mode", TextValue(from.executionMode), TextValue(to.executionMode));
  }

  /** And under stages[ID] and gates[ID] the last stage and the last gate of the id on either side, where
      they differ. */
  lemma StagesAndGatesReported(from: Content, to: Content, changes: seq<Change>, id: string, x: Value, y: Value)
    requires IsDiff(ViewOf(from), ViewOf(to), changes)
    ensures StageIs(from.stages, id, x) && StageIs(to.stages, id, y) ==>
              (Change("stages[" + id + "]", x, y) in changes <==> x != y)
    ensures GateIs(from.gates, id, x) && GateIs(to.gates, id, y) ==>
              (Change("gates[" + id + "]", x, y) in changes <==> x != y)
  {
    hide IsDiff, At, StageIs, GateIs, ViewOf;
    if StageIs(from.stages, id, x) && StageIs(to.stages, id, y) {
      StageAtIs(from, id, x);
      StageAtIs(to, id, y);
      RecordedChange(ViewOf(from), ViewOf(to), changes, "stages[" + id + "]", x, y);
    }
    if GateIs(from.gates, id, x) && GateIs(to.gates, id, y) {
      GateAtIs(from, id, x);
      GateAtIs(to, id, y);
      RecordedChange(ViewOf(from), ViewOf(to), changes, "gates[" + id + "]", x, y);
    }
  }

  lemma StageAtIs(c: Content, id: string, x: Value)
    requires StageIs(c.stages, id, x)
    ensures At(ViewOf(c), "stages[" + id + "]") == x
  {
    hide At, StageIs, ViewOf;
    StageAt(c, id);
    StageMapIs(c.stages, id);
    var m := StageMap(c.stages);
    OneStage(c.stages, id, x, if id in m then StageValue(m[id]) else Absent);
  }

  lemma GateAtIs(c: Content, id: string, x: Value)
    requires GateIs(c.gates, id, x)
    ensures At(ViewOf(c), "gates[" + id + "]") == x
  {
    hide At, GateIs, ViewOf;
    GateAt(c, id);
    GateMapIs(c.gates, id);
    var m := GateMap(c.gates);
    OneGate(c.gates, id, x, if id in m then GateValue(m[id]) else Absent);
  }
}
