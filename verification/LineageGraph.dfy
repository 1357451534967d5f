/** The lineage projection: a builder that registers nodes and edges, the selected graph, and the
    impact view of a focused node. */
module LineageGraph {
  import opened Text
  import opened Sorting
  import opened LineageSearch

  datatype Node = Node(key: string, stage: string, createdAt: int, status: string)

  datatype Graph = Graph(focusKey: string, nodes: seq<Node>, edges: seq<Edge>, stageCount: map<string, nat>)

  datatype ImpactItem = ImpactItem(node: Node, depth: nat, reason: string)

  datatype Result<+T> = Success(value: T) | NotFound

  function LineageKey(objectType: string, id: string): string { objectType + ":" + id }

  // ---------------------------------------------------------------- orders

  function StageOrder(stage: string): nat {
    if stage == "sources" then 0 else if stage == "knowledge" then 1
    else if stage == "automation" then 2 else if stage == "submission" then 3
    else if stage == "approval" then 4 else if stage == "delivery" then 5
    else if stage == "results" then 6 else if stage == "learning" then 7 else 99
  }

  predicate NodeLe(a: Node, b: Node) {
    if StageOrder(a.stage) != StageOrder(b.stage) then StageOrder(a.stage) < StageOrder(b.stage)
    else if a.createdAt != b.createdAt then a.createdAt < b.createdAt
    else StrLe(a.key, b.key)
  }

  predicate EdgeLe(a: Edge, b: Edge) {
    if a.from != b.from then StrLe(a.from, b.from)
    else if a.to != b.to then StrLe(a.to, b.to)
    else StrLe(a.relation, b.relation)
  }

  predicate ItemLe(a: ImpactItem, b: ImpactItem) {
    if a.depth != b.depth then a.depth < b.depth else StrLe(a.node.key, b.node.key)
  }

  lemma NodeOrder()
    ensures TotalPreorder(NodeLe)
  {
    forall a: Node, b: Node ensures NodeLe(a, b) || NodeLe(b, a) { StrLeTotal(a.key, b.key); }
    forall a: Node, b: Node, c: Node | NodeLe(a, b) && NodeLe(b, c) ensures NodeLe(a, c) {
      if StrLe(a.key, b.key) && StrLe(b.key, c.key) { StrLeTransitive(a.key, b.key, c.key); }
    }
  }

  lemma EdgeOrder()
    ensures TotalPreorder(EdgeLe)
  {
    forall a: Edge, b: Edge ensures EdgeLe(a, b) || EdgeLe(b, a) {
      StrLeTotal(a.from, b.from); StrLeTotal(a.to, b.to); StrLeTotal(a.relation, b.relation);
    }
    forall a: Edge, b: Edge, c: Edge | EdgeLe(a, b) && EdgeLe(b, c) ensures EdgeLe(a, c) {
      EdgeLeTransitive(a, b, c);
    }
  }

  lemma EdgeLeTransitive(a: Edge, b: Edge, c: Edge)
    requires EdgeLe(a, b) && EdgeLe(b, c)
    ensures EdgeLe(a, c)
  {
    if a.from != b.from || b.from != c.from {
      StrLeTotal(a.from, a.from); StrLeTotal(b.from, b.from);
      StrLeTransitive(a.from, b.from, c.from);
      if a.from == c.from { StrLeAntisymmetric(a.from, b.from); }
    } else if a.to != b.to || b.to != c.to {
      StrLeTotal(a.to, a.to); StrLeTotal(b.to, b.to);
      StrLeTransitive(a.to, b.to, c.to);
      if a.to == c.to { StrLeAntisymmetric(a.to, b.to); }
    } else {
      StrLeTransitive(a.relation, b.relation, c.relation);
    }
  }

  lemma ItemOrder()
    ensures TotalPreorder(ItemLe)
  {
    forall a: ImpactItem, b: ImpactItem ensures ItemLe(a, b) || ItemLe(b, a) { StrLeTotal(a.node.key, b.node.key); }
    forall a: ImpactItem, b: ImpactItem, c: ImpactItem | ItemLe(a, b) && ItemLe(b, c) ensures ItemLe(a, c) {
      if a.depth == b.depth == c.depth { StrLeTransitive(a.node.key, b.node.key, c.node.key); }
    }
  }

  // ---------------------------------------------------------------- edge identity

  /** The string the graph deduplicates edges by. */
  function JoinKey(e: Edge): string { e.from + "\0" + e.to + "\0" + e.relation }

  predicate SameLink(a: Edge, b: Edge) { a.from == b.from && a.to == b.to && a.relation == b.relation }

  /** Two different links with one join key: only possible when a key contains the separator. */
  predicate Collide(a: Edge, b: Edge) { JoinKey(a) == JoinKey(b) && !SameLink(a, b) }

  predicate Plain(e: Edge) { '\0' !in e.from && '\0' !in e.to }

  lemma {:induction false} SplitAtSeparator(a: string, x: string, b: string, y: string)
    requires '\0' !in a && '\0' !in b && a + ['\0'] + x == b + ['\0'] + y
    ensures a == b && x == y
    decreases |a|
  {
    var l, r := a + ['\0'] + x, b + ['\0'] + y;
    if a == [] || b == [] {
      assert l[0] == r[0];
      assert a == b == [];
      assert l[1..] == x && r[1..] == y;
    } else {
      assert l[0] == a[0] && r[0] == b[0];
      assert l[1..] == a[1..] + ['\0'] + x && r[1..] == b[1..] + ['\0'] + y;
      SplitAtSeparator(a[1..], x, b[1..], y);
      assert a == [a[0]] + a[1..] && b == [b[0]] + b[1..];
    }
  }

  lemma PlainEdgesNeverCollide(a: Edge, b: Edge)
    requires Plain(a) && Plain(b)
    ensures !Collide(a, b)
  {
    if JoinKey(a) == JoinKey(b) {
      assert JoinKey(a) == a.from + ['\0'] + (a.to + ['\0'] + a.relation);
      assert JoinKey(b) == b.from + ['\0'] + (b.to + ['\0'] + b.relation);
      SplitAtSeparator(a.from, a.to + ['\0'] + a.relation, b.from, b.to + ['\0'] + b.relation);
      SplitAtSeparator(a.to, a.relation, b.to, b.relation);
    }
  }

  /** The deduplicated edge list, whatever keys it is built from. */
  ghost predicate Deduplicated(eligible: seq<Edge>, kept: seq<Edge>) {
    && (forall e :: e in kept ==> e in eligible)
    && Distinct(kept) && (forall k, l :: k in kept && l in kept && JoinKey(k) == JoinKey(l) ==> k == l)
    && (forall e :: e in eligible ==> exists k :: k in kept && JoinKey(k) == JoinKey(e))
  }

  lemma SameLinkJoins(a: Edge, b: Edge)
    requires SameLink(a, b)
    ensures JoinKey(a) == JoinKey(b)
  {
  }

  ghost predicate Represented(kept: seq<Edge>, e: Edge) {
    exists k :: k in kept && SameLink(k, e)
  }

  ghost predicate CollisionFree(eligible: seq<Edge>) {
    forall a, b :: a in eligible && b in eligible ==> !Collide(a, b)
  }

  lemma BothRepresented(eligible: seq<Edge>, kept: seq<Edge>, a: Edge, b: Edge)
    requires Deduplicated(eligible, kept) && Represented(kept, a) && Represented(kept, b)
    ensures !Collide(a, b)
  {
    hide JoinKey;
    if JoinKey(a) == JoinKey(b) {
      var k :| k in kept && SameLink(k, a);
      var l :| l in kept && SameLink(l, b);
      SameLinkJoins(k, a);
      SameLinkJoins(l, b);
    }
  }

  lemma CollisionFreeIsRepresented(eligible: seq<Edge>, kept: seq<Edge>, e: Edge)
    requires Deduplicated(eligible, kept) && CollisionFree(eligible) && e in eligible
    ensures Represented(kept, e)
  {
    hide JoinKey;
    var k :| k in kept && JoinKey(k) == JoinKey(e);
    assert !Collide(k, e);
  }

  /** No link is lost by deduplication exactly when no two links collide. */
  lemma DeduplicationIsLossless(eligible: seq<Edge>, kept: seq<Edge>)
    requires Deduplicated(eligible, kept)
    ensures (forall e :: e in eligible ==> Represented(kept, e)) <==> CollisionFree(eligible)
  {
    hide Deduplicated, Represented, Collide;
    if CollisionFree(eligible) {
      forall e | e in eligible ensures Represented(kept, e) { CollisionFreeIsRepresented(eligible, kept, e); }
    }
    if forall e :: e in eligible ==> Represented(kept, e) {
      forall a, b | a in eligible && b in eligible ensures !Collide(a, b) { BothRepresented(eligible, kept, a, b); }
    }
  }

  /** The first edge of every join key. */
  function Firsts(edges: seq<Edge>): seq<Edge> {
    if edges == [] then []
    else
      var rest, last := Firsts(edges[..|edges| - 1]), edges[|edges| - 1];
      if exists i :: 0 <= i < |rest| && JoinKey(rest[i]) == JoinKey(last) then rest else rest + [last]
  }

  lemma {:induction false} FirstsDeduplicate(edges: seq<Edge>)
    ensures Deduplicated(edges, Firsts(edges))
  {
    hide JoinKey;
    if edges != [] {
      var init, last := edges[..|edges| - 1], edges[|edges| - 1];
      FirstsDeduplicate(init);
      assert edges == init + [last];
      var rest := Firsts(init);
      if i :| 0 <= i < |rest| && JoinKey(rest[i]) == JoinKey(last) {
        assert rest[i] in rest;
      } else {
        KeepAnother(init, rest, last);
      }
    }
  }

  /** An edge whose join key was there before leaves no trace. */
  lemma TwinIsDropped(edges: seq<Edge>, twin: Edge, e: Edge)
    requires twin in edges && JoinKey(twin) == JoinKey(e)
    ensures Firsts(edges + [e]) == Firsts(edges)
  {
    hide JoinKey;
    assert (edges + [e])[..|edges|] == edges;
    FirstsDeduplicate(edges);
    var k :| k in Firsts(edges) && JoinKey(k) == JoinKey(twin);
    var i :| 0 <= i < |Firsts(edges)| && Firsts(edges)[i] == k;
  }

  // ---------------------------------------------------------------- stage counts

  ghost function Total(m: map<string, nat>): nat {
    if m == map[] then 0 else var k :| k in m; m[k] + Total(m - {k})
  }

  lemma {:induction false} TotalWithout(m: map<string, nat>, k: string)
    requires k in m
    ensures Total(m) == m[k] + Total(m - {k})
    decreases |m|
  {
    var c :| c in m && Total(m) == m[c] + Total(m - {c});
    if c != k {
      TotalWithout(m - {c}, k);
      TotalWithout(m - {k}, c);
      assert m - {c} - {k} == m - {k} - {c};
    }
  }

  lemma TotalBump(m: map<string, nat>, k: string)
    ensures Total(m[k := (if k in m then m[k] else 0) + 1]) == Total(m) + 1
  {
    var m' := m[k := (if k in m then m[k] else 0) + 1];
    TotalWithout(m', k);
    if k in m {
      TotalWithout(m, k);
      assert m' - {k} == m - {k};
    } else {
      assert m' - {k} == m;
    }
  }

  // ---------------------------------------------------------------- what the graph promises

  ghost predicate Selected(edges: seq<Edge>, direction: Direction, focusKey: string, k: string) {
    focusKey == "" || Reachable(Followed(edges, direction), focusKey, k)
  }

  /** Edges with both ends in keys, in the order they were registered. */
  function Eligible(edges: seq<Edge>, keys: set<string>): (r: seq<Edge>)
    ensures forall e :: e in r <==> e in edges && e.from in keys && e.to in keys
  {
    if edges == [] then [] else
    var last := edges[|edges| - 1];
    Eligible(edges[..|edges| - 1], keys) + if last.from in keys && last.to in keys then [last] else []
  }

  ghost function OfStage(nodes: seq<Node>, stage: string): set<Node> {
    set n | n in nodes && n.stage == stage
  }

  ghost predicate Counts(nodes: seq<Node>, stageCount: map<string, nat>) {
    && (forall s :: s in stageCount ==> stageCount[s] == |OfStage(nodes, s)|)
    && (forall n :: n in nodes ==> n.stage in stageCount)
    && Total(stageCount) == |nodes|
  }

  ghost predicate GraphOf(nodes: map<string, Node>, edges: seq<Edge>, direction: Direction, g: Graph) {
    var keys := set k | k in nodes && Selected(edges, direction, g.focusKey, k);
    && Distinct(g.nodes) && (forall n :: n in g.nodes <==> n.key in keys && nodes[n.key] == n)
    && Ordered(g.nodes, NodeLe)
    && Counts(g.nodes, g.stageCount)
    && Deduplicated(Eligible(edges, keys), g.edges) && multiset(g.edges) == multiset(Firsts(Eligible(edges, keys)))
    && Ordered(g.edges, EdgeLe)
  }

  lemma CountOne(nodes: seq<Node>, stageCount: map<string, nat>, n: Node)
    requires Counts(nodes, stageCount) && n !in nodes
    ensures Counts(nodes + [n], stageCount[n.stage := (if n.stage in stageCount then stageCount[n.stage] else 0) + 1])
  {
    var more := nodes + [n];
    TotalBump(stageCount, n.stage);
    assert OfStage(more, n.stage) == OfStage(nodes, n.stage) + {n};
    if n.stage !in stageCount {
      assert OfStage(nodes, n.stage) == {};
    }
    forall s | s in stageCount && s != n.stage ensures OfStage(more, s) == OfStage(nodes, s) {
    }
  }

  lemma CountsPermute(xs: seq<Node>, ys: seq<Node>, stageCount: map<string, nat>)
    requires Counts(xs, stageCount) && multiset(xs) == multiset(ys)
    ensures Counts(ys, stageCount)
  {
    PermutationMembers(xs, ys);
    forall s | s in stageCount ensures OfStage(ys, s) == OfStage(xs, s) {
    }
  }

  lemma DeduplicatedPermutes(eligible: seq<Edge>, xs: seq<Edge>, ys: seq<Edge>)
    requires Deduplicated(eligible, xs) && multiset(xs) == multiset(ys)
    ensures Deduplicated(eligible, ys)
  {
    hide JoinKey;
    PermutationMembers(xs, ys);
    PermutationDistinct(xs, ys);
    forall e | e in eligible ensures exists k :: k in ys && JoinKey(k) == JoinKey(e) {
      var k :| k in xs && JoinKey(k) == JoinKey(e);
      assert k in ys;
    }
  }

  /** The loop that keeps the first edge of every join key. */
  method KeepFirst(edges: seq<Edge>, keys: set<string>) returns (kept: seq<Edge>)
    ensures kept == Firsts(Eligible(edges, keys)) && Deduplicated(Eligible(edges, keys), kept)
  {
    hide JoinKey, Firsts, Deduplicated, Eligible;
    kept := [];
    var seen: set<string> := {};
    FirstsOfNone(edges, keys);
    for i := 0 to |edges|
      invariant kept == Firsts(Eligible(edges[..i], keys)) && seen == JoinKeys(kept)
    {
      var e := edges[i];
      FirstsStep(edges, keys, i);
      if e.from !in keys || e.to !in keys {
        continue;
      }
      var key := JoinKey(e);
      if key in seen {
        continue;
      }
      seen := seen + {key};
      kept := kept + [e];
    }
    assert edges[..|edges|] == edges;
    FirstsDeduplicate(Eligible(edges, keys));
  }

  ghost function JoinKeys(edges: seq<Edge>): set<string> { set i | 0 <= i < |edges| :: JoinKey(edges[i]) }

  lemma FirstsOfNone(edges: seq<Edge>, keys: set<string>)
    ensures Firsts(Eligible(edges[..0], keys)) == [] && JoinKeys([]) == {}
  {
  }

  /** What one more registered edge adds. */
  lemma FirstsStep(edges: seq<Edge>, keys: set<string>, i: nat)
    requires i < |edges|
    ensures var e, before := edges[i], Firsts(Eligible(edges[..i], keys));
            var adds := e.from in keys && e.to in keys && JoinKey(e) !in JoinKeys(before);
            && Firsts(Eligible(edges[..i + 1], keys)) == (if adds then before + [e] else before)
            && JoinKeys(before + [e]) == JoinKeys(before) + {JoinKey(e)}
  {
    hide JoinKey, Firsts, Eligible, JoinKeys;
    EligibleStep(edges, keys, i);
    FirstsAppend(Eligible(edges[..i], keys), edges[i]);
    JoinKeysStep(Firsts(Eligible(edges[..i], keys)), edges[i]);
  }

  lemma EligibleStep(edges: seq<Edge>, keys: set<string>, i: nat)
    requires i < |edges|
    ensures Eligible(edges[..i + 1], keys)
            == if edges[i].from in keys && edges[i].to in keys then Eligible(edges[..i], keys) + [edges[i]]
               else Eligible(edges[..i], keys)
  {
    assert edges[..i + 1][..i] == edges[..i];
  }

  lemma FirstsAppend(edges: seq<Edge>, e: Edge)
    ensures Firsts(edges + [e]) == if JoinKey(e) in JoinKeys(Firsts(edges)) then Firsts(edges) else Firsts(edges) + [e]
  {
    hide JoinKey;
    assert (edges + [e])[..|edges|] == edges;
  }

  lemma JoinKeysStep(edges: seq<Edge>, e: Edge)
    ensures JoinKeys(edges + [e]) == JoinKeys(edges) + {JoinKey(e)}
  {
    hide JoinKey;
    var more := edges + [e];
    forall s | s in JoinKeys(edges) ensures s in JoinKeys(more) {
      var i :| 0 <= i < |edges| && JoinKey(edges[i]) == s;
      assert JoinKey(more[i]) == s;
    }
    assert JoinKey(more[|edges|]) == JoinKey(e);
  }

  lemma KeepAnother(eligible: seq<Edge>, kept: seq<Edge>, e: Edge)
    requires Deduplicated(eligible, kept)
    requires forall k :: k in kept ==> JoinKey(k) != JoinKey(e)
    ensures Deduplicated(eligible + [e], kept + [e])
  {
    hide JoinKey;
    assert e !in kept;
    assert Distinct(kept + [e]);
    forall x | x in eligible + [e] ensures exists k :: k in kept + [e] && JoinKey(k) == JoinKey(x) {
      if x in eligible {
        var k :| k in kept && JoinKey(k) == JoinKey(x);
        assert k in kept + [e];
      } else {
        assert e in kept + [e];
      }
    }
  }

  /** The loop over the selected keys, in any order: registered ones become nodes and are counted. */
  method CollectNodes(nodes: map<string, Node>, selected: set<string>)
    returns (list: seq<Node>, stageCount: map<string, nat>)
    requires forall k :: k in nodes ==> nodes[k].key == k
    ensures Distinct(list) && forall n :: n in list <==> n.key in selected && n.key in nodes && nodes[n.key] == n
    ensures Counts(list, stageCount)
  {
    list, stageCount := [], map[];
    var rest := selected;
    while rest != {}
      invariant rest <= selected
      invariant Distinct(list)
      invariant forall n :: n in list <==> n.key in selected - rest && n.key in nodes && nodes[n.key] == n
      invariant Counts(list, stageCount)
      decreases rest
    {
      var key :| key in rest;
      rest := rest - {key};
      if key in nodes {
        var n := nodes[key];
        assert n !in list;
        CountOne(list, stageCount, n);
        list := list + [n];
        stageCount := stageCount[n.stage := (if n.stage in stageCount then stageCount[n.stage] else 0) + 1];
      }
    }
  }

  // ---------------------------------------------------------------- what the focused impact view promises

  /** Arcs between registered nodes only. */
  ghost function Registered(nodes: map<string, Node>, edges: seq<Edge>): Arcs {
    set i | 0 <= i < |edges| && edges[i].from in nodes && edges[i].to in nodes :: (edges[i].from, edges[i].to)
  }

  /** The node lies at a shortest distance over the arcs, and the reason is that of an edge from a
      node one step nearer. */
  ghost predicate ItemOk(nodes: map<string, Node>, edges: seq<Edge>, arcs: Arcs, focus: string, item: ImpactItem) {
    && item.node.key != focus && item.node.key in nodes && nodes[item.node.key] == item.node
    && Shortest(arcs, focus, item.node.key, item.depth)
    && exists e :: e in edges && e.from in nodes && e.to == item.node.key && e.reason == item.reason
                && 0 < item.depth && Shortest(arcs, focus, e.from, item.depth - 1)
  }

  /** Exactly the registered nodes other than the focus that the focus reaches over the arcs, each
      once, at its shortest distance, ordered by depth then key. */
  ghost predicate ImpactOf(nodes: map<string, Node>, edges: seq<Edge>, arcs: Arcs, focus: string,
                           items: seq<ImpactItem>) {
    && (forall item :: item in items ==> ItemOk(nodes, edges, arcs, focus, item))
    && (forall k :: k in nodes && k != focus && Reachable(arcs, focus, k) ==>
          exists item :: item in items && item.node.key == k)
    && (forall i, j :: 0 <= i < j < |items| ==> items[i].node.key != items[j].node.key)
    && Ordered(items, ItemLe)
  }

  lemma ReachableMonotone(arcs: Arcs, more: Arcs, a: string, b: string)
    requires arcs <= more && Reachable(arcs, a, b)
    ensures Reachable(more, a, b)
  {
    var n: nat :| Walk(arcs, a, b, n);
    WalkMonotone(arcs, more, a, b, n);
  }

  ghost function SelectedKeys(nodes: map<string, Node>, edges: seq<Edge>, focus: string): set<string> {
    set k | k in nodes && Selected(edges, Downstream, focus, k)
  }

  /** The links the focused graph keeps, and the view searches. */
  ghost function KeptLinks(nodes: map<string, Node>, edges: seq<Edge>, focus: string): seq<Edge> {
    Firsts(Eligible(edges, SelectedKeys(nodes, edges, focus)))
  }

  lemma SameArcs(xs: seq<Edge>, ys: seq<Edge>)
    requires forall e :: e in xs <==> e in ys
    ensures ArcsOf(xs) == ArcsOf(ys)
  {
    forall a | a in ArcsOf(xs) ensures a in ArcsOf(ys) { ArcHasEdge(xs, a); ArcOfMember(ys, a); }
    forall a | a in ArcsOf(ys) ensures a in ArcsOf(xs) { ArcHasEdge(ys, a); ArcOfMember(xs, a); }
  }

  lemma ArcHasEdge(edges: seq<Edge>, a: (string, string))
    requires a in ArcsOf(edges)
    ensures exists e :: e in edges && e.from == a.0 && e.to == a.1
  {
    var i :| 0 <= i < |edges| && (edges[i].from, edges[i].to) == a;
    assert edges[i] in edges && edges[i].from == a.0 && edges[i].to == a.1;
  }

  lemma ArcOfMember(edges: seq<Edge>, a: (string, string))
    requires exists e :: e in edges && e.from == a.0 && e.to == a.1
    ensures a in ArcsOf(edges)
  {
    var e :| e in edges && e.from == a.0 && e.to == a.1;
    var i :| 0 <= i < |edges| && edges[i] == e;
    assert (edges[i].from, edges[i].to) == a;
  }

  lemma KeptIsRegistered(nodes: map<string, Node>, edges: seq<Edge>, focus: string)
    ensures forall e :: e in KeptLinks(nodes, edges, focus) ==> e in edges && e.from in nodes && e.to in nodes
    ensures ArcsOf(KeptLinks(nodes, edges, focus)) <= Registered(nodes, edges)
  {
    var kept := KeptLinks(nodes, edges, focus);
    FirstsDeduplicate(Eligible(edges, SelectedKeys(nodes, edges, focus)));
    forall a | a in ArcsOf(kept) ensures a in Registered(nodes, edges) {
      ArcHasEdge(kept, a);
      var e :| e in kept && e.from == a.0 && e.to == a.1;
      var i :| 0 <= i < |edges| && edges[i] == e;
    }
  }

  // ---------------------------------------------------------------- when the view is exact

  /** A link between registered nodes that the graph does not keep. */
  ghost predicate Lost(nodes: map<string, Node>, edges: seq<Edge>, focus: string, e: Edge) {
    e in edges && e.from in nodes && e.to in nodes && !Represented(KeptLinks(nodes, edges, focus), e)
  }

  /** Following the link is no shorter than going round over the arcs. */
  ghost predicate NoShortcut(arcs: Arcs, focus: string, e: Edge) {
    forall n: nat :: Walk(arcs, focus, e.from, n) ==> exists m: nat :: m <= n + 1 && Walk(arcs, focus, e.to, m)
  }

  ghost predicate LosesNoShortcut(nodes: map<string, Node>, edges: seq<Edge>, focus: string) {
    forall e :: Lost(nodes, edges, focus, e) ==> NoShortcut(ArcsOf(KeptLinks(nodes, edges, focus)), focus, e)
  }

  lemma {:induction false} KeptWalkIsAsShort(nodes: map<string, Node>, edges: seq<Edge>, focus: string, k: string,
                                             n: nat)
    returns (m: nat)
    requires LosesNoShortcut(nodes, edges, focus) && Walk(Registered(nodes, edges), focus, k, n)
    ensures m <= n && Walk(ArcsOf(KeptLinks(nodes, edges, focus)), focus, k, m)
    decreases n
  {
    hide KeptLinks;
    var kept := KeptLinks(nodes, edges, focus);
    if n == 0 {
      m := 0;
    } else {
      var c :| Walk(Registered(nodes, edges), focus, c, n - 1) && (c, k) in Registered(nodes, edges);
      var before := KeptWalkIsAsShort(nodes, edges, focus, c, n - 1);
      var i :| 0 <= i < |edges| && edges[i].from == c && edges[i].to == k && c in nodes && k in nodes;
      if Represented(kept, edges[i]) {
        ArcOfMember(kept, (c, k));
        WalkStep(ArcsOf(kept), focus, c, k, before);
        m := before + 1;
      } else {
        assert Lost(nodes, edges, focus, edges[i]);
        m :| m <= before + 1 && Walk(ArcsOf(kept), focus, k, m);
      }
    }
  }

  lemma SameShortest(nodes: map<string, Node>, edges: seq<Edge>, focus: string, k: string, n: nat)
    requires LosesNoShortcut(nodes, edges, focus)
    ensures Shortest(ArcsOf(KeptLinks(nodes, edges, focus)), focus, k, n)
            <==> Shortest(Registered(nodes, edges), focus, k, n)
  {
    hide KeptLinks, LosesNoShortcut, Registered;
    var kept, all := ArcsOf(KeptLinks(nodes, edges, focus)), Registered(nodes, edges);
    KeptIsRegistered(nodes, edges, focus);
    forall m: nat | Walk(kept, focus, k, m) ensures Walk(all, focus, k, m) { WalkMonotone(kept, all, focus, k, m); }
    forall m: nat | Walk(all, focus, k, m) ensures exists l: nat :: l <= m && Walk(kept, focus, k, l) {
      var l := KeptWalkIsAsShort(nodes, edges, focus, k, m);
    }
  }

  /** The view, which searches the kept links, shows exactly what the focus reaches through
      registered nodes if and only if no lost link is a shortcut. */
  lemma ImpactIsExact(nodes: map<string, Node>, edges: seq<Edge>, focus: string, items: seq<ImpactItem>)
    requires var kept := KeptLinks(nodes, edges, focus); ImpactOf(nodes, kept, ArcsOf(kept), focus, items)
    ensures ImpactOf(nodes, edges, Registered(nodes, edges), focus, items) <==> LosesNoShortcut(nodes, edges, focus)
  {
    hide KeptLinks, LosesNoShortcut, ItemOk;
    if LosesNoShortcut(nodes, edges, focus) { ExactWithoutShortcuts(nodes, edges, focus, items); }
    if ImpactOf(nodes, edges, Registered(nodes, edges), focus, items) {
      hide ImpactOf;
      forall e | Lost(nodes, edges, focus, e) ensures NoShortcut(ArcsOf(KeptLinks(nodes, edges, focus)), focus, e) {
        ExactLosesNoShortcut(nodes, edges, focus, items, e);
      }
      assert LosesNoShortcut(nodes, edges, focus) by { Collected(nodes, edges, focus); }
    }
  }

  lemma Collected(nodes: map<string, Node>, edges: seq<Edge>, focus: string)
    requires forall e :: Lost(nodes, edges, focus, e) ==> NoShortcut(ArcsOf(KeptLinks(nodes, edges, focus)), focus, e)
    ensures LosesNoShortcut(nodes, edges, focus)
  {
  }

  lemma ExactWithoutShortcuts(nodes: map<string, Node>, edges: seq<Edge>, focus: string, items: seq<ImpactItem>)
    requires var kept := KeptLinks(nodes, edges, focus); ImpactOf(nodes, kept, ArcsOf(kept), focus, items)
    requires LosesNoShortcut(nodes, edges, focus)
    ensures ImpactOf(nodes, edges, Registered(nodes, edges), focus, items)
  {
    hide KeptLinks, LosesNoShortcut, Registered, Shortest, Walk;
    KeptIsRegistered(nodes, edges, focus);
    forall k, n: nat
      ensures Shortest(ArcsOf(KeptLinks(nodes, edges, focus)), focus, k, n)
              <==> Shortest(Registered(nodes, edges), focus, k, n)
    {
      SameShortest(nodes, edges, focus, k, n);
    }
    forall k | k in nodes && k != focus && Reachable(Registered(nodes, edges), focus, k)
      ensures exists item :: item in items && item.node.key == k
    {
      var n: nat :| Walk(Registered(nodes, edges), focus, k, n);
      var m := KeptWalkIsAsShort(nodes, edges, focus, k, n);
      assert Reachable(ArcsOf(KeptLinks(nodes, edges, focus)), focus, k);
    }
  }

  lemma ExactLosesNoShortcut(nodes: map<string, Node>, edges: seq<Edge>, focus: string, items: seq<ImpactItem>, e: Edge)
    requires var kept := KeptLinks(nodes, edges, focus); ImpactOf(nodes, kept, ArcsOf(kept), focus, items)
    requires ImpactOf(nodes, edges, Registered(nodes, edges), focus, items) && Lost(nodes, edges, focus, e)
    ensures NoShortcut(ArcsOf(KeptLinks(nodes, edges, focus)), focus, e)
  {
    hide KeptLinks, Represented;
    var kept, all := ArcsOf(KeptLinks(nodes, edges, focus)), Registered(nodes, edges);
    KeptIsRegistered(nodes, edges, focus);
    forall n: nat | Walk(kept, focus, e.from, n) ensures exists m: nat :: m <= n + 1 && Walk(kept, focus, e.to, m) {
      WalkMonotone(kept, all, focus, e.from, n);
      assert (e.from, e.to) in all;
      WalkStep(all, focus, e.from, e.to, n);
      if e.to == focus {
        assert Walk(kept, focus, focus, 0);
      } else {
        assert Reachable(all, focus, e.to);
        var item :| item in items && item.node.key == e.to;
        assert ItemOk(nodes, edges, all, focus, item);
        assert ItemOk(nodes, KeptLinks(nodes, edges, focus), kept, focus, item);
        assert item.depth <= n + 1;
      }
    }
  }

  /** Without colliding links nothing reachable is lost, so the view is exact. */
  lemma CollisionFreeImpactIsExact(nodes: map<string, Node>, edges: seq<Edge>, focus: string, items: seq<ImpactItem>)
    requires forall e :: e in edges ==> e.from != "" && e.to != ""
    requires var kept := KeptLinks(nodes, edges, focus); ImpactOf(nodes, kept, ArcsOf(kept), focus, items)
    requires CollisionFree(edges)
    ensures ImpactOf(nodes, edges, Registered(nodes, edges), focus, items)
  {
    forall e | Lost(nodes, edges, focus, e) ensures NoShortcut(ArcsOf(KeptLinks(nodes, edges, focus)), focus, e) {
      LostIsOutOfReach(nodes, edges, focus, e);
    }
    hide ImpactOf;
    assert LosesNoShortcut(nodes, edges, focus);
    ImpactIsExact(nodes, edges, focus, items);
  }

  lemma LostIsOutOfReach(nodes: map<string, Node>, edges: seq<Edge>, focus: string, e: Edge)
    requires forall x :: x in edges ==> x.from != "" && x.to != ""
    requires CollisionFree(edges) && Lost(nodes, edges, focus, e)
    ensures forall n: nat :: !Walk(ArcsOf(KeptLinks(nodes, edges, focus)), focus, e.from, n)
  {
    hide JoinKey, Collide;
    var kept, followed := ArcsOf(KeptLinks(nodes, edges, focus)), Followed(edges, Downstream);
    var keys := SelectedKeys(nodes, edges, focus);
    KeptIsRegistered(nodes, edges, focus);
    assert Registered(nodes, edges) <= followed;
    FirstsDeduplicate(Eligible(edges, keys));
    assert CollisionFree(Eligible(edges, keys));
    if e in Eligible(edges, keys) {
      CollisionFreeIsRepresented(Eligible(edges, keys), KeptLinks(nodes, edges, focus), e);
    }
    assert e.from !in keys || e.to !in keys;
    assert (e.from, e.to) in followed;
    if Reachable(followed, focus, e.from) { StepReachable(followed, focus, e.from, e.to); }
    assert !Reachable(followed, focus, e.from);
    forall n: nat ensures !Walk(kept, focus, e.from, n) {
      if Walk(kept, focus, e.from, n) { WalkMonotone(kept, followed, focus, e.from, n); }
    }
  }

  // ---------------------------------------------------------------- from the search to the items

  ghost predicate ItemFrom(g: Graph, depth: map<string, nat>, reasons: map<string, string>, focus: string,
                           item: ImpactItem) {
    var k := item.node.key;
    item.node in g.nodes && k != focus && k in depth && k in reasons && item.depth == depth[k]
    && item.reason == reasons[k]
  }

  /** What the search of the focused graph has found out. */
  ghost predicate Searched(g: Graph, depth: map<string, nat>, reasons: map<string, string>) {
    && (forall k :: k in depth <==> Reachable(ArcsOf(g.edges), g.focusKey, k))
    && (forall k :: k in depth ==> Shortest(ArcsOf(g.edges), g.focusKey, k, depth[k]))
    && reasons.Keys == depth.Keys - {g.focusKey}
    && (forall k :: k in reasons ==> ReasonFor(g.edges, depth, k, reasons[k]))
  }

  lemma GraphEnds(nodes: map<string, Node>, edges: seq<Edge>, g: Graph)
    requires GraphOf(nodes, edges, Downstream, g)
    ensures forall e :: e in g.edges ==> e.from in nodes && e.to in nodes
    ensures forall n :: n in g.nodes ==> n.key in nodes && nodes[n.key] == n
  {
    hide Selected, Ordered, Counts, JoinKey, Firsts;
  }

  lemma ItemIsOk(nodes: map<string, Node>, edges: seq<Edge>, g: Graph, depth: map<string, nat>, reasons: map<string,
                 string>, item: ImpactItem)
    requires GraphOf(nodes, edges, Downstream, g) && Searched(g, depth, reasons)
    requires ItemFrom(g, depth, reasons, g.focusKey, item)
    ensures ItemOk(nodes, g.edges, ArcsOf(g.edges), g.focusKey, item)
  {
    hide Shortest, Reachable, GraphOf;
    GraphEnds(nodes, edges, g);
    var k := item.node.key;
    assert ReasonFor(g.edges, depth, k, reasons[k]);
    var i :| 0 <= i < |g.edges| && g.edges[i].to == k && g.edges[i].reason == reasons[k]
             && g.edges[i].from in depth && depth[g.edges[i].from] + 1 == depth[k];
    assert g.edges[i] in g.edges;
  }

  /** Whatever the search reaches, other than the focus, is a node of the graph. */
  lemma ReachedHasItem(nodes: map<string, Node>, edges: seq<Edge>, g: Graph, depth: map<string, nat>,
                       reasons: map<string, string>, k: string)
    returns (item: ImpactItem)
    requires GraphOf(nodes, edges, Downstream, g) && Searched(g, depth, reasons)
    requires k in nodes && nodes[k].key == k && k != g.focusKey && Reachable(ArcsOf(g.edges), g.focusKey, k)
    ensures ItemFrom(g, depth, reasons, g.focusKey, item) && item.node.key == k
  {
    hide Shortest, Ordered, Counts, JoinKey, Firsts, ReasonFor;
    var n: nat :| Walk(ArcsOf(g.edges), g.focusKey, k, n);
    var c :| Walk(ArcsOf(g.edges), g.focusKey, c, n - 1) && (c, k) in ArcsOf(g.edges);
    var i :| 0 <= i < |g.edges| && g.edges[i].from == c && g.edges[i].to == k;
    assert g.edges[i] in g.edges;
    assert nodes[k] in g.nodes;
    item := ImpactItem(nodes[k], depth[k], reasons[k]);
  }

  /** The items computed from the graph are the impact over its links. */
  lemma ItemsAreImpact(nodes: map<string, Node>, edges: seq<Edge>, g: Graph, depth: map<string, nat>,
                       reasons: map<string, string>,
                       items: seq<ImpactItem>)
    requires GraphOf(nodes, edges, Downstream, g) && Searched(g, depth, reasons)
    requires forall k :: k in nodes ==> nodes[k].key == k
    requires forall item :: item in items <==> ItemFrom(g, depth, reasons, g.focusKey, item)
    ensures forall item :: item in items ==> ItemOk(nodes, g.edges, ArcsOf(g.edges), g.focusKey, item)
    ensures forall k :: k in nodes && k != g.focusKey && Reachable(ArcsOf(g.edges), g.focusKey, k)
              ==> exists item :: item in items && item.node.key == k
  {
    hide GraphOf, Searched, Reachable, ItemOk, ItemFrom;
    forall item | item in items ensures ItemOk(nodes, g.edges, ArcsOf(g.edges), g.focusKey, item) {
      ItemIsOk(nodes, edges, g, depth, reasons, item);
    }
    forall k | k in nodes && k != g.focusKey && Reachable(ArcsOf(g.edges), g.focusKey, k)
      ensures exists item :: item in items && item.node.key == k
    {
      var item := ReachedHasItem(nodes, edges, g, depth, reasons, k);
      assert item in items;
    }
  }

  /** The graph's links are the kept ones, in another order. */
  lemma GraphKeeps(nodes: map<string, Node>, edges: seq<Edge>, g: Graph, items: seq<ImpactItem>)
    requires GraphOf(nodes, edges, Downstream, g) && ImpactOf(nodes, g.edges, ArcsOf(g.edges), g.focusKey, items)
    ensures var kept := KeptLinks(nodes, edges, g.focusKey); ImpactOf(nodes, kept, ArcsOf(kept), g.focusKey, items)
  {
    hide Shortest, Reachable, Ordered, Counts, JoinKey, Firsts, Deduplicated;
    var kept := KeptLinks(nodes, edges, g.focusKey);
    PermutationMembers(g.edges, kept);
    SameArcs(g.edges, kept);
    forall item | item in items ensures ItemOk(nodes, kept, ArcsOf(kept), g.focusKey, item) {
      assert ItemOk(nodes, g.edges, ArcsOf(g.edges), g.focusKey, item);
    }
  }

  class Builder {
    var nodes: map<string, Node>
    var edges: seq<Edge>

    ghost predicate Valid()
      reads this
    {
      && (forall k :: k in nodes ==> nodes[k].key == k)
      && (forall e :: e in edges ==> e.from != "" && e.to != "")
    }

    constructor ()
      ensures Valid() && nodes == map[] && edges == []
    {
      nodes, edges := map[], [];
    }

    method AddNode(objectType: string, id: string, stage: string, createdAt: int, status: string)
      requires Valid()
      modifies this`nodes
      ensures Valid()
      ensures nodes == if id == "" then old(nodes)
                       else old(nodes)[objectType + ":" + id := Node(objectType + ":" + id, stage, createdAt, status)]
    {
      if id != "" {
        nodes := nodes[LineageKey(objectType, id) := Node(LineageKey(objectType, id), stage, createdAt, status)];
      }
    }

    method AddEdge(fromType: string, fromId: string, toType: string, toId: string, relation: string, reason: string)
      requires Valid()
      modifies this`edges
      ensures Valid()
      ensures edges == if fromId == "" || toId == "" then old(edges)
                       else old(edges) + [Edge(fromType + ":" + fromId, toType + ":" + toId, relation, reason)]
    {
      if fromId != "" && toId != "" {
        edges := edges + [Edge(LineageKey(fromType, fromId), LineageKey(toType, toId), relation, reason)];
      }
    }

    /** Selected nodes and edges, each once, in order, with stage counts that add up. */
    method BuildGraph(focusType: string, focusId: string, direction: Direction) returns (r: Result<Graph>)
      requires Valid()
      ensures r.NotFound? <==> focusId != "" && LineageKey(focusType, focusId) !in nodes
      ensures r.Success? ==> r.value.focusKey == (if focusId == "" then "" else LineageKey(focusType, focusId))
      ensures r.Success? ==> GraphOf(nodes, edges, direction, r.value)
    {
      var focusKey := "";
      var selected := nodes.Keys;
      if focusId != "" {
        focusKey := LineageKey(focusType, focusId);
        if focusKey !in nodes {
          return NotFound;
        }
        selected := ConnectedKeys(focusKey, edges, direction);
      }
      ghost var keys := set k | k in nodes && Selected(edges, direction, focusKey, k);
      var present := set k | k in selected && k in nodes;
      assert present == keys;
      var list, stageCount := CollectNodes(nodes, selected);
      NodeOrder();
      var sorted := SortBy(list, NodeLe);
      PermutationMembers(list, sorted);
      PermutationDistinct(list, sorted);
      CountsPermute(list, sorted, stageCount);
      var kept := KeepFirst(edges, present);
      EdgeOrder();
      var links := SortBy(kept, EdgeLe);
      DeduplicatedPermutes(Eligible(edges, keys), kept, links);
      r := Success(Graph(focusKey, sorted, links, stageCount));
    }

    /** The downstream impact of one node: exactly what it reaches over the links the graph keeps. */
    method FocusedImpact(focusType: string, focusId: string) returns (r: Result<seq<ImpactItem>>)
      requires Valid() && focusId != ""
      ensures r.NotFound? <==> LineageKey(focusType, focusId) !in nodes
      ensures r.Success? ==> var focus := LineageKey(focusType, focusId);
                             var kept := KeptLinks(nodes, edges, focus);
                             && ImpactOf(nodes, kept, ArcsOf(kept), focus, r.value)
                             && (ImpactOf(nodes, edges, Registered(nodes, edges), focus, r.value)
                                 <==> LosesNoShortcut(nodes, edges, focus))
    {
      hide ItemOk, GraphOf, Searched, Registered, KeptLinks, LosesNoShortcut;
      var graph := BuildGraph(focusType, focusId, Downstream);
      if graph.NotFound? {
        return NotFound;
      }
      var g := graph.value;
      var focus := g.focusKey;
      var depth, reasons := DownstreamDepth(focus, g.edges);
      assert Searched(g, depth, reasons) by { SearchIs(g, depth, reasons); }
      assert Distinct(g.nodes) && (forall a, b :: a in g.nodes && b in g.nodes && a.key == b.key ==> a == b) by {
        GraphNodesDistinct(nodes, edges, Downstream, g);
      }
      var items := CollectItems(g, depth, reasons, focus);
      ItemOrder();
      var sorted := SortBy(items, ItemLe);
      PermutationMembers(items, sorted);
      ItemsAreImpact(nodes, edges, g, depth, reasons, sorted);
      DistinctKeysPermute(items, sorted);
      GraphKeeps(nodes, edges, g, sorted);
      ImpactIsExact(nodes, edges, focus, sorted);
      r := Success(sorted);
    }
  }

  lemma SearchIs(g: Graph, depth: map<string, nat>, reasons: map<string, string>)
    requires forall k :: k in depth <==> Reachable(ArcsOf(g.edges), g.focusKey, k)
    requires forall k :: k in depth ==> Shortest(ArcsOf(g.edges), g.focusKey, k, depth[k])
    requires reasons.Keys == depth.Keys - {g.focusKey}
    requires forall k :: k in reasons ==> ReasonFor(g.edges, depth, k, reasons[k])
    ensures Searched(g, depth, reasons)
  {
  }

  lemma GraphNodesDistinct(nodes: map<string, Node>, edges: seq<Edge>, direction: Direction, g: Graph)
    requires GraphOf(nodes, edges, direction, g)
    ensures Distinct(g.nodes) && forall a, b :: a in g.nodes && b in g.nodes && a.key == b.key ==> a == b
  {
  }

  lemma DistinctKeysPermute(xs: seq<ImpactItem>, ys: seq<ImpactItem>)
    requires multiset(xs) == multiset(ys)
    requires Distinct(xs) && forall a, b :: a in xs && b in xs && a.node.key == b.node.key ==> a == b
    ensures forall i, j :: 0 <= i < j < |ys| ==> ys[i].node.key != ys[j].node.key
  {
    PermutationMembers(xs, ys);
    PermutationDistinct(xs, ys);
    forall i, j | 0 <= i < j < |ys| ensures ys[i].node.key != ys[j].node.key {
      assert ys[i] in ys && ys[j] in ys && ys[i] != ys[j];
    }
  }

  /** The loop over the graph's nodes. */
  method CollectItems(g: Graph, depth: map<string, nat>, reasons: map<string, string>, focus: string)
    returns (items: seq<ImpactItem>)
    requires reasons.Keys == depth.Keys - {focus}
    requires Distinct(g.nodes) && forall a, b :: a in g.nodes && b in g.nodes && a.key == b.key ==> a == b
    ensures forall item :: item in items <==> ItemFrom(g, depth, reasons, focus, item)
    ensures Distinct(items) && forall a, b :: a in items && b in items && a.node.key == b.node.key ==> a == b
  {
    items := [];
    for i := 0 to |g.nodes|
      invariant forall item :: item in items <==> ItemFrom(g, depth, reasons, focus, item) && item.node in g.nodes[..i]
      invariant Distinct(items)
    {
      var n := g.nodes[i];
      assert n !in g.nodes[..i];
      if n.key == focus || n.key !in depth {
        continue;
      }
      items := items + [ImpactItem(n, depth[n.key], reasons[n.key])];
    }
    assert g.nodes[..|g.nodes|] == g.nodes;
  }

  // ---------------------------------------------------------------- read off the registered nodes and edges

  const STAGES := ["sources", "knowledge", "automation", "submission", "approval", "delivery", "results", "learning"]

  /** The stages in the order of the work, anything else after them. */
  lemma StagesInOrder(i: nat, j: nat, other: string)
    requires i < j < |STAGES|
    ensures StageOrder(STAGES[i]) < StageOrder(STAGES[j])
    ensures other !in STAGES ==> StageOrder(STAGES[j]) < StageOrder(other)
  {
    assert STAGES[0] == "sources" && STAGES[1] == "knowledge" && STAGES[2] == "automation";
    assert STAGES[3] == "submission" && STAGES[4] == "approval" && STAGES[5] == "delivery";
    assert STAGES[6] == "results" && STAGES[7] == "learning";
  }

  /** An edge is kept exactly when both ends are selected and no earlier one between selected ends has the
      same start, end and relation, joined. */
  lemma {:induction false} KeptAre(edges: seq<Edge>, keys: set<string>, e: Edge)
    ensures e in Firsts(Eligible(edges, keys))
            <==> HasFirst(edges, keys, e)
  {
    hide JoinKey, JoinKeys, FirstOfItsKind;
    if edges == [] {
      assert Eligible(edges, keys) == [];
    } else {
      hide Firsts, Eligible;
      KeptStep(edges, keys, e);
      KeptAre(edges[..|edges| - 1], keys, e);
      KindStep(edges, keys, e);
    }
  }

  ghost predicate HasFirst(edges: seq<Edge>, keys: set<string>, e: Edge) {
    exists i :: 0 <= i < |edges| && edges[i] == e && FirstOfItsKind(edges, keys, i)
  }

  lemma KindStep(edges: seq<Edge>, keys: set<string>, e: Edge)
    requires edges != []
    ensures var n := |edges| - 1;
            HasFirst(edges, keys, e)
            <==> HasFirst(edges[..n], keys, e) || (e == edges[n] && FirstOfItsKind(edges, keys, n))
  {
    hide FirstOfItsKind;
    var n := |edges| - 1;
    var init := edges[..n];
    if HasFirst(init, keys, e) {
      var i :| 0 <= i < n && init[i] == e && FirstOfItsKind(init, keys, i);
      SameKindBefore(edges, keys, i);
      assert edges[i] == e;
    }
    if HasFirst(edges, keys, e) {
      var i :| 0 <= i < |edges| && edges[i] == e && FirstOfItsKind(edges, keys, i);
      if i < n {
        SameKindBefore(edges, keys, i);
        assert init[i] == e;
      }
    }
  }

  lemma KeptStep(edges: seq<Edge>, keys: set<string>, e: Edge)
    requires edges != []
    ensures var n := |edges| - 1;
            e in Firsts(Eligible(edges, keys))
            <==> e in Firsts(Eligible(edges[..n], keys)) || (e == edges[n] && FirstOfItsKind(edges, keys, n))
  {
    hide JoinKey, JoinKeys, FirstOfItsKind, Firsts, Eligible;
    var n := |edges| - 1;
    FirstsStep(edges, keys, n);
    assert edges[..n + 1] == edges;
    LastOfItsKind(edges, keys);
  }

  lemma SameKindBefore(edges: seq<Edge>, keys: set<string>, i: nat)
    requires i < |edges| - 1
    ensures FirstOfItsKind(edges, keys, i) <==> FirstOfItsKind(edges[..|edges| - 1], keys, i)
  {
    var init := edges[..|edges| - 1];
    assert init[i] == edges[i] && forall j :: 0 <= j < i ==> init[j] == edges[j];
  }

  predicate FirstOfItsKind(edges: seq<Edge>, keys: set<string>, i: nat)
    requires i < |edges|
  {
    && edges[i].from in keys && edges[i].to in keys
    && forall j :: 0 <= j < i && edges[j].from in keys && edges[j].to in keys ==>
         edges[j].from + "\0" + edges[j].to + "\0" + edges[j].relation
         != edges[i].from + "\0" + edges[i].to + "\0" + edges[i].relation
  }

  lemma LastOfItsKind(edges: seq<Edge>, keys: set<string>)
    requires edges != []
    ensures var n := |edges| - 1;
            FirstOfItsKind(edges, keys, n)
            <==> edges[n].from in keys && edges[n].to in keys
                 && JoinKey(edges[n]) !in JoinKeys(Firsts(Eligible(edges[..n], keys)))
  {
    var n := |edges| - 1;
    KeptJoins(edges[..n], keys, edges[n]);
  }

  /** The join keys kept are those of the eligible edges. */
  lemma KeptJoins(edges: seq<Edge>, keys: set<string>, e: Edge)
    ensures JoinKey(e) in JoinKeys(Firsts(Eligible(edges, keys)))
            <==> exists j :: 0 <= j < |edges| && edges[j].from in keys && edges[j].to in keys
                             && JoinKey(edges[j]) == JoinKey(e)
  {
    hide JoinKey;
    var eligible := Eligible(edges, keys);
    var kept := Firsts(eligible);
    FirstsDeduplicate(eligible);
    if JoinKey(e) in JoinKeys(kept) {
      var i :| 0 <= i < |kept| && JoinKey(kept[i]) == JoinKey(e);
      assert kept[i] in kept;
      var j :| 0 <= j < |edges| && edges[j] == kept[i];
    }
    if j :| 0 <= j < |edges| && edges[j].from in keys && edges[j].to in keys && JoinKey(edges[j]) == JoinKey(e) {
      assert edges[j] in eligible;
      var k :| k in kept && JoinKey(k) == JoinKey(edges[j]);
      var i :| 0 <= i < |kept| && kept[i] == k;
    }
  }

  /** What the graph shows: the registered nodes that the focus reaches in the direction, or all of them;
      in order of stage, creation and key; the kept edges between them, in order of start, end and relation;
      and for each stage how many of the nodes are of it. */
  lemma GraphMeans(nodes: map<string, Node>, edges: seq<Edge>, direction: Direction, g: Graph)
    requires GraphOf(nodes, edges, direction, g)
    ensures var keys := set k | k in nodes
                                && (g.focusKey == "" || Reachable(Followed(edges, direction), g.focusKey, k));
            && (forall n :: n in g.nodes <==> n.key in keys && nodes[n.key] == n)
            && (forall e :: e in g.edges <==> HasFirst(edges, keys, e))
    ensures forall i, j :: 0 <= i < j < |g.nodes| ==>
              var a, b := g.nodes[i], g.nodes[j];
              && a != b && StageOrder(a.stage) <= StageOrder(b.stage)
              && (StageOrder(a.stage) == StageOrder(b.stage) ==>
                    a.createdAt <= b.createdAt && (a.createdAt == b.createdAt ==> StrLe(a.key, b.key)))
    ensures forall i, j :: 0 <= i < j < |g.edges| ==>
              var a, b := g.edges[i], g.edges[j];
              && a != b && StrLe(a.from, b.from)
              && (a.from == b.from ==> StrLe(a.to, b.to) && (a.to == b.to ==> StrLe(a.relation, b.relation)))
    ensures forall n :: n in g.nodes ==> n.stage in g.stageCount
    ensures forall stage :: stage in g.stageCount ==> g.stageCount[stage] == |set n | n in g.nodes && n.stage == stage|
  {
    hide StrLe, JoinKey, StageOrder, HasFirst;
    var keys := set k | k in nodes && (g.focusKey == "" || Reachable(Followed(edges, direction), g.focusKey, k));
    assert keys == set k | k in nodes && Selected(edges, direction, g.focusKey, k);
    PermutationMembers(g.edges, Firsts(Eligible(edges, keys)));
    forall e ensures e in g.edges <==> HasFirst(edges, keys, e) {
      KeptAre(edges, keys, e);
    }
    hide Firsts, Eligible, Reachable, Followed;
    forall i, j | 0 <= i < j < |g.nodes|
      ensures g.nodes[i] != g.nodes[j] && NodeLe(g.nodes[i], g.nodes[j])
    { }
    forall i, j | 0 <= i < j < |g.edges|
      ensures g.edges[i] != g.edges[j] && EdgeLe(g.edges[i], g.edges[j])
    { }
    forall s: string ensures StrLe(s, s) { StrLeTotal(s, s); }
    forall stage ensures OfStage(g.nodes, stage) == set n | n in g.nodes && n.stage == stage { }
  }

  /** What the impact view shows: registered nodes other than the focus, each once and at its shortest
      distance over the kept links, nearer ones first and equally near ones by key; each with the reason
      of an edge from a node one step nearer; and every node the focus reaches is there. */
  lemma ImpactMeans(nodes: map<string, Node>, edges: seq<Edge>, focus: string, items: seq<ImpactItem>)
    requires var kept := KeptLinks(nodes, edges, focus); ImpactOf(nodes, kept, ArcsOf(kept), focus, items)
    ensures var kept := KeptLinks(nodes, edges, focus);
            && (forall i, j :: 0 <= i < j < |items| ==>
                  && items[i].node.key != items[j].node.key && items[i].depth <= items[j].depth
                  && (items[i].depth == items[j].depth ==> StrLe(items[i].node.key, items[j].node.key)))
            && (forall item :: item in items ==>
                  && item.node.key in nodes && nodes[item.node.key] == item.node && item.node.key != focus
                  && Shortest(ArcsOf(kept), focus, item.node.key, item.depth) && item.depth >= 1
                  && exists e :: e in kept && e.to == item.node.key && e.reason == item.reason
                                 && Shortest(ArcsOf(kept), focus, e.from, item.depth - 1))
            && (forall k :: k in nodes && k != focus && Reachable(ArcsOf(kept), focus, k) ==>
                  exists item :: item in items && item.node.key == k)
  {
    hide StrLe, Shortest, Reachable, KeptLinks;
    forall item | item in items { ItemMeans(nodes, edges, focus, items, item); }
    forall i, j | 0 <= i < j < |items| ensures ItemLe(items[i], items[j]) { }
  }

  lemma ItemMeans(nodes: map<string, Node>, edges: seq<Edge>, focus: string, items: seq<ImpactItem>, item: ImpactItem)
    requires var kept := KeptLinks(nodes, edges, focus); ImpactOf(nodes, kept, ArcsOf(kept), focus, items)
    requires item in items
    ensures var kept := KeptLinks(nodes, edges, focus);
            && item.node.key in nodes && nodes[item.node.key] == item.node && item.node.key != focus
            && Shortest(ArcsOf(kept), focus, item.node.key, item.depth) && item.depth >= 1
            && exists e :: e in kept && e.to == item.node.key && e.reason == item.reason
                           && Shortest(ArcsOf(kept), focus, e.from, item.depth - 1)
  {
    hide StrLe, Shortest, Reachable, KeptLinks;
    var kept := KeptLinks(nodes, edges, focus);
    assert ItemOk(nodes, kept, ArcsOf(kept), focus, item);
  }

  // ---------------------------------------------------------------- a collision, as a builder can hold it

  const FOCUS := LineageKey("t", "f")
  const LEFT := Edge(LineageKey("t", "f"), LineageKey("t", "a\0t:b"), "r", "")
  const RIGHT := Edge(LineageKey("t", "f"), LineageKey("t", "a"), "r", "")
  const TWIN := Edge(LineageKey("t", "a\0t:b"), LineageKey("t", "c"), "r", "")
  const HIDDEN := Edge(LineageKey("t", "a"), LineageKey("t", "b\0t:c"), "r", "")
  const EDGES := [LEFT, RIGHT, TWIN, HIDDEN]

  lemma CollisionExample()
    ensures Collide(TWIN, HIDDEN)
  {
    assert JoinKey(TWIN) == "t:a\0t:b\0t:c\0r" == JoinKey(HIDDEN);
    assert |TWIN.to| == 3 && |HIDDEN.to| == 7;
  }

  /** All five nodes are registered. */
  predicate HoldsExample(nodes: map<string, Node>) {
    && LEFT.from in nodes && LEFT.to in nodes && RIGHT.to in nodes && TWIN.to in nodes && HIDDEN.to in nodes
    && forall k :: k in nodes ==> nodes[k].key == k
  }

  lemma ExampleSelects(nodes: map<string, Node>)
    requires HoldsExample(nodes)
    ensures Eligible(EDGES, SelectedKeys(nodes, EDGES, FOCUS)) == EDGES
    ensures Walk(Registered(nodes, EDGES), FOCUS, HIDDEN.to, 2)
  {
    hide LineageKey;
    var arcs, all := Followed(EDGES, Downstream), Registered(nodes, EDGES);
    assert EDGES[0] == LEFT && EDGES[1] == RIGHT && EDGES[2] == TWIN && EDGES[3] == HIDDEN;
    assert forall i :: 0 <= i < 4 ==> EDGES[i].to != "" by { ExampleNamed(); }
    forall a | a in all ensures a in arcs { }
    assert Walk(all, FOCUS, FOCUS, 0);
    WalkStep(all, FOCUS, FOCUS, LEFT.to, 0);
    WalkStep(all, FOCUS, FOCUS, RIGHT.to, 0);
    WalkStep(all, FOCUS, LEFT.to, TWIN.to, 1);
    WalkStep(all, FOCUS, RIGHT.to, HIDDEN.to, 1);
    assert forall k :: k in {FOCUS, LEFT.to, RIGHT.to, TWIN.to, HIDDEN.to} ==> Reachable(all, FOCUS, k);
    forall k | k in {FOCUS, LEFT.to, RIGHT.to, TWIN.to, HIDDEN.to} ensures k in SelectedKeys(nodes, EDGES, FOCUS) {
      ReachableMonotone(all, arcs, FOCUS, k);
    }
    AllEligible(EDGES, SelectedKeys(nodes, EDGES, FOCUS));
  }

  lemma ExampleNamed()
    ensures forall i :: 0 <= i < 4 ==> EDGES[i].to != "" && EDGES[i].from != ""
  {
  }

  lemma {:induction false} AllEligible(edges: seq<Edge>, keys: set<string>)
    requires forall i :: 0 <= i < |edges| ==> edges[i].from in keys && edges[i].to in keys
    ensures Eligible(edges, keys) == edges
  {
    if edges != [] {
      var init, last := edges[..|edges| - 1], edges[|edges| - 1];
      AllEligible(init, keys);
      assert Eligible(edges, keys) == init + [last] by { assert last.from in keys && last.to in keys; }
    }
  }

  /** The hidden link is dropped: what the view searches is the first three links at most. */
  lemma ExampleKeeps(nodes: map<string, Node>)
    requires HoldsExample(nodes)
    ensures var kept := KeptLinks(nodes, EDGES, FOCUS);
            !Represented(kept, HIDDEN) && forall e :: e in kept ==> e.to != HIDDEN.to
  {
    hide JoinKey, LineageKey, Firsts, Eligible, SelectedKeys, Represented, HoldsExample;
    ExampleSelects(nodes);
    CollisionExample();
    ExampleEnds();
    TwinHides(LEFT, RIGHT, TWIN, HIDDEN);
  }

  lemma TwinHides(a: Edge, b: Edge, twin: Edge, hidden: Edge)
    requires JoinKey(twin) == JoinKey(hidden) && a.to != hidden.to && b.to != hidden.to && twin.to != hidden.to
    ensures var kept := Firsts([a, b, twin, hidden]); !Represented(kept, hidden) && forall e :: e in kept ==>
              e.to != hidden.to
  {
    hide JoinKey, Firsts;
    var first := [a, b, twin];
    assert [a, b, twin, hidden] == first + [hidden] && first[2] == twin;
    TwinIsDropped(first, twin, hidden);
    FirstsDeduplicate(first);
  }

  lemma ExampleEnds()
    ensures LEFT.to != HIDDEN.to && RIGHT.to != HIDDEN.to && TWIN.to != HIDDEN.to
  {
    assert |RIGHT.to| == 3 && |TWIN.to| == 3 && |HIDDEN.to| == 7 && LEFT.to[2] == 'a' && HIDDEN.to[2] == 'b';
  }

  /** Whenever these nodes and edges are registered, the focused graph lacks the hidden link, and
      the impact of the focus lacks the node behind it, although the focus reaches that node in two
      steps through registered nodes. */
  lemma CollisionHidesANode(nodes: map<string, Node>, g: Graph, items: seq<ImpactItem>)
    requires HoldsExample(nodes)
    requires GraphOf(nodes, EDGES, Downstream, g) && g.focusKey == FOCUS
    requires var kept := KeptLinks(nodes, EDGES, FOCUS); ImpactOf(nodes, kept, ArcsOf(kept), FOCUS, items)
    ensures !Represented(g.edges, HIDDEN)
    ensures Reachable(Registered(nodes, EDGES), FOCUS, HIDDEN.to)
    ensures forall item :: item in items ==> item.node.key != HIDDEN.to
    ensures !ImpactOf(nodes, EDGES, Registered(nodes, EDGES), FOCUS, items)
  {
    var kept := KeptLinks(nodes, EDGES, FOCUS);
    ExampleKeeps(nodes);
    assert multiset(g.edges) == multiset(kept);
    PermutationMembers(g.edges, kept);
    ItemsLackHidden(nodes, items);
    hide KeptLinks, GraphOf, LineageKey, ItemOk;
    assert HIDDEN.to != FOCUS by { HiddenIsNotFocus(); }
  }

  lemma HiddenIsNotFocus()
    ensures HIDDEN.to != FOCUS
  {
    assert |HIDDEN.to| == 7 && |FOCUS| == 3;
  }

  method RegisterExample() returns (b: Builder)
    ensures fresh(b) && b.Valid() && b.edges == EDGES && HoldsExample(b.nodes)
  {
    b := new Builder();
    b.AddNode("t", "f", "sources", 0, "");
    b.AddNode("t", "a\0t:b", "knowledge", 0, "");
    b.AddNode("t", "a", "knowledge", 0, "");
    b.AddNode("t", "c", "delivery", 0, "");
    b.AddNode("t", "b\0t:c", "delivery", 0, "");
    b.AddEdge("t", "f", "t", "a\0t:b", "r", "");
    b.AddEdge("t", "f", "t", "a", "r", "");
    b.AddEdge("t", "a\0t:b", "t", "c", "r", "");
    b.AddEdge("t", "a", "t", "b\0t:c", "r", "");
    hide LineageKey;
    assert b.edges == EDGES && HoldsExample(b.nodes);
  }

  /** The same through the builder: five nodes and four edges registered, then the impact asked for. */
  method RegisteredCollision() returns (b: Builder, items: seq<ImpactItem>)
    ensures b.edges == EDGES && HoldsExample(b.nodes)
    ensures Reachable(Registered(b.nodes, b.edges), FOCUS, HIDDEN.to)
    ensures forall item :: item in items ==> item.node.key != HIDDEN.to
  {
    hide LineageKey, HoldsExample, ImpactOf, KeptLinks, Registered, LosesNoShortcut;
    b := RegisterExample();
    assert FOCUS in b.nodes by { ExampleHoldsFocus(b.nodes); }
    var r := b.FocusedImpact("t", "f");
    items := r.value;
    ItemsLackHidden(b.nodes, items);
  }

  lemma ExampleHoldsFocus(nodes: map<string, Node>)
    requires HoldsExample(nodes)
    ensures FOCUS in nodes
  {
  }

  lemma ItemsLackHidden(nodes: map<string, Node>, items: seq<ImpactItem>)
    requires HoldsExample(nodes)
    requires var kept := KeptLinks(nodes, EDGES, FOCUS); ImpactOf(nodes, kept, ArcsOf(kept), FOCUS, items)
    ensures Reachable(Registered(nodes, EDGES), FOCUS, HIDDEN.to)
    ensures forall item :: item in items ==> item.node.key != HIDDEN.to
  {
    var kept := KeptLinks(nodes, EDGES, FOCUS);
    ExampleSelects(nodes);
    ExampleKeeps(nodes);
    hide KeptLinks, LineageKey;
    forall item | item in items ensures item.node.key != HIDDEN.to {
      assert ItemOk(nodes, kept, ArcsOf(kept), FOCUS, item);
    }
  }
}
