/** Breadth-first searches over an edge list that may hold cycles and dangling endpoints. */
module LineageSearch {

  datatype Edge = Edge(from: string, to: string, relation: string, reason: string)

  datatype Direction = Upstream | Downstream | Both

  type Arcs = set<(string, string)>

  // ---------------------------------------------------------------- reachability, independent of any search

  ghost predicate Walk(arcs: Arcs, a: string, b: string, n: nat)
    decreases n
  {
    if n == 0 then a == b else exists c :: Walk(arcs, a, c, n - 1) && (c, b) in arcs
  }

  ghost predicate Reachable(arcs: Arcs, a: string, b: string) {
    exists n: nat :: Walk(arcs, a, b, n)
  }

  /** n is the length of a shortest walk from a to b. */
  ghost predicate Shortest(arcs: Arcs, a: string, b: string, n: nat) {
    Walk(arcs, a, b, n) && forall m: nat :: m < n ==> !Walk(arcs, a, b, m)
  }

  lemma WalkStep(arcs: Arcs, a: string, c: string, b: string, n: nat)
    requires Walk(arcs, a, c, n) && (c, b) in arcs
    ensures Walk(arcs, a, b, n + 1)
  {
  }

  lemma {:induction false} WalkMonotone(arcs: Arcs, more: Arcs, a: string, b: string, n: nat)
    requires arcs <= more && Walk(arcs, a, b, n)
    ensures Walk(more, a, b, n)
    decreases n
  {
    if n > 0 {
      var c :| Walk(arcs, a, c, n - 1) && (c, b) in arcs;
      WalkMonotone(arcs, more, a, c, n - 1);
    }
  }

  lemma PrefixMembers(xs: seq<string>, ys: seq<string>)
    requires xs <= ys
    ensures forall k :: k in xs ==> k in ys
  {
    assert forall i :: 0 <= i < |xs| ==> xs[i] == ys[i];
  }

  // ---------------------------------------------------------------- connectedKeys

  /** The key an edge leads to from `current`; an empty key means the edge does not lead on. */
  function Onward(e: Edge, current: string, direction: Direction): string {
    var next := if direction != Upstream && e.from == current then e.to else "";
    if direction != Downstream && e.to == current then e.from else next
  }

  /** The arcs a search in the given direction may follow. */
  ghost function Followed(edges: seq<Edge>, direction: Direction): Arcs {
    (if direction == Upstream then {}
     else set i | 0 <= i < |edges| && edges[i].to != "" :: (edges[i].from, edges[i].to)) +
    (if direction == Downstream then {}
     else set i | 0 <= i < |edges| && edges[i].from != "" :: (edges[i].to, edges[i].from))
  }

  /** Downstream leads from the start of an edge to its end, upstream back, and both means either. */
  lemma FollowedAre(edges: seq<Edge>, a: string, b: string)
    ensures (a, b) in Followed(edges, Downstream)
            <==> exists e :: e in edges && e.from == a && e.to == b && b != ""
    ensures (a, b) in Followed(edges, Upstream)
            <==> exists e :: e in edges && e.from == b && e.to == a && b != ""
    ensures (a, b) in Followed(edges, Both)
            <==> (a, b) in Followed(edges, Downstream) || (a, b) in Followed(edges, Upstream)
    ensures (a, b) in ArcsOf(edges) <==> exists e :: e in edges && e.from == a && e.to == b
  {
    forall e | e in edges && e.from == a && e.to == b
      ensures (a, b) in ArcsOf(edges) && (b != "" ==> (a, b) in Followed(edges, Downstream))
    {
      var i :| 0 <= i < |edges| && edges[i] == e;
      assert (edges[i].from, edges[i].to) in ArcsOf(edges);
    }
    forall e | e in edges && e.from == b && e.to == a && b != "" ensures (a, b) in Followed(edges, Upstream) {
      var i :| 0 <= i < |edges| && edges[i] == e;
    }
    FollowedBothWays(edges, a, b);
  }

  lemma FollowedBothWays(edges: seq<Edge>, a: string, b: string)
    ensures Followed(edges, Both) == Followed(edges, Downstream) + Followed(edges, Upstream)
  {
  }

  ghost function Endpoints(edges: seq<Edge>): set<string> {
    (set i | 0 <= i < |edges| :: edges[i].from) + (set i | 0 <= i < |edges| :: edges[i].to)
  }

  lemma OnwardIsFollowed(edges: seq<Edge>, i: nat, current: string, direction: Direction)
    requires i < |edges|
    ensures var next := Onward(edges[i], current, direction);
            next != "" ==> (current, next) in Followed(edges, direction) && next in Endpoints(edges)
    ensures direction != Upstream && edges[i].from == current && edges[i].to != "" ==>
              Onward(edges[i], current, direction) == edges[i].to
    ensures direction != Downstream && edges[i].to == current && edges[i].from != "" ==>
              Onward(edges[i], current, direction) == edges[i].from
  {
  }

  lemma FollowedIsOnward(edges: seq<Edge>, a: string, b: string, direction: Direction) returns (i: nat)
    requires (a, b) in Followed(edges, direction)
    ensures i < |edges| && b != "" && Onward(edges[i], a, direction) == b
  {
    if j :| 0 <= j < |edges| && direction != Upstream && edges[j].to != "" && (a, b) == (edges[j].from, edges[j].to) {
      i := j;
    } else {
      var j :| 0 <= j < |edges| && direction != Downstream && edges[j].from != ""
        && (a, b) == (edges[j].to, edges[j].from);
      i := j;
    }
  }

  ghost predicate Closed(edges: seq<Edge>, direction: Direction, selected: set<string>, k: string) {
    forall i :: 0 <= i < |edges| && Onward(edges[i], k, direction) != "" ==> Onward(edges[i], k, direction) in selected
  }

  lemma {:induction false} ClosedReaches(edges: seq<Edge>, direction: Direction, selected: set<string>, focus: string,
                                         k: string, n: nat)
    requires focus in selected && forall s :: s in selected ==> Closed(edges, direction, selected, s)
    requires Walk(Followed(edges, direction), focus, k, n)
    ensures k in selected
    decreases n
  {
    if n > 0 {
      var c :| Walk(Followed(edges, direction), focus, c, n - 1) && (c, k) in Followed(edges, direction);
      ClosedReaches(edges, direction, selected, focus, c, n - 1);
      var i := FollowedIsOnward(edges, c, k, direction);
      assert Closed(edges, direction, selected, c);
    }
  }

  lemma StepReachable(arcs: Arcs, a: string, c: string, b: string)
    requires Reachable(arcs, a, c) && (c, b) in arcs
    ensures Reachable(arcs, a, b)
  {
    var n: nat :| Walk(arcs, a, c, n);
    WalkStep(arcs, a, c, b, n);
  }

  ghost predicate Found(edges: seq<Edge>, direction: Direction, focus: string, selected: set<string>) {
    && focus in selected && selected <= {focus} + Endpoints(edges)
    && forall k :: k in selected ==> Reachable(Followed(edges, direction), focus, k)
  }

  lemma ClosedAfter(edges: seq<Edge>, direction: Direction, before: set<string>, waiting: seq<string>,
                    selected: set<string>, queue: seq<string>)
    requires waiting != [] && waiting[1..] <= queue && before <= selected
    requires forall k :: k in before && k !in waiting ==> Closed(edges, direction, before, k)
    requires forall k :: k in selected ==> k in before || k in queue
    requires Closed(edges, direction, selected, waiting[0])
    ensures forall k :: k in selected && k !in queue ==> Closed(edges, direction, selected, k)
  {
    forall k | k in selected && k !in queue ensures Closed(edges, direction, selected, k) {
      if k != waiting[0] {
        PrefixMembers(waiting[1..], queue);
        assert waiting == [waiting[0]] + waiting[1..];
        assert Closed(edges, direction, before, k);
      }
    }
  }

  /** One turn of the search: selects everything next to the front of the queue. */
  method Spread(focus: string, edges: seq<Edge>, direction: Direction, before: set<string>, waiting: seq<string>)
    returns (selected: set<string>, queue: seq<string>)
    requires Found(edges, direction, focus, before)
    requires waiting != [] && forall k :: k in waiting ==> k in before
    requires forall k :: k in before && k !in waiting ==> Closed(edges, direction, before, k)
    ensures Found(edges, direction, focus, selected)
    ensures forall k :: k in queue ==> k in selected
    ensures forall k :: k in selected && k !in queue ==> Closed(edges, direction, selected, k)
    ensures before < selected || (before == selected && |queue| < |waiting|)
  {
    var current := waiting[0];
    selected, queue := before, waiting[1..];
    for i := 0 to |edges|
      invariant Found(edges, direction, focus, selected)
      invariant before <= selected
      invariant selected == before ==> queue == waiting[1..]
      invariant waiting[1..] <= queue
      invariant forall k :: k in queue ==> k in selected
      invariant forall k :: k in selected ==> k in before || k in queue
      invariant forall j :: 0 <= j < i && Onward(edges[j], current, direction) != "" ==>
                  Onward(edges[j], current, direction) in selected
    {
      var next := Onward(edges[i], current, direction);
      if next != "" && next !in selected {
        OnwardIsFollowed(edges, i, current, direction);
        StepReachable(Followed(edges, direction), focus, current, next);
        selected := selected + {next};
        queue := queue + [next];
      }
    }
    ClosedAfter(edges, direction, before, waiting, selected, queue);
  }

  /** Returns exactly what the focus reaches in the given direction, on any edge list. */
  method ConnectedKeys(focus: string, edges: seq<Edge>, direction: Direction) returns (selected: set<string>)
    ensures forall k :: k in selected <==> Reachable(Followed(edges, direction), focus, k)
  {
    ghost var arcs := Followed(edges, direction);
    ghost var universe := {focus} + Endpoints(edges);
    selected := {focus};
    var queue := [focus];
    assert Walk(arcs, focus, focus, 0);
    while queue != []
      invariant Found(edges, direction, focus, selected)
      invariant forall k :: k in queue ==> k in selected
      invariant forall k :: k in selected && k !in queue ==> Closed(edges, direction, selected, k)
      decreases universe - selected, |queue|
    {
      ghost var before := selected;
      selected, queue := Spread(focus, edges, direction, selected, queue);
      assert before < selected ==> universe - selected < universe - before;
    }
    forall k | Reachable(arcs, focus, k) ensures k in selected {
      var n: nat :| Walk(arcs, focus, k, n);
      ClosedReaches(edges, direction, selected, focus, k, n);
    }
  }

  // ---------------------------------------------------------------- downstreamDepth

  ghost function ArcsOf(edges: seq<Edge>): Arcs {
    set i | 0 <= i < |edges| :: (edges[i].from, edges[i].to)
  }

  ghost predicate ReasonFor(edges: seq<Edge>, depth: map<string, nat>, k: string, reason: string) {
    k in depth && exists i :: 0 <= i < |edges| && edges[i].to == k && edges[i].reason == reason
                           && edges[i].from in depth && depth[edges[i].from] + 1 == depth[k]
  }

  ghost predicate Relaxed(edges: seq<Edge>, depth: map<string, nat>, k: string)
    requires k in depth
  {
    forall i :: 0 <= i < |edges| && edges[i].from == k ==> edges[i].to in depth && depth[edges[i].to] <= depth[k] + 1
  }

  /** A queue of discovered keys in breadth-first order. */
  ghost predicate Layered(queue: seq<string>, depth: map<string, nat>) {
    && (forall i :: 0 <= i < |queue| ==> queue[i] in depth)
    && (forall i, j :: 0 <= i < j < |queue| ==> depth[queue[i]] <= depth[queue[j]])
    && (forall k :: k in depth && queue != [] ==> depth[k] <= depth[queue[0]] + 1)
  }

  lemma {:induction false} RelaxedIsShortest(edges: seq<Edge>, depth: map<string, nat>, focus: string, k: string,
                                             n: nat)
    requires focus in depth && depth[focus] == 0
    requires forall s :: s in depth ==> Relaxed(edges, depth, s)
    requires Walk(ArcsOf(edges), focus, k, n)
    ensures k in depth && depth[k] <= n
    decreases n
  {
    if n > 0 {
      var c :| Walk(ArcsOf(edges), focus, c, n - 1) && (c, k) in ArcsOf(edges);
      RelaxedIsShortest(edges, depth, focus, c, n - 1);
      assert Relaxed(edges, depth, c);
    }
  }

  /** Every recorded depth is the length of a walk, and every other key has its reason. */
  ghost predicate Sound(focus: string, edges: seq<Edge>, depth: map<string, nat>, reasons: map<string, string>) {
    && focus in depth && depth[focus] == 0 && depth.Keys <= {focus} + Endpoints(edges)
    && (forall k :: k in depth ==> Walk(ArcsOf(edges), focus, k, depth[k]))
    && reasons.Keys == depth.Keys - {focus}
    && (forall k :: k in reasons ==> ReasonFor(edges, depth, k, reasons[k]))
  }

  lemma DiscoverKeepsSound(focus: string, edges: seq<Edge>, depth: map<string, nat>, reasons: map<string, string>,
                           i: nat)
    requires Sound(focus, edges, depth, reasons)
    requires i < |edges| && edges[i].from in depth && edges[i].to !in depth
    ensures Sound(focus, edges, depth[edges[i].to := depth[edges[i].from] + 1], reasons[edges[i].to := edges[i].reason])
  {
    var e := edges[i];
    var depth' := depth[e.to := depth[e.from] + 1];
    var reasons' := reasons[e.to := e.reason];
    WalkStep(ArcsOf(edges), focus, e.from, e.to, depth[e.from]);
    forall k | k in reasons' ensures ReasonFor(edges, depth', k, reasons'[k]) {
      if k != e.to { assert ReasonFor(edges, depth, k, reasons[k]); }
    }
  }

  /** The keys discovered during one turn all sit one level below the expanded key. */
  ghost predicate Frontier(depth0: map<string, nat>, d: nat, depth: map<string, nat>, added: seq<string>) {
    && (forall k :: k in depth0 ==> k in depth && depth[k] == depth0[k])
    && (forall k :: k in depth ==> k in depth0 || k in added)
    && (forall j :: 0 <= j < |added| ==> added[j] in depth && added[j] !in depth0 && depth[added[j]] == d + 1)
  }

  lemma FrontierBound(depth0: map<string, nat>, waiting: seq<string>, depth: map<string, nat>, added: seq<string>)
    requires waiting != [] && Layered(waiting, depth0) && Frontier(depth0, depth0[waiting[0]], depth, added)
    ensures forall k :: k in depth ==> depth[k] <= depth0[waiting[0]] + 1
  {
    forall k | k in depth ensures depth[k] <= depth0[waiting[0]] + 1 {
      if k !in depth0 { var j :| 0 <= j < |added| && added[j] == k; }
    }
  }

  lemma TurnLayers(depth0: map<string, nat>, waiting: seq<string>, depth: map<string, nat>, added: seq<string>)
    requires waiting != [] && Layered(waiting, depth0) && Frontier(depth0, depth0[waiting[0]], depth, added)
    ensures Layered(waiting[1..] + added, depth)
  {
    FrontierBound(depth0, waiting, depth, added);
    var queue := waiting[1..] + added;
    forall i | 0 <= i < |queue|
      ensures queue[i] in depth && depth0[waiting[0]] <= depth[queue[i]]
      ensures depth[queue[i]] == if i < |waiting| - 1 then depth0[waiting[i + 1]] else depth0[waiting[0]] + 1
    {
      if i < |waiting| - 1 { assert queue[i] == waiting[i + 1]; }
      else { assert queue[i] == added[i - (|waiting| - 1)]; }
    }
  }

  lemma TurnRelaxes(edges: seq<Edge>, depth0: map<string, nat>, waiting: seq<string>, depth: map<string, nat>,
                    added: seq<string>)
    requires waiting != [] && Layered(waiting, depth0) && Frontier(depth0, depth0[waiting[0]], depth, added)
    requires forall k :: k in depth0 && k !in waiting ==> Relaxed(edges, depth0, k)
    requires forall i :: 0 <= i < |edges| && edges[i].from == waiting[0] ==> edges[i].to in depth
    ensures forall k :: k in depth && k !in waiting[1..] + added ==> Relaxed(edges, depth, k)
  {
    FrontierBound(depth0, waiting, depth, added);
    forall k | k in depth && k !in waiting[1..] + added ensures Relaxed(edges, depth, k) {
      if k != waiting[0] {
        assert waiting == [waiting[0]] + waiting[1..];
        assert Relaxed(edges, depth0, k);
      }
    }
  }

  /** One turn of the search: relaxes every edge out of the front of the queue. */
  method Expand(focus: string, edges: seq<Edge>, depth0: map<string, nat>, reasons0: map<string, string>,
                waiting: seq<string>)
    returns (depth: map<string, nat>, reasons: map<string, string>, queue: seq<string>)
    requires Sound(focus, edges, depth0, reasons0)
    requires waiting != [] && Layered(waiting, depth0)
    requires forall k :: k in depth0 && k !in waiting ==> Relaxed(edges, depth0, k)
    ensures Sound(focus, edges, depth, reasons)
    ensures Layered(queue, depth)
    ensures forall k :: k in depth && k !in queue ==> Relaxed(edges, depth, k)
    ensures depth0.Keys < depth.Keys || (depth0.Keys == depth.Keys && |queue| < |waiting|)
  {
    hide Sound, Relaxed;
    depth, reasons := depth0, reasons0;
    var current := waiting[0];
    queue := waiting[1..];
    ghost var added := [];
    for i := 0 to |edges|
      invariant Sound(focus, edges, depth, reasons)
      invariant Frontier(depth0, depth0[current], depth, added)
      invariant queue == waiting[1..] + added
      invariant forall j :: 0 <= j < i && edges[j].from == current ==> edges[j].to in depth
    {
      var e := edges[i];
      if e.from == current && e.to !in depth {
        DiscoverKeepsSound(focus, edges, depth, reasons, i);
        depth := depth[e.to := depth[current] + 1];
        reasons := reasons[e.to := e.reason];
        queue := queue + [e.to];
        added := added + [e.to];
      }
    }
    TurnLayers(depth0, waiting, depth, added);
    TurnRelaxes(edges, depth0, waiting, depth, added);
    if added != [] { assert added[0] in depth.Keys && added[0] !in depth0.Keys; }
  }

  /** Terminates on any edge list; the domain is exactly the reachable keys, each depth is the
      length of a shortest walk, and each reason comes from an edge one level shallower. */
  method DownstreamDepth(focus: string, edges: seq<Edge>)
    returns (depth: map<string, nat>, reasons: map<string, string>)
    ensures forall k :: k in depth <==> Reachable(ArcsOf(edges), focus, k)
    ensures forall k :: k in depth ==> Shortest(ArcsOf(edges), focus, k, depth[k])
    ensures reasons.Keys == depth.Keys - {focus}
    ensures forall k :: k in reasons ==> ReasonFor(edges, depth, k, reasons[k])
  {
    ghost var arcs := ArcsOf(edges);
    ghost var universe := {focus} + Endpoints(edges);
    depth := map[focus := 0];
    reasons := map[];
    var queue := [focus];
    while queue != []
      invariant Sound(focus, edges, depth, reasons)
      invariant Layered(queue, depth)
      invariant forall k :: k in depth && k !in queue ==> Relaxed(edges, depth, k)
      decreases universe - depth.Keys, |queue|
    {
      ghost var known := depth.Keys;
      depth, reasons, queue := Expand(focus, edges, depth, reasons, queue);
      assert known < depth.Keys ==> universe - depth.Keys < universe - known;
    }
    forall k | Reachable(arcs, focus, k) ensures k in depth {
      var n: nat :| Walk(arcs, focus, k, n);
      RelaxedIsShortest(edges, depth, focus, k, n);
    }
    forall k | k in depth ensures Shortest(arcs, focus, k, depth[k]) {
      forall m: nat | m < depth[k] ensures !Walk(arcs, focus, k, m) {
        if Walk(arcs, focus, k, m) { RelaxedIsShortest(edges, depth, focus, k, m); }
      }
    }
  }
}
