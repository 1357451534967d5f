/** Choosing the current daemon instance of each device from a list of reports. */
module DaemonSelection {

  /** Times are natural numbers; a stopped instance has a stop time or the stopped state. */
  datatype Instance = Instance(id: string, device: string, stoppedState: bool, hasStopTime: bool, lastSeen: int,
                               epoch: int, sequence: int)

  datatype Rank = Rank(live: bool, lastSeen: int, epoch: int, sequence: int)

  predicate Live(x: Instance) { !x.stoppedState && !x.hasStopTime }

  function RankOf(x: Instance): Rank { Rank(Live(x), x.lastSeen, x.epoch, x.sequence) }

  /** Lexicographic: live first, then later, then by epoch, then by report sequence. */
  predicate RankLess(a: Rank, b: Rank) {
    if a.live != b.live then b.live
    else if a.lastSeen != b.lastSeen then a.lastSeen < b.lastSeen
    else if a.epoch != b.epoch then a.epoch < b.epoch
    else a.sequence < b.sequence
  }

  lemma RankIsTotalOrder(a: Rank, b: Rank, c: Rank)
    ensures a == b || RankLess(a, b) || RankLess(b, a)
    ensures !(RankLess(a, b) && RankLess(b, a))
    ensures RankLess(a, b) && RankLess(b, c) ==> RankLess(a, c)
  {
  }

  /** The instance stands for its device: it is one of the list, and none of the device ranks higher. */
  ghost predicate Best(instances: seq<Instance>, device: string, x: Instance) {
    && x in instances && x.device == device
    && forall y :: y in instances && y.device == device ==> !RankLess(RankOf(x), RankOf(y))
  }

  /** The comparison the selection makes between a newcomer and the instance held so far. */
  predicate Replaces(x: Instance, held: Instance) {
    || (Live(x) && !Live(held))
    || (Live(x) == Live(held) && x.lastSeen > held.lastSeen)
    || (Live(x) == Live(held) && x.lastSeen == held.lastSeen && x.epoch > held.epoch)
    || (Live(x) == Live(held) && x.lastSeen == held.lastSeen && x.epoch == held.epoch && x.sequence > held.sequence)
  }

  /** Of the reports of the device that rank equally the first one is kept. */
  ghost predicate Earliest(instances: seq<Instance>, device: string, x: Instance) {
    exists i :: 0 <= i < |instances| && instances[i] == x
                && forall j :: 0 <= j < i && instances[j].device == device ==> RankOf(instances[j]) != RankOf(x)
  }

  lemma EarliestStep(before: seq<Instance>, x: Instance, device: string, held: Instance, now: Instance)
    requires if exists y :: y in before && y.device == device
             then Best(before, device, held) && Earliest(before, device, held)
             else x.device == device && now == x
    requires (exists y :: y in before && y.device == device) ==>
               now == if x.device == device && Replaces(x, held) then x else held
    ensures Earliest(before + [x], device, now)
  {
    var after := before + [x];
    if (exists y :: y in before && y.device == device) && now == held {
      var i :| 0 <= i < |before| && before[i] == held
               && forall j :: 0 <= j < i && before[j].device == device ==> RankOf(before[j]) != RankOf(held);
      assert after[i] == held && forall j :: 0 <= j < i ==> after[j] == before[j];
    } else {
      var n := |before|;
      assert after[n] == x;
      forall j | 0 <= j < n && after[j].device == device ensures RankOf(after[j]) != RankOf(x) {
        assert after[j] == before[j] && before[j] in before;
        RankIsTotalOrder(RankOf(held), RankOf(x), RankOf(before[j]));
      }
    }
  }

  method CurrentInstances(instances: seq<Instance>) returns (current: map<string, Instance>)
    ensures forall d :: d in current <==> exists x :: x in instances && x.device == d
    ensures forall d :: d in current ==> Best(instances, d, current[d])
    ensures forall d, y :: d in current && y in instances && y.device == d ==>
              var x := current[d];
              && x in instances && x.device == d
              && (!y.stoppedState && !y.hasStopTime ==> !x.stoppedState && !x.hasStopTime)
              && (Live(y) == Live(x) ==>
                    y.lastSeen <= x.lastSeen
                    && (y.lastSeen == x.lastSeen ==>
                          y.epoch <= x.epoch && (y.epoch == x.epoch ==> y.sequence <= x.sequence)))
    ensures forall d :: d in current ==> Earliest(instances, d, current[d])
  {
    current := map[];
    for i := 0 to |instances|
      invariant forall d :: d in current <==> exists x :: x in instances[..i] && x.device == d
      invariant forall d :: d in current ==> Best(instances[..i], d, current[d])
      invariant forall d :: d in current ==> Earliest(instances[..i], d, current[d])
    {
      var x := instances[i];
      ghost var was := current;
      assert instances[..i + 1] == instances[..i] + [x];
      if x.device !in current || Replaces(x, current[x.device]) {
        current := current[x.device := x];
      }
      forall d | d in current ensures Best(instances[..i + 1], d, current[d]) {
        BestStep(instances[..i], x, d, if d in was then was[d] else x, current[d]);
      }
      forall d | d in current ensures Earliest(instances[..i + 1], d, current[d]) {
        EarliestStep(instances[..i], x, d, if d in was then was[d] else x, current[d]);
      }
    }
    assert instances[..|instances|] == instances;
  }

  lemma BestStep(before: seq<Instance>, x: Instance, device: string, held: Instance, now: Instance)
    requires if exists y :: y in before && y.device == device then Best(before, device, held)
             else x.device == device && now == x
    requires (exists y :: y in before && y.device == device) ==>
               now == if x.device == device && Replaces(x, held) then x else held
    ensures Best(before + [x], device, now)
  {
    forall y | y in before + [x] && y.device == device ensures !RankLess(RankOf(now), RankOf(y)) {
      RankIsTotalOrder(RankOf(held), RankOf(x), RankOf(y));
      RankIsTotalOrder(RankOf(now), RankOf(y), RankOf(held));
    }
  }

  /** The order of the reports does not matter: whatever is chosen for a device, from any
      permutation of the list, has the same rank. */
  lemma ChoiceIsOrderFree(xs: seq<Instance>, ys: seq<Instance>, device: string, x: Instance, y: Instance)
    requires multiset(xs) == multiset(ys) && Best(xs, device, x) && Best(ys, device, y)
    ensures RankOf(x) == RankOf(y)
  {
    assert x in multiset(xs) && y in multiset(ys);
    assert x in ys && y in xs;
    RankIsTotalOrder(RankOf(x), RankOf(y), RankOf(x));
  }
}
