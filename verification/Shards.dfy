/** Sharding a package's tests by profiled duration. */
module Shards {
  import opened Json
  import opened Scheduling

  datatype ShardError = NoShardAvailable

  function Weight(profile: map<string, real>, name: string): real {
    if name in profile then profile[name] else 1.0
  }

  predicate PositiveProfile(profile: map<string, real>) {
    forall name | name in profile :: profile[name] > 0.0
  }

  function Weights(profile: map<string, real>, names: seq<string>): (weights: seq<real>)
    ensures |weights| == |names|
    ensures forall i | 0 <= i < |names| :: weights[i] == Weight(profile, names[i])
    ensures PositiveProfile(profile) ==> Positive(weights)
  {
    seq(|names|, i requires 0 <= i < |names| => Weight(profile, names[i]))
  }

  // -------------------------------------------------------------- sorting, heaviest first

  /** Places a name after the ones at least as heavy: the order of equals is kept. */
  function InsertStable(profile: map<string, real>, sorted: seq<string>, name: string): (r: seq<string>)
    ensures multiset(r) == multiset(sorted) + multiset{name}
    ensures r != [] && (r[|r| - 1] == name || (sorted != [] && r[|r| - 1] == sorted[|sorted| - 1] && Weight(profile, sorted[|sorted| - 1]) < Weight(profile, name)))
    decreases |sorted|
  {
    if sorted == [] || Weight(profile, sorted[|sorted| - 1]) >= Weight(profile, name) then sorted + [name]
    else
      assert sorted == sorted[..|sorted| - 1] + [sorted[|sorted| - 1]];
      InsertStable(profile, sorted[..|sorted| - 1], name) + [sorted[|sorted| - 1]]
  }

  function SortHeaviestFirst(profile: map<string, real>, names: seq<string>): (sorted: seq<string>)
    ensures multiset(sorted) == multiset(names)
    decreases |names|
  {
    if names == [] then []
    else
      assert names == names[..|names| - 1] + [names[|names| - 1]];
      InsertStable(profile, SortHeaviestFirst(profile, names[..|names| - 1]), names[|names| - 1])
  }

  predicate HeaviestFirst(profile: map<string, real>, names: seq<string>) {
    forall i, j | 0 <= i <= j < |names| :: Weight(profile, names[i]) >= Weight(profile, names[j])
  }

  lemma {:induction false} InsertKeepsOrder(profile: map<string, real>, sorted: seq<string>, name: string)
    requires HeaviestFirst(profile, sorted)
    ensures HeaviestFirst(profile, InsertStable(profile, sorted, name))
    decreases |sorted|
  {
    if sorted != [] && Weight(profile, sorted[|sorted| - 1]) < Weight(profile, name) {
      var init := sorted[..|sorted| - 1];
      InsertKeepsOrder(profile, init, name);
      var r := InsertStable(profile, init, name);
      assert Weight(profile, r[|r| - 1]) >= Weight(profile, sorted[|sorted| - 1]);
    }
  }

  /** Sorting gives the same names, heaviest first. */
  lemma {:induction false} SortOrders(profile: map<string, real>, names: seq<string>)
    ensures HeaviestFirst(profile, SortHeaviestFirst(profile, names))
    ensures multiset(SortHeaviestFirst(profile, names)) == multiset(names)
    decreases |names|
  {
    if names != [] {
      SortOrders(profile, names[..|names| - 1]);
      InsertKeepsOrder(profile, SortHeaviestFirst(profile, names[..|names| - 1]), names[|names| - 1]);
    }
  }

  /** The names of one weight, in the order given. */
  function OfWeight(profile: map<string, real>, names: seq<string>, w: real): seq<string> {
    if names == [] then []
    else
      OfWeight(profile, names[..|names| - 1], w) + if Weight(profile, names[|names| - 1]) == w then [names[|names| - 1]] else []
  }

  lemma OfWeightMore(profile: map<string, real>, names: seq<string>, name: string, w: real)
    ensures OfWeight(profile, names + [name], w) == OfWeight(profile, names, w) + if Weight(profile, name) == w then [name] else []
  {
    assert (names + [name])[..|names|] == names;
  }

  lemma {:induction false} InsertIsStable(profile: map<string, real>, sorted: seq<string>, name: string, w: real)
    ensures OfWeight(profile, InsertStable(profile, sorted, name), w) == OfWeight(profile, sorted + [name], w)
    decreases |sorted|
  {
    hide OfWeight, Weight;
    if sorted != [] && Weight(profile, sorted[|sorted| - 1]) < Weight(profile, name) {
      var init, last := sorted[..|sorted| - 1], sorted[|sorted| - 1];
      InsertIsStable(profile, init, name, w);
      OfWeightMore(profile, InsertStable(profile, init, name), last, w);
      OfWeightMore(profile, init, name, w);
      OfWeightMore(profile, init, last, w);
      assert sorted == init + [last];
      OfWeightMore(profile, sorted, name, w);
    }
  }

  /** Tests of equal weight stay in the order they were listed. */
  lemma {:induction false} SortIsStable(profile: map<string, real>, names: seq<string>, w: real)
    ensures OfWeight(profile, SortHeaviestFirst(profile, names), w) == OfWeight(profile, names, w)
    decreases |names|
  {
    hide OfWeight, Weight, InsertStable;
    if names != [] {
      var init, last := names[..|names| - 1], names[|names| - 1];
      SortIsStable(profile, init, w);
      InsertIsStable(profile, SortHeaviestFirst(profile, init), last, w);
      OfWeightMore(profile, SortHeaviestFirst(profile, init), last, w);
      assert names == init + [last];
      OfWeightMore(profile, init, last, w);
    }
  }

  // -------------------------------------------------------------- shards

  function ShardWeight(profile: map<string, real>, shard: seq<string>): real
    decreases |shard|
  {
    if shard == [] then 0.0
    else ShardWeight(profile, shard[..|shard| - 1]) + Weight(profile, shard[|shard| - 1])
  }

  /** The names in all shards together, each as often as it occurs. */
  function AllNames(shards: seq<seq<string>>): multiset<string>
    decreases |shards|
  {
    if shards == [] then multiset{} else AllNames(shards[..|shards| - 1]) + multiset(shards[|shards| - 1])
  }

  lemma AddToBoth(a: multiset<string>, b: multiset<string>, c: multiset<string>)
    requires a == b
    ensures a + c == b + c
  {
  }

  /** Replacing one shard exchanges its names for the new ones. */
  lemma {:induction false} ExchangeShard(shards: seq<seq<string>>, k: nat, shard: seq<string>)
    requires k < |shards|
    ensures AllNames(shards[k := shard]) + multiset(shards[k]) == AllNames(shards) + multiset(shard)
    decreases |shards|
  {
    hide AllNames;
    var n := |shards| - 1;
    var after := shards[k := shard];
    LastShard(shards);
    LastShard(after);
    if k < n {
      ExchangeShard(shards[..n], k, shard);
      assert after[..n] == shards[..n][k := shard] && after[n] == shards[n];
      AddToBoth(AllNames(after[..n]) + multiset(shards[k]), AllNames(shards[..n]) + multiset(shard), multiset(shards[n]));
      Reorder(AllNames(after[..n]), multiset(shards[n]), multiset(shards[k]));
      Reorder(AllNames(shards[..n]), multiset(shards[n]), multiset(shard));
    } else {
      assert after[..n] == shards[..n] && after[n] == shard;
      Reorder(AllNames(shards[..n]), multiset(shards[n]), multiset(shard));
    }
  }

  lemma Reorder(a: multiset<string>, b: multiset<string>, c: multiset<string>)
    ensures (a + b) + c == (a + c) + b
  {
  }

  lemma LastShard(shards: seq<seq<string>>)
    requires shards != []
    ensures AllNames(shards) == AllNames(shards[..|shards| - 1]) + multiset(shards[|shards| - 1])
  {
  }

  lemma AppendToShard(shards: seq<seq<string>>, k: nat, name: string)
    requires k < |shards|
    ensures AllNames(shards[k := shards[k] + [name]]) == AllNames(shards) + multiset{name}
  {
    hide AllNames;
    ExchangeShard(shards, k, shards[k] + [name]);
    assert multiset(shards[k] + [name]) == multiset(shards[k]) + multiset{name};
    Cancel(AllNames(shards[k := shards[k] + [name]]), AllNames(shards) + multiset{name}, multiset(shards[k]));
  }

  lemma Cancel(a: multiset<string>, b: multiset<string>, c: multiset<string>)
    requires a + c == b + c
    ensures a == b
  {
    assert (a + c) - c == a && (b + c) - c == b;
  }

  lemma {:induction false} InSomeShard(shards: seq<seq<string>>, name: string) returns (k: nat)
    requires name in AllNames(shards)
    ensures k < |shards| && name in shards[k]
    decreases |shards|
  {
    var n := |shards| - 1;
    if name in shards[n] {
      k := n;
    } else {
      k := InSomeShard(shards[..n], name);
    }
  }

  lemma {:induction false} NoNames(m: nat)
    ensures AllNames(seq(m, _ => [])) == multiset{}
  {
    if m > 0 {
      var shards: seq<seq<string>> := seq(m, _ => []);
      assert shards[..m - 1] == seq(m - 1, _ => []);
      NoNames(m - 1);
    }
  }

  lemma ShardWeightAppend(profile: map<string, real>, shard: seq<string>, name: string)
    ensures ShardWeight(profile, shard + [name]) == ShardWeight(profile, shard) + Weight(profile, name)
  {
    assert (shard + [name])[..|shard|] == shard;
  }

  /** The shards agree with an assignment of the names to shard numbers. */
  ghost predicate Follows(profile: map<string, real>, shards: seq<seq<string>>, names: seq<string>, assign: seq<nat>) {
    && Assigns(assign, Weights(profile, names), |shards|)
    && AllNames(shards) == multiset(names)
    && forall k | 0 <= k < |shards| ::
         && ShardWeight(profile, shards[k]) == Load(assign, Weights(profile, names), k)
         && |shards[k]| == Count(assign, k)
  }

  lemma FollowsNothing(profile: map<string, real>, m: nat)
    ensures Follows(profile, seq(m, _ => []), [], [])
  {
    NoNames(m);
  }

  lemma LoadMore(assign: seq<nat>, weights: seq<real>, k: nat, w: real, at: nat)
    requires |assign| == |weights|
    ensures Load(assign + [k], weights + [w], at) == Load(assign, weights, at) + if k == at then w else 0.0
    ensures Count(assign + [k], at) == Count(assign, at) + if k == at then 1 else 0
  {
    assert (assign + [k])[..|assign|] == assign && (weights + [w])[..|weights|] == weights;
  }

  lemma FollowsMore(profile: map<string, real>, shards: seq<seq<string>>, names: seq<string>, assign: seq<nat>, name: string, k: nat)
    requires Follows(profile, shards, names, assign) && k < |shards|
    ensures Follows(profile, shards[k := shards[k] + [name]], names + [name], assign + [k])
  {
    hide AllNames, ShardWeight, Load, Count, Weight;
    var weights := Weights(profile, names);
    assert Weights(profile, names + [name]) == weights + [Weight(profile, name)];
    AppendToShard(shards, k, name);
    ShardWeightAppend(profile, shards[k], name);
    forall at | 0 <= at < |shards|
      ensures var after := shards[k := shards[k] + [name]];
              && ShardWeight(profile, after[at]) == Load(assign + [k], weights + [Weight(profile, name)], at)
              && |after[at]| == Count(assign + [k], at)
    {
      LoadMore(assign, weights, k, Weight(profile, name), at);
    }
  }

  // -------------------------------------------------------------- any other sharding

  lemma {:induction false} ShardWeightRemove(profile: map<string, real>, shard: seq<string>, p: nat)
    requires p < |shard|
    ensures ShardWeight(profile, shard[..p] + shard[p + 1..]) == ShardWeight(profile, shard) - Weight(profile, shard[p])
    decreases |shard|
  {
    var n := |shard| - 1;
    var rest := shard[..p] + shard[p + 1..];
    if p == n {
      assert rest == shard[..n];
    } else {
      ShardWeightRemove(profile, shard[..n], p);
      assert rest == (shard[..n][..p] + shard[..n][p + 1..]) + [shard[n]];
      ShardWeightAppend(profile, shard[..n][..p] + shard[..n][p + 1..], shard[n]);
    }
  }

  /** Any way of splitting the names is an assignment of them to shard numbers. */
  lemma {:induction false} AssignmentOf(profile: map<string, real>, names: seq<string>, other: seq<seq<string>>) returns (f: seq<nat>)
    requires AllNames(other) == multiset(names) && PositiveProfile(profile)
    ensures Assigns(f, Weights(profile, names), |other|)
    ensures forall k | 0 <= k < |other| :: Load(f, Weights(profile, names), k) <= ShardWeight(profile, other[k])
    decreases |names|
  {
    if names == [] {
      f := [];
      forall k | 0 <= k < |other|
        ensures 0.0 <= ShardWeight(profile, other[k])
      {
        ShardWeightNonNegative(profile, other[k]);
      }
    } else {
      var n := |names| - 1;
      var name := names[n];
      assert names == names[..n] + [name];
      assert name in multiset(names);
      var k := InSomeShard(other, name);
      var p :| 0 <= p < |other[k]| && other[k][p] == name;
      var rest := other[k][..p] + other[k][p + 1..];
      TakeFromShard(other, k, p);
      assert AllNames(other[k := rest]) == multiset(names[..n]) by {
        Cancel(AllNames(other[k := rest]), multiset(names[..n]), multiset{name});
      }
      ShardWeightRemove(profile, other[k], p);
      var g := AssignmentOf(profile, names[..n], other[k := rest]);
      f := g + [k];
      AssignmentGrows(profile, names, other, g, k, p, other[k := rest]);
    }
  }

  lemma TakeFromShard(shards: seq<seq<string>>, k: nat, p: nat)
    requires k < |shards| && p < |shards[k]|
    ensures AllNames(shards[k := shards[k][..p] + shards[k][p + 1..]]) + multiset{shards[k][p]} == AllNames(shards)
  {
    hide AllNames;
    var rest := shards[k][..p] + shards[k][p + 1..];
    ExchangeShard(shards, k, rest);
    assert shards[k] == shards[k][..p] + [shards[k][p]] + shards[k][p + 1..];
    assert multiset(shards[k]) == multiset(rest) + multiset{shards[k][p]};
    Cancel(AllNames(shards[k := rest]) + multiset{shards[k][p]}, AllNames(shards), multiset(rest));
  }

  lemma AssignmentGrows(profile: map<string, real>, names: seq<string>, other: seq<seq<string>>, g: seq<nat>, k: nat, p: nat, rest: seq<seq<string>>)
    requires names != [] && k < |other| && p < |other[k]| && other[k][p] == names[|names| - 1]
    requires Assigns(g, Weights(profile, names[..|names| - 1]), |other|)
    requires rest == other[k := other[k][..p] + other[k][p + 1..]]
    requires forall at | 0 <= at < |other| ::
               Load(g, Weights(profile, names[..|names| - 1]), at) <= ShardWeight(profile, rest[at])
    ensures Assigns(g + [k], Weights(profile, names), |other|)
    ensures forall at | 0 <= at < |other| :: Load(g + [k], Weights(profile, names), at) <= ShardWeight(profile, other[at])
  {
    hide Load, Count, ShardWeight, Weight;
    var n := |names| - 1;
    var weights := Weights(profile, names[..n]);
    assert Weights(profile, names) == weights + [Weight(profile, names[n])];
    ShardWeightRemove(profile, other[k], p);
    forall at | 0 <= at < |other|
      ensures Load(g + [k], Weights(profile, names), at) <= ShardWeight(profile, other[at])
    {
      LoadMore(g, weights, k, Weight(profile, names[n]), at);
      assert rest[at] == if at == k then other[k][..p] + other[k][p + 1..] else other[at];
    }
  }

  lemma {:induction false} ShardWeightNonNegative(profile: map<string, real>, shard: seq<string>)
    requires PositiveProfile(profile)
    ensures ShardWeight(profile, shard) >= 0.0
    decreases |shard|
  {
    if shard != [] {
      ShardWeightNonNegative(profile, shard[..|shard| - 1]);
    }
  }

  // -------------------------------------------------------------- the scheduler

  lemma {:induction false} TotalIsShardWeight(profile: map<string, real>, names: seq<string>)
    ensures Total(Weights(profile, names)) == ShardWeight(profile, names)
    decreases |names|
  {
    if names != [] {
      var n := |names| - 1;
      assert Weights(profile, names)[..n] == Weights(profile, names[..n]);
      TotalIsShardWeight(profile, names[..n]);
    }
  }

  lemma {:induction false} ShardWeightOfPermutation(profile: map<string, real>, a: seq<string>, b: seq<string>)
    requires multiset(a) == multiset(b)
    ensures ShardWeight(profile, a) == ShardWeight(profile, b)
    decreases |a|
  {
    if a == [] {
      SameSize(a, b);
    } else {
      var n := |a| - 1;
      assert a == a[..n] + [a[n]];
      assert a[n] in multiset(b);
      var p :| 0 <= p < |b| && b[p] == a[n];
      assert b == b[..p] + [b[p]] + b[p + 1..];
      Cancel(multiset(a[..n]), multiset(b[..p] + b[p + 1..]), multiset{a[n]});
      ShardWeightOfPermutation(profile, a[..n], b[..p] + b[p + 1..]);
      ShardWeightRemove(profile, b, p);
    }
  }

  method LightestShard(weights: seq<real>) returns (index: nat)
    requires weights != []
    ensures index < |weights| && forall k | 0 <= k < |weights| :: weights[index] <= weights[k]
    ensures forall k | 0 <= k < index :: weights[index] < weights[k]
  {
    index := 0;
    for i := 1 to |weights|
      invariant index < i && forall k | 0 <= k < i :: weights[index] <= weights[k]
      invariant forall k | 0 <= k < index :: weights[index] < weights[k]
    {
      if weights[i] < weights[index] {
        index := i;
      }
    }
  }

  /** The running totals are the loads. */
  predicate LoadsAre(loads: seq<real>, assign: seq<nat>, weights: seq<real>)
    requires |assign| == |weights|
  {
    forall k | 0 <= k < |loads| :: loads[k] == Load(assign, weights, k)
  }

  lemma LoadsMore(loads: seq<real>, assign: seq<nat>, weights: seq<real>, index: nat, w: real)
    requires |assign| == |weights| && index < |loads| && LoadsAre(loads, assign, weights)
    ensures LoadsAre(loads[index := loads[index] + w], assign + [index], weights + [w])
  {
    hide Load, Count;
    forall k | 0 <= k < |loads|
      ensures loads[index := loads[index] + w][k] == Load(assign + [index], weights + [w], k)
    {
      LoadMore(assign, weights, index, w, k);
    }
  }

  lemma GreedyMore(assign: seq<nat>, weights: seq<real>, m: nat, k: nat, w: real, loads: seq<real>)
    requires Greedy(assign, weights, m) && k < m == |loads| && LoadsAre(loads, assign, weights)
    requires forall i | 0 <= i < m :: loads[k] <= loads[i]
    ensures Greedy(assign + [k], weights + [w], m)
  {
    hide Load;
    var a, ws := assign + [k], weights + [w];
    forall j | 0 <= j < |a|
      ensures LeastAt(a, ws, m, j)
    {
      if j < |assign| {
        assert LeastAt(assign, weights, m, j);
        assert a[..j] == assign[..j] && ws[..j] == weights[..j];
      } else {
        assert a[..j] == assign && ws[..j] == weights;
      }
    }
  }

  /** What the scheduler promises about its shards. */
  ghost predicate WellSharded(profile: map<string, real>, names: seq<string>, shards: seq<seq<string>>) {
    var m := |shards|;
    // Every test is in exactly one shard, and no shard is empty.
    && AllNames(shards) == multiset(names)
    && (forall k | 0 <= k < m :: shards[k] != [])
    // No shard exceeds the average by more than a share of the heaviest test.
    && (forall k, heaviest: real | 0 <= k < m && HeaviestAtMost(profile, names, heaviest) ::
          ShardWeight(profile, shards[k]) <= ShardWeight(profile, names) / m as real + (1.0 - 1.0 / m as real) * heaviest)
    // No way of splitting the same tests into as many shards is much faster.
    && (forall k, other, limit: real | 0 <= k < m && SplitWithin(profile, names, other, m, limit) ::
          ShardWeight(profile, shards[k]) <= (4.0 / 3.0 - 1.0 / (3.0 * m as real)) * limit)
  }

  predicate HeaviestAtMost(profile: map<string, real>, names: seq<string>, heaviest: real) {
    0.0 <= heaviest && forall i | 0 <= i < |names| :: Weight(profile, names[i]) <= heaviest
  }

  /** Another split of the names into m shards, none heavier than the limit. */
  ghost predicate SplitWithin(profile: map<string, real>, names: seq<string>, other: seq<seq<string>>, m: nat, limit: real) {
    && |other| == m && AllNames(other) == multiset(names)
    && forall k | 0 <= k < m :: ShardWeight(profile, other[k]) <= limit
  }

  lemma ShardsAverage(profile: map<string, real>, sorted: seq<string>, names: seq<string>, shards: seq<seq<string>>, assign: seq<nat>, k: nat, heaviest: real)
    requires PositiveProfile(profile) && multiset(sorted) == multiset(names)
    requires Follows(profile, shards, sorted, assign) && Greedy(assign, Weights(profile, sorted), |shards|)
    requires k < |shards| && HeaviestAtMost(profile, names, heaviest)
    ensures ShardWeight(profile, shards[k]) <=
            ShardWeight(profile, names) / |shards| as real + (1.0 - 1.0 / |shards| as real) * heaviest
  {
    hide Load, Count, ShardWeight, Greedy, AllNames, Weight, Follows;
    HeaviestOfPermutation(profile, sorted, names, heaviest);
    FollowsLoad(profile, shards, sorted, assign, k);
    AverageBound(assign, Weights(profile, sorted), |shards|, k, heaviest);
    TotalIsShardWeight(profile, sorted);
    ShardWeightOfPermutation(profile, sorted, names);
    assert Total(Weights(profile, sorted)) == ShardWeight(profile, names);
  }

  lemma HeaviestOfPermutation(profile: map<string, real>, sorted: seq<string>, names: seq<string>, heaviest: real)
    requires multiset(sorted) == multiset(names) && HeaviestAtMost(profile, names, heaviest)
    ensures 0.0 <= heaviest && forall j | 0 <= j < |sorted| :: Weight(profile, sorted[j]) <= heaviest
  {
    hide Weight;
    forall j | 0 <= j < |sorted|
      ensures Weight(profile, sorted[j]) <= heaviest
    {
      assert sorted[j] in multiset(names);
    }
  }

  lemma FollowsLoad(profile: map<string, real>, shards: seq<seq<string>>, names: seq<string>, assign: seq<nat>, k: nat)
    requires Follows(profile, shards, names, assign) && k < |shards|
    ensures Assigns(assign, Weights(profile, names), |shards|)
    ensures Load(assign, Weights(profile, names), k) == ShardWeight(profile, shards[k])
  {
    hide Load, ShardWeight, Weight, AllNames;
  }

  lemma ShardsNearBest(profile: map<string, real>, sorted: seq<string>, names: seq<string>, shards: seq<seq<string>>, assign: seq<nat>, k: nat,
                       other: seq<seq<string>>, limit: real)
    requires PositiveProfile(profile) && multiset(sorted) == multiset(names) && HeaviestFirst(profile, sorted)
    requires Follows(profile, shards, sorted, assign) && Greedy(assign, Weights(profile, sorted), |shards|)
    requires k < |shards| && SplitWithin(profile, names, other, |shards|, limit)
    ensures ShardWeight(profile, shards[k]) <= (4.0 / 3.0 - 1.0 / (3.0 * |shards| as real)) * limit
  {
    hide Load, Count, ShardWeight, Greedy, AllNames, Weight;
    var f := AssignmentOf(profile, sorted, other);
    HeaviestFirstBound(assign, Weights(profile, sorted), |shards|, k, f, limit);
  }

  /** Splits the tests into at most shardCount shards, heaviest test first, each to the
      lightest shard so far. Without a shard to use for a test there is no result. */
  method ShardNames(profile: map<string, real>, names: seq<string>, shardCount: int) returns (r: Result<seq<seq<string>>, ShardError>)
    requires PositiveProfile(profile)
    ensures r.Err? <==> names != [] && shardCount <= 0
    ensures r.Ok? ==> |r.value| == (if names == [] || shardCount <= 0 then 0 else if shardCount < |names| then shardCount else |names|)
    ensures r.Ok? ==> WellSharded(profile, names, r.value)
  {
    hide Load, Count, ShardWeight, Weights, Follows, Greedy, WellSharded, HeaviestFirst, PositiveProfile, LoadsAre;
    hide SortHeaviestFirst, InsertStable;
    var m: nat := if shardCount <= 0 then 0 else if shardCount < |names| then shardCount else |names|;
    var shards: seq<seq<string>> := seq(m, _ => []);
    var weights: seq<real> := seq(m, _ => 0.0);
    var sorted := SortHeaviestFirst(profile, names);
    SortOrders(profile, names);
    ghost var assign: seq<nat> := [];
    SameSize(sorted, names);
    if m == 0 && sorted != [] {
      return Err(NoShardAvailable);
    }
    NothingScheduled(profile, m);
    for i := 0 to |sorted|
      invariant |shards| == |weights| == m && |assign| == i
      invariant Follows(profile, shards, sorted[..i], assign)
      invariant Greedy(assign, Weights(profile, sorted[..i]), m)
      invariant LoadsAre(weights, assign, Weights(profile, sorted[..i]))
    {
      var name := sorted[i];
      var weight := if name in profile then profile[name] else 1.0;
      assert weight == Weight(profile, name);
      var index := LightestShard(weights);
      ghost var before := Weights(profile, sorted[..i]);
      WeightsMore(profile, sorted, i);
      FollowsMore(profile, shards, sorted[..i], assign, name, index);
      GreedyMore(assign, before, m, index, Weight(profile, name), weights);
      LoadsMore(weights, assign, before, index, Weight(profile, name));
      shards := shards[index := shards[index] + [name]];
      weights := weights[index := weights[index] + weight];
      assign := assign + [index];
    }
    assert sorted[..|sorted|] == sorted;
    ShardsAreGood(profile, sorted, names, shards, assign);
    return Ok(shards);
  }

  lemma WeightsMore(profile: map<string, real>, sorted: seq<string>, i: nat)
    requires i < |sorted|
    ensures sorted[..i + 1] == sorted[..i] + [sorted[i]]
    ensures Weights(profile, sorted[..i + 1]) == Weights(profile, sorted[..i]) + [Weight(profile, sorted[i])]
  {
  }

  lemma SameSize(a: seq<string>, b: seq<string>)
    requires multiset(a) == multiset(b)
    ensures |a| == |b|
  {
    assert |multiset(a)| == |multiset(b)|;
  }

  lemma NothingScheduled(profile: map<string, real>, m: nat)
    ensures Follows(profile, seq(m, _ => []), [], []) && Greedy([], Weights(profile, []), m)
    ensures LoadsAre(seq(m, _ => 0.0), [], Weights(profile, []))
  {
    FollowsNothing(profile, m);
  }

  lemma ShardsAreGood(profile: map<string, real>, sorted: seq<string>, names: seq<string>, shards: seq<seq<string>>, assign: seq<nat>)
    requires PositiveProfile(profile) && multiset(sorted) == multiset(names) && HeaviestFirst(profile, sorted)
    requires Follows(profile, shards, sorted, assign) && Greedy(assign, Weights(profile, sorted), |shards|)
    requires |shards| <= |sorted|
    ensures WellSharded(profile, names, shards)
  {
    hide Load, ShardWeight, Weight, Greedy, AllNames, HeaviestAtMost, SplitWithin;
    var m := |shards|;
    assert Follows(profile, shards, sorted, assign);
    NoMachineIdle(assign, Weights(profile, sorted), m);
    forall k, heaviest: real | 0 <= k < m && HeaviestAtMost(profile, names, heaviest)
      ensures ShardWeight(profile, shards[k]) <= ShardWeight(profile, names) / m as real + (1.0 - 1.0 / m as real) * heaviest
    {
      ShardsAverage(profile, sorted, names, shards, assign, k, heaviest);
    }
    forall k, other, limit: real | 0 <= k < m && SplitWithin(profile, names, other, m, limit)
      ensures ShardWeight(profile, shards[k]) <= (4.0 / 3.0 - 1.0 / (3.0 * m as real)) * limit
    {
      ShardsNearBest(profile, sorted, names, shards, assign, k, other, limit);
    }
  }
}
