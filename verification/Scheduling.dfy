/** Greedy scheduling of weighted jobs on m machines, as pure statements about an
    assignment of jobs to machines. */
module Scheduling {
  import opened Json

  /** Job j runs on machine assign[j]. */
  predicate Assigns(assign: seq<nat>, weights: seq<real>, m: nat) {
    |assign| == |weights| && forall j | 0 <= j < |assign| :: assign[j] < m
  }

  function Load(assign: seq<nat>, weights: seq<real>, k: nat): real
    requires |assign| == |weights|
    decreases |assign|
  {
    if assign == [] then 0.0
    else
      var n := |assign| - 1;
      Load(assign[..n], weights[..n], k) + if assign[n] == k then weights[n] else 0.0
  }

  function Count(assign: seq<nat>, k: nat): nat
    decreases |assign|
  {
    if assign == [] then 0
    else
      var n := |assign| - 1;
      Count(assign[..n], k) + if assign[n] == k then 1 else 0
  }

  function Total(weights: seq<real>): real
    decreases |weights|
  {
    if weights == [] then 0.0 else Total(weights[..|weights| - 1]) + weights[|weights| - 1]
  }

  predicate Positive(weights: seq<real>) {
    forall j | 0 <= j < |weights| :: weights[j] > 0.0
  }

  predicate Descending(weights: seq<real>) {
    forall i, j | 0 <= i <= j < |weights| :: weights[i] >= weights[j]
  }

  /** Job j went to a machine that was least loaded when it arrived. */
  predicate LeastAt(assign: seq<nat>, weights: seq<real>, m: nat, j: nat)
    requires |assign| == |weights| && j < |assign|
  {
    forall k | 0 <= k < m :: Load(assign[..j], weights[..j], assign[j]) <= Load(assign[..j], weights[..j], k)
  }

  predicate Greedy(assign: seq<nat>, weights: seq<real>, m: nat) {
    && Assigns(assign, weights, m)
    && forall j | 0 <= j < |assign| :: LeastAt(assign, weights, m, j)
  }

  /** No machine works longer than the limit. */
  predicate Within(assign: seq<nat>, weights: seq<real>, m: nat, limit: real) {
    && Assigns(assign, weights, m)
    && forall k | 0 <= k < m :: Load(assign, weights, k) <= limit
  }

  // -------------------------------------------------------------- sums over machines

  function LoadSum(assign: seq<nat>, weights: seq<real>, m: nat): real
    requires |assign| == |weights|
  {
    if m == 0 then 0.0 else LoadSum(assign, weights, m - 1) + Load(assign, weights, m - 1)
  }

  lemma {:induction false} LoadSumStep(assign: seq<nat>, weights: seq<real>, m: nat)
    requires |assign| == |weights| && assign != []
    ensures var n := |assign| - 1;
            LoadSum(assign, weights, m) == LoadSum(assign[..n], weights[..n], m) + if assign[n] < m then weights[n] else 0.0
    decreases m
  {
    if m > 0 {
      LoadSumStep(assign, weights, m - 1);
    }
  }

  lemma {:induction false} LoadSumEmpty(m: nat)
    ensures LoadSum([], [], m) == 0.0
  {
    if m > 0 {
      LoadSumEmpty(m - 1);
    }
  }

  /** All the work is on some machine. */
  lemma {:induction false} LoadSumIsTotal(assign: seq<nat>, weights: seq<real>, m: nat)
    requires Assigns(assign, weights, m)
    ensures LoadSum(assign, weights, m) == Total(weights)
    decreases |assign|
  {
    if assign == [] {
      LoadSumEmpty(m);
    } else {
      var n := |assign| - 1;
      LoadSumStep(assign, weights, m);
      LoadSumIsTotal(assign[..n], weights[..n], m);
    }
  }

  lemma {:induction false} LoadSumAtLeast(assign: seq<nat>, weights: seq<real>, m: nat, low: real)
    requires |assign| == |weights| && forall k | 0 <= k < m :: low <= Load(assign, weights, k)
    ensures m as real * low <= LoadSum(assign, weights, m)
    decreases m
  {
    if m > 0 {
      LoadSumAtLeast(assign, weights, m - 1, low);
      assert m as real * low == (m - 1) as real * low + low;
    }
  }

  lemma {:induction false} LoadSumAtMost(assign: seq<nat>, weights: seq<real>, m: nat, high: real)
    requires |assign| == |weights| && forall k | 0 <= k < m :: Load(assign, weights, k) <= high
    ensures LoadSum(assign, weights, m) <= m as real * high
    decreases m
  {
    if m > 0 {
      LoadSumAtMost(assign, weights, m - 1, high);
      assert m as real * high == (m - 1) as real * high + high;
    }
  }

  function CountSum(assign: seq<nat>, m: nat): nat {
    if m == 0 then 0 else CountSum(assign, m - 1) + Count(assign, m - 1)
  }

  lemma {:induction false} CountSumStep(assign: seq<nat>, m: nat)
    requires assign != []
    ensures var n := |assign| - 1; CountSum(assign, m) == CountSum(assign[..n], m) + if assign[n] < m then 1 else 0
    decreases m
  {
    if m > 0 {
      CountSumStep(assign, m - 1);
    }
  }

  lemma {:induction false} CountSumEmpty(m: nat)
    ensures CountSum([], m) == 0
  {
    if m > 0 {
      CountSumEmpty(m - 1);
    }
  }

  lemma {:induction false} CountSumIsLength(assign: seq<nat>, m: nat)
    requires forall j | 0 <= j < |assign| :: assign[j] < m
    ensures CountSum(assign, m) == |assign|
    decreases |assign|
  {
    if assign == [] {
      CountSumEmpty(m);
    } else {
      CountSumStep(assign, m);
      CountSumIsLength(assign[..|assign| - 1], m);
    }
  }

  // -------------------------------------------------------------- prefixes and last jobs

  lemma {:induction false} LoadNonNegative(assign: seq<nat>, weights: seq<real>, k: nat)
    requires |assign| == |weights| && Positive(weights)
    ensures Load(assign, weights, k) >= 0.0
    ensures Count(assign, k) == 0 ==> Load(assign, weights, k) == 0.0
    decreases |assign|
  {
    if assign != [] {
      var n := |assign| - 1;
      LoadNonNegative(assign[..n], weights[..n], k);
    }
  }

  lemma {:induction false} PrefixLoad(assign: seq<nat>, weights: seq<real>, k: nat, n: nat)
    requires |assign| == |weights| && Positive(weights) && n <= |assign|
    ensures Load(assign[..n], weights[..n], k) <= Load(assign, weights, k)
    decreases |assign|
  {
    if n < |assign| {
      var l := |assign| - 1;
      PrefixLoad(assign[..l], weights[..l], k, n);
      assert assign[..l][..n] == assign[..n] && weights[..l][..n] == weights[..n];
    } else {
      assert assign[..n] == assign && weights[..n] == weights;
    }
  }

  lemma {:induction false} PrefixTotal(weights: seq<real>, n: nat)
    requires Positive(weights) && n <= |weights|
    ensures Total(weights[..n]) <= Total(weights)
    decreases |weights|
  {
    if n < |weights| {
      var l := |weights| - 1;
      PrefixTotal(weights[..l], n);
      assert weights[..l][..n] == weights[..n];
    } else {
      assert weights[..n] == weights;
    }
  }

  /** A machine's load is what it had when its last job arrived, plus that job. */
  lemma {:induction false} LastJob(assign: seq<nat>, weights: seq<real>, k: nat) returns (j: nat)
    requires |assign| == |weights| && Count(assign, k) > 0
    ensures j < |assign| && assign[j] == k
    ensures Load(assign, weights, k) == Load(assign[..j], weights[..j], k) + weights[j]
    decreases |assign|
  {
    var n := |assign| - 1;
    if assign[n] == k {
      j := n;
    } else {
      j := LastJob(assign[..n], weights[..n], k);
      assert assign[..n][..j] == assign[..j] && weights[..n][..j] == weights[..j];
    }
  }

  lemma TotalStep(weights: seq<real>, j: nat)
    requires j < |weights|
    ensures Total(weights[..j + 1]) == Total(weights[..j]) + weights[j]
  {
    assert weights[..j + 1][..j] == weights[..j];
  }

  lemma NoWork(weights: seq<real>)
    ensures Total(weights[..0]) == 0.0
  {
  }

  lemma LeastLoad(assign: seq<nat>, weights: seq<real>, m: nat, j: nat)
    requires Greedy(assign, weights, m) && j < |assign|
    ensures m as real * Load(assign[..j], weights[..j], assign[j]) <= Total(weights[..j])
  {
    assert LeastAt(assign, weights, m, j);
    LoadSumAtLeast(assign[..j], weights[..j], m, Load(assign[..j], weights[..j], assign[j]));
    LoadSumIsTotal(assign[..j], weights[..j], m);
  }

  // -------------------------------------------------------------- the average bound

  lemma ScaleDown(m: nat, load: real, total: real)
    requires m > 0 && m as real * load <= total
    ensures load <= total / m as real
  {
    assert load == (m as real * load) / m as real;
  }

  lemma AverageArithmetic(m: nat, before: real, w: real, total: real, high: real)
    requires m > 0 && m as real * before <= total - w && w <= high
    ensures before + w <= total / m as real + (1.0 - 1.0 / m as real) * high
  {
    var u := 1.0 / m as real;
    assert m as real * u == 1.0 && 0.0 < u <= 1.0;
    ScaleDown(m, before, total - w);
    assert (total - w) / m as real == total / m as real - w * u;
    assert (1.0 - u) * w <= (1.0 - u) * high;
  }

  /** Every machine finishes within the average load plus a share of the heaviest job. */
  lemma AverageBound(assign: seq<nat>, weights: seq<real>, m: nat, k: nat, high: real)
    requires Greedy(assign, weights, m) && Positive(weights) && k < m
    requires forall j | 0 <= j < |weights| :: weights[j] <= high
    requires high >= 0.0
    ensures Load(assign, weights, k) <= Total(weights) / m as real + (1.0 - 1.0 / m as real) * high
  {
    hide Load, Total, Count, LeastAt;
    LoadNonNegative(assign, weights, k);
    if Count(assign, k) == 0 {
      PrefixTotal(weights, 0);
      NoWork(weights);
      AverageArithmetic(m, 0.0, 0.0, Total(weights), high);
    } else {
      var j := LastJob(assign, weights, k);
      LeastLoad(assign, weights, m, j);
      TotalStep(weights, j);
      PrefixTotal(weights, j + 1);
      AverageArithmetic(m, Load(assign[..j], weights[..j], k), weights[j], Total(weights), high);
    }
  }

  // -------------------------------------------------------------- against any other assignment

  lemma {:induction false} CountAtLeastOne(assign: seq<nat>, k: nat, j: nat)
    requires j < |assign| && assign[j] == k
    ensures Count(assign, k) >= 1
    decreases |assign|
  {
    var n := |assign| - 1;
    if j < n {
      CountAtLeastOne(assign[..n], k, j);
    }
  }

  lemma {:induction false} CountAtLeastTwo(assign: seq<nat>, k: nat, i: nat, j: nat)
    requires i < j < |assign| && assign[i] == k && assign[j] == k
    ensures Count(assign, k) >= 2
    decreases |assign|
  {
    var n := |assign| - 1;
    if j < n {
      CountAtLeastTwo(assign[..n], k, i, j);
    } else {
      CountAtLeastOne(assign[..n], k, i);
    }
  }

  lemma {:induction false} LoadByCount(assign: seq<nat>, weights: seq<real>, k: nat, low: real)
    requires |assign| == |weights| && forall j | 0 <= j < |weights| :: low <= weights[j]
    ensures Count(assign, k) as real * low <= Load(assign, weights, k)
    decreases |assign|
  {
    if assign != [] {
      var n := |assign| - 1;
      LoadByCount(assign[..n], weights[..n], k, low);
    }
  }

  function JobOn(assign: seq<nat>, k: nat): (i: nat)
    requires Count(assign, k) > 0
    ensures i < |assign| && assign[i] == k
    decreases |assign|
  {
    var n := |assign| - 1;
    if assign[n] == k then n else JobOn(assign[..n], k)
  }

  lemma {:induction false} SingleJob(assign: seq<nat>, weights: seq<real>, k: nat)
    requires |assign| == |weights| && Count(assign, k) == 1
    ensures Load(assign, weights, k) == weights[JobOn(assign, k)]
    decreases |assign|
  {
    var n := |assign| - 1;
    if assign[n] == k {
      IdleLoad(assign[..n], weights[..n], k);
    } else {
      SingleJob(assign[..n], weights[..n], k);
    }
  }

  /** A machine carries any one of its jobs and at least low for each of the others. */
  lemma {:induction false} LoadByCountWith(assign: seq<nat>, weights: seq<real>, k: nat, i: nat, low: real)
    requires |assign| == |weights| && forall j | 0 <= j < |weights| :: low <= weights[j]
    requires i < |assign| && assign[i] == k
    ensures weights[i] + (Count(assign, k) - 1) as real * low <= Load(assign, weights, k)
    decreases |assign|
  {
    var n := |assign| - 1;
    if i < n {
      LoadByCountWith(assign[..n], weights[..n], k, i, low);
    } else {
      LoadByCount(assign[..n], weights[..n], k, low);
    }
  }

  lemma {:induction false} IdleLoad(assign: seq<nat>, weights: seq<real>, k: nat)
    requires |assign| == |weights| && Count(assign, k) == 0
    ensures Load(assign, weights, k) == 0.0
    decreases |assign|
  {
    if assign != [] {
      var n := |assign| - 1;
      IdleLoad(assign[..n], weights[..n], k);
    }
  }

  lemma {:induction false} OneJobLoad(assign: seq<nat>, weights: seq<real>, k: nat, i: nat)
    requires |assign| == |weights| && Positive(weights) && i < |assign| && assign[i] == k
    ensures Load(assign, weights, k) >= weights[i]
    decreases |assign|
  {
    var n := |assign| - 1;
    if i < n {
      OneJobLoad(assign[..n], weights[..n], k, i);
    } else {
      LoadNonNegative(assign[..n], weights[..n], k);
    }
  }

  function Singles(assign: seq<nat>, m: nat): set<nat> {
    set k: nat | k < m && Count(assign, k) == 1
  }

  lemma SinglesStep(assign: seq<nat>, m: nat)
    requires m > 0
    ensures |Singles(assign, m)| == |Singles(assign, m - 1)| + if Count(assign, m - 1) == 1 then 1 else 0
  {
    if Count(assign, m - 1) == 1 {
      assert Singles(assign, m) == Singles(assign, m - 1) + {m - 1};
    } else {
      assert Singles(assign, m) == Singles(assign, m - 1);
    }
  }

  /** If no machine is idle, machines with one job and the job count together reach 2m. */
  lemma {:induction false} BusyCount(assign: seq<nat>, m: nat)
    requires forall k | 0 <= k < m :: Count(assign, k) >= 1
    ensures CountSum(assign, m) + |Singles(assign, m)| >= 2 * m
    decreases m
  {
    if m > 0 {
      SinglesStep(assign, m);
      BusyCount(assign, m - 1);
    }
  }

  /** If no machine has more than two jobs, they stay within 2m. */
  lemma {:induction false} PairedCount(assign: seq<nat>, m: nat)
    requires forall k | 0 <= k < m :: Count(assign, k) <= 2
    ensures CountSum(assign, m) + |Singles(assign, m)| <= 2 * m
    decreases m
  {
    if m > 0 {
      SinglesStep(assign, m);
      PairedCount(assign, m - 1);
    } else {
      assert Singles(assign, m) == {};
    }
  }

  lemma {:induction false} InjectionSize(a: set<nat>, b: set<nat>, f: map<nat, nat>)
    requires f.Keys == a && forall x | x in a :: f[x] in b
    requires forall x, y | x in a && y in a && x != y :: f[x] != f[y]
    ensures |a| <= |b|
    decreases |a|
  {
    if a != {} {
      var x :| x in a;
      var g := map y | y in a && y != x :: f[y];
      InjectionSize(a - {x}, b - {f[x]}, g);
    }
  }

  lemma MoreCopies(n: nat, c: nat, w: real)
    requires n <= c && w > 0.0
    ensures n as real * w <= c as real * w
  {
    assert (c - n) as real * w >= 0.0;
    assert c as real * w == n as real * w + (c - n) as real * w;
  }

  lemma OneMoreCopy(c: nat, w: real)
    requires w > 0.0
    ensures c >= 2 ==> (c - 1) as real * w >= w
  {
    if c >= 2 {
      MoreCopies(1, c - 1, w);
    }
  }

  lemma AloneOnMachine(g: seq<nat>, weights: seq<real>, limit: real, w: real, i: nat)
    requires |g| == |weights| && i < |g| && Load(g, weights, g[i]) <= limit
    requires w > 0.0 && weights[i] + w > limit && forall i | 0 <= i < |weights| :: w <= weights[i]
    ensures Count(g, g[i]) == 1
  {
    hide Load, Count;
    var c := Count(g, g[i]);
    CountAtLeastOne(g, g[i], i);
    LoadByCountWith(g, weights, g[i], i, w);
    var spare := (c - 1) as real * w;
    assert weights[i] + spare <= limit;
    OneMoreCopy(c, w);
  }

  /** In an assignment within the limit, jobs heavier than a third of it sit at most two to
      a machine, and a job that cannot share with w sits alone. */
  lemma HeavyJobsPair(g: seq<nat>, weights: seq<real>, m: nat, limit: real, w: real, k: nat)
    requires Within(g, weights, m, limit) && k < m
    requires w > 0.0 && 3.0 * w > limit && forall i | 0 <= i < |weights| :: w <= weights[i]
    ensures Count(g, k) <= 2
    ensures forall i | 0 <= i < |g| && g[i] == k && weights[i] + w > limit :: Count(g, k) == 1
  {
    hide Load;
    var c := Count(g, k);
    LoadByCount(g, weights, k, w);
    if c > 2 {
      MoreCopies(3, c, w);
    }
    forall i | 0 <= i < |g| && g[i] == k && weights[i] + w > limit
      ensures Count(g, k) == 1
    {
      AloneOnMachine(g, weights, limit, w, i);
    }
  }

  /** If job w fits on no machine of a, each job alone on a machine of a is alone in g. */
  lemma SinglesStaySingle(a: seq<nat>, g: seq<nat>, weights: seq<real>, m: nat, limit: real, w: real)
    requires |g| == |weights| == |a| + 1 && Assigns(a, weights[..|a|], m) && Within(g, weights, m, limit)
    requires w > 0.0 && 3.0 * w > limit && forall i | 0 <= i < |weights| :: w <= weights[i]
    requires forall k | 0 <= k < m :: Load(a, weights[..|a|], k) + w > limit
    ensures |Singles(a, m)| <= |Singles(g, m)|
  {
    hide Load, Count;
    var f := map k | k in Singles(a, m) :: g[JobOn(a, k)];
    forall k | k in Singles(a, m)
      ensures f[k] in Singles(g, m)
    {
      SingleJob(a, weights[..|a|], k);
      HeavyJobsPair(g, weights, m, limit, w, f[k]);
      assert weights[JobOn(a, k)] + w > limit;
    }
    forall x, y | x in Singles(a, m) && y in Singles(a, m) && x != y
      ensures f[x] != f[y]
    {
      var i, j := JobOn(a, x), JobOn(a, y);
      if f[x] == f[y] {
        CountAtLeastTwo(g, f[x], if i < j then i else j, if i < j then j else i);
      }
    }
    InjectionSize(Singles(a, m), Singles(g, m), f);
  }

  /** A job heavier than a third of the limit finds a machine of any assignment a of the
      earlier jobs where it still fits, whenever some assignment g of all of them fits. */
  lemma SomeMachineHasRoom(a: seq<nat>, g: seq<nat>, weights: seq<real>, m: nat, limit: real, w: real)
    requires |g| == |weights| == |a| + 1 && Assigns(a, weights[..|a|], m) && Within(g, weights, m, limit)
    requires w > 0.0 && 3.0 * w > limit && forall i | 0 <= i < |weights| :: w <= weights[i]
    requires Positive(weights) && weights[|a|] == w
    ensures exists k :: 0 <= k < m && Load(a, weights[..|a|], k) + w <= limit
  {
    hide Load, Count;
    if forall k | 0 <= k < m :: Load(a, weights[..|a|], k) + w > limit {
      OneJobLoad(g, weights, g[|a|], |a|);
      forall k | 0 <= k < m
        ensures Count(a, k) >= 1
      {
        if Count(a, k) == 0 {
          IdleLoad(a, weights[..|a|], k);
        }
      }
      forall k | 0 <= k < m
        ensures Count(g, k) <= 2
      {
        HeavyJobsPair(g, weights, m, limit, w, k);
      }
      CountSumIsLength(a, m);
      CountSumIsLength(g, m);
      BusyCount(a, m);
      PairedCount(g, m);
      SinglesStaySingle(a, g, weights, m, limit, w);
      assert false;
    }
  }

  lemma LightArithmetic(m: nat, before: real, w: real, total: real, limit: real)
    requires m > 0 && m as real * before <= total - w && total <= m as real * limit && 3.0 * w <= limit
    ensures before + w <= (4.0 / 3.0 - 1.0 / (3.0 * m as real)) * limit
  {
    var u := 1.0 / m as real;
    assert m as real * u == 1.0 && 0.0 < u <= 1.0;
    AverageArithmetic(m, before, w, total, limit / 3.0);
    assert total / m as real <= limit by {
      assert total * u <= (m as real * limit) * u;
    }
    assert 1.0 / (3.0 * m as real) == u / 3.0 by {
      assert (u / 3.0) * (3.0 * m as real) == 1.0;
    }
    assert limit + (1.0 - u) * (limit / 3.0) == (4.0 / 3.0 - u / 3.0) * limit;
  }

  lemma HeavyArithmetic(m: nat, load: real, limit: real)
    requires m > 0 && load <= limit && limit >= 0.0
    ensures load <= (4.0 / 3.0 - 1.0 / (3.0 * m as real)) * limit
  {
    var u := 1.0 / (3.0 * m as real);
    assert u * (3.0 * m as real) == 1.0;
    assert u <= 1.0 / 3.0;
    assert (4.0 / 3.0 - u) * limit >= limit;
  }

  lemma PrefixWithin(f: seq<nat>, weights: seq<real>, m: nat, limit: real, n: nat)
    requires Within(f, weights, m, limit) && Positive(weights) && n <= |weights|
    ensures Within(f[..n], weights[..n], m, limit)
  {
    hide Load;
    forall k | 0 <= k < m
      ensures Load(f[..n], weights[..n], k) <= limit
    {
      PrefixLoad(f, weights, k, n);
    }
  }

  /** Heaviest-first greedy scheduling: no machine exceeds 4/3 - 1/(3m) times the limit of
      any assignment whatever of the same jobs to the same number of machines. */
  lemma HeaviestFirstBound(assign: seq<nat>, weights: seq<real>, m: nat, k: nat, f: seq<nat>, limit: real)
    requires Greedy(assign, weights, m) && Positive(weights) && Descending(weights) && k < m
    requires Within(f, weights, m, limit)
    ensures Load(assign, weights, k) <= (4.0 / 3.0 - 1.0 / (3.0 * m as real)) * limit
  {
    hide Load, Count, Total;
    LoadNonNegative(f, weights, k);
    if Count(assign, k) == 0 {
      IdleLoad(assign, weights, k);
      HeavyArithmetic(m, 0.0, limit);
    } else {
      var j := LastJob(assign, weights, k);
      HeaviestFirstStep(assign, weights, m, j, f, limit);
    }
  }

  lemma HeaviestFirstStep(assign: seq<nat>, weights: seq<real>, m: nat, j: nat, f: seq<nat>, limit: real)
    requires Greedy(assign, weights, m) && Positive(weights) && Descending(weights) && j < |assign| && m > 0
    requires Within(f, weights, m, limit) && limit >= 0.0
    ensures Load(assign[..j], weights[..j], assign[j]) + weights[j] <= (4.0 / 3.0 - 1.0 / (3.0 * m as real)) * limit
  {
    hide Load, Count, Total;
    var before, w := Load(assign[..j], weights[..j], assign[j]), weights[j];
    if 3.0 * w <= limit {
      LeastLoad(assign, weights, m, j);
      TotalStep(weights, j);
      PrefixTotal(weights, j + 1);
      LoadSumAtMost(f, weights, m, limit);
      LoadSumIsTotal(f, weights, m);
      LightArithmetic(m, before, w, Total(weights), limit);
    } else {
      var wp := weights[..j + 1];
      PrefixWithin(f, weights, m, limit, j + 1);
      assert wp[..j] == weights[..j];
      SomeMachineHasRoom(assign[..j], f[..j + 1], wp, m, limit, w);
      assert LeastAt(assign, weights, m, j);
      HeavyArithmetic(m, before + w, limit);
    }
  }

  // -------------------------------------------------------------- no machine stays idle

  function Busy(assign: seq<nat>, m: nat): set<nat> {
    set k: nat | k < m && Count(assign, k) >= 1
  }

  lemma BusyIsAll(assign: seq<nat>, m: nat)
    ensures |Busy(assign, m)| <= m
    ensures |Busy(assign, m)| == m ==> forall k | 0 <= k < m :: Count(assign, k) >= 1
  {
    var all := Machines(m);
    assert Busy(assign, m) <= all;
    SubsetSize(Busy(assign, m), all);
    if |Busy(assign, m)| == m {
      forall k | 0 <= k < m
        ensures Count(assign, k) >= 1
      {
        assert k in Busy(assign, m);
      }
    }
  }

  function Machines(m: nat): (all: set<nat>)
    ensures |all| == m && forall k: nat :: k in all <==> k < m
  {
    if m == 0 then {} else Machines(m - 1) + {m - 1}
  }

  lemma BusyStep(assign: seq<nat>, m: nat)
    requires assign != [] && assign[|assign| - 1] < m
    ensures Busy(assign, m) == Busy(assign[..|assign| - 1], m) + {assign[|assign| - 1]}
  {
  }

  /** While a machine is idle, the next job goes to an idle machine. */
  lemma NextGoesIdle(assign: seq<nat>, weights: seq<real>, m: nat, j: nat)
    requires Greedy(assign, weights, m) && Positive(weights) && j < |assign|
    requires |Busy(assign[..j], m)| < m
    ensures Count(assign[..j], assign[j]) == 0
  {
    hide Load, Count, Busy;
    var before := assign[..j];
    var k := IdleMachine(before, m);
    IdleLoad(before, weights[..j], k);
    assert LeastAt(assign, weights, m, j);
    if Count(before, assign[j]) >= 1 {
      OneJobLoad(before, weights[..j], assign[j], JobOn(before, assign[j]));
    }
  }

  lemma {:induction false} GreedySpreads(assign: seq<nat>, weights: seq<real>, m: nat, n: nat)
    requires Greedy(assign, weights, m) && Positive(weights) && n <= |assign|
    ensures |Busy(assign[..n], m)| >= if n < m then n else m
    decreases n
  {
    hide Load, Count;
    if n > 0 {
      var j := n - 1;
      var before := assign[..j];
      GreedySpreads(assign, weights, m, j);
      assert assign[..n][..j] == before && assign[..n][j] == assign[j];
      assert LeastAt(assign, weights, m, j);
      BusyStep(assign[..n], m);
      BusyIsAll(before, m);
      if |Busy(before, m)| < m {
        NextGoesIdle(assign, weights, m, j);
      } else {
        SubsetSize(Busy(before, m), Busy(assign[..n], m));
      }
    }
  }

  lemma IdleMachine(assign: seq<nat>, m: nat) returns (k: nat)
    requires |Busy(assign, m)| < m
    ensures k < m && Count(assign, k) == 0
  {
    var all := Machines(m);
    if all <= Busy(assign, m) {
      SubsetSize(all, Busy(assign, m));
    }
    k :| k in all && k !in Busy(assign, m);
  }

  /** With at least as many jobs as machines, every machine gets one. */
  lemma NoMachineIdle(assign: seq<nat>, weights: seq<real>, m: nat)
    requires Greedy(assign, weights, m) && Positive(weights) && m <= |assign|
    ensures forall k | 0 <= k < m :: Count(assign, k) >= 1
  {
    GreedySpreads(assign, weights, m, |assign|);
    assert assign[..|assign|] == assign;
    BusyIsAll(assign, m);
  }
}
