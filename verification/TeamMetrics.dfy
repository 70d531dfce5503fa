/**
  The team metric queries over one sample set: rows per bucket, the largest start
  rate, and the largest concurrency. Times are in nanoseconds, steps in seconds.
 */
module TeamMetrics {
  import opened Common

  datatype Sample = Sample(teamId: string, metric: string, timestamp: int, value: real)

  datatype TeamMetric = TeamMetric(timestamp: int, startedRate: real, concurrent: int)

  /** Without samples there is no timestamp to report, and the value is 0. */
  datatype MaxTeamMetric = MaxTeamMetric(timestamp: Option<int>, value: real)

  const CREATED: string := "e2b.team.sandbox.created"
  const RUNNING: string := "e2b.team.sandbox.running"

  function InWindow(metric: string, teamId: string, start: int, end: int): Sample -> bool {
    (x: Sample) => x.metric == metric && x.teamId == teamId && start <= x.timestamp <= end
  }

  // ---------- Aggregates ----------

  function Sum(vs: seq<real>): real {
    if vs == [] then 0.0 else vs[0] + Sum(vs[1..])
  }

  /** 0 over nothing, as the store's max. */
  function Max(vs: seq<real>): (m: real)
    ensures vs != [] ==> m in vs
    ensures forall v :: v in vs ==> v <= m
  {
    if vs == [] then 0.0
    else
      var rest := Max(vs[1..]);
      assert vs == [vs[0]] + vs[1..];
      if |vs| == 1 || vs[0] >= rest then vs[0] else rest
  }

  function ValueOf(): Sample -> real { (x: Sample) => x.value }

  function ToInt64(v: real): int { if v < 0.0 then -(-v).Floor else v.Floor }

  /** The whole number towards zero. */
  lemma ToInt64Exactly(v: real)
    ensures v >= 0.0 ==> ToInt64(v) as real <= v < ToInt64(v) as real + 1.0
    ensures v <= 0.0 ==> ToInt64(v) as real - 1.0 < v <= ToInt64(v) as real
  {
  }

  // ---------- Buckets ----------

  /** The start of the interval a time falls in. */
  function BucketOf(step: nat, t: int): (b: int)
    requires step >= 1
    ensures b <= t < b + step * 1_000_000_000 && b % (step * 1_000_000_000) == 0
  {
    BucketStart(step * 1_000_000_000, t);
    t - t % (step * 1_000_000_000)
  }

  lemma BucketStart(width: nat, t: int)
    requires width >= 1
    ensures (t - t % width) % width == 0
  {
    var start := t - t % width;
    assert start == width * (t / width);
    SmallMultiple(width, t / width - start / width, start % width);
  }

  /** The only multiple of the width inside the first interval is 0. */
  lemma SmallMultiple(width: nat, k: int, r: nat)
    requires width * k == r < width
    ensures r == 0
  {
    if k >= 1 { AtLeastOnce(width, k); }
    if k <= -1 { AtLeastOnce(width, -k); }
  }

  lemma AtLeastOnce(width: nat, k: nat)
    requires k >= 1
    ensures width * k >= width
  {
  }

  function BucketAt(step: nat): Sample -> int
    requires step >= 1
  {
    (x: Sample) => BucketOf(step, x.timestamp)
  }

  function InBucket(step: nat, b: int): Sample -> bool
    requires step >= 1
  {
    (x: Sample) => BucketOf(step, x.timestamp) == b
  }

  ghost predicate StrictlyAscending(s: seq<int>) {
    forall i, j :: 0 <= i < j < |s| ==> s[i] < s[j]
  }

  function InsertDistinct(b: int, s: seq<int>): (r: seq<int>)
    requires StrictlyAscending(s)
    ensures StrictlyAscending(r)
    ensures forall x :: x in r <==> x == b || x in s
  {
    if s == [] || b < s[0] then [b] + s
    else if b == s[0] then s
    else
      assert s == [s[0]] + s[1..];
      assert forall x :: x in s[1..] ==> s[0] < x;
      var rest := InsertDistinct(b, s[1..]);
      assert forall i :: 0 <= i < |rest| ==> rest[i] in rest;
      [s[0]] + rest
  }

  /** Each value once, smallest first: GROUP BY, UNION DISTINCT and ORDER BY together. */
  function Distinct(s: seq<int>): (r: seq<int>)
    ensures StrictlyAscending(r)
    ensures forall x :: x in r <==> x in s
  {
    if s == [] then []
    else
      assert s == [s[0]] + s[1..];
      InsertDistinct(s[0], Distinct(s[1..]))
  }

  // ---------- The queries, on the samples their WHERE clauses leave ----------

  function BucketSum(step: nat, created: seq<Sample>, b: int): real
    requires step >= 1
  {
    Sum(Map(ValueOf(), Filter(InBucket(step, b), created)))
  }

  function BucketRate(step: nat, created: seq<Sample>, b: int): real
    requires step >= 1
  {
    BucketSum(step, created, b) / (step as real)
  }

  function BucketMax(step: nat, running: seq<Sample>, b: int): real
    requires step >= 1
  {
    Max(Map(ValueOf(), Filter(InBucket(step, b), running)))
  }

  function RowAt(step: nat, created: seq<Sample>, running: seq<Sample>): int -> TeamMetric
    requires step >= 1
  {
    (b: int) => TeamMetric(b, BucketRate(step, created, b), ToInt64(BucketMax(step, running, b)))
  }

  /** created, concurrent, their union of timestamps, and the join in ascending order. */
  function Rows(step: nat, created: seq<Sample>, running: seq<Sample>): seq<TeamMetric>
    requires step >= 1
  {
    Map(RowAt(step, created, running), AllBuckets(step, created, running))
  }

  function SumAt(step: nat, created: seq<Sample>): int -> real
    requires step >= 1
  {
    (b: int) => BucketSum(step, created, b)
  }

  /** argMax: the first element that attains the largest value. */
  function ArgMax<T>(f: T -> real, s: seq<T>): (x: T)
    requires s != []
    ensures x in s && f(x) == Max(Map(f, s))
  {
    if |s| == 1 then s[0]
    else
      var rest := ArgMax(f, s[1..]);
      assert Map(f, s)[1..] == Map(f, s[1..]);
      if f(s[0]) >= f(rest) then s[0] else rest
  }

  function MaxStartRate(step: nat, created: seq<Sample>): MaxTeamMetric
    requires step >= 1
  {
    var buckets := Distinct(Map(BucketAt(step), created));
    if buckets == [] then MaxTeamMetric(None, 0.0)
    else MaxTeamMetric(Some(ArgMax(SumAt(step, created), buckets)), Max(Map(SumAt(step, created), buckets)) / (step as real))
  }

  function MaxConcurrent(running: seq<Sample>): MaxTeamMetric {
    if running == [] then MaxTeamMetric(None, 0.0)
    else MaxTeamMetric(Some(ArgMax(ValueOf(), running).timestamp), Max(Map(ValueOf(), running)))
  }

  function QueryTeamMetrics(sums: seq<Sample>, gauges: seq<Sample>, teamId: string, start: int, end: int, step: nat): seq<TeamMetric>
    requires step >= 1
  {
    Rows(step, Filter(InWindow(CREATED, teamId, start, end), sums), Filter(InWindow(RUNNING, teamId, start, end), gauges))
  }

  function QueryMaxStartRateTeamMetrics(sums: seq<Sample>, teamId: string, start: int, end: int, step: nat): MaxTeamMetric
    requires step >= 1
  {
    MaxStartRate(step, Filter(InWindow(CREATED, teamId, start, end), sums))
  }

  function QueryMaxConcurrentTeamMetrics(gauges: seq<Sample>, teamId: string, start: int, end: int): MaxTeamMetric {
    MaxConcurrent(Filter(InWindow(RUNNING, teamId, start, end), gauges))
  }

  ghost predicate NonNegative(s: seq<Sample>) { forall x :: x in s ==> x.value >= 0.0 }

  // ---------- Rows ----------

  ghost predicate HasSample(step: nat, s: seq<Sample>, b: int)
    requires step >= 1
  {
    exists x :: x in s && BucketOf(step, x.timestamp) == b
  }

  ghost predicate HasRow(rows: seq<TeamMetric>, b: int) { exists r :: r in rows && r.timestamp == b }

  lemma BucketsOf(step: nat, s: seq<Sample>, b: int)
    requires step >= 1
    ensures b in Map(BucketAt(step), s) <==> HasSample(step, s, b)
  {
    var buckets := Map(BucketAt(step), s);
    if HasSample(step, s, b) {
      var x :| x in s && BucketOf(step, x.timestamp) == b;
      var i :| 0 <= i < |s| && s[i] == x;
      assert buckets[i] == b;
    }
  }

  /** The buckets of the rows. */
  function AllBuckets(step: nat, created: seq<Sample>, running: seq<Sample>): seq<int>
    requires step >= 1
  {
    Distinct(Map(BucketAt(step), created) + Map(BucketAt(step), running))
  }

  lemma BucketHasRow(step: nat, created: seq<Sample>, running: seq<Sample>, b: int)
    requires step >= 1
    ensures b in AllBuckets(step, created, running) <==> HasSample(step, created, b) || HasSample(step, running, b)
    ensures HasRow(Rows(step, created, running), b) <==> b in AllBuckets(step, created, running)
    ensures HasRow(Rows(step, created, running), b) ==> RowAt(step, created, running)(b) in Rows(step, created, running)
  {
    BucketsOf(step, created, b);
    BucketsOf(step, running, b);
    var buckets, rows := AllBuckets(step, created, running), Rows(step, created, running);
    if b in buckets {
      var i :| 0 <= i < |buckets| && buckets[i] == b;
      assert rows[i] in rows && rows[i] == RowAt(step, created, running)(b);
    }
  }

  /** Rows come in ascending distinct buckets, one for every bucket that holds a sample. */
  lemma RowsAscend(step: nat, created: seq<Sample>, running: seq<Sample>)
    requires step >= 1
    ensures var rows := Rows(step, created, running);
      && (forall i, j :: 0 <= i < j < |rows| ==> rows[i].timestamp < rows[j].timestamp)
      && (forall b :: HasRow(rows, b) <==> HasSample(step, created, b) || HasSample(step, running, b))
  {
    forall b ensures HasRow(Rows(step, created, running), b) <==> HasSample(step, created, b) || HasSample(step, running, b) {
      BucketHasRow(step, created, running, b);
    }
  }

  // ---------- Totals ----------

  function Amount(step: nat): TeamMetric -> real { (r: TeamMetric) => r.startedRate * (step as real) }

  lemma {:induction false} SumOfZeros(step: nat, bs: seq<int>)
    requires step >= 1
    ensures Sum(Map(SumAt(step, []), bs)) == 0.0
  {
    if bs != [] {
      SumOfZeros(step, bs[1..]);
      assert Map(SumAt(step, []), bs)[1..] == Map(SumAt(step, []), bs[1..]);
      assert Filter(InBucket(step, bs[0]), []) == [];
    }
  }

  lemma BucketSumCons(step: nat, x: Sample, rest: seq<Sample>, b: int)
    requires step >= 1
    ensures BucketSum(step, [x] + rest, b) == BucketSum(step, rest, b) + if BucketOf(step, x.timestamp) == b then x.value else 0.0
  {
    assert ([x] + rest)[1..] == rest;
    var kept := Filter(InBucket(step, b), rest);
    assert Map(ValueOf(), [x] + kept)[1..] == Map(ValueOf(), kept);
    assert [] + kept == kept;
  }

  /** One more sample adds its value to the one bucket it falls in. */
  lemma {:induction false} OneMoreSample(step: nat, x: Sample, rest: seq<Sample>, bs: seq<int>)
    requires step >= 1 && StrictlyAscending(bs)
    ensures Sum(Map(SumAt(step, [x] + rest), bs))
         == Sum(Map(SumAt(step, rest), bs)) + if BucketOf(step, x.timestamp) in bs then x.value else 0.0
  {
    if bs != [] {
      var more, less := SumAt(step, [x] + rest), SumAt(step, rest);
      assert Map(more, bs)[1..] == Map(more, bs[1..]) && Map(less, bs)[1..] == Map(less, bs[1..]);
      assert bs == [bs[0]] + bs[1..];
      OneMoreSample(step, x, rest, bs[1..]);
      BucketSumCons(step, x, rest, bs[0]);
    }
  }

  /** Summing per bucket loses and repeats nothing. */
  lemma {:induction false} BucketsPartition(step: nat, s: seq<Sample>, bs: seq<int>)
    requires step >= 1 && StrictlyAscending(bs)
    requires forall x :: x in s ==> BucketOf(step, x.timestamp) in bs
    ensures Sum(Map(SumAt(step, s), bs)) == Sum(Map(ValueOf(), s))
  {
    if s == [] {
      SumOfZeros(step, bs);
    } else {
      BucketsPartition(step, s[1..], bs);
      assert s == [s[0]] + s[1..];
      OneMoreSample(step, s[0], s[1..], bs);
      assert Map(ValueOf(), s)[1..] == Map(ValueOf(), s[1..]);
    }
  }

  lemma DivideBack(a: real, d: real)
    requires d > 0.0
    ensures a / d * d == a
  {
  }

  lemma RowAmount(step: nat, created: seq<Sample>, running: seq<Sample>, b: int)
    requires step >= 1
    ensures Amount(step)(RowAt(step, created, running)(b)) == BucketSum(step, created, b)
  {
    DivideBack(BucketSum(step, created, b), step as real);
  }

  lemma {:induction false} AmountsAreSums(step: nat, created: seq<Sample>, running: seq<Sample>, bs: seq<int>)
    requires step >= 1
    ensures Sum(Map(Amount(step), Map(RowAt(step, created, running), bs))) == Sum(Map(SumAt(step, created), bs))
  {
    if bs != [] {
      AmountsAreSums(step, created, running, bs[1..]);
      RowAmount(step, created, running, bs[0]);
      AmountsTail(step, created, running, bs);
    }
  }

  lemma AmountsTail(step: nat, created: seq<Sample>, running: seq<Sample>, bs: seq<int>)
    requires step >= 1 && bs != []
    ensures Map(Amount(step), Map(RowAt(step, created, running), bs))[1..] == Map(Amount(step), Map(RowAt(step, created, running), bs[1..]))
    ensures Map(Amount(step), Map(RowAt(step, created, running), bs))[0] == Amount(step)(RowAt(step, created, running)(bs[0]))
    ensures Map(SumAt(step, created), bs)[1..] == Map(SumAt(step, created), bs[1..])
  {
  }

  /** Rate times step, summed over the rows, is everything created in the window. */
  lemma RatesConserveTotal(step: nat, created: seq<Sample>, running: seq<Sample>)
    requires step >= 1
    ensures Sum(Map(Amount(step), Rows(step, created, running))) == Sum(Map(ValueOf(), created))
  {
    var buckets := AllBuckets(step, created, running);
    forall x | x in created ensures BucketOf(step, x.timestamp) in buckets {
      BucketHasRow(step, created, running, BucketOf(step, x.timestamp));
    }
    AmountsAreSums(step, created, running, buckets);
    BucketsPartition(step, created, buckets);
  }

  // ---------- Largest values ----------

  lemma MaxIs(vs: seq<real>, m: real)
    requires forall i :: 0 <= i < |vs| ==> 0.0 <= vs[i] <= m
    requires m == 0.0 || exists i :: 0 <= i < |vs| && vs[i] == m
    ensures Max(vs) == m
  {
    if m != 0.0 {
      var i :| 0 <= i < |vs| && vs[i] == m;
      assert vs[i] in vs;
    }
  }

  function Rate(): TeamMetric -> real { (r: TeamMetric) => r.startedRate }

  function Concurrency(): TeamMetric -> real { (r: TeamMetric) => r.concurrent as real }

  lemma {:induction false} SumNonNegative(vs: seq<real>)
    requires forall i :: 0 <= i < |vs| ==> vs[i] >= 0.0
    ensures Sum(vs) >= 0.0
  {
    if vs != [] {
      SumNonNegative(vs[1..]);
    }
  }

  lemma BucketSumNonNegative(step: nat, created: seq<Sample>, b: int)
    requires step >= 1 && NonNegative(created)
    ensures BucketSum(step, created, b) >= 0.0
    ensures (forall x :: x in created ==> BucketOf(step, x.timestamp) != b) ==> BucketSum(step, created, b) == 0.0
  {
    FilterMembers(InBucket(step, b), created);
    var kept := Filter(InBucket(step, b), created);
    forall i | 0 <= i < |kept| ensures kept[i].value >= 0.0 {
      assert kept[i] in created;
    }
    SumNonNegative(Map(ValueOf(), kept));
    if |kept| > 0 {
      assert kept[0] in created;
    }
  }

  lemma DivideMonotone(a: real, b: real, d: real)
    requires d > 0.0 && a <= b
    ensures a / d <= b / d
  {
    DivideBack(a, d);
    DivideBack(b, d);
  }

  lemma SumBelowMax(step: nat, created: seq<Sample>, b: int)
    requires step >= 1 && NonNegative(created)
    ensures 0.0 <= BucketSum(step, created, b) <= Max(Map(SumAt(step, created), Distinct(Map(BucketAt(step), created))))
  {
    var buckets := Distinct(Map(BucketAt(step), created));
    var sums := Map(SumAt(step, created), buckets);
    BucketSumNonNegative(step, created, b);
    BucketsOf(step, created, b);
    if b in buckets {
      var i :| 0 <= i < |buckets| && buckets[i] == b;
      assert sums[i] in sums;
    } else if buckets != [] {
      BucketSumNonNegative(step, created, buckets[0]);
      assert sums[0] in sums;
    }
  }

  lemma RateAt(step: nat, created: seq<Sample>, b: int)
    requires step >= 1 && NonNegative(created)
    ensures 0.0 <= BucketRate(step, created, b) <= MaxStartRate(step, created).value
  {
    var top := Max(Map(SumAt(step, created), Distinct(Map(BucketAt(step), created))));
    SumBelowMax(step, created, b);
    DivideMonotone(0.0, BucketSum(step, created, b), step as real);
    DivideMonotone(BucketSum(step, created, b), top, step as real);
  }

  /** The row of the bucket the start rate query names. */
  lemma MaxStartRateRow(step: nat, created: seq<Sample>, running: seq<Sample>)
    requires step >= 1 && created != []
    ensures var top, rows := MaxStartRate(step, created), Rows(step, created, running);
      top.timestamp.Some? && exists r :: r in rows && r.timestamp == top.timestamp.value && r.startedRate == top.value
  {
    var buckets := Distinct(Map(BucketAt(step), created));
    assert Map(BucketAt(step), created)[0] in buckets;
    var b := ArgMax(SumAt(step, created), buckets);
    BucketsOf(step, created, b);
    BucketHasRow(step, created, running, b);
  }

  /** The largest row rate is the start rate query's value, and its timestamp is that of such a row. */
  lemma MaxStartRateAgrees(step: nat, created: seq<Sample>, running: seq<Sample>)
    requires step >= 1 && NonNegative(created)
    ensures Max(Map(Rate(), Rows(step, created, running))) == MaxStartRate(step, created).value
  {
    var rates := Map(Rate(), Rows(step, created, running));
    RatesWithin(step, created, running);
    if created != [] {
      RateAttained(step, created, running);
    }
    MaxIs(rates, MaxStartRate(step, created).value);
  }

  lemma RatesWithin(step: nat, created: seq<Sample>, running: seq<Sample>)
    requires step >= 1 && NonNegative(created)
    ensures var rates := Map(Rate(), Rows(step, created, running));
      forall i :: 0 <= i < |rates| ==> 0.0 <= rates[i] <= MaxStartRate(step, created).value
  {
    var rows := Rows(step, created, running);
    forall i | 0 <= i < |rows| ensures 0.0 <= rows[i].startedRate <= MaxStartRate(step, created).value {
      RateAt(step, created, rows[i].timestamp);
    }
  }

  lemma RateAttained(step: nat, created: seq<Sample>, running: seq<Sample>)
    requires step >= 1 && created != []
    ensures var rates := Map(Rate(), Rows(step, created, running));
      exists i :: 0 <= i < |rates| && rates[i] == MaxStartRate(step, created).value
  {
    MaxStartRateRow(step, created, running);
    var rows, top := Rows(step, created, running), MaxStartRate(step, created).value;
    var r :| r in rows && r.startedRate == top;
    var i :| 0 <= i < |rows| && rows[i] == r;
    assert Map(Rate(), rows)[i] == top;
  }

  lemma ToInt64Monotone(a: real, b: real)
    requires 0.0 <= a <= b
    ensures 0 <= ToInt64(a) <= ToInt64(b)
  {
  }

  lemma BucketMaxBounds(step: nat, running: seq<Sample>, b: int)
    requires step >= 1 && NonNegative(running)
    ensures 0.0 <= BucketMax(step, running, b) <= MaxConcurrent(running).value
    ensures forall x :: x in running && BucketOf(step, x.timestamp) == b ==> x.value <= BucketMax(step, running, b)
  {
    FilterMembers(InBucket(step, b), running);
    var kept := Filter(InBucket(step, b), running);
    forall x | x in running ensures x.value in Map(ValueOf(), running) {
      var i :| 0 <= i < |running| && running[i] == x;
      assert Map(ValueOf(), running)[i] == x.value;
    }
    forall x | x in kept ensures x.value in Map(ValueOf(), kept) {
      var i :| 0 <= i < |kept| && kept[i] == x;
      assert Map(ValueOf(), kept)[i] == x.value;
    }
    if kept == [] {
      if running != [] { assert running[0] in running; }
    } else {
      var i :| 0 <= i < |kept| && kept[i].value == BucketMax(step, running, b);
      assert kept[i] in running;
    }
  }

  /** The row of the bucket that the concurrency query's timestamp falls in. */
  lemma MaxConcurrentRow(step: nat, created: seq<Sample>, running: seq<Sample>)
    requires step >= 1 && NonNegative(running) && running != []
    ensures var top, rows := MaxConcurrent(running), Rows(step, created, running);
      top.timestamp.Some? && exists r :: r in rows && r.timestamp == BucketOf(step, top.timestamp.value) && r.concurrent == ToInt64(top.value)
  {
    var x := ArgMax(ValueOf(), running);
    var b := BucketOf(step, x.timestamp);
    BucketMaxBounds(step, running, b);
    assert BucketMax(step, running, b) == MaxConcurrent(running).value;
    BucketHasRow(step, created, running, b);
  }

  /** The largest row concurrency is the whole part of the concurrency query's value. */
  lemma MaxConcurrentAgrees(step: nat, created: seq<Sample>, running: seq<Sample>)
    requires step >= 1 && NonNegative(running)
    ensures Max(Map(Concurrency(), Rows(step, created, running))) == ToInt64(MaxConcurrent(running).value) as real
  {
    LevelsWithin(step, created, running);
    if running != [] {
      LevelAttained(step, created, running);
    }
    MaxIs(Map(Concurrency(), Rows(step, created, running)), ToInt64(MaxConcurrent(running).value) as real);
  }

  lemma LevelsWithin(step: nat, created: seq<Sample>, running: seq<Sample>)
    requires step >= 1 && NonNegative(running)
    ensures var levels := Map(Concurrency(), Rows(step, created, running));
      forall i :: 0 <= i < |levels| ==> 0.0 <= levels[i] <= ToInt64(MaxConcurrent(running).value) as real
  {
    var rows, top := Rows(step, created, running), MaxConcurrent(running).value;
    forall i | 0 <= i < |rows| ensures 0 <= rows[i].concurrent <= ToInt64(top) {
      BucketMaxBounds(step, running, rows[i].timestamp);
      ToInt64Monotone(BucketMax(step, running, rows[i].timestamp), top);
    }
  }

  lemma LevelAttained(step: nat, created: seq<Sample>, running: seq<Sample>)
    requires step >= 1 && NonNegative(running) && running != []
    ensures var levels := Map(Concurrency(), Rows(step, created, running));
      exists i :: 0 <= i < |levels| && levels[i] == ToInt64(MaxConcurrent(running).value) as real
  {
    MaxConcurrentRow(step, created, running);
    var rows, top := Rows(step, created, running), ToInt64(MaxConcurrent(running).value);
    var r :| r in rows && r.concurrent == top;
    var i :| 0 <= i < |rows| && rows[i] == r;
    assert Map(Concurrency(), rows)[i] == top as real;
  }

  predicate Whole(v: real) { v == v.Floor as real }

  /** The two concurrency figures are the same number exactly when the largest gauge value is whole. */
  lemma ConcurrencyEqualExactly(step: nat, created: seq<Sample>, running: seq<Sample>)
    requires step >= 1 && NonNegative(running)
    ensures (Max(Map(Concurrency(), Rows(step, created, running))) == MaxConcurrent(running).value)
       <==> Whole(MaxConcurrent(running).value)
  {
    MaxConcurrentAgrees(step, created, running);
    BucketMaxBounds(step, running, 0);
  }

  /** The three queries over the same tables, team, window and step agree. */
  lemma QueriesAgree(sums: seq<Sample>, gauges: seq<Sample>, teamId: string, start: int, end: int, step: nat)
    requires step >= 1 && NonNegative(sums) && NonNegative(gauges)
    ensures
      var rows := QueryTeamMetrics(sums, gauges, teamId, start, end, step);
      var created := Filter(InWindow(CREATED, teamId, start, end), sums);
      && Sum(Map(Amount(step), rows)) == Sum(Map(ValueOf(), created))
      && Max(Map(Rate(), rows)) == QueryMaxStartRateTeamMetrics(sums, teamId, start, end, step).value
      && Max(Map(Concurrency(), rows)) == ToInt64(QueryMaxConcurrentTeamMetrics(gauges, teamId, start, end).value) as real
  {
    var created, running := Filter(InWindow(CREATED, teamId, start, end), sums), Filter(InWindow(RUNNING, teamId, start, end), gauges);
    FilterMembers(InWindow(CREATED, teamId, start, end), sums);
    FilterMembers(InWindow(RUNNING, teamId, start, end), gauges);
    RatesConserveTotal(step, created, running);
    MaxStartRateAgrees(step, created, running);
    MaxConcurrentAgrees(step, created, running);
  }

  // ---------- Whose samples count ----------

  lemma FilterAround(p: Sample -> bool, a: seq<Sample>, x: Sample, b: seq<Sample>)
    ensures Filter(p, a + [x] + b) == Filter(p, a) + (if p(x) then [x] else []) + Filter(p, b)
    ensures Filter(p, a + b) == Filter(p, a) + Filter(p, b)
  {
    FilterConcat(p, a + [x], b);
    FilterConcat(p, a, [x]);
    FilterConcat(p, a, b);
  }

  /** A sample of another metric, of another team, or outside the window, the ends of which are inside, changes no answer. */
  lemma ForeignSample(a: seq<Sample>, x: Sample, b: seq<Sample>, other: seq<Sample>, teamId: string, start: int, end: int, step: nat)
    requires step >= 1
    ensures x.metric != "e2b.team.sandbox.created" || x.teamId != teamId || x.timestamp < start || x.timestamp > end ==>
              && QueryTeamMetrics(a + [x] + b, other, teamId, start, end, step) == QueryTeamMetrics(a + b, other, teamId, start, end, step)
              && QueryMaxStartRateTeamMetrics(a + [x] + b, teamId, start, end, step) == QueryMaxStartRateTeamMetrics(a + b, teamId, start, end, step)
    ensures x.metric != "e2b.team.sandbox.running" || x.teamId != teamId || x.timestamp < start || x.timestamp > end ==>
              && QueryTeamMetrics(other, a + [x] + b, teamId, start, end, step) == QueryTeamMetrics(other, a + b, teamId, start, end, step)
              && QueryMaxConcurrentTeamMetrics(a + [x] + b, teamId, start, end) == QueryMaxConcurrentTeamMetrics(a + b, teamId, start, end)
  {
    FilterAround(InWindow(CREATED, teamId, start, end), a, x, b);
    FilterAround(InWindow(RUNNING, teamId, start, end), a, x, b);
    assert Filter(InWindow(CREATED, teamId, start, end), a) + [] == Filter(InWindow(CREATED, teamId, start, end), a);
    assert Filter(InWindow(RUNNING, teamId, start, end), a) + [] == Filter(InWindow(RUNNING, teamId, start, end), a);
  }

  lemma {:induction false} SumConcat(a: seq<real>, b: seq<real>)
    ensures Sum(a + b) == Sum(a) + Sum(b)
  {
    if a == [] {
      assert a + b == b;
    } else {
      assert (a + b)[1..] == a[1..] + b;
      SumConcat(a[1..], b);
    }
  }

  lemma SumAround(a: seq<Sample>, x: Sample, b: seq<Sample>)
    ensures Sum(Map(ValueOf(), a + [x] + b)) == Sum(Map(ValueOf(), a + b)) + x.value
  {
    MapConcat(ValueOf(), a + [x], b);
    MapConcat(ValueOf(), a, [x]);
    MapConcat(ValueOf(), a, b);
    SumConcat(Map(ValueOf(), a) + Map(ValueOf(), [x]), Map(ValueOf(), b));
    SumConcat(Map(ValueOf(), a), Map(ValueOf(), [x]));
    SumConcat(Map(ValueOf(), a), Map(ValueOf(), b));
    assert Map(ValueOf(), [x]) == [x.value];
    assert [x.value][1..] == [];
  }

  /** A sandbox created by the team in the window adds its sample to the total. */
  lemma OwnCreated(a: seq<Sample>, x: Sample, b: seq<Sample>, gauges: seq<Sample>, teamId: string, start: int, end: int, step: nat)
    requires step >= 1
    requires x.metric == "e2b.team.sandbox.created" && x.teamId == teamId && start <= x.timestamp <= end
    ensures Sum(Map(Amount(step), QueryTeamMetrics(a + [x] + b, gauges, teamId, start, end, step)))
         == Sum(Map(Amount(step), QueryTeamMetrics(a + b, gauges, teamId, start, end, step))) + x.value
  {
    var p := InWindow(CREATED, teamId, start, end);
    var running := Filter(InWindow(RUNNING, teamId, start, end), gauges);
    FilterAround(p, a, x, b);
    RatesConserveTotal(step, Filter(p, a + [x] + b), running);
    RatesConserveTotal(step, Filter(p, a + b), running);
    SumAround(Filter(p, a), x, Filter(p, b));
  }

  /** And the largest rate is at least that of the sample alone. */
  lemma OwnCreatedRate(a: seq<Sample>, x: Sample, b: seq<Sample>, teamId: string, start: int, end: int, step: nat)
    requires step >= 1 && NonNegative(a + [x] + b)
    requires x.metric == "e2b.team.sandbox.created" && x.teamId == teamId && start <= x.timestamp <= end
    ensures QueryMaxStartRateTeamMetrics(a + [x] + b, teamId, start, end, step).value >= x.value / (step as real)
  {
    var p := InWindow(CREATED, teamId, start, end);
    FilterAround(p, a, x, b);
    FilterMembers(p, a + [x] + b);
    RateOfOne(step, Filter(p, a), x, Filter(p, b));
  }

  lemma RateOfOne(step: nat, a: seq<Sample>, x: Sample, b: seq<Sample>)
    requires step >= 1 && NonNegative(a + [x] + b)
    ensures MaxStartRate(step, a + [x] + b).value >= x.value / (step as real)
  {
    var bucket, created := BucketOf(step, x.timestamp), a + [x] + b;
    FilterAround(InBucket(step, bucket), a, x, b);
    var before, after := Filter(InBucket(step, bucket), a), Filter(InBucket(step, bucket), b);
    SumAround(before, x, after);
    FilterMembers(InBucket(step, bucket), a);
    FilterMembers(InBucket(step, bucket), b);
    assert forall y :: y in before + after ==> y in created;
    SumOfSamples(before + after);
    DivideMonotone(x.value, BucketSum(step, created, bucket), step as real);
    RateAt(step, created, bucket);
  }

  lemma SumOfSamples(s: seq<Sample>)
    requires NonNegative(s)
    ensures Sum(Map(ValueOf(), s)) >= 0.0
  {
    forall i | 0 <= i < |s| ensures s[i].value >= 0.0 {
      assert s[i] in s;
    }
    SumNonNegative(Map(ValueOf(), s));
  }

  /** A gauge sample of the team in the window raises the largest concurrency to its value, or leaves it. */
  lemma OwnRunning(a: seq<Sample>, x: Sample, b: seq<Sample>, teamId: string, start: int, end: int)
    requires x.metric == "e2b.team.sandbox.running" && x.teamId == teamId && start <= x.timestamp <= end
    requires NonNegative(a + [x] + b)
    ensures
      var was := QueryMaxConcurrentTeamMetrics(a + b, teamId, start, end).value;
      QueryMaxConcurrentTeamMetrics(a + [x] + b, teamId, start, end).value == if x.value > was then x.value else was
  {
    var p := InWindow(RUNNING, teamId, start, end);
    FilterAround(p, a, x, b);
    FilterMembers(p, a + [x] + b);
    FilterMembers(p, a + b);
    assert forall y :: y in a + b ==> y in a + [x] + b;
    MaxAround(Filter(p, a), x, Filter(p, b));
  }

  lemma MaxAround(a: seq<Sample>, x: Sample, b: seq<Sample>)
    requires NonNegative(a + [x] + b)
    ensures MaxConcurrent(a + [x] + b).value == if x.value > MaxConcurrent(a + b).value then x.value else MaxConcurrent(a + b).value
  {
    MapConcat(ValueOf(), a + [x], b);
    MapConcat(ValueOf(), a, [x]);
    MapConcat(ValueOf(), a, b);
    assert Map(ValueOf(), [x]) == [x.value];
    forall i | 0 <= i < |a + b| ensures (a + b)[i].value >= 0.0 {
      assert (a + b)[i] in a + [x] + b;
    }
    assert x in a + [x] + b;
    MaxOneMore(Map(ValueOf(), a), x.value, Map(ValueOf(), b));
  }

  lemma MaxOneMore(a: seq<real>, v: real, b: seq<real>)
    requires v >= 0.0 && forall i :: 0 <= i < |a + b| ==> (a + b)[i] >= 0.0
    ensures Max(a + [v] + b) == if v > Max(a + b) then v else Max(a + b)
  {
    var more, m := a + [v] + b, if v > Max(a + b) then v else Max(a + b);
    assert more[|a|] == v;
    forall i | 0 <= i < |more| ensures 0.0 <= more[i] <= m {
      if i < |a| {
        assert more[i] == (a + b)[i] && (a + b)[i] in a + b;
      } else if i > |a| {
        assert more[i] == (a + b)[i - 1] && (a + b)[i - 1] in a + b;
      }
    }
    if v <= Max(a + b) && a + b != [] {
      var j :| 0 <= j < |a + b| && (a + b)[j] == Max(a + b);
      assert more[if j < |a| then j else j + 1] == m;
    }
    MaxIs(more, m);
  }
}
