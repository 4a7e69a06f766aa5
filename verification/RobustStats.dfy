/** Outlier filter, median and jitter of web/speedtest.js, over exact reals. */
module RobustStats {
  import opened Reals

  const WARMUP_PINGS := 2

  // ----- sorting -----

  function Insert(x: real, s: seq<real>): seq<real> {
    if s == [] || x <= s[0] then [x] + s else [s[0]] + Insert(x, s[1..])
  }

  /** The ascending arrangement that the library sort produces. */
  function Sort(s: seq<real>): seq<real> {
    if s == [] then [] else Insert(s[0], Sort(s[1..]))
  }

  ghost predicate Ascending(s: seq<real>) {
    forall i, j | 0 <= i <= j < |s| :: s[i] <= s[j]
  }

  lemma ConsKeepsOrder(x: real, s: seq<real>)
    requires Ascending(s) && forall y | y in s :: x <= y
    ensures Ascending([x] + s)
  {
    var longer := [x] + s;
    assert forall i | 0 < i < |longer| :: longer[i] == s[i - 1] && s[i - 1] in s;
  }

  lemma {:induction false} InsertKeepsOrder(x: real, s: seq<real>)
    requires Ascending(s)
    ensures Ascending(Insert(x, s)) && |Insert(x, s)| == |s| + 1
    ensures multiset(Insert(x, s)) == multiset(s) + multiset{x}
    ensures forall y | y in Insert(x, s) :: y == x || y in s
  {
    if s == [] || x <= s[0] {
      forall y | y in s
        ensures x <= y
      {
        var i :| 0 <= i < |s| && s[i] == y;
        assert s[0] <= s[i];
      }
      ConsKeepsOrder(x, s);
    } else {
      InsertKeepsOrder(x, s[1..]);
      assert s == [s[0]] + s[1..];
      forall y | y in Insert(x, s[1..])
        ensures s[0] <= y
      {
        if y != x {
          var i :| 0 <= i < |s[1..]| && s[1..][i] == y;
          assert s[0] <= s[i + 1];
        }
      }
      ConsKeepsOrder(s[0], Insert(x, s[1..]));
    }
  }

  lemma {:induction false} SortSorts(s: seq<real>)
    ensures Ascending(Sort(s)) && |Sort(s)| == |s| && multiset(Sort(s)) == multiset(s)
  {
    if s != [] {
      SortSorts(s[1..]);
      InsertKeepsOrder(s[0], Sort(s[1..]));
      assert s == [s[0]] + s[1..];
    }
  }

  // ----- ranks, by counting samples -----

  function CountLess(s: seq<real>, x: real): nat {
    if s == [] then 0 else CountLess(s[1..], x) + if s[0] < x then 1 else 0
  }

  function CountMore(s: seq<real>, x: real): nat {
    if s == [] then 0 else CountMore(s[1..], x) + if s[0] > x then 1 else 0
  }

  /** `x` is a sample that at most k samples are below and at most |s| - 1 - k above. */
  ghost predicate HasRank(s: seq<real>, x: real, k: nat) {
    x in s && CountLess(s, x) <= k && CountMore(s, x) + k < |s|
  }

  lemma {:induction false} CountInsert(y: real, s: seq<real>, x: real)
    ensures CountLess(Insert(y, s), x) == CountLess([y] + s, x)
    ensures CountMore(Insert(y, s), x) == CountMore([y] + s, x)
  {
    assert ([y] + s)[1..] == s;
    if s != [] && y > s[0] {
      CountInsert(y, s[1..], x);
      assert ([y] + s[1..])[1..] == s[1..];
      assert ([s[0]] + Insert(y, s[1..]))[1..] == Insert(y, s[1..]);
    }
  }

  lemma {:induction false} CountSort(s: seq<real>, x: real)
    ensures CountLess(Sort(s), x) == CountLess(s, x) && CountMore(Sort(s), x) == CountMore(s, x)
  {
    if s != [] {
      CountSort(s[1..], x);
      CountInsert(s[0], Sort(s[1..]), x);
      assert ([s[0]] + Sort(s[1..]))[1..] == Sort(s[1..]);
    }
  }

  lemma {:induction false} CountBounds(t: seq<real>, x: real, k: nat)
    requires k < |t| && Ascending(t) && t[k] == x
    ensures CountLess(t, x) <= k && CountMore(t, x) + k < |t|
  {
    var rest := t[1..];
    if k > 0 {
      assert forall i | 0 <= i < |rest| :: rest[i] == t[i + 1];
      CountBounds(rest, x, k - 1);
    } else {
      NoneLess(t, x);
    }
  }

  lemma {:induction false} NoneLess(t: seq<real>, x: real)
    requires forall y | y in t :: x <= y
    ensures CountLess(t, x) == 0 && CountMore(t, x) <= |t|
    ensures t != [] && t[0] == x ==> CountMore(t, x) < |t|
  {
    if t != [] {
      assert t[0] in t && forall y | y in t[1..] :: y in t;
      NoneLess(t[1..], x);
    }
  }

  lemma RankInSorted(s: seq<real>, k: nat)
    requires k < |s|
    ensures |Sort(s)| == |s| && HasRank(s, Sort(s)[k], k)
  {
    SortSorts(s);
    CountSort(s, Sort(s)[k]);
    CountBounds(Sort(s), Sort(s)[k], k);
    assert Sort(s)[k] in multiset(Sort(s));
  }

  /** The samples at most `x` and those above it are all of them. */
  lemma {:induction false} CountsOverlap(s: seq<real>, x: real, y: real)
    requires x < y
    ensures CountMore(s, x) + CountLess(s, y) >= |s|
  {
    if s != [] { CountsOverlap(s[1..], x, y); }
  }

  /** Counting leaves no choice: one value alone has a given rank. */
  lemma RankIsUnique(s: seq<real>, x: real, y: real, k: nat)
    requires HasRank(s, x, k) && HasRank(s, y, k)
    ensures x == y
  {
    if x < y { CountsOverlap(s, x, y); }
    if y < x { CountsOverlap(s, y, x); }
  }

  // ----- the interquartile filter -----

  function Keep(s: seq<real>, low: real, high: real): seq<real> {
    if s == [] then []
    else if low <= s[0] <= high then [s[0]] + Keep(s[1..], low, high)
    else Keep(s[1..], low, high)
  }

  function Q1(s: seq<real>): real
    requires s != []
  {
    SortSorts(s);
    Sort(s)[|s| / 4]
  }

  function Q3(s: seq<real>): real
    requires s != []
  {
    SortSorts(s);
    Sort(s)[3 * |s| / 4]
  }

  function LowFence(s: seq<real>): real
    requires s != []
  {
    Q1(s) - 1.5 * (Q3(s) - Q1(s))
  }

  function HighFence(s: seq<real>): real
    requires s != []
  {
    Q3(s) + 1.5 * (Q3(s) - Q1(s))
  }

  function FilterOutliersIQR(samples: seq<real>): seq<real> {
    if |samples| < 4 then samples else Keep(samples, LowFence(samples), HighFence(samples))
  }

  function Median(s: seq<real>): real
    requires s != []
  {
    SortSorts(s);
    Sort(s)[|s| / 2]
  }

  /** Quartiles and median, by counting: how many samples are below and above each. */
  lemma QuartilesByCounting(s: seq<real>)
    requires s != []
    ensures HasRank(s, Q1(s), |s| / 4) && HasRank(s, Median(s), |s| / 2) && HasRank(s, Q3(s), 3 * |s| / 4)
  {
    RankInSorted(s, |s| / 4);
    RankInSorted(s, |s| / 2);
    RankInSorted(s, 3 * |s| / 4);
  }

  /** The positions a filter keeps: increasing, and exactly those within the fences. */
  function KeptPositions(s: seq<real>, low: real, high: real): seq<nat> {
    if s == [] then []
    else
      var init, n := s[..|s| - 1], |s| - 1;
      if low <= s[n] <= high then KeptPositions(init, low, high) + [n] else KeptPositions(init, low, high)
  }

  lemma {:induction false} KeepFromBack(s: seq<real>, x: real, low: real, high: real)
    ensures Keep(s + [x], low, high) == Keep(s, low, high) + if low <= x <= high then [x] else []
  {
    if s == [] {
      assert [x][1..] == [];
    } else {
      KeepFromBack(s[1..], x, low, high);
      assert (s + [x])[1..] == s[1..] + [x];
    }
  }

  /** The filter returns the samples within the fences as a subsequence, in their order. */
  lemma {:induction false} KeepIsSubsequence(s: seq<real>, low: real, high: real)
    ensures var at, kept := KeptPositions(s, low, high), Keep(s, low, high);
            && |at| == |kept|
            && (forall j | 0 <= j < |at| :: at[j] < |s| && kept[j] == s[at[j]])
            && (forall i, j | 0 <= i < j < |at| :: at[i] < at[j])
            && (forall i | 0 <= i < |s| :: i in at <==> low <= s[i] <= high)
  {
    if s != [] {
      var init, last := s[..|s| - 1], s[|s| - 1];
      KeepIsSubsequence(init, low, high);
      KeepFromBack(init, last, low, high);
      assert s == init + [last];
      var before, at := KeptPositions(init, low, high), KeptPositions(s, low, high);
      assert forall i | 0 <= i < |init| :: s[i] == init[i] && (i in before <==> i in at);
      assert |init| !in before;
    }
  }

  lemma {:induction false} KeepInsert(x: real, s: seq<real>, low: real, high: real)
    requires Ascending(s)
    ensures Keep(Insert(x, s), low, high) == if low <= x <= high then Insert(x, Keep(s, low, high))
        else Keep(s, low, high)
  {
    if s == [] || x <= s[0] {
      assert ([x] + s)[1..] == s;
      KeepStartsAbove(x, s, low, high);
    } else {
      KeepInsert(x, s[1..], low, high);
      assert ([s[0]] + Insert(x, s[1..]))[1..] == Insert(x, s[1..]);
      assert ([s[0]] + Keep(s[1..], low, high))[1..] == Keep(s[1..], low, high);
    }
  }

  lemma {:induction false} KeepStartsAbove(x: real, s: seq<real>, low: real, high: real)
    requires Ascending(s) && (s != [] ==> x <= s[0])
    ensures Insert(x, Keep(s, low, high)) == [x] + Keep(s, low, high)
  {
    if s != [] { KeepStartsAbove(x, s[1..], low, high); }
  }

  /** Sorting what was kept is the same as keeping from what was sorted. */
  lemma {:induction false} SortKeepCommute(s: seq<real>, low: real, high: real)
    ensures Sort(Keep(s, low, high)) == Keep(Sort(s), low, high)
  {
    if s != [] {
      SortKeepCommute(s[1..], low, high);
      SortSorts(s[1..]);
      KeepInsert(s[0], Sort(s[1..]), low, high);
      if low <= s[0] <= high {
        assert Keep(s, low, high)[1..] == Keep(s[1..], low, high);
      }
    }
  }

  /** What the filter does to the samples, with the quartiles told by counting: below four
      it keeps all, otherwise exactly those within one and a half interquartile ranges of
      the quartiles, in their order. */
  lemma FilterKeepsWithinFences(s: seq<real>) returns (at: seq<nat>)
    ensures var kept := FilterOutliersIQR(s);
            && |at| == |kept|
            && (forall j | 0 <= j < |at| :: at[j] < |s| && kept[j] == s[at[j]])
            && (forall i, j | 0 <= i < j < |at| :: at[i] < at[j])
    ensures |s| < 4 ==> FilterOutliersIQR(s) == s
    ensures |s| >= 4 ==> forall q1, q3 | HasRank(s, q1, |s| / 4) && HasRank(s, q3, 3 * |s| / 4) ::
              forall i | 0 <= i < |s| ::
                i in at <==> 2.0 * (q1 - s[i]) <= 3.0 * (q3 - q1) && 2.0 * (s[i] - q3) <= 3.0 * (q3 - q1)
  {
    if |s| < 4 {
      at := seq(|s|, i requires 0 <= i < |s| => i);
    } else {
      var low, high := LowFence(s), HighFence(s);
      at := KeptPositions(s, low, high);
      KeepIsSubsequence(s, low, high);
      QuartilesByCounting(s);
      forall q1, q3 | HasRank(s, q1, |s| / 4) && HasRank(s, q3, 3 * |s| / 4)
        ensures q1 == Q1(s) && q3 == Q3(s)
      {
        RankIsUnique(s, q1, Q1(s), |s| / 4);
        RankIsUnique(s, q3, Q3(s), 3 * |s| / 4);
      }
    }
  }

  /** Once an ascending sequence has reached the lower fence, a filter keeps a prefix. */
  lemma {:induction false} KeepPrefix(t: seq<real>, low: real, high: real) returns (b: nat)
    requires Ascending(t) && (t != [] ==> low <= t[0])
    ensures b <= |t| && Keep(t, low, high) == t[..b]
    ensures forall i | 0 <= i < |t| :: t[i] <= high <==> i < b
  {
    if t == [] {
      b := 0;
    } else {
      var rest := KeepPrefix(t[1..], low, high);
      assert forall i | 0 < i < |t| :: t[i] == t[1..][i - 1];
      if t[0] <= high {
        b := rest + 1;
        assert t[..b] == [t[0]] + t[1..][..rest];
      } else {
        b := 0;
        if t[1..] != [] { assert t[0] <= t[1..][0]; }
        assert rest == 0;
      }
    }
  }

  /** From an ascending sequence, a filter keeps one contiguous stretch. */
  lemma {:induction false} KeepFromSorted(t: seq<real>, low: real, high: real) returns (a: nat, b: nat)
    requires Ascending(t)
    ensures a <= b <= |t| && Keep(t, low, high) == t[a..b]
    ensures forall i | 0 <= i < |t| && low <= t[i] <= high :: a <= i < b
  {
    if t == [] || low <= t[0] {
      a := 0;
      b := KeepPrefix(t, low, high);
    } else {
      a, b := KeepFromSorted(t[1..], low, high);
      assert forall i | 0 < i < |t| :: t[i] == t[1..][i - 1];
      assert t[a + 1..b + 1] == t[1..][a..b];
      a, b := a + 1, b + 1;
    }
  }

  /** The filter keeps, from the sorted samples, a stretch around both quartiles. */
  lemma KeptStretch(samples: seq<real>) returns (a: nat, b: nat)
    requires |samples| >= 4
    ensures a <= |samples| / 4 && 3 * |samples| / 4 < b <= |samples|
    ensures |Sort(samples)| == |samples| && Sort(FilterOutliersIQR(samples)) == Sort(samples)[a..b]
    ensures |FilterOutliersIQR(samples)| == b - a
  {
    var t := Sort(samples);
    SortSorts(samples);
    var low, high := LowFence(samples), HighFence(samples);
    SortKeepCommute(samples, low, high);
    SortSorts(Keep(samples, low, high));
    a, b := KeepFromSorted(t, low, high);
    assert t[|samples| / 4] <= t[3 * |samples| / 4];
    assert low <= t[|samples| / 4] <= high && low <= t[3 * |samples| / 4] <= high;
  }

  /** Quartile robustness: whatever the outliers are, at least half the samples are
      kept, and the median of the kept ones, found by counting, lies between the raw quartiles. */
  lemma MedianIsRobust(samples: seq<real>)
    requires |samples| >= 4
    ensures 2 * |FilterOutliersIQR(samples)| >= |samples|
    ensures Q1(samples) <= Median(FilterOutliersIQR(samples)) <= Q3(samples)
    ensures var kept := FilterOutliersIQR(samples);
            HasRank(kept, Median(kept), |kept| / 2)
  {
    hide *;
    MedianBetweenQuartiles(samples);
    QuartilesByCounting(FilterOutliersIQR(samples));
  }

  lemma MedianBetweenQuartiles(samples: seq<real>)
    requires |samples| >= 4
    ensures 2 * |FilterOutliersIQR(samples)| >= |samples|
    ensures Q1(samples) <= Median(FilterOutliersIQR(samples)) <= Q3(samples)
  {
    hide HasRank, FilterOutliersIQR;
    var a, b := KeptStretch(samples);
    SortSorts(samples);
    var t, n := Sort(samples), |samples|;
    var middle := a + (b - a) / 2;
    assert n / 4 <= middle <= 3 * n / 4;
    assert t[a..b][(b - a) / 2] == t[middle];
  }

  lemma MedianOfKept(samples: seq<real>)
    requires samples != []
    ensures var kept := FilterOutliersIQR(samples);
            kept != [] && HasRank(kept, Median(kept), |kept| / 2)
  {
    if |samples| >= 4 { MedianIsRobust(samples); } else { QuartilesByCounting(samples); }
  }

  // ----- jitter -----

  /** The summed steps between neighbours. */
  function StepSum(s: seq<real>): real {
    if |s| < 2 then 0.0 else StepSum(s[..|s| - 1]) + Abs(s[|s| - 1] - s[|s| - 2])
  }

  function Jitter(s: seq<real>): real {
    if |s| < 2 then 0.0 else StepSum(s) / (|s| - 1) as real
  }

  method ComputeJitter(samples: seq<real>) returns (jitter: real)
    ensures jitter == Jitter(samples)
  {
    if |samples| < 2 { return 0.0; }
    var sumDiff: real := 0.0;
    for i := 1 to |samples|
      invariant sumDiff == StepSum(samples[..i])
    {
      assert samples[..i + 1][..i] == samples[..i];
      sumDiff := sumDiff + Abs(samples[i] - samples[i - 1]);
    }
    assert samples[..|samples|] == samples;
    return sumDiff / (|samples| - 1) as real;
  }

  lemma {:induction false} StepSumSplits(s: seq<real>, k: nat)
    requires k < |s|
    ensures StepSum(s) == StepSum(s[..k + 1]) + StepSum(s[k..])
    decreases |s| - k
  {
    if k == |s| - 1 {
      assert s[..k + 1] == s;
    } else {
      var init := s[..|s| - 1];
      assert init[..k + 1] == s[..k + 1] && s[k..][..|s| - k - 1] == init[k..];
      StepSumSplits(init, k);
    }
  }

  /** The jitter is the mean step: one step for two samples, and the steps of a sequence
      are those up to any sample and those from it on. */
  lemma JitterIsMeanStep(s: seq<real>, k: nat)
    requires k < |s|
    ensures Jitter(s) * (|s| - 1) as real
         == Jitter(s[..k + 1]) * k as real + Jitter(s[k..]) * (|s| - 1 - k) as real
    ensures |s| == 2 ==> Jitter(s) == Abs(s[1] - s[0])
    ensures |s| == 1 ==> Jitter(s) == 0.0
  {
    hide StepSum;
    StepSumSplits(s, k);
    JitterTimesSteps(s);
    JitterTimesSteps(s[..k + 1]);
    JitterTimesSteps(s[k..]);
    OneStep(s);
  }

  lemma JitterTimesSteps(s: seq<real>)
    requires s != []
    ensures Jitter(s) * (|s| - 1) as real == StepSum(s)
  {
  }

  lemma OneStep(s: seq<real>)
    ensures |s| == 2 ==> StepSum(s) == Abs(s[1] - s[0])
  {
  }

  lemma {:induction false} StepSumBound(s: seq<real>, low: real, high: real)
    requires |s| >= 1 && forall x | x in s :: low <= x <= high
    ensures 0.0 <= StepSum(s) <= Times((|s| - 1) as real, high - low)
  {
    hide Times;
    if |s| == 1 {
      assert s[0] in s;
      TimesAtZero(high - low);
    } else {
      var init := s[..|s| - 1];
      assert forall x | x in init :: x in s;
      assert s[|s| - 1] in s && s[|s| - 2] in s;
      StepSumBound(init, low, high);
      TimesOneMore(|init| - 1, high - low);
    }
  }

  lemma TimesAtZero(x: real)
    ensures Times(0.0, x) == 0.0
  {
  }

  lemma JitterBound(s: seq<real>, low: real, high: real)
    requires |s| >= 1 && forall x | x in s :: low <= x <= high
    ensures 0.0 <= Jitter(s) <= high - low
  {
    StepSumBound(s, low, high);
    if |s| >= 2 {
      DivideBound(StepSum(s), (|s| - 1) as real, high - low);
    } else {
      assert s[0] in s;
    }
  }

  lemma DivideBound(sum: real, n: real, x: real)
    requires n > 0.0 && 0.0 <= sum <= Times(n, x)
    ensures 0.0 <= sum / n <= x
  {
    var q := sum / n;
    assert q * n == sum;
    if q > x { ScaleStrict(x, q, n); }
  }

  lemma {:induction false} KeptWithinFences(s: seq<real>, low: real, high: real)
    ensures forall x | x in Keep(s, low, high) :: low <= x <= high
  {
    if s != [] { KeptWithinFences(s[1..], low, high); }
  }

  /** The reported jitter is at most four interquartile ranges, whatever the outliers are. */
  lemma JitterIsRobust(samples: seq<real>)
    requires |samples| >= 4
    ensures 0.0 <= Jitter(FilterOutliersIQR(samples)) <= 4.0 * (Q3(samples) - Q1(samples))
  {
    MedianIsRobust(samples);
    KeptWithinFences(samples, LowFence(samples), HighFence(samples));
    JitterBound(FilterOutliersIQR(samples), LowFence(samples), HighFence(samples));
  }

  // ----- the two reported latencies -----

  datatype Latency = NoSamples | Latency(value: real, jitter: real)

  /** Idle latency: warm-up pings dropped, then filter, jitter in arrival order, median. */
  function MeasureLatency(raw: seq<real>): Latency {
    if raw == [] then NoSamples
    else
      var samples := if |raw| > WARMUP_PINGS then raw[WARMUP_PINGS..] else raw;
      var filtered := FilterOutliersIQR(samples);
      if filtered == [] then NoSamples else Latency(Median(filtered), Jitter(filtered))
  }

  /** Loaded latency: 0 without samples. */
  function LoadedMedian(samples: seq<real>): real {
    var filtered := FilterOutliersIQR(samples);
    if filtered == [] then 0.0 else Median(filtered)
  }

  /** The filter never empties a non-empty sample, so a latency is reported exactly when a
      ping succeeded. Both reported medians lie between the raw quartiles, and have at most
      half the kept samples below them and fewer above. */
  lemma LatencyIsRobust(raw: seq<real>)
    ensures MeasureLatency(raw).NoSamples? <==> raw == []
    ensures raw != [] ==>
              var kept := FilterOutliersIQR(if |raw| > WARMUP_PINGS then raw[WARMUP_PINGS..] else raw);
              HasRank(kept, MeasureLatency(raw).value, |kept| / 2) && MeasureLatency(raw).jitter == Jitter(kept)
    ensures |raw| >= 4 + WARMUP_PINGS ==>
              var samples := raw[WARMUP_PINGS..];
              Q1(samples) <= MeasureLatency(raw).value <= Q3(samples)
    ensures raw != [] ==> var kept := FilterOutliersIQR(raw);
                          HasRank(kept, LoadedMedian(raw), |kept| / 2)
    ensures |raw| >= 4 ==> Q1(raw) <= LoadedMedian(raw) <= Q3(raw)
    ensures LoadedMedian([]) == 0.0
  {
    hide Median, Q1, Q3, HasRank, Jitter;
    if raw != [] {
      MedianOfKept(raw);
      MedianOfKept(if |raw| > WARMUP_PINGS then raw[WARMUP_PINGS..] else raw);
    }
    if |raw| >= 4 + WARMUP_PINGS { MedianIsRobust(raw[WARMUP_PINGS..]); }
    if |raw| >= 4 { MedianIsRobust(raw); }
  }
}
