/** The two-level token bucket of internal/api/ratelimit.go. Times are integer
    nanoseconds; the source's float products are exact here and then floored. */
module RateLimiter {
  const SECOND := 1_000_000_000
  const MINUTE := 60 * SECOND
  const CLEANUP_INTERVAL := 5 * MINUTE
  const IP_LIMIT_TTL := 10 * MINUTE

  /** Tokens per minute; configuration refuses anything that is not positive. */
  type Rate = r: int | 0 < r witness 1

  datatype Bucket = Bucket(tokens: int, lastRefill: int)

  // ----- refill -----

  function TokensEarned(elapsed: int, rate: Rate): int
  {
    elapsed * rate / MINUTE
  }

  function TimeConsumed(tokens: int, rate: Rate): int
  {
    tokens * MINUTE / rate
  }

  function Refill(b: Bucket, rate: Rate, now: int): Bucket
  {
    var elapsed := now - b.lastRefill;
    if elapsed < SECOND then b
    else
      var earned := TokensEarned(elapsed, rate);
      if earned <= 0 then b
      else
        Bucket(if b.tokens + earned > rate then rate else b.tokens + earned,
               b.lastRefill + TimeConsumed(earned, rate))
  }

  /** Whole nanoseconds one token takes, rounded down and up. */
  function Period(rate: Rate): (p: int)
    ensures 0 <= p * rate <= MINUTE < (p + 1) * rate
  {
    MINUTE / rate
  }

  function PeriodUp(rate: Rate): (p: int)
    ensures (p - 1) * rate < MINUTE <= p * rate
  {
    (MINUTE + rate - 1) / rate
  }

  /** The most a bucket's clock can trail a call that has just refilled it. */
  function MaxLag(rate: Rate): int
  {
    if PeriodUp(rate) > SECOND then PeriodUp(rate) else SECOND
  }

  predicate BucketOk(b: Bucket, rate: Rate, now: int) {
    0 <= b.tokens <= rate && b.lastRefill <= now
  }

  lemma DivBounds(a: int, d: int)
    requires d > 0
    ensures a / d * d <= a < a / d * d + d
  {
  }

  lemma CancelFactor(a: int, b: int, rate: Rate)
    requires a * rate < b * rate + rate
    ensures a <= b
  {
    if b + 1 <= a {
      MulMonotone(b + 1, a, rate);
      assert false;
    }
  }

  lemma MulMonotone(a: int, b: int, k: int)
    requires a <= b && k >= 0
    ensures a * k <= b * k
  {
    assert (b - a) * k >= 0;
  }

  lemma ProductBound(k: int, a: int, rate: Rate, b: int)
    requires k >= 0 && a * rate <= b
    ensures k * a * rate <= k * b
  {
    assert k * a * rate == k * (a * rate);
    assert k * (b - a * rate) >= 0;
  }

  /** What one refill takes from the clock: at least a rounded-down period a token,
      never more than has passed, and less than one more period stays behind. */
  lemma EarnedCost(elapsed: int, rate: Rate)
    requires elapsed >= 0
    ensures var earned := TokensEarned(elapsed, rate);
            && 0 <= earned
            && earned * Period(rate) <= TimeConsumed(earned, rate) <= elapsed
            && elapsed - TimeConsumed(earned, rate) <= PeriodUp(rate)
  {
    var product := elapsed * rate;
    var earned := product / MINUTE;
    var used := earned * MINUTE / rate;
    var period, periodUp := Period(rate), PeriodUp(rate);
    DivBounds(product, MINUTE);
    DivBounds(earned * MINUTE, rate);
    CancelFactor(used, elapsed, rate);
    ProductBound(earned, period, rate, MINUTE);
    CancelFactor(earned * period, used, rate);
    assert (elapsed - used) * rate == product - used * rate;
    assert (periodUp + 1) * rate == periodUp * rate + rate;
    CancelFactor(elapsed - used, periodUp, rate);
  }

  lemma RefillKeepsBucket(b: Bucket, rate: Rate, now: int)
    requires BucketOk(b, rate, now)
    ensures var r := Refill(b, rate, now);
            && BucketOk(r, rate, now)
            && b.lastRefill <= r.lastRefill
            && b.tokens <= r.tokens
            && now - r.lastRefill <= MaxLag(rate)
  {
    EarnedCost(now - b.lastRefill, rate);
    NothingEarned(now - b.lastRefill, rate);
  }

  /** A refill earns nothing exactly when less than one period has passed. */
  lemma NothingEarned(elapsed: int, rate: Rate)
    requires elapsed >= 0
    ensures TokensEarned(elapsed, rate) <= 0 <==> elapsed < PeriodUp(rate)
  {
    DivBounds(elapsed * rate, MINUTE);
    if elapsed < PeriodUp(rate) {
      MulMonotone(elapsed, PeriodUp(rate) - 1, rate);
    } else {
      MulMonotone(PeriodUp(rate), elapsed, rate);
    }
  }

  /** The fractional carry: unless the bucket overflows, the clock advances by between a
      rounded-down and a rounded-up period for each token gained. */
  lemma RefillCarriesRemainder(b: Bucket, rate: Rate, now: int)
    requires BucketOk(b, rate, now) && b.tokens + TokensEarned(now - b.lastRefill, rate) <= rate
    ensures var r := Refill(b, rate, now);
            var gained := r.tokens - b.tokens;
            gained * Period(rate) <= r.lastRefill - b.lastRefill <= gained * PeriodUp(rate)
  {
    var elapsed := now - b.lastRefill;
    EarnedCost(elapsed, rate);
    var earned := TokensEarned(elapsed, rate);
    var used := TimeConsumed(earned, rate);
    DivBounds(earned * MINUTE, rate);
    assert earned * (PeriodUp(rate) * rate) == earned * PeriodUp(rate) * rate;
    MulMonotone(MINUTE, PeriodUp(rate) * rate, earned);
    CancelFactor(used, earned * PeriodUp(rate), rate);
  }

  /** A caller who lets the lag pass between calls always finds a token. */
  lemma PacedCallerIsServed(b: Bucket, rate: Rate, previous: int, t: int)
    requires BucketOk(b, rate, previous) && t - previous >= MaxLag(rate)
    ensures Refill(b, rate, t).tokens >= 1
  {
    NothingEarned(t - b.lastRefill, rate);
  }

  /** Tokens in time units, against the bucket's clock. */
  function Credit(b: Bucket, rate: Rate): int {
    b.tokens * Period(rate) - b.lastRefill
  }

  /** A refill pays for every token it adds out of the clock. */
  lemma RefillAddsNoCredit(b: Bucket, rate: Rate, now: int)
    requires BucketOk(b, rate, now)
    ensures Credit(Refill(b, rate, now), rate) <= Credit(b, rate)
  {
    hide PeriodUp;
    var elapsed := now - b.lastRefill;
    EarnedCost(elapsed, rate);
    var earned := TokensEarned(elapsed, rate);
    assert (b.tokens + earned) * Period(rate) == b.tokens * Period(rate) + earned * Period(rate);
    if b.tokens + earned > rate {
      MulMonotone(rate, b.tokens + earned, Period(rate));
    }
  }

  // ----- the limiter -----

  datatype Limiter = Limiter(
    ipRate: Rate,
    globalRate: Rate,
    global: Bucket,
    buckets: map<string, Bucket>,
    lastCleanup: int)

  datatype Call = Call(ip: string, now: int)

  function MaxEntries(globalRate: Rate): int {
    if globalRate * 20 > 10000 then globalRate * 20 else 10000
  }

  function NewLimiter(ipRate: Rate, globalRate: Rate, now: int): Limiter {
    Limiter(ipRate, globalRate, Bucket(globalRate, now), map[], now)
  }

  function Evict(buckets: map<string, Bucket>, now: int): map<string, Bucket> {
    map ip | ip in buckets && now - buckets[ip].lastRefill < IP_LIMIT_TTL :: buckets[ip]
  }

  function Cleaned(s: Limiter, now: int): Limiter {
    if now - s.lastCleanup >= CLEANUP_INTERVAL then s.(buckets := Evict(s.buckets, now), lastCleanup := now) else s
  }

  /** The bucket `ip` has, or the full one it gets at its first call. */
  function BucketFor(s: Limiter, ip: string, now: int): Bucket {
    if ip in s.buckets then s.buckets[ip] else Bucket(s.ipRate, now)
  }

  function Spend(b: Bucket): Bucket { b.(tokens := b.tokens - 1) }

  function AllowCall(s: Limiter, c: Call): (Limiter, bool) {
    var s1 := s.(global := Refill(s.global, s.globalRate, c.now));
    if s1.global.tokens <= 0 then (s1, false)
    else
      var s2 := Cleaned(s1, c.now);
      if c.ip !in s2.buckets && |s2.buckets| >= MaxEntries(s.globalRate) then (s2, false)
      else
        var b := Refill(BucketFor(s2, c.ip, c.now), s.ipRate, c.now);
        if b.tokens <= 0 then (s2.(buckets := s2.buckets[c.ip := b]), false)
        else (s2.(global := Spend(s2.global), buckets := s2.buckets[c.ip := Spend(b)]), true)
  }

  function Run(s: Limiter, calls: seq<Call>): Limiter {
    if calls == [] then s else AllowCall(Run(s, calls[..|calls| - 1]), calls[|calls| - 1]).0
  }

  /** The addresses of the allowed calls, one entry per grant. */
  function Granted(s: Limiter, calls: seq<Call>): multiset<string> {
    if calls == [] then multiset{}
    else
      var init, last := calls[..|calls| - 1], calls[|calls| - 1];
      Granted(s, init) + if AllowCall(Run(s, init), last).1 then multiset{last.ip} else multiset{}
  }

  /** Calls in clock order, none before `from`. */
  ghost predicate InOrder(calls: seq<Call>, from: int) {
    && (forall i | 0 <= i < |calls| :: from <= calls[i].now)
    && (forall i, j | 0 <= i <= j < |calls| :: calls[i].now <= calls[j].now)
  }

  function Last(calls: seq<Call>, from: int): int {
    if calls == [] then from else calls[|calls| - 1].now
  }

  ghost predicate LimiterOk(s: Limiter, now: int) {
    && BucketOk(s.global, s.globalRate, now)
    && (forall ip | ip in s.buckets :: BucketOk(s.buckets[ip], s.ipRate, now))
    && |s.buckets| <= MaxEntries(s.globalRate)
    && s.lastCleanup <= now
  }

  lemma EvictOnlyRemoves(buckets: map<string, Bucket>, now: int)
    ensures |Evict(buckets, now)| <= |buckets|
    ensures forall ip | ip in Evict(buckets, now) :: ip in buckets && Evict(buckets, now)[ip] == buckets[ip]
  {
    assert Evict(buckets, now).Keys <= buckets.Keys;
    SubsetSize(Evict(buckets, now).Keys, buckets.Keys);
  }

  lemma SubsetSize<T>(a: set<T>, b: set<T>)
    requires a <= b
    ensures |a| <= |b|
  {
    assert b == a + (b - a);
  }

  /** Tokens stay in [0, rate], no bucket's clock passes the call's, the table stays bounded. */
  lemma AllowKeepsLimiter(s: Limiter, c: Call)
    requires LimiterOk(s, c.now)
    ensures LimiterOk(AllowCall(s, c).0, c.now)
    ensures AllowCall(s, c).0.(global := s.global, buckets := s.buckets, lastCleanup := s.lastCleanup) == s
  {
    hide Refill;
    RefillKeepsBucket(s.global, s.globalRate, c.now);
    EvictOnlyRemoves(s.buckets, c.now);
    var s1 := s.(global := Refill(s.global, s.globalRate, c.now));
    var s2 := Cleaned(s1, c.now);
    RefillKeepsBucket(BucketFor(s2, c.ip, c.now), s.ipRate, c.now);
  }

  lemma InOrderSplit(calls: seq<Call>, from: int)
    requires InOrder(calls, from)
    ensures calls != [] ==>
              InOrder(calls[..|calls| - 1], from) && Last(calls[..|calls| - 1], from) <= calls[|calls| - 1].now
    ensures from <= Last(calls, from)
  {
    if calls != [] {
      var init := calls[..|calls| - 1];
      assert forall i | 0 <= i < |init| :: init[i] == calls[i];
    }
  }

  lemma {:induction false} RunKeepsLimiter(s: Limiter, calls: seq<Call>, from: int)
    requires LimiterOk(s, from) && InOrder(calls, from)
    ensures LimiterOk(Run(s, calls), Last(calls, from))
    ensures Run(s, calls).ipRate == s.ipRate && Run(s, calls).globalRate == s.globalRate
  {
    if calls != [] {
      hide AllowCall, InOrder;
      var init, last := calls[..|calls| - 1], calls[|calls| - 1];
      InOrderSplit(calls, from);
      RunKeepsLimiter(s, init, from);
      AllowKeepsLimiter(Run(s, init), last);
    }
  }

  // ----- how many calls a window lets through -----

  /** `grants` so far in a window opened at `from`, paid for by the rate, the elapsed
      time and one lag. */
  ghost predicate Paid(b: Bucket, rate: Rate, grants: nat, from: int) {
    grants > 0 ==> grants * Period(rate) + Credit(b, rate) <= rate * Period(rate) - from + MaxLag(rate)
  }

  lemma RefillKeepsPaid(b: Bucket, rate: Rate, grants: nat, from: int, now: int)
    requires BucketOk(b, rate, now) && Paid(b, rate, grants, from) && from <= now
    ensures var r := Refill(b, rate, now);
            Paid(r, rate, grants, from) && (r.tokens > 0 ==> Paid(Spend(r), rate, grants + 1, from))
  {
    hide Refill, Period, MaxLag;
    RefillAddsNoCredit(b, rate, now);
    RefillKeepsBucket(b, rate, now);
    var r := Refill(b, rate, now);
    MulMonotone(r.tokens, rate, Period(rate));
    assert (grants + 1) * Period(rate) == grants * Period(rate) + Period(rate);
    assert (r.tokens - 1) * Period(rate) == r.tokens * Period(rate) - Period(rate);
  }

  lemma PaidBound(b: Bucket, rate: Rate, grants: nat, from: int, to: int)
    requires Paid(b, rate, grants, from) && BucketOk(b, rate, to) && from <= to
    ensures (grants - rate) * Period(rate) <= to - from + MaxLag(rate)
  {
    hide Period, MaxLag;
    assert (grants - rate) * Period(rate) == grants * Period(rate) - rate * Period(rate);
    MulMonotone(0, b.tokens, Period(rate));
    if grants == 0 {
      MulMonotone(0, rate, Period(rate));
      LagIsPositive(rate);
    }
  }

  lemma LagIsPositive(rate: Rate)
    ensures MaxLag(rate) >= SECOND
  {
  }

  /** Per address: a missing bucket is one that could be recreated full right now. */
  ghost predicate PaidFor(s: Limiter, ip: string, grants: nat, from: int, now: int) {
    if ip in s.buckets then Paid(s.buckets[ip], s.ipRate, grants, from)
    else grants > 0 ==> grants * Period(s.ipRate) <= now - from + MaxLag(s.ipRate)
  }

  lemma EvictionKeepsPaid(s: Limiter, ip: string, grants: nat, from: int, now: int)
    requires LimiterOk(s, now) && PaidFor(s, ip, grants, from, now)
    ensures PaidFor(Cleaned(s, now), ip, grants, from, now)
  {
    hide MaxLag;
    if ip in s.buckets && ip !in Cleaned(s, now).buckets {
      MulMonotone(0, s.buckets[ip].tokens, Period(s.ipRate));
      assert s.ipRate * Period(s.ipRate) <= MINUTE;
    }
  }

  lemma FreshBucketPaid(s: Limiter, ip: string, grants: nat, from: int, now: int)
    requires PaidFor(s, ip, grants, from, now)
    ensures Paid(BucketFor(s, ip, now), s.ipRate, grants, from)
  {
    hide MaxLag, Period;
  }

  lemma AllowKeepsPaid(s: Limiter, c: Call, ip: string, grants: nat, total: nat, from: int)
    requires LimiterOk(s, c.now) && from <= c.now
    requires PaidFor(s, ip, grants, from, c.now) && Paid(s.global, s.globalRate, total, from)
    ensures var (n, ok) := AllowCall(s, c);
            && PaidFor(n, ip, if ok && c.ip == ip then grants + 1 else grants, from, c.now)
            && Paid(n.global, s.globalRate, if ok then total + 1 else total, from)
  {
    hide Refill, Paid, MaxLag, Period, Evict;
    RefillKeepsPaid(s.global, s.globalRate, total, from, c.now);
    var s1 := s.(global := Refill(s.global, s.globalRate, c.now));
    RefillKeepsBucket(s.global, s.globalRate, c.now);
    EvictionKeepsPaid(s1, ip, grants, from, c.now);
    var s2 := Cleaned(s1, c.now);
    EvictOnlyRemoves(s.buckets, c.now);
    if c.ip == ip {
      FreshBucketPaid(s2, ip, grants, from, c.now);
      RefillKeepsPaid(BucketFor(s2, ip, c.now), s.ipRate, grants, from, c.now);
    }
  }

  lemma LimiterOkLater(s: Limiter, now: int, later: int)
    requires LimiterOk(s, now) && now <= later
    ensures LimiterOk(s, later)
  {
  }

  lemma LaterKeepsPaidFor(s: Limiter, ip: string, grants: nat, from: int, now: int, later: int)
    requires PaidFor(s, ip, grants, from, now) && now <= later
    ensures PaidFor(s, ip, grants, from, later)
  {
    hide MaxLag, Period, Paid;
  }

  lemma GrantedStep(s: Limiter, calls: seq<Call>, ip: string)
    requires calls != []
    ensures var init, last := calls[..|calls| - 1], calls[|calls| - 1];
            var ok := AllowCall(Run(s, init), last).1;
            && Granted(s, calls)[ip] == Granted(s, init)[ip] + (if ok && last.ip == ip then 1 else 0)
            && |Granted(s, calls)| == |Granted(s, init)| + (if ok then 1 else 0)
            && Run(s, calls) == AllowCall(Run(s, init), last).0
  {
    hide AllowCall;
  }

  lemma {:induction false} RunKeepsPaid(s: Limiter, calls: seq<Call>, ip: string, from: int)
    requires LimiterOk(s, from) && InOrder(calls, from)
    ensures PaidFor(Run(s, calls), ip, Granted(s, calls)[ip], from, Last(calls, from))
    ensures Paid(Run(s, calls).global, s.globalRate, |Granted(s, calls)|, from)
  {
    if calls != [] {
      var init, last := calls[..|calls| - 1], calls[|calls| - 1];
      assert Last(calls, from) == last.now;
      hide AllowCall, Paid, PaidFor, InOrder, LimiterOk, Granted, Run, Last;
      GrantedStep(s, calls, ip);
      InOrderSplit(calls, from);
      RunKeepsPaid(s, init, ip, from);
      RunKeepsLimiter(s, init, from);
      PaidStep(Run(s, init), last, ip, Granted(s, init)[ip], |Granted(s, init)|, from, Last(init, from));
    }
  }

  lemma PaidStep(s: Limiter, c: Call, ip: string, grants: nat, total: nat, from: int, before: int)
    requires LimiterOk(s, before) && from <= before <= c.now
    requires PaidFor(s, ip, grants, from, before) && Paid(s.global, s.globalRate, total, from)
    ensures var (n, ok) := AllowCall(s, c);
            && PaidFor(n, ip, if ok && c.ip == ip then grants + 1 else grants, from, c.now)
            && Paid(n.global, s.globalRate, if ok then total + 1 else total, from)
  {
    hide *;
    LimiterOkLater(s, before, c.now);
    LaterKeepsPaidFor(s, ip, grants, from, before, c.now);
    AllowKeepsPaid(s, c, ip, grants, total, from);
  }

  /** The window bound. In any stretch of calls between `from` and `to`, after any
      history and across evictions, the calls allowed to one address and the calls
      allowed in all exceed the rate by no more than what the elapsed time plus one
      refill lag pays for, at a (rounded-down) token period each. */
  lemma WindowBound(s: Limiter, history: seq<Call>, window: seq<Call>, ip: string, start: int, from: int, to: int)
    requires s == NewLimiter(s.ipRate, s.globalRate, start)
    requires InOrder(history, start) && Last(history, start) <= from
    requires InOrder(window, from) && Last(window, from) <= to
    ensures var granted := Granted(Run(s, history), window);
            && (granted[ip] - s.ipRate) * Period(s.ipRate) <= to - from + MaxLag(s.ipRate)
            && (|granted| - s.globalRate) * Period(s.globalRate) <= to - from + MaxLag(s.globalRate)
  {
    hide AllowCall, Paid, MaxLag, Period, InOrder, Granted;
    assert LimiterOk(s, start);
    RunKeepsLimiter(s, history, start);
    var mid := Run(s, history);
    LimiterOkLater(mid, Last(history, start), from);
    InOrderSplit(window, from);
    RunKeepsPaid(mid, window, ip, from);
    RunKeepsLimiter(mid, window, from);
    var end := Run(mid, window);
    PaidBound(end.global, s.globalRate, |Granted(mid, window)|, from, to);
    var grants := Granted(mid, window)[ip];
    FreshBucketPaid(end, ip, grants, from, Last(window, from));
    PaidBound(BucketFor(end, ip, Last(window, from)), s.ipRate, grants, from, to);
  }

  /** A refused call spends no token: the global bucket is only refilled, and every
      bucket it leaves behind is an old one or the caller's own, found empty. */
  lemma RefusalSpendsNothing(s: Limiter, c: Call)
    requires !AllowCall(s, c).1
    ensures var n := AllowCall(s, c).0;
            && n.global == Refill(s.global, s.globalRate, c.now)
            && forall ip | ip in n.buckets ::
                 || (ip in s.buckets && n.buckets[ip] == s.buckets[ip])
                 || (ip == c.ip && n.buckets[ip].tokens <= 0)
  {
    hide Refill;
    EvictOnlyRemoves(s.buckets, c.now);
  }

  // ----- eviction against keeping the bucket -----

  function Touch(b: Bucket, rate: Rate, now: int): Bucket {
    var r := Refill(b, rate, now);
    if r.tokens <= 0 then r else Spend(r)
  }

  function Touches(b: Bucket, rate: Rate, times: seq<int>): Bucket {
    if times == [] then b else Touch(Touches(b, rate, times[..|times| - 1]), rate, times[|times| - 1])
  }

  /** The tokens a call at `t` finds after calls at `times`. */
  function Available(b: Bucket, rate: Rate, times: seq<int>, t: int): int {
    Refill(Touches(b, rate, times), rate, t).tokens
  }

  ghost predicate Schedule(now: int, times: seq<int>, t: int) {
    && times != [] && times[0] == now
    && (forall i, j | 0 <= i <= j < |times| :: times[i] <= times[j])
    && times[|times| - 1] <= t
  }

  /** On every schedule that starts with the call at `now`, the bucket recreated by
      that call never offers more than the bucket that was evicted would have. */
  ghost predicate NeverAhead(kept: Bucket, rate: Rate, now: int) {
    forall times: seq<int>, t: int | Schedule(now, times, t) ::
      Available(Bucket(rate, now), rate, times, t) <= Available(kept, rate, times, t)
  }

  /** The time a refill at `elapsed` leaves on the clock. */
  function Remainder(elapsed: int, rate: Rate): int {
    elapsed - TimeConsumed(TokensEarned(elapsed, rate), rate)
  }

  /** At the call that recreates it, an evicted bucket is worth exactly what the kept one would be. */
  lemma EvictedIsFull(kept: Bucket, rate: Rate, now: int)
    requires BucketOk(kept, rate, now) && now - kept.lastRefill >= IP_LIMIT_TTL
    ensures Refill(kept, rate, now) == Bucket(rate, now - Remainder(now - kept.lastRefill, rate))
    ensures Refill(Bucket(rate, now), rate, now) == Bucket(rate, now)
    ensures 0 <= Remainder(now - kept.lastRefill, rate) <= PeriodUp(rate)
  {
    var elapsed := now - kept.lastRefill;
    EarnsAtLeast(elapsed, 10, rate);
    EarnedCost(elapsed, rate);
  }

  lemma EarnsAtLeast(elapsed: int, minutes: nat, rate: Rate)
    requires elapsed >= minutes * MINUTE
    ensures TokensEarned(elapsed, rate) >= minutes * rate
  {
    MulMonotone(minutes * MINUTE, elapsed, rate);
    assert minutes * MINUTE * rate == minutes * rate * MINUTE;
    DivBounds(elapsed * rate, MINUTE);
    CancelFactor(minutes * rate, elapsed * rate / MINUTE, MINUTE);
  }

  lemma DivExact(k: int, d: int)
    requires d > 0
    ensures k * d / d == k
  {
    DivBounds(k * d, d);
    CancelFactor(k, k * d / d, d);
    CancelFactor(k * d / d, k, d);
  }

  /** A rate of whole tokens per nanosecond leaves nothing. */
  lemma WholeRateUsesAll(elapsed: int, earned: int, used: int, rate: Rate, whole: int)
    requires rate == whole * MINUTE
    requires elapsed * rate < earned * MINUTE + MINUTE && earned * MINUTE < used * rate + rate
    ensures elapsed <= used
  {
    assert elapsed * rate == elapsed * whole * MINUTE;
    CancelFactor(elapsed * whole, earned, MINUTE);
    MulMonotone(elapsed * whole, earned, MINUTE);
    CancelFactor(elapsed, used, rate);
  }

  /** A rate that divides the minute takes exactly the time its tokens cost. */
  lemma DividingRateIsExact(earned: int, used: int, rate: Rate, period: int)
    requires period * rate == MINUTE
    requires used * rate <= earned * MINUTE < used * rate + rate
    ensures used * rate == earned * MINUTE
  {
    assert earned * MINUTE == earned * period * rate;
    CancelFactor(earned * period, used, rate);
    CancelFactor(used, earned * period, rate);
  }

  /** What a refill leaves on the clock is never itself worth a whole number of tokens. */
  lemma RemainderIsNotWhole(elapsed: int, earned: int, used: int, rate: Rate, whole: int)
    requires earned * MINUTE <= elapsed * rate < earned * MINUTE + MINUTE
    requires used * rate <= earned * MINUTE < used * rate + rate
    requires elapsed - used >= 1
    ensures (elapsed - used) * rate != whole * MINUTE
  {
    var left := elapsed - used;
    assert left * rate == elapsed * rate - used * rate;
    if left * rate == whole * MINUTE {
      if left == 1 {
        WholeRateUsesAll(elapsed, earned, used, rate, whole);
        assert false;
      } else {
        MulMonotone(2, left, rate);
        MulMonotone(1, left, rate);
        CancelFactor(1, whole, MINUTE);
        DividingRateIsExact(earned, used, rate, left);
        assert false;
      }
    }
  }

  lemma RemainderSurvives(elapsed: int, rate: Rate)
    requires elapsed >= 0 && Remainder(elapsed, rate) >= 1
    ensures Remainder(3 * MINUTE - Remainder(elapsed, rate), rate) >= 1
  {
    var earned := TokensEarned(elapsed, rate);
    var used := TimeConsumed(earned, rate);
    var other := 3 * MINUTE - (elapsed - used);
    var earned' := TokensEarned(other, rate);
    var used' := TimeConsumed(earned', rate);
    DivBounds(elapsed * rate, MINUTE);
    DivBounds(earned * MINUTE, rate);
    DivBounds(other * rate, MINUTE);
    DivBounds(earned' * MINUTE, rate);
    EarnedCost(elapsed, rate);
    PeriodAtMostMinute(rate);
    EarnedCost(other, rate);
    if used' >= other {
      assert other * rate == used' * rate == earned' * MINUTE;
      assert other * rate == 3 * rate * MINUTE - (elapsed - used) * rate;
      RemainderIsNotWhole(elapsed, earned, used, rate, 3 * rate - earned');
    }
  }

  lemma PeriodAtMostMinute(rate: Rate)
    ensures PeriodUp(rate) <= MINUTE && MaxLag(rate) <= MINUTE
  {
    MulMonotone(1, rate, MINUTE);
  }

  /** Two buckets with the same tokens, one token below full: whichever clock trails
      more gains first. */
  lemma TrailingClockGains(ahead: int, behind: int, rate: Rate, t: int)
    requires behind < ahead <= t && t - behind <= PeriodUp(rate)
    ensures Refill(Bucket(rate - 1, ahead), rate, behind + MaxLag(rate)) == Bucket(rate - 1, ahead)
    ensures Refill(Bucket(rate - 1, behind), rate, behind + MaxLag(rate)).tokens == rate
  {
    NothingEarned(behind + MaxLag(rate) - ahead, rate);
    NothingEarned(MaxLag(rate), rate);
  }

  /** Eviction is neutral exactly when the refill at the recreating call would have
      left nothing on the kept bucket's clock. */
  lemma EvictionIsNeutralIff(kept: Bucket, rate: Rate, now: int)
    requires BucketOk(kept, rate, now) && now - kept.lastRefill >= IP_LIMIT_TTL
    ensures NeverAhead(kept, rate, now) <==> Remainder(now - kept.lastRefill, rate) == 0
  {
    EvictedIsFull(kept, rate, now);
    if Remainder(now - kept.lastRefill, rate) == 0 {
      forall times: seq<int>, t: int | Schedule(now, times, t)
        ensures Available(Bucket(rate, now), rate, times, t) <= Available(kept, rate, times, t)
      {
        SameAfterFirstTouch(Bucket(rate, now), kept, rate, times);
      }
    } else {
      EvictionGains(kept, rate, now);
    }
  }

  lemma {:induction false} SameAfterFirstTouch(a: Bucket, b: Bucket, rate: Rate, times: seq<int>)
    requires times != [] && Refill(a, rate, times[0]) == Refill(b, rate, times[0])
    ensures Touches(a, rate, times) == Touches(b, rate, times)
  {
    if |times| > 1 {
      SameAfterFirstTouch(a, b, rate, times[..|times| - 1]);
    } else {
      assert times[..0] == [];
    }
  }

  lemma TwoTouches(b: Bucket, rate: Rate, first: int, second: int)
    ensures Touches(b, rate, [first, second]) == Touch(Touch(b, rate, first), rate, second)
  {
    assert [first, second][..1] == [first] && [first][..0] == [];
    assert Touches(b, rate, [first]) == Touch(b, rate, first);
  }

  /** A bucket one token below full, refilled after almost three minutes or more. */
  lemma TopUp(lastRefill: int, rate: Rate, t: int)
    requires t - lastRefill >= 2 * MINUTE
    ensures Touch(Bucket(rate - 1, lastRefill), rate, t)
         == Bucket(rate - 1, t - Remainder(t - lastRefill, rate))
  {
    EarnsAtLeast(t - lastRefill, 2, rate);
  }

  /** The schedule on which the recreated bucket overtakes: a call three minutes
      after the kept bucket's clock, then one when the recreated bucket gains first. */
  lemma EvictionGains(kept: Bucket, rate: Rate, now: int)
    requires BucketOk(kept, rate, now) && now - kept.lastRefill >= IP_LIMIT_TTL
    requires Remainder(now - kept.lastRefill, rate) != 0
    ensures !NeverAhead(kept, rate, now)
  {
    hide Refill, Remainder, PeriodUp, MaxLag;
    var left := Remainder(now - kept.lastRefill, rate);
    EvictedIsFull(kept, rate, now);
    PeriodAtMostMinute(rate);
    var second := now - left + 3 * MINUTE;
    TopUp(now - left, rate, second);
    TopUp(now, rate, second);
    WholeMinutesLeaveNothing(3, rate);
    RemainderSurvives(now - kept.lastRefill, rate);
    var behind := second - Remainder(second - now, rate);
    RemainderAtMostPeriod(second - now, rate);
    LagIsPositive(rate);
    LagCoversPeriod(rate);
    var third := behind + MaxLag(rate);
    TrailingClockGains(second, behind, rate, second);
    TwoTouches(kept, rate, now, second);
    TwoTouches(Bucket(rate, now), rate, now, second);
    var times := [now, second];
    assert Schedule(now, times, third);
    assert Available(Bucket(rate, now), rate, times, third) == rate;
    assert Available(kept, rate, times, third) == rate - 1;
  }

  lemma WholeMinutesLeaveNothing(minutes: nat, rate: Rate)
    ensures Remainder(minutes * MINUTE, rate) == 0
  {
    assert minutes * MINUTE * rate == minutes * rate * MINUTE;
    DivExact(minutes * rate, MINUTE);
    DivExact(minutes * MINUTE, rate);
  }

  lemma RemainderAtMostPeriod(elapsed: int, rate: Rate)
    requires elapsed >= 0
    ensures 0 <= Remainder(elapsed, rate) <= PeriodUp(rate)
  {
    EarnedCost(elapsed, rate);
  }

  lemma LagCoversPeriod(rate: Rate)
    ensures MaxLag(rate) >= PeriodUp(rate)
  {
  }

  /** How the limiter uses a bucket: a call that gets past the global bucket and the
      table bound touches its address's bucket and is allowed iff that has a token. */
  lemma AllowTouchesBucket(s: Limiter, c: Call)
    requires Refill(s.global, s.globalRate, c.now).tokens > 0
    requires c.ip in Cleaned(s, c.now).buckets || |Cleaned(s, c.now).buckets| < MaxEntries(s.globalRate)
    ensures var (n, ok) := AllowCall(s, c);
            var s1 := Cleaned(s, c.now);
            var b := BucketFor(s1, c.ip, c.now);
            var g := Refill(s.global, s.globalRate, c.now);
            && n == s1.(buckets := s1.buckets[c.ip := Touch(b, s.ipRate, c.now)], global := if ok then Spend(g) else g)
            && ok == (Refill(b, s.ipRate, c.now).tokens > 0)
  {
    hide Refill, Evict;
  }

  // ----- which buckets stay in the table -----

  /** The buckets a call at `now` finds: all, or those used within the TTL if a cleanup is due. */
  ghost function Live(s: Limiter, now: int): set<string> {
    set ip | ip in s.buckets &&
             (now - s.lastCleanup >= CLEANUP_INTERVAL ==> now - s.buckets[ip].lastRefill < IP_LIMIT_TTL)
  }

  lemma CleanedIsLive(s: Limiter, now: int)
    ensures Cleaned(s, now).buckets.Keys == Live(s, now) && |Cleaned(s, now).buckets| == |Live(s, now)|
    ensures forall ip | ip in Live(s, now) :: Cleaned(s, now).buckets[ip] == s.buckets[ip]
    ensures Cleaned(s, now).lastCleanup == if now - s.lastCleanup >= CLEANUP_INTERVAL then now else s.lastCleanup
  {
    var n := Cleaned(s, now);
    assert n.buckets.Keys == Live(s, now);
    assert |n.buckets| == |n.buckets.Keys|;
  }

  /** A call the global bucket lets through. The table it leaves holds the live buckets as
      they were and the caller's; a known caller is decided by its bucket, and a new one
      is refused exactly when the table of live buckets is full. */
  lemma CallFindsLiveBuckets(s: Limiter, c: Call)
    requires LimiterOk(s, c.now) && Refill(s.global, s.globalRate, c.now).tokens > 0
    ensures var (n, ok) := AllowCall(s, c);
            var live := Live(s, c.now);
            && (n.lastCleanup == if c.now - s.lastCleanup >= CLEANUP_INTERVAL then c.now else s.lastCleanup)
            && (forall ip | ip != c.ip :: ip in n.buckets <==> ip in live)
            && (forall ip | ip != c.ip && ip in live :: n.buckets[ip] == s.buckets[ip])
            && (c.ip in n.buckets ==> c.now - n.buckets[c.ip].lastRefill <= MaxLag(s.ipRate))
            && (c.ip in live ==> ok == (Refill(s.buckets[c.ip], s.ipRate, c.now).tokens > 0))
            && (c.ip !in live ==> ok == (|live| < 10000 || |live| < 20 * s.globalRate))
            && (c.ip !in live && !ok ==> c.ip !in n.buckets)
  {
    hide Refill, Evict, Live, MaxLag, Cleaned;
    CleanedIsLive(s, c.now);
    var s1 := s.(global := Refill(s.global, s.globalRate, c.now));
    CleanedKeepsRest(s, s1.global, c.now);
    EvictOnlyRemoves(s.buckets, c.now);
    CleanedInRange(s, c);
    var b := BucketFor(Cleaned(s, c.now), c.ip, c.now);
    RefillKeepsBucket(b, s.ipRate, c.now);
  }

  lemma CleanedKeepsRest(s: Limiter, g: Bucket, now: int)
    ensures Cleaned(s.(global := g), now) == Cleaned(s, now).(global := g)
    ensures Cleaned(s, now).ipRate == s.ipRate && Cleaned(s, now).globalRate == s.globalRate
  {
  }

  lemma CleanedInRange(s: Limiter, c: Call)
    requires LimiterOk(s, c.now)
    ensures BucketOk(BucketFor(Cleaned(s, c.now), c.ip, c.now), s.ipRate, c.now)
  {
    EvictOnlyRemoves(s.buckets, c.now);
  }

  /** At the latest cleanup every bucket now in the table had been used within the TTL. */
  ghost predicate NoneIdle(s: Limiter) {
    forall ip | ip in s.buckets :: s.lastCleanup - s.buckets[ip].lastRefill < IP_LIMIT_TTL
  }

  lemma LagWithinTTL(rate: Rate)
    ensures MaxLag(rate) <= MINUTE
  {
    PeriodAtMostMinute(rate);
  }

  lemma AllowKeepsNoneIdle(s: Limiter, c: Call)
    requires LimiterOk(s, c.now) && NoneIdle(s)
    ensures NoneIdle(AllowCall(s, c).0)
  {
    var n := AllowCall(s, c).0;
    if Refill(s.global, s.globalRate, c.now).tokens > 0 {
      hide AllowCall, Refill, MaxLag;
      CallFindsLiveBuckets(s, c);
      LagWithinTTL(s.ipRate);
    }
  }

  lemma {:induction false} RunKeepsNoneIdle(s: Limiter, calls: seq<Call>, start: int)
    requires s == NewLimiter(s.ipRate, s.globalRate, start) && InOrder(calls, start)
    ensures NoneIdle(Run(s, calls))
  {
    if calls != [] {
      hide AllowCall, InOrder, NoneIdle;
      var init, last := calls[..|calls| - 1], calls[|calls| - 1];
      InOrderSplit(calls, start);
      RunKeepsNoneIdle(s, init, start);
      RunKeepsLimiter(s, init, start);
      LimiterOkLater(Run(s, init), Last(init, start), last.now);
      AllowKeepsNoneIdle(Run(s, init), last);
    }
  }

  /** The table over whole histories. A call the global bucket lets through leaves no bucket
      idle for the TTL if it finds a cleanup due, and never one idle for the TTL and a cleanup
      interval. A new address is refused exactly when the table is full of live buckets. */
  lemma TableHoldsLiveBuckets(s: Limiter, history: seq<Call>, c: Call, start: int)
    requires s == NewLimiter(s.ipRate, s.globalRate, start)
    requires InOrder(history, start) && Last(history, start) <= c.now
    requires Refill(Run(s, history).global, s.globalRate, c.now).tokens > 0
    ensures var m := Run(s, history);
            var (n, ok) := AllowCall(m, c);
            && (c.now - m.lastCleanup >= CLEANUP_INTERVAL ==>
                  forall ip | ip in n.buckets :: c.now - n.buckets[ip].lastRefill < IP_LIMIT_TTL)
            && (forall ip | ip in n.buckets :: c.now - n.buckets[ip].lastRefill < IP_LIMIT_TTL + CLEANUP_INTERVAL)
            && (c.ip !in Live(m, c.now) ==>
                  ok == (|Live(m, c.now)| < 10000 || |Live(m, c.now)| < 20 * s.globalRate))
  {
    hide AllowCall, Run, Refill, MaxLag, InOrder;
    RunKeepsLimiter(s, history, start);
    RunKeepsNoneIdle(s, history, start);
    var m := Run(s, history);
    LimiterOkLater(m, Last(history, start), c.now);
    CallFindsLiveBuckets(m, c);
    LagWithinTTL(s.ipRate);
  }

  // ----- eviction in histories of calls -----

  /** The same limiter, had it never cleaned up. */
  function AllowKeeping(s: Limiter, c: Call): (Limiter, bool) { AllowCall(s.(lastCleanup := c.now), c) }

  function RunKeeping(s: Limiter, calls: seq<Call>): Limiter {
    if calls == [] then s else AllowKeeping(RunKeeping(s, calls[..|calls| - 1]), calls[|calls| - 1]).0
  }

  /** A limiter that has evicted a bucket, and one that has kept it, are the same after
      the call that recreates it if and only if nothing was left on the kept clock. The
      cleanup may be any earlier one, or the recreating call's own, which sets lastCleanup
      to now before the bucket is looked up. */
  lemma SameLimiterIff(s: Limiter, kept: Bucket, c: Call)
    requires LimiterOk(s, c.now) && c.ip !in s.buckets && c.now - s.lastCleanup < CLEANUP_INTERVAL
    requires |s.buckets| < MaxEntries(s.globalRate) && Refill(s.global, s.globalRate, c.now).tokens > 0
    requires BucketOk(kept, s.ipRate, c.now) && c.now - kept.lastRefill >= IP_LIMIT_TTL
    ensures var evicted, other := AllowCall(s, c), AllowCall(s.(buckets := s.buckets[c.ip := kept]), c);
            && evicted.1 && other.1
            && (evicted.0 == other.0 <==> Remainder(c.now - kept.lastRefill, s.ipRate) == 0)
  {
    hide Refill, Remainder, AllowCall;
    var t := s.(buckets := s.buckets[c.ip := kept]);
    AllowTouchesBucket(s, c);
    AllowTouchesBucket(t, c);
    EvictedIsFull(kept, s.ipRate, c.now);
    var full := Bucket(s.ipRate, c.now);
    var n, m := AllowCall(s, c).0, AllowCall(t, c).0;
    assert n.buckets == s.buckets[c.ip := Spend(full)];
    assert m.buckets == s.buckets[c.ip := Spend(Refill(kept, s.ipRate, c.now))];
    assert n.buckets[c.ip] == Spend(full) && m.buckets[c.ip] == Spend(Refill(kept, s.ipRate, c.now));
  }

  lemma RunExtends(s: Limiter, calls: seq<Call>, c: Call) returns (longer: seq<Call>)
    ensures longer == calls + [c]
    ensures Run(s, longer) == AllowCall(Run(s, calls), c).0
    ensures RunKeeping(s, longer) == AllowKeeping(RunKeeping(s, calls), c).0
    ensures Run(s, []) == s && RunKeeping(s, []) == s
  {
    longer := calls + [c];
    assert longer[..|calls|] == calls;
  }

  /** The answer to the last of some calls. */
  function Answer(s: Limiter, calls: seq<Call>): bool
    requires calls != []
  {
    AllowCall(Run(s, calls[..|calls| - 1]), calls[|calls| - 1]).1
  }

  /** On every continuation in clock order the two limiters answer alike. */
  ghost predicate AnswerAlike(n: Limiter, m: Limiter, from: int) {
    forall calls | calls != [] && InOrder(calls, from) :: Answer(n, calls) == Answer(m, calls)
  }

  function Repeated(c: Call, k: nat): seq<Call> { seq(k, i => c) }

  /** Address `ip` and the limiter as a whole have `k` calls at time `t` to give. */
  ghost predicate Ready(s: Limiter, ip: string, t: int, k: int) {
    && LimiterOk(s, t) && ip in s.buckets && t - s.buckets[ip].lastRefill < IP_LIMIT_TTL
    && Refill(s.buckets[ip], s.ipRate, t).tokens >= k && Refill(s.global, s.globalRate, t).tokens >= k
  }

  lemma ReadyStep(s: Limiter, ip: string, t: int, k: int)
    requires Ready(s, ip, t, k) && k >= 1
    ensures var (n, ok) := AllowCall(s, Call(ip, t));
            ok && Ready(n, ip, t, k - 1) && n.ipRate == s.ipRate && n.globalRate == s.globalRate
  {
    hide Refill, AllowCall, LimiterOk, Cleaned;
    CleanedKeepsRecent(s, ip, t);
    AllowTouchesBucket(s, Call(ip, t));
    AllowKeepsLimiter(s, Call(ip, t));
    RefillMovesOn(s.buckets[ip], s, ip, t);
    RefillOfRefill(s.buckets[ip], s, ip, t);
    RefillOfGlobal(s, t);
  }

  /** Neither a cleanup nor anything else takes a bucket that was refilled recently. */
  lemma CleanedKeepsRecent(s: Limiter, ip: string, t: int)
    requires ip in s.buckets && t - s.buckets[ip].lastRefill < IP_LIMIT_TTL
    ensures var n := Cleaned(s, t);
            && ip in n.buckets && n.buckets[ip] == s.buckets[ip]
            && n.global == s.global && n.ipRate == s.ipRate && n.globalRate == s.globalRate
  {
  }

  lemma RefillMovesOn(b: Bucket, s: Limiter, ip: string, t: int)
    requires LimiterOk(s, t) && ip in s.buckets && b == s.buckets[ip]
    ensures Refill(b, s.ipRate, t).lastRefill >= b.lastRefill
  {
    hide Refill;
    RefillKeepsBucket(b, s.ipRate, t);
  }

  lemma RefillOfRefill(b: Bucket, s: Limiter, ip: string, t: int)
    requires LimiterOk(s, t) && ip in s.buckets && b == s.buckets[ip] && Refill(b, s.ipRate, t).tokens >= 1
    ensures Refill(Spend(Refill(b, s.ipRate, t)), s.ipRate, t).tokens >= Refill(b, s.ipRate, t).tokens - 1
  {
    hide Refill;
    RefillKeepsBucket(b, s.ipRate, t);
    RefillKeepsBucket(Spend(Refill(b, s.ipRate, t)), s.ipRate, t);
  }

  lemma RefillOfGlobal(s: Limiter, t: int)
    requires LimiterOk(s, t) && Refill(s.global, s.globalRate, t).tokens >= 1
    ensures var g := Refill(s.global, s.globalRate, t);
            Refill(Spend(g), s.globalRate, t).tokens >= g.tokens - 1
  {
    hide Refill;
    RefillKeepsBucket(s.global, s.globalRate, t);
    RefillKeepsBucket(Spend(Refill(s.global, s.globalRate, t)), s.globalRate, t);
  }

  /** All the calls a ready limiter has to give are allowed. */
  lemma {:induction false} ReadyRun(s: Limiter, ip: string, t: int, k: nat)
    requires Ready(s, ip, t, k)
    ensures Ready(Run(s, Repeated(Call(ip, t), k)), ip, t, 0)
    ensures k >= 1 ==> Answer(s, Repeated(Call(ip, t), k))
  {
    hide AllowCall, Ready;
    if k > 0 {
      ReadyLeaves(s, ip, t, k, k - 1);
      var init := Repeated(Call(ip, t), k - 1);
      assert Repeated(Call(ip, t), k)[..k - 1] == init;
      ReadyStep(Run(s, init), ip, t, 1);
    } else {
      assert Repeated(Call(ip, t), 0) == [];
    }
  }

  lemma {:induction false} ReadyLeaves(s: Limiter, ip: string, t: int, k: nat, used: nat)
    requires Ready(s, ip, t, k) && used <= k
    ensures Ready(Run(s, Repeated(Call(ip, t), used)), ip, t, k - used)
  {
    hide AllowCall, Ready;
    if used > 0 {
      ReadyLeaves(s, ip, t, k, used - 1);
      assert Repeated(Call(ip, t), used)[..used - 1] == Repeated(Call(ip, t), used - 1);
      ReadyStep(Run(s, Repeated(Call(ip, t), used - 1)), ip, t, k - used + 1);
    } else {
      assert Repeated(Call(ip, t), 0) == [];
    }
  }

  /** At time `t` the bucket of `ip` holds `k` tokens and earns nothing, and the limiter
      as a whole has `g` calls to give. */
  ghost predicate Stuck(s: Limiter, ip: string, t: int, k: int, g: int) {
    && LimiterOk(s, t) && ip in s.buckets && t - s.buckets[ip].lastRefill < IP_LIMIT_TTL
    && s.buckets[ip].tokens == k && EarnsNothing(s.buckets[ip].lastRefill, s.ipRate, t)
    && Refill(s.global, s.globalRate, t).tokens >= g
  }

  predicate EarnsNothing(lastRefill: int, rate: Rate, t: int) {
    t - lastRefill < SECOND || TokensEarned(t - lastRefill, rate) <= 0
  }

  lemma StuckStep(s: Limiter, ip: string, t: int, k: int, g: int)
    requires Stuck(s, ip, t, k, g)
    ensures var (n, ok) := AllowCall(s, Call(ip, t));
            && n.ipRate == s.ipRate && n.globalRate == s.globalRate
            && (k == 0 ==> !ok)
            && (k >= 1 && g >= 1 ==> ok && Stuck(n, ip, t, k - 1, g - 1))
  {
    assert Refill(s.buckets[ip], s.ipRate, t) == s.buckets[ip];
    AllowKeepsLimiter(s, Call(ip, t));
    CleanedKeepsRecent(s, ip, t);
    hide Refill, AllowCall, LimiterOk, EarnsNothing, Cleaned;
    if Refill(s.global, s.globalRate, t).tokens > 0 {
      AllowTouchesBucket(s, Call(ip, t));
      RefillOfGlobal(s, t);
    } else {
      NothingLeft(s, Call(ip, t));
    }
  }

  lemma NothingLeft(s: Limiter, c: Call)
    requires Refill(s.global, s.globalRate, c.now).tokens <= 0
    ensures !AllowCall(s, c).1
    ensures AllowCall(s, c).0.ipRate == s.ipRate && AllowCall(s, c).0.globalRate == s.globalRate
  {
    hide Refill;
  }

  /** One call more than the stuck bucket has is refused. */
  lemma {:induction false} StuckRun(s: Limiter, ip: string, t: int, k: nat, g: int, used: nat)
    requires Stuck(s, ip, t, k, g) && used <= k <= g
    ensures Stuck(Run(s, Repeated(Call(ip, t), used)), ip, t, k - used, g - used)
  {
    hide AllowCall, Stuck;
    if used > 0 {
      StuckRun(s, ip, t, k, g, used - 1);
      assert Repeated(Call(ip, t), used)[..used - 1] == Repeated(Call(ip, t), used - 1);
      StuckStep(Run(s, Repeated(Call(ip, t), used - 1)), ip, t, k - used + 1, g - used + 1);
    } else {
      assert Repeated(Call(ip, t), 0) == [];
    }
  }

  lemma StuckRefuses(s: Limiter, ip: string, t: int, k: nat, g: int)
    requires Stuck(s, ip, t, k, g) && k <= g
    ensures !Answer(s, Repeated(Call(ip, t), k + 1))
  {
    hide AllowCall, Stuck;
    StuckRun(s, ip, t, k, g, k);
    assert Repeated(Call(ip, t), k + 1)[..k] == Repeated(Call(ip, t), k);
    StuckStep(Run(s, Repeated(Call(ip, t), k)), ip, t, 0, g - k);
  }

  lemma {:induction false} RunAppends(s: Limiter, first: seq<Call>, rest: seq<Call>)
    ensures Run(s, first + rest) == Run(Run(s, first), rest)
  {
    if rest == [] {
      assert first + rest == first;
    } else {
      hide AllowCall;
      RunAppends(s, first, rest[..|rest| - 1]);
      FrontOfAppended(first, rest);
    }
  }

  lemma AnswerAppends(s: Limiter, first: seq<Call>, rest: seq<Call>)
    requires rest != []
    ensures Answer(s, first + rest) == Answer(Run(s, first), rest)
  {
    hide AllowCall, Run;
    RunAppends(s, first, rest[..|rest| - 1]);
    FrontOfAppended(first, rest);
  }

  lemma FrontOfAppended(first: seq<Call>, rest: seq<Call>)
    requires rest != []
    ensures (first + rest)[..|first + rest| - 1] == first + rest[..|rest| - 1]
    ensures (first + rest)[|first + rest| - 1] == rest[|rest| - 1]
  {
  }

  /** A limiter right after a call at `now` that found the bucket of `ip` full, its clock
      at `clock`. */
  ghost predicate JustTouched(s: Limiter, ip: string, now: int, clock: int) {
    && LimiterOk(s, now)
    && ip in s.buckets && s.buckets[ip] == Bucket(s.ipRate - 1, clock)
  }

  /** The second call of the overtaking schedule, at least two minutes on. */
  lemma SecondCall(s: Limiter, ip: string, now: int, clock: int, second: int)
    requires JustTouched(s, ip, now, clock) && second - clock >= 2 * MINUTE && second - now >= 2 * MINUTE
    requires second - clock < IP_LIMIT_TTL
    ensures var n := Run(s, [Call(ip, second)]);
            && LimiterOk(n, second) && n.ipRate == s.ipRate && n.globalRate == s.globalRate
            && ip in n.buckets && n.buckets[ip] == Bucket(s.ipRate - 1, second - Remainder(second - clock, s.ipRate))
            && n.global == Bucket(s.globalRate - 1, second - Remainder(second - s.global.lastRefill, s.globalRate))
  {
    hide Refill, AllowCall, Remainder, LimiterOk, Cleaned;
    LimiterOkLater(s, now, second);
    CleanedKeepsRecent(s, ip, second);
    assert [Call(ip, second)][..0] == [];
    GlobalIsFull(s, now, second);
    AllowTouchesBucket(s, Call(ip, second));
    AllowKeepsLimiter(s, Call(ip, second));
    TopUp(clock, s.ipRate, second);
    FullAfterTwoMinutes(clock, s.ipRate, second);
  }

  lemma FullAfterTwoMinutes(clock: int, rate: Rate, t: int)
    requires t - clock >= 2 * MINUTE
    ensures Refill(Bucket(rate - 1, clock), rate, t).tokens == rate
  {
    EarnsAtLeast(t - clock, 2, rate);
  }

  lemma GlobalIsFull(s: Limiter, now: int, t: int)
    requires LimiterOk(s, now) && t - now >= 2 * MINUTE
    ensures Refill(s.global, s.globalRate, t)
         == Bucket(s.globalRate, t - Remainder(t - s.global.lastRefill, s.globalRate))
  {
    EarnsAtLeast(t - s.global.lastRefill, 2, s.globalRate);
  }

  /** A refill that leaves nothing has taken exactly the time of its tokens. */
  lemma NothingLeftIsWhole(z: int, rate: Rate)
    requires z >= 0 && Remainder(z, rate) == 0
    ensures z * rate == TokensEarned(z, rate) * MINUTE
  {
    DivBounds(z * rate, MINUTE);
    DivBounds(TokensEarned(z, rate) * MINUTE, rate);
  }

  /** Two times that differ by what some refill left cannot both leave nothing. */
  lemma NotBothWhole(elapsed: int, rate: Rate, z: int)
    requires elapsed >= 0 && Remainder(elapsed, rate) >= 1 && z >= Remainder(elapsed, rate)
    ensures Remainder(z, rate) >= 1 || Remainder(z - Remainder(elapsed, rate), rate) >= 1
  {
    hide Remainder, TokensEarned;
    var left := Remainder(elapsed, rate);
    RemainderAtMostPeriod(z, rate);
    RemainderAtMostPeriod(z - left, rate);
    if Remainder(z, rate) == 0 && Remainder(z - left, rate) == 0 {
      NothingLeftIsWhole(z, rate);
      NothingLeftIsWhole(z - left, rate);
      var whole := TokensEarned(z, rate) - TokensEarned(z - left, rate);
      DifferenceIsWhole(z, left, rate, TokensEarned(z, rate), TokensEarned(z - left, rate));
      LeftIsNotWhole(elapsed, rate, whole);
      assert false;
    }
  }

  lemma DifferenceIsWhole(z: int, left: int, rate: Rate, a: int, b: int)
    requires z * rate == a * MINUTE && (z - left) * rate == b * MINUTE
    ensures left * rate == (a - b) * MINUTE
  {
    assert (z - left) * rate == z * rate - left * rate;
  }

  lemma LeftIsNotWhole(elapsed: int, rate: Rate, whole: int)
    requires elapsed >= 0 && Remainder(elapsed, rate) >= 1
    ensures Remainder(elapsed, rate) * rate != whole * MINUTE
  {
    var earned := TokensEarned(elapsed, rate);
    var used := TimeConsumed(earned, rate);
    DivBounds(elapsed * rate, MINUTE);
    DivBounds(earned * MINUTE, rate);
    RemainderIsNotWhole(elapsed, earned, used, rate, whole);
  }

  /** A bucket one token below full is full again one lag after its clock. */
  lemma FullAfterLag(clock: int, rate: Rate, t: int)
    requires t - clock >= MaxLag(rate)
    ensures Refill(Bucket(rate - 1, clock), rate, t).tokens == rate
  {
    NothingEarned(t - clock, rate);
  }

  /** A call at `second` leaves the global bucket such that it has `k` tokens at `third`. */
  ghost predicate GlobalServes(global: Bucket, rate: Rate, second: int, third: int, k: int) {
    Refill(Bucket(rate - 1, second - Remainder(second - global.lastRefill, rate)), rate, third).tokens >= k
  }

  /** Two limiters that differ in the clock of one bucket. A call at `second` leaves the
      clock of `ahead` trailing and that of `stuck` at `second`; of as many calls at
      `third` as the address has tokens, the last is answered differently. */
  lemma DrainDiffers(
      ahead: Limiter, stuck: Limiter, ip: string, now: int, trailing: int, level: int, second: int, third: int)
    returns (calls: seq<Call>)
    requires JustTouched(ahead, ip, now, trailing) && JustTouched(stuck, ip, now, level)
    requires ahead.ipRate == stuck.ipRate && ahead.globalRate == stuck.globalRate && ahead.global == stuck.global
    requires now + 2 * MINUTE <= second <= now + 3 * MINUTE
    requires now - MINUTE <= trailing <= now && now - MINUTE <= level <= now
    requires Remainder(second - trailing, ahead.ipRate) >= 1 && Remainder(second - level, ahead.ipRate) == 0
    requires second <= third < second + MaxLag(ahead.ipRate)
    requires third >= second - Remainder(second - trailing, ahead.ipRate) + MaxLag(ahead.ipRate)
    requires GlobalServes(ahead.global, ahead.globalRate, second, third, ahead.ipRate)
    ensures calls != [] && InOrder(calls, now) && Answer(ahead, calls) && !Answer(stuck, calls)
  {
    hide Refill, AllowCall, Remainder, LimiterOk, PeriodUp, MaxLag, Answer, TokensEarned;
    var rate := ahead.ipRate;
    PeriodAtMostMinute(rate);
    RemainderAtMostPeriod(second - trailing, rate);
    SecondCall(ahead, ip, now, trailing, second);
    SecondCall(stuck, ip, now, level, second);
    var n, m := Run(ahead, [Call(ip, second)]), Run(stuck, [Call(ip, second)]);
    OvertakerIsReady(n, ip, third, second - Remainder(second - trailing, rate), second);
    OvertakenIsStuck(m, ip, third, second);
    ReadyRun(n, ip, third, rate);
    var tokens: int := rate;
    StuckRefuses(m, ip, third, tokens - 1, tokens);
    var rest := Repeated(Call(ip, third), rate);
    AnswerAppends(ahead, [Call(ip, second)], rest);
    AnswerAppends(stuck, [Call(ip, second)], rest);
    calls := [Call(ip, second)] + rest;
    assert InOrder(calls, now);
  }

  lemma OvertakerIsReady(s: Limiter, ip: string, third: int, clock: int, second: int)
    requires LimiterOk(s, second) && second <= third && third - clock < IP_LIMIT_TTL
    requires third >= clock + MaxLag(s.ipRate)
    requires ip in s.buckets && s.buckets[ip] == Bucket(s.ipRate - 1, clock)
    requires Refill(s.global, s.globalRate, third).tokens >= s.ipRate
    ensures Ready(s, ip, third, s.ipRate)
  {
    hide Refill, MaxLag;
    LimiterOkLater(s, second, third);
    FullAfterLag(clock, s.ipRate, third);
  }

  lemma OvertakenIsStuck(s: Limiter, ip: string, third: int, second: int)
    requires LimiterOk(s, second) && second <= third < second + MaxLag(s.ipRate) && third - second < IP_LIMIT_TTL
    requires ip in s.buckets && s.buckets[ip] == Bucket(s.ipRate - 1, second)
    requires Refill(s.global, s.globalRate, third).tokens >= s.ipRate
    ensures Stuck(s, ip, third, s.ipRate - 1, s.ipRate)
  {
    LimiterOkLater(s, second, third);
    NothingEarned(third - second, s.ipRate);
  }

  /** What the two limiters are after the recreating call: `n` has the new bucket, `m` the
      kept one, its clock behind by what the refill left. */
  ghost predicate Parted(n: Limiter, m: Limiter, ip: string, now: int, elapsed: int) {
    && n.ipRate == m.ipRate && n.globalRate == m.globalRate && n.global == m.global
    && elapsed >= 0 && Remainder(elapsed, n.ipRate) >= 1
    && JustTouched(n, ip, now, now) && JustTouched(m, ip, now, now - Remainder(elapsed, n.ipRate))
  }

  /** With a global bucket to spare, the recreated bucket gets ahead. */
  lemma RecreatedGetsAhead(n: Limiter, m: Limiter, ip: string, now: int, elapsed: int)
    requires Parted(n, m, ip, now, elapsed) && n.globalRate > n.ipRate
    ensures !AnswerAlike(n, m, now)
  {
    hide Refill, Remainder, LimiterOk, PeriodUp, MaxLag, Answer, InOrder, TokensEarned;
    var rate, left := n.ipRate, Remainder(elapsed, n.ipRate);
    PeriodAtMostMinute(rate);
    WholeMinutesLeaveNothing(3, rate);
    RemainderAtMostPeriod(elapsed, rate);
    RemainderSurvives(elapsed, rate);
    RemainderAtMostPeriod(3 * MINUTE - left, rate);
    LagCoversPeriod(rate);
    var second := now - left + 3 * MINUTE;
    var third := second - Remainder(second - now, rate) + MaxLag(rate);
    GlobalKeepsTokens(n, now, second, third);
    var calls := DrainDiffers(n, m, ip, now, now, now - left, second, third);
  }

  lemma GlobalKeepsTokens(s: Limiter, now: int, second: int, third: int)
    requires LimiterOk(s, now) && now <= second <= third && s.globalRate > s.ipRate
    ensures GlobalServes(s.global, s.globalRate, second, third, s.ipRate)
  {
    hide Refill;
    var clock := second - Remainder(second - s.global.lastRefill, s.globalRate);
    RemainderAtMostPeriod(second - s.global.lastRefill, s.globalRate);
    RefillKeepsBucket(Bucket(s.globalRate - 1, clock), s.globalRate, third);
  }

  /** With equal rates, a global clock that trails at now + 3 min lets the kept bucket get
      ahead, and any other the recreated one. */
  lemma EqualRatesPart(n: Limiter, m: Limiter, ip: string, now: int, elapsed: int)
    requires Parted(n, m, ip, now, elapsed) && n.globalRate == n.ipRate
    ensures !AnswerAlike(n, m, now)
  {
    hide Refill, Remainder, LimiterOk, PeriodUp, MaxLag, Answer, InOrder, TokensEarned;
    var rate, left := n.ipRate, Remainder(elapsed, n.ipRate);
    GlobalClockIsPast(n, now);
    var x := now - n.global.lastRefill;
    PeriodAtMostMinute(rate);
    WholeMinutesLeaveNothing(3, rate);
    RemainderAtMostPeriod(elapsed, rate);
    RemainderAtMostPeriod(3 * MINUTE + x, rate);
    if Remainder(3 * MINUTE + x, rate) >= 1 {
      NotBothWhole(elapsed, rate, 3 * MINUTE + left);
      var second := now + 3 * MINUTE;
      var third := ThirdCall(rate, second, second - (now - left), second - n.global.lastRefill);
      var calls := DrainDiffers(m, n, ip, now, now - left, now, second, third);
    } else {
      RemainderSurvives(elapsed, rate);
      NotBothWhole(elapsed, rate, 3 * MINUTE + x);
      var second := now - left + 3 * MINUTE;
      var third := ThirdCall(rate, second, second - now, second - n.global.lastRefill);
      var calls := DrainDiffers(n, m, ip, now, now, now - left, second, third);
    }
  }

  lemma GlobalClockIsPast(s: Limiter, now: int)
    requires LimiterOk(s, now)
    ensures s.global.lastRefill <= now
  {
  }

  /** A time at which the bucket and the global clock, `a` and `b` before a refill at
      `second`, have both earned a token, and a clock at `second` has not. */
  lemma ThirdCall(rate: Rate, second: int, a: int, b: int) returns (third: int)
    requires a >= 0 && b >= 0 && Remainder(a, rate) >= 1 && Remainder(b, rate) >= 1
    ensures second <= third < second + MaxLag(rate)
    ensures third >= second - Remainder(a, rate) + MaxLag(rate)
    ensures Refill(Bucket(rate - 1, second - Remainder(b, rate)), rate, third).tokens >= rate
  {
    hide Refill, Remainder, PeriodUp, MaxLag;
    RemainderAtMostPeriod(a, rate);
    RemainderAtMostPeriod(b, rate);
    LagCoversPeriod(rate);
    var least := if Remainder(a, rate) <= Remainder(b, rate) then Remainder(a, rate) else Remainder(b, rate);
    third := second + MaxLag(rate) - least;
    FullAfterLag(second - Remainder(b, rate), rate, third);
  }

  /** Eviction in histories: the limiter that evicted a bucket and the one that kept it
      answer every later sequence of calls alike if and only if the refill at the
      recreating call leaves nothing on the kept clock. The configuration accepts no
      global rate below the per-address one. */
  lemma HistoriesAgreeIff(s: Limiter, kept: Bucket, c: Call)
    requires LimiterOk(s, c.now) && c.ip !in s.buckets && c.now - s.lastCleanup < CLEANUP_INTERVAL
    requires |s.buckets| < MaxEntries(s.globalRate) && Refill(s.global, s.globalRate, c.now).tokens > 0
    requires BucketOk(kept, s.ipRate, c.now) && c.now - kept.lastRefill >= IP_LIMIT_TTL
    requires s.globalRate >= s.ipRate
    ensures var evicted, other := AllowCall(s, c).0, AllowCall(s.(buckets := s.buckets[c.ip := kept]), c).0;
            AnswerAlike(evicted, other, c.now) <==> Remainder(c.now - kept.lastRefill, s.ipRate) == 0
  {
    hide Refill, AllowCall, Remainder, LimiterOk, PeriodUp, Answer, InOrder;
    var t := s.(buckets := s.buckets[c.ip := kept]);
    SameLimiterIff(s, kept, c);
    EvictedIsFull(kept, s.ipRate, c.now);
    if Remainder(c.now - kept.lastRefill, s.ipRate) != 0 {
      OneMoreBucketOk(s, kept, c);
      AllowTouchesBucket(s, c);
      AllowTouchesBucket(t, c);
      AllowKeepsLimiter(s, c);
      AllowKeepsLimiter(t, c);
      var n, m := AllowCall(s, c).0, AllowCall(t, c).0;
      if s.globalRate > s.ipRate {
        RecreatedGetsAhead(n, m, c.ip, c.now, c.now - kept.lastRefill);
      } else {
        EqualRatesPart(n, m, c.ip, c.now, c.now - kept.lastRefill);
      }
    }
  }

  lemma OneMoreBucketOk(s: Limiter, kept: Bucket, c: Call)
    requires LimiterOk(s, c.now) && BucketOk(kept, s.ipRate, c.now) && |s.buckets| < MaxEntries(s.globalRate)
    requires c.ip !in s.buckets
    ensures LimiterOk(s.(buckets := s.buckets[c.ip := kept]), c.now)
  {
    assert s.buckets[c.ip := kept].Keys == s.buckets.Keys + {c.ip};
    assert |s.buckets[c.ip := kept]| == |s.buckets[c.ip := kept].Keys| && |s.buckets| == |s.buckets.Keys|;
  }

  /** One address calls at 0 s, 630 s, 780 s and 810 s, with one token a minute. At 630 s
      its bucket is evicted and recreated; had it been kept, the last call would fail. */
  lemma EvictionChangesAnAnswer()
    ensures var s := NewLimiter(1, 100, 0);
            var calls := [Call("a", 0), Call("a", 630 * SECOND), Call("a", 780 * SECOND)];
            var last := Call("a", 810 * SECOND);
            && InOrder(calls + [last], 0)
            && AllowCall(Run(s, calls), last).1
            && !AllowKeeping(RunKeeping(s, calls), last).1
  {
    hide Run, RunKeeping, AllowCall, AllowKeeping, InOrder;
    var s := NewLimiter(1, 100, 0);
    var one := RunExtends(s, [], Call("a", 0));
    var two := RunExtends(s, one, Call("a", 630 * SECOND));
    var three := RunExtends(s, two, Call("a", 780 * SECOND));
    assert three == [Call("a", 0), Call("a", 630 * SECOND), Call("a", 780 * SECOND)];
    var first := s.(global := Bucket(99, 0), buckets := map["a" := Bucket(0, 0)]);
    FirstCall(s);
    EvictingHistory(first);
    KeepingHistory(first);
    FourCallsInOrder();
  }

  lemma FourCallsInOrder()
    ensures InOrder([Call("a", 0), Call("a", 630 * SECOND), Call("a", 780 * SECOND)] + [Call("a", 810 * SECOND)], 0)
  {
  }

  lemma FirstCall(s: Limiter)
    requires s == NewLimiter(1, 100, 0)
    ensures AllowCall(s, Call("a", 0)).0 == s.(global := Bucket(99, 0), buckets := map["a" := Bucket(0, 0)])
    ensures AllowKeeping(s, Call("a", 0)).0 == s.(global := Bucket(99, 0), buckets := map["a" := Bucket(0, 0)])
  {
  }

  lemma RecreatingCall(s: Limiter)
    requires s == NewLimiter(1, 100, 0).(global := Bucket(99, 0), buckets := map["a" := Bucket(0, 0)])
    ensures var n := AllowCall(s, Call("a", 630 * SECOND)).0;
            && n.buckets == map["a" := Bucket(0, 630 * SECOND)] && n.global == Bucket(99, 630 * SECOND)
            && n.lastCleanup == 630 * SECOND && n.ipRate == 1 && n.globalRate == 100
  {
    hide AllowCall;
    AllowTouchesBucket(s, Call("a", 630 * SECOND));
    assert Evict(s.buckets, 630 * SECOND) == map[];
  }

  lemma EvictingHistory(s: Limiter)
    requires s == NewLimiter(1, 100, 0).(global := Bucket(99, 0), buckets := map["a" := Bucket(0, 0)])
    ensures var s2 := AllowCall(s, Call("a", 630 * SECOND)).0;
            var s3 := AllowCall(s2, Call("a", 780 * SECOND)).0;
            AllowCall(s3, Call("a", 810 * SECOND)).1
  {
    hide AllowCall, Evict;
    RecreatingCall(s);
    var s2 := AllowCall(s, Call("a", 630 * SECOND)).0;
    AllowTouchesBucket(s2, Call("a", 780 * SECOND));
    var s3 := AllowCall(s2, Call("a", 780 * SECOND)).0;
    assert s3.buckets["a"] == Bucket(0, 750 * SECOND) && s3.global == Bucket(99, 780 * SECOND);
    AllowTouchesBucket(s3, Call("a", 810 * SECOND));
  }

  lemma KeepingHistory(s: Limiter)
    requires s == NewLimiter(1, 100, 0).(global := Bucket(99, 0), buckets := map["a" := Bucket(0, 0)])
    ensures var s2 := AllowKeeping(s, Call("a", 630 * SECOND)).0;
            var s3 := AllowKeeping(s2, Call("a", 780 * SECOND)).0;
            !AllowKeeping(s3, Call("a", 810 * SECOND)).1
  {
    hide AllowCall;
    AllowTouchesBucket(s.(lastCleanup := 630 * SECOND), Call("a", 630 * SECOND));
    var s2 := AllowKeeping(s, Call("a", 630 * SECOND)).0;
    assert s2.buckets["a"] == Bucket(0, 600 * SECOND) && s2.global == Bucket(99, 630 * SECOND);
    AllowTouchesBucket(s2.(lastCleanup := 780 * SECOND), Call("a", 780 * SECOND));
    var s3 := AllowKeeping(s2, Call("a", 780 * SECOND)).0;
    assert s3.buckets["a"] == Bucket(0, 780 * SECOND) && s3.global == Bucket(99, 780 * SECOND);
    AllowTouchesBucket(s3.(lastCleanup := 810 * SECOND), Call("a", 810 * SECOND));
  }

  // ----- the class -----

  lemma RefillPromises(b: Bucket, rate: Rate, now: int)
    requires BucketOk(b, rate, now)
    ensures var r := Refill(b, rate, now);
            && b.tokens <= r.tokens <= rate
            && b.lastRefill <= r.lastRefill <= now <= r.lastRefill + MaxLag(rate)
            && (now - b.lastRefill >= MaxLag(rate) ==> r.tokens >= 1)
            && (r.tokens < rate ==>
                  var gained := r.tokens - b.tokens;
                  gained * Period(rate) <= r.lastRefill - b.lastRefill <= gained * PeriodUp(rate))
  {
    hide Refill, MaxLag, Period, PeriodUp, TokensEarned;
    RefillKeepsBucket(b, rate, now);
    if now - b.lastRefill >= MaxLag(rate) { PacedCallerIsServed(b, rate, b.lastRefill, now); }
    var r := Refill(b, rate, now);
    if r != b && r.tokens < rate {
      RefillBelowRate(b, rate, now);
      RefillCarriesRemainder(b, rate, now);
    } else if r == b {
      ZeroTimes(Period(rate));
      ZeroTimes(PeriodUp(rate));
    }
  }

  lemma RefillBelowRate(b: Bucket, rate: Rate, now: int)
    requires Refill(b, rate, now) != b && Refill(b, rate, now).tokens < rate
    ensures b.tokens + TokensEarned(now - b.lastRefill, rate) <= rate
  {
    hide TokensEarned, TimeConsumed;
  }

  lemma ZeroTimes(k: int)
    ensures 0 * k == 0
  {
  }

  /** A refill of a bucket in range keeps it in range, brings its clock to within one lag
      of now, finds a token after one lag, and pays for what it adds out of the clock. */
  method RefillTokens(tokens: int, lastRefill: int, rate: Rate, now: int) returns (newTokens: int, newLastRefill: int)
    ensures Bucket(newTokens, newLastRefill) == Refill(Bucket(tokens, lastRefill), rate, now)
    ensures 0 <= tokens <= rate && lastRefill <= now ==>
              && tokens <= newTokens <= rate
              && lastRefill <= newLastRefill <= now <= newLastRefill + MaxLag(rate)
              && (now - lastRefill >= MaxLag(rate) ==> newTokens >= 1)
              && (newTokens < rate ==>
                    var gained := newTokens - tokens;
                    gained * Period(rate) <= newLastRefill - lastRefill <= gained * PeriodUp(rate))
  {
    if 0 <= tokens <= rate && lastRefill <= now { RefillPromises(Bucket(tokens, lastRefill), rate, now); }
    newTokens, newLastRefill := tokens, lastRefill;
    var elapsed := now - lastRefill;
    if elapsed < SECOND { return; }
    var tokensToAdd := elapsed * rate / MINUTE;
    if tokensToAdd <= 0 { return; }
    newTokens := tokens + tokensToAdd;
    if newTokens > rate { newTokens := rate; }
    newLastRefill := lastRefill + tokensToAdd * MINUTE / rate;
  }

  class RateLimiter {
    const rateLimitPerIP: Rate
    const globalRateLimit: Rate
    const maxIPEntries: int
    var ipLimits: map<string, Bucket>
    var globalTokens: int
    var globalLastRefill: int
    var lastCleanup: int

    ghost predicate Valid()
      reads this
    {
      maxIPEntries == MaxEntries(globalRateLimit)
    }

    ghost function View(): Limiter
      reads this
    {
      Limiter(rateLimitPerIP, globalRateLimit, Bucket(globalTokens, globalLastRefill), ipLimits, lastCleanup)
    }

    constructor (perIP: Rate, overall: Rate, now: int)
      ensures Valid() && View() == NewLimiter(perIP, overall, now)
    {
      rateLimitPerIP, globalRateLimit := perIP, overall;
      maxIPEntries := if overall * 20 > 10000 then overall * 20 else 10000;
      ipLimits := map[];
      globalTokens, globalLastRefill, lastCleanup := overall, now, now;
    }

    method Allow(ip: string, now: int) returns (allowed: bool)
      requires Valid()
      modifies this
      ensures Valid() && (View(), allowed) == AllowCall(old(View()), Call(ip, now))
      ensures var live := Live(old(View()), now);
              LimiterOk(old(View()), now) && Refill(old(View()).global, globalRateLimit, now).tokens > 0 ==>
                && (forall other | other != ip :: other in ipLimits <==> other in live)
                && (ip !in live ==> allowed == (|live| < 10000 || |live| < 20 * globalRateLimit))
    {
      hide Refill, Live, LimiterOk;
      ghost var before := View();
      if LimiterOk(before, now) && Refill(before.global, globalRateLimit, now).tokens > 0 {
        CallFindsLiveBuckets(before, Call(ip, now));
      }
      globalTokens, globalLastRefill := RefillTokens(globalTokens, globalLastRefill, globalRateLimit, now);
      if globalTokens <= 0 { return false; }
      if now - lastCleanup >= CLEANUP_INTERVAL {
        CleanupExpiredIPLimits(now);
        lastCleanup := now;
      }
      var limit: Bucket;
      if ip in ipLimits {
        limit := ipLimits[ip];
      } else {
        if maxIPEntries > 0 && |ipLimits| >= maxIPEntries { return false; }
        limit := Bucket(rateLimitPerIP, now);
      }
      var tokens, lastRefill := RefillTokens(limit.tokens, limit.lastRefill, rateLimitPerIP, now);
      if tokens <= 0 {
        ipLimits := ipLimits[ip := Bucket(tokens, lastRefill)];
        return false;
      }
      globalTokens := globalTokens - 1;
      ipLimits := ipLimits[ip := Bucket(tokens - 1, lastRefill)];
      return true;
    }

    method CleanupExpiredIPLimits(now: int)
      modifies this`ipLimits
      ensures ipLimits == Evict(old(ipLimits), now)
      ensures forall ip :: ip in ipLimits <==> ip in old(ipLimits) && now - old(ipLimits)[ip].lastRefill < IP_LIMIT_TTL
      ensures forall ip | ip in ipLimits :: ipLimits[ip] == old(ipLimits)[ip]
    {
      ghost var before := ipLimits;
      var keys := ipLimits.Keys;
      while keys != {}
        invariant keys <= before.Keys
        invariant ipLimits == map ip | ip in before && (ip in keys || now - before[ip].lastRefill < IP_LIMIT_TTL) ::
            before[ip]
        decreases |keys|
      {
        var key :| key in keys;
        keys := keys - {key};
        if now - ipLimits[key].lastRefill >= IP_LIMIT_TTL {
          ipLimits := ipLimits - {key};
        }
      }
    }
  }
}
