/**
 The token-bucket rate limiter of internal/api/ratelimit.go.

 Instants and durations are seconds, as real numbers, so every nanosecond instant is covered;
 floating-point rounding is not modelled.  `Serve` says what one call of `allow` does to the
 table of buckets; class `Limiter` does it in place.  The theorems describe whole call
 sequences: which calls are admitted, and that no policy respecting the same window bounds
 could admit more.
*/
module RateLimiter {
  import opened Basics

  /** The least whole number that is not below `x` (math.Ceil). */
  function Ceil(x: real): (n: int)
    ensures n as real - 1.0 < x <= n as real
  {
    -((-x).Floor)
  }

  datatype BucketState = BucketState(tokens: real, lastRefill: real)

  /** What `allow` answers; `wait` is in whole seconds and 0 on admission. */
  datatype Verdict = Verdict(ok: bool, wait: int)

  function Min(a: real, b: real): real {
    if a < b then a else b
  }

  function Refill(b: BucketState, limit: int, rate: real, now: real): BucketState
    requires rate > 0.0
  {
    var elapsed := now - b.lastRefill;
    if elapsed > 0.0 then
      BucketState(Min(limit as real, b.tokens + elapsed * rate), now)
    else b
  }

  function WaitFor(tokens: real, rate: real): int
    requires rate > 0.0
  {
    var wait := Ceil((1.0 - tokens) / rate);
    if wait < 1 then 1 else wait
  }

  /** One guarded call on one key: the bucket afterwards and the answer. */
  function Take(b: Option<BucketState>, limit: int, rate: real, now: real): (BucketState, Verdict)
    requires limit >= 1 && rate > 0.0
  {
    match b
    case None => (BucketState((limit - 1) as real, now), Verdict(true, 0))
    case Some(found) =>
      var r := Refill(found, limit, rate, now);
      if r.tokens >= 1.0 then (r.(tokens := r.tokens - 1.0), Verdict(true, 0))
      else (r, Verdict(false, WaitFor(r.tokens, rate)))
  }

  // ---------------------------------------------------------------- one key, a whole call sequence

  ghost predicate NonDecreasing(times: seq<real>) {
    forall i, j :: 0 <= i <= j < |times| ==> times[i] <= times[j]
  }

  datatype History = History(bucket: Option<BucketState>, verdicts: seq<Verdict>)

  /** All calls on one key, made at `times`, with a fixed limit and period. */
  function Play(limit: int, rate: real, times: seq<real>): (h: History)
    requires limit >= 1 && rate > 0.0
    ensures |h.verdicts| == |times|
    ensures h.bucket.Some? <==> times != []
  {
    if times == [] then History(None, [])
    else
      var before := Play(limit, rate, times[..|times| - 1]);
      var (b, v) := Take(before.bucket, limit, rate, times[|times| - 1]);
      History(Some(b), before.verdicts + [v])
  }

  /** The number of admitted calls among calls `from`, ..., `to - 1`. */
  function Admitted(vs: seq<Verdict>, from: nat, to: nat): (n: nat)
    requires from <= to <= |vs|
    ensures n <= to - from
  {
    if from == to then 0 else Admitted(vs, from, to - 1) + if vs[to - 1].ok then 1 else 0
  }

  lemma {:induction false} AdmittedAdds(vs: seq<Verdict>, from: nat, mid: nat, to: nat)
    requires from <= mid <= to <= |vs|
    ensures Admitted(vs, from, to) == Admitted(vs, from, mid) + Admitted(vs, mid, to)
  {
    if mid < to { AdmittedAdds(vs, from, mid, to - 1); }
  }

  lemma {:induction false} AdmittedSame(vs: seq<Verdict>, ws: seq<Verdict>, from: nat, to: nat)
    requires from <= to <= |vs| && to <= |ws|
    requires forall k :: from <= k < to ==> vs[k].ok == ws[k].ok
    ensures Admitted(vs, from, to) == Admitted(ws, from, to)
  {
    if from < to { AdmittedSame(vs, ws, from, to - 1); }
  }

  lemma {:induction false} PlayPrefix(limit: int, rate: real, times: seq<real>, n: nat)
    requires limit >= 1 && rate > 0.0 && n <= |times|
    ensures Play(limit, rate, times[..n]).verdicts == Play(limit, rate, times).verdicts[..n]
  {
    if n < |times| {
      var front := times[..|times| - 1];
      PlayPrefix(limit, rate, front, n);
      assert front[..n] == times[..n];
    } else {
      assert times[..n] == times;
    }
  }

  // ------------------------------------------------ counted in tokens earned instead of seconds

  /** The instants measured in tokens earned since time zero; at rate 1 a second earns one token. */
  function Scale(rate: real, times: seq<real>): (cs: seq<real>)
    ensures |cs| == |times|
    ensures forall i :: 0 <= i < |times| ==> cs[i] == rate * times[i]
  {
    seq(|times|, i requires 0 <= i < |times| => rate * times[i])
  }

  lemma ScaleTake(rate: real, times: seq<real>, n: nat)
    requires n <= |times|
    ensures Scale(rate, times[..n]) == Scale(rate, times)[..n]
  {
    forall i | 0 <= i < n ensures Scale(rate, times[..n])[i] == Scale(rate, times)[..n][i] {
      assert times[..n][i] == times[i];
    }
  }

  ghost predicate Scaled(rate: real, b: BucketState, u: BucketState) {
    u.tokens == b.tokens && u.lastRefill == rate * b.lastRefill
  }

  /** A limiter at any rate behaves as the one at rate 1 on the scaled instants. */
  lemma {:induction false} ScaleInvariance(limit: int, rate: real, times: seq<real>)
    requires limit >= 1 && rate > 0.0
    ensures var h, u := Play(limit, rate, times), Play(limit, 1.0, Scale(rate, times));
      && (forall k :: 0 <= k < |times| ==> h.verdicts[k].ok == u.verdicts[k].ok)
      && (times != [] ==> Scaled(rate, h.bucket.value, u.bucket.value))
  {
    hide Take, Scaled;
    if times != [] {
      var front, now := times[..|times| - 1], times[|times| - 1];
      ScaleInvariance(limit, rate, front);
      ScaleTake(rate, times, |times| - 1);
      var h, u := Play(limit, rate, front).bucket, Play(limit, 1.0, Scale(rate, front)).bucket;
      TakeScales(h, u, limit, rate, now);
      var credits := Scale(rate, times);
      assert credits[|credits| - 1] == rate * now;
      assert Play(limit, 1.0, credits).bucket == Some(Take(u, limit, 1.0, rate * now).0);
    }
  }

  lemma TakeScales(b: Option<BucketState>, u: Option<BucketState>, limit: int, rate: real, now: real)
    requires limit >= 1 && rate > 0.0
    requires b.Some? == u.Some? && (b.Some? ==> Scaled(rate, b.value, u.value))
    ensures Scaled(rate, Take(b, limit, rate, now).0, Take(u, limit, 1.0, rate * now).0)
    ensures Take(b, limit, rate, now).1.ok == Take(u, limit, 1.0, rate * now).1.ok
  {
    if b.Some? {
      RefillScales(b.value, u.value, limit, rate, now);
    }
  }

  lemma RefillScales(b: BucketState, u: BucketState, limit: int, rate: real, now: real)
    requires rate > 0.0 && Scaled(rate, b, u)
    ensures Scaled(rate, Refill(b, limit, rate, now), Refill(u, limit, 1.0, rate * now))
  {
    var elapsed := now - b.lastRefill;
    Factor(rate, now, b.lastRefill);
    MulSign(rate, elapsed);
    assert (rate * now - u.lastRefill) * 1.0 == elapsed * rate;
  }

  lemma Factor(r: real, x: real, y: real)
    ensures r * x - r * y == (x - y) * r
  {
  }

  lemma MulSign(r: real, x: real)
    requires r > 0.0
    ensures x * r > 0.0 <==> x > 0.0
  {
  }

  lemma MulMonotone(r: real, x: real, y: real)
    requires r > 0.0 && x <= y
    ensures r * x <= r * y
  {
  }

  lemma MulStrict(r: real, x: real, y: real)
    requires r > 0.0 && x < y
    ensures r * x < r * y
  {
  }

  lemma ScaleKeepsOrder(rate: real, times: seq<real>)
    requires rate > 0.0 && NonDecreasing(times)
    ensures NonDecreasing(Scale(rate, times))
  {
    forall i, j | 0 <= i <= j < |times| ensures Scale(rate, times)[i] <= Scale(rate, times)[j] {
      MulMonotone(rate, times[i], times[j]);
    }
  }

  /** The tokens left after the last call, at rate 1. */
  ghost function Tokens(limit: int, credits: seq<real>): real
    requires limit >= 1 && credits != []
  {
    Play(limit, 1.0, credits).bucket.value.tokens
  }

  /** The tokens the last call finds, after its refill, at rate 1. */
  ghost function Level(limit: int, credits: seq<real>): real
    requires limit >= 1 && credits != []
  {
    var n := |credits| - 1;
    if n == 0 then limit as real
    else Min(limit as real, Tokens(limit, credits[..n]) + (credits[n] - credits[n - 1]))
  }

  lemma {:induction false} TakeByLevel(limit: int, credits: seq<real>)
    requires limit >= 1 && credits != [] && NonDecreasing(credits)
    ensures var h := Play(limit, 1.0, credits); var level := Level(limit, credits);
      && h.verdicts[|credits| - 1].ok == (level >= 1.0)
      && h.bucket.value.tokens == (if level >= 1.0 then level - 1.0 else level)
      && h.bucket.value.lastRefill == credits[|credits| - 1]
      && h.bucket.value.tokens <= limit as real
    decreases |credits|
  {
    var n := |credits| - 1;
    var front := credits[..n];
    if n > 0 {
      assert credits[n - 1] <= credits[n];
      TakeByLevel(limit, front);
    }
  }

  /** How much room the window opened by call `j` leaves for call `i`: limit + length, less what it admitted. */
  ghost function Room(limit: int, credits: seq<real>, vs: seq<Verdict>, j: nat, i: nat): real
    requires j <= i < |credits| && |credits| == |vs|
  {
    limit as real + (credits[i] - credits[j]) - Admitted(vs, j, i) as real
  }

  /** The level is exactly the tightest room over all windows that end at the call. */
  lemma {:induction false} LevelIsLeastRoom(limit: int, credits: seq<real>) returns (tightest: nat)
    requires limit >= 1 && credits != [] && NonDecreasing(credits)
    ensures tightest < |credits|
    ensures var vs := Play(limit, 1.0, credits).verdicts; var last := |credits| - 1;
      && (forall j: nat :: j <= last ==> Level(limit, credits) <= Room(limit, credits, vs, j, last))
      && Level(limit, credits) == Room(limit, credits, vs, tightest, last)
  {
    var last := |credits| - 1;
    var vs := Play(limit, 1.0, credits).verdicts;
    if last == 0 {
      tightest := 0;
    } else {
      var front := credits[..last];
      var us := Play(limit, 1.0, front).verdicts;
      tightest := LevelIsLeastRoom(limit, front);
      TakeByLevel(limit, front);
      forall j: nat | j < last
        ensures Room(limit, credits, vs, j, last)
             == Room(limit, front, us, j, last - 1)
                - (if us[last - 1].ok then 1.0 else 0.0) + (credits[last] - credits[last - 1])
      {
        AdmittedSame(vs, us, j, last);
      }
      assert Room(limit, credits, vs, last, last) == limit as real;
      if Level(limit, credits) == limit as real { tightest := last; }
    }
  }

  /** `AdmissionIsExact` at rate 1. */
  lemma ExactAtUnitRate(limit: int, credits: seq<real>, i: nat)
    requires limit >= 1 && NonDecreasing(credits) && i < |credits|
    ensures var vs := Play(limit, 1.0, credits).verdicts;
      vs[i].ok <==> forall j: nat :: j <= i ==> 1.0 <= Room(limit, credits, vs, j, i)
  {
    var vs := Play(limit, 1.0, credits).verdicts;
    var upTo := credits[..i + 1];
    var us := Play(limit, 1.0, upTo).verdicts;
    PlayPrefix(limit, 1.0, credits, i + 1);
    TakeByLevel(limit, upTo);
    var tightest := LevelIsLeastRoom(limit, upTo);
    forall j: nat | j <= i
      ensures Room(limit, upTo, us, j, i) == Room(limit, credits, vs, j, i)
    {
      AdmittedSame(us, vs, j, i);
    }
  }

  // ------------------------------------------------ which calls pass

  /** Counting call `i` as well keeps the window from call `j` within limit + rate * length. */
  ghost predicate Fits(limit: int, rate: real, times: seq<real>, vs: seq<Verdict>, j: nat, i: nat)
    requires j <= i < |times| && |times| == |vs|
  {
    Admitted(vs, j, i) as real + 1.0 <= limit as real + rate * (times[i] - times[j])
  }

  /** Exactly which calls pass: call `i` is admitted if and only if it fits every window that ends with it. */
  lemma AdmissionIsExact(limit: int, rate: real, times: seq<real>, i: nat)
    requires limit >= 1 && rate > 0.0 && NonDecreasing(times) && i < |times|
    ensures var vs := Play(limit, rate, times).verdicts;
      vs[i].ok <==> forall j: nat :: j <= i ==> Fits(limit, rate, times, vs, j, i)
  {
    var credits := Scale(rate, times);
    var vs, us := Play(limit, rate, times).verdicts, Play(limit, 1.0, credits).verdicts;
    ScaleInvariance(limit, rate, times);
    ScaleKeepsOrder(rate, times);
    ExactAtUnitRate(limit, credits, i);
    forall j: nat | j <= i
      ensures Fits(limit, rate, times, vs, j, i) <==> 1.0 <= Room(limit, credits, us, j, i)
    {
      AdmittedSame(us, vs, j, i);
      assert rate * (times[i] - times[j]) == credits[i] - credits[j];
    }
  }

  lemma {:induction false} WindowBoundAtUnitRate(limit: int, credits: seq<real>, j: nat, i: nat)
    requires limit >= 1 && NonDecreasing(credits) && j <= i < |credits|
    ensures Admitted(Play(limit, 1.0, credits).verdicts, j, i + 1) as real <= limit as real + (credits[i] - credits[j])
  {
    var vs := Play(limit, 1.0, credits).verdicts;
    if vs[i].ok {
      ExactAtUnitRate(limit, credits, i);
      assert 1.0 <= Room(limit, credits, vs, j, i);
    } else if j < i {
      WindowBoundAtUnitRate(limit, credits, j, i - 1);
    }
  }

  /** No window of calls, anywhere in the sequence, admits more than limit + rate * length. */
  lemma {:induction false} WindowBound(limit: int, rate: real, times: seq<real>, j: nat, i: nat)
    requires limit >= 1 && rate > 0.0 && NonDecreasing(times) && j <= i < |times|
    ensures Admitted(Play(limit, rate, times).verdicts, j, i + 1) as real
         <= limit as real + rate * (times[i] - times[j])
  {
    var credits := Scale(rate, times);
    ScaleInvariance(limit, rate, times);
    ScaleKeepsOrder(rate, times);
    WindowBoundAtUnitRate(limit, credits, j, i);
    AdmittedSame(Play(limit, rate, times).verdicts, Play(limit, 1.0, credits).verdicts, j, i + 1);
    assert rate * (times[i] - times[j]) == credits[i] - credits[j];
  }

  /** `policy` admits a call only when it fits every window that ends with it. */
  ghost predicate RespectsWindows(limit: int, rate: real, times: seq<real>, policy: seq<Verdict>) {
    && |policy| == |times|
    && forall i: nat, j: nat :: j <= i < |times| && policy[i].ok ==> Fits(limit, rate, times, policy, j, i)
  }

  /** The limiter is optimal: on every prefix, no policy that respects the same windows admits more calls. */
  lemma {:induction false} GreedyIsOptimal(limit: int, rate: real, times: seq<real>, policy: seq<Verdict>, n: nat)
    requires limit >= 1 && rate > 0.0 && NonDecreasing(times) && n <= |times|
    requires RespectsWindows(limit, rate, times, policy)
    ensures Admitted(policy, 0, n) <= Admitted(Play(limit, rate, times).verdicts, 0, n)
    decreases n
  {
    var vs := Play(limit, rate, times).verdicts;
    if n > 0 {
      var i := n - 1;
      GreedyIsOptimal(limit, rate, times, policy, i);
      if policy[i].ok && !vs[i].ok {
        AdmissionIsExact(limit, rate, times, i);
        var j: nat :| j <= i && !Fits(limit, rate, times, vs, j, i);
        assert Fits(limit, rate, times, policy, j, i);
        GreedyIsOptimal(limit, rate, times, policy, j);
        AdmittedAdds(vs, 0, j, i);
        AdmittedAdds(policy, 0, j, i);
      }
    }
  }

  /** The limiter itself respects the windows, so it attains the optimum it is compared with. */
  lemma {:induction false} GreedyRespectsWindows(limit: int, rate: real, times: seq<real>)
    requires limit >= 1 && rate > 0.0 && NonDecreasing(times)
    ensures RespectsWindows(limit, rate, times, Play(limit, rate, times).verdicts)
  {
    var vs := Play(limit, rate, times).verdicts;
    forall i: nat, j: nat | j <= i < |times| && vs[i].ok
      ensures Fits(limit, rate, times, vs, j, i)
    {
      AdmissionIsExact(limit, rate, times, i);
    }
  }

  // ---------------------------------------------------------------- the retry hint

  /** The Retry-After header written for a refusal with wait `retry` (0 when no header is written). */
  function RetryAfter(retry: real): int {
    if retry > 0.0 then Ceil(retry) else 0
  }

  /** While every call is refused, the bucket just accumulates credit. */
  lemma {:induction false} RefusedRunAccumulates(limit: int, credits: seq<real>, m: nat)
    requires limit >= 1 && NonDecreasing(credits) && 0 < m <= |credits|
    requires forall k :: m - 1 <= k < |credits| ==> !Play(limit, 1.0, credits).verdicts[k].ok
    ensures Tokens(limit, credits) == Tokens(limit, credits[..m]) + (credits[|credits| - 1] - credits[m - 1])
    ensures Tokens(limit, credits) < 1.0
    decreases |credits|
  {
    var n := |credits|;
    TakeByLevel(limit, credits);
    if n == m {
      assert credits[..m] == credits;
    } else {
      var front := credits[..n - 1];
      PlayPrefix(limit, 1.0, credits, n - 1);
      assert front[..m] == credits[..m];
      RefusedRunAccumulates(limit, front, m);
    }
  }

  /** At rate 1, the final call after a run of refusals passes exactly when the credit since makes up a token. */
  lemma FinalCallAtUnitRate(limit: int, credits: seq<real>, m: nat)
    requires limit >= 1 && NonDecreasing(credits) && 0 < m < |credits|
    requires forall k :: m - 1 <= k < |credits| - 1 ==> !Play(limit, 1.0, credits).verdicts[k].ok
    ensures Play(limit, 1.0, credits).verdicts[|credits| - 1].ok
       <==> Tokens(limit, credits[..m]) + (credits[|credits| - 1] - credits[m - 1]) >= 1.0
    ensures Tokens(limit, credits[..m]) < 1.0
  {
    hide Play, Tokens;
    var n := |credits|;
    var front := credits[..n - 1];
    PlayPrefix(limit, 1.0, credits, n - 1);
    assert front[..m] == credits[..m];
    RefusedRunAccumulates(limit, front, m);
    TakeByLevel(limit, credits);
    PlayPrefix(limit, 1.0, credits, m);
    RefusedRunAccumulates(limit, credits[..m], m);
  }

  /**
   After call `m - 1` was refused with wait `w`, and nothing was admitted before the final call: a final call at
   least `w` seconds later is admitted, and one no more than `w - 1` seconds later is refused when `w` exceeds a
   second.  The Retry-After header carries exactly `w`.
  */
  lemma RetryHintIsSoundAndTight(limit: int, rate: real, times: seq<real>, m: nat)
    requires limit >= 1 && rate > 0.0 && NonDecreasing(times) && 0 < m < |times|
    requires forall k :: m - 1 <= k < |times| - 1 ==> !Play(limit, rate, times).verdicts[k].ok
    ensures var vs := Play(limit, rate, times).verdicts;
      var w := vs[m - 1].wait;
      var delay := times[|times| - 1] - times[m - 1];
      && w >= 1
      && RetryAfter(w as real) == w
      && (delay >= w as real ==> vs[|times| - 1].ok)
      && (w > 1 && delay <= (w - 1) as real ==> !vs[|times| - 1].ok)
  {
    hide Play, WaitFor;
    FinalCall(limit, rate, times, m);
    WaitBounds(TokensAfter(limit, rate, times, m), rate, times[|times| - 1] - times[m - 1]);
  }

  /** The tokens left after call `m - 1`. */
  ghost function TokensAfter(limit: int, rate: real, times: seq<real>, m: nat): real
    requires limit >= 1 && rate > 0.0 && 0 < m <= |times|
  {
    Play(limit, rate, times[..m]).bucket.value.tokens
  }

  lemma FinalCall(limit: int, rate: real, times: seq<real>, m: nat)
    requires limit >= 1 && rate > 0.0 && NonDecreasing(times) && 0 < m < |times|
    requires forall k :: m - 1 <= k < |times| - 1 ==> !Play(limit, rate, times).verdicts[k].ok
    ensures var vs := Play(limit, rate, times).verdicts; var tokens := TokensAfter(limit, rate, times, m);
      && tokens < 1.0
      && vs[m - 1].wait == WaitFor(tokens, rate)
      && (vs[|times| - 1].ok <==> tokens + rate * (times[|times| - 1] - times[m - 1]) >= 1.0)
  {
    var credits := Scale(rate, times);
    ScaleInvariance(limit, rate, times);
    ScaleKeepsOrder(rate, times);
    FinalCallAtUnitRate(limit, credits, m);
    ScaleTake(rate, times, m);
    ScaleInvariance(limit, rate, times[..m]);
    PlayPrefix(limit, rate, times, m);
    assert rate * (times[|times| - 1] - times[m - 1]) == credits[|times| - 1] - credits[m - 1];
  }

  /** The rounded-up wait is enough for one token, and a second less is not. */
  lemma WaitBounds(tokens: real, rate: real, delay: real)
    requires rate > 0.0 && tokens < 1.0
    ensures var w := WaitFor(tokens, rate);
      && w >= 1
      && (delay >= w as real ==> tokens + rate * delay >= 1.0)
      && (w > 1 && delay <= (w - 1) as real ==> tokens + rate * delay < 1.0)
  {
    var w := WaitFor(tokens, rate);
    var need := (1.0 - tokens) / rate;
    QuotientTimes(1.0 - tokens, rate);
    if delay >= w as real { MulMonotone(rate, need, delay); }
    if w > 1 && delay <= (w - 1) as real { MulStrict(rate, delay, need); }
  }

  lemma QuotientTimes(x: real, r: real)
    requires r > 0.0
    ensures r * (x / r) == x
  {
  }

  // ---------------------------------------------------------------- all keys together

  datatype Call = Call(key: string, limit: int, per: real, now: real)

  predicate Unguarded(c: Call) {
    c.limit <= 0 || c.per <= 0.0 || c.key == ""
  }

  /** One call of `allow` on the whole table of buckets. */
  function Serve(buckets: map<string, BucketState>, c: Call): (map<string, BucketState>, Verdict) {
    if Unguarded(c) then (buckets, Verdict(true, 0))
    else
      var found := if c.key in buckets then Some(buckets[c.key]) else None;
      var (b, v) := Take(found, c.limit, c.limit as real / c.per, c.now);
      (buckets[c.key := b], v)
  }

  /** A call without a limit, a period or a key is admitted and leaves no trace. */
  lemma UnlimitedCallsPass(buckets: map<string, BucketState>, c: Call)
    requires c.limit <= 0 || c.per <= 0.0 || c.key == ""
    ensures Serve(buckets, c) == (buckets, Verdict(true, 0))
  {
  }

  /** A run of the limiter from an empty table. */
  function ServeAll(calls: seq<Call>): (r: (map<string, BucketState>, seq<Verdict>))
    ensures |r.1| == |calls|
  {
    if calls == [] then (map[], [])
    else
      var (buckets, vs) := ServeAll(calls[..|calls| - 1]);
      var (after, v) := Serve(buckets, calls[|calls| - 1]);
      (after, vs + [v])
  }

  /** The instants of the calls on `key`, and the answers they got. */
  function TimesOf(calls: seq<Call>, key: string): seq<real> {
    if calls == [] then []
    else
      var c := calls[|calls| - 1];
      var rest := TimesOf(calls[..|calls| - 1], key);
      if c.key == key then rest + [c.now] else rest
  }

  function VerdictsOf(calls: seq<Call>, vs: seq<Verdict>, key: string): seq<Verdict>
    requires |calls| == |vs|
  {
    if calls == [] then []
    else
      var n := |calls| - 1;
      var rest := VerdictsOf(calls[..n], vs[..n], key);
      if calls[n].key == key then rest + [vs[n]] else rest
  }

  /** Keys do not disturb each other: what a key's callers see is a run of that key alone. */
  lemma {:induction false} KeysAreIndependent(calls: seq<Call>, key: string, limit: int, per: real)
    requires key != "" && limit >= 1 && per > 0.0
    requires forall c :: c in calls && c.key == key ==> c.limit == limit && c.per == per
    ensures var (buckets, vs) := ServeAll(calls);
      var alone := Play(limit, limit as real / per, TimesOf(calls, key));
      && VerdictsOf(calls, vs, key) == alone.verdicts
      && alone.bucket == (if key in buckets then Some(buckets[key]) else None)
  {
    if calls != [] {
      var n := |calls| - 1;
      var front := calls[..n];
      KeysAreIndependent(front, key, limit, per);
      var (buckets, vs) := ServeAll(front);
      assert ServeAll(calls).1[..n] == vs;
      if calls[n].key == key {
        var times := TimesOf(calls, key);
        assert times[..|times| - 1] == TimesOf(front, key);
      }
    }
  }

  // ---------------------------------------------------------------- the keys the server uses

  /** Who is being limited: an address on a public route, or a token doing an action. */
  datatype Origin = ByIP(route: string, ip: string) | ByToken(action: string, jti: string)

  function Kind(o: Origin): string {
    if o.ByIP? then "ip" else "token"
  }

  function Label(o: Origin): string {
    if o.ByIP? then o.route else o.action
  }

  function Id(o: Origin): string {
    if o.ByIP? then o.ip else o.jti
  }

  /** The routes and actions the router registers. */
  predicate Registered(o: Origin) {
    if o.ByIP? then o.route == "pair" || o.route == "sessions"
    else o.action == "send" || o.action == "attach" || o.action == "read"
  }

  /** The bucket key, "ip:route:address" or "token:action:jti". */
  function KeyOf(o: Origin): string {
    Kind(o) + ":" + (Label(o) + ":" + Id(o))
  }

  function LimitFor(o: Origin): (int, real) {
    match o
    case ByIP(_, _) => (5, 60.0)
    case ByToken(action, _) =>
      if action == "send" then (20, 60.0) else if action == "attach" then (10, 60.0) else (120, 60.0)
  }

  function CallOf(o: Origin, now: real): Call {
    Call(KeyOf(o), LimitFor(o).0, LimitFor(o).1, now)
  }

  /** The calls the router makes: five a minute on public routes, and 20, 10 and 120 a minute for a token's actions. */
  lemma CallsOfTheRouter(ip: string, jti: string, now: real)
    ensures CallOf(ByIP("pair", ip), now) == Call("ip:pair:" + ip, 5, 60.0, now)
    ensures CallOf(ByIP("sessions", ip), now) == Call("ip:sessions:" + ip, 5, 60.0, now)
    ensures CallOf(ByToken("send", jti), now) == Call("token:send:" + jti, 20, 60.0, now)
    ensures CallOf(ByToken("attach", jti), now) == Call("token:attach:" + jti, 10, 60.0, now)
    ensures CallOf(ByToken("read", jti), now) == Call("token:read:" + jti, 120, 60.0, now)
    ensures forall action :: action != "send" && action != "attach" ==> LimitFor(ByToken(action, jti)) == (120, 60.0)
  {
    assert "ip" + ":" + ("pair" + ":" + ip) == "ip:pair:" + ip;
    assert "ip" + ":" + ("sessions" + ":" + ip) == "ip:sessions:" + ip;
    assert "token" + ":" + ("send" + ":" + jti) == "token:send:" + jti;
    assert "token" + ":" + ("attach" + ":" + jti) == "token:attach:" + jti;
    assert "token" + ":" + ("read" + ":" + jti) == "token:read:" + jti;
  }

  lemma CutIsUnique(a: string, b: string, x: string, y: string)
    requires ':' !in a && ':' !in b && a + ":" + x == b + ":" + y
    ensures a == b && x == y
  {
    var s, t := a + ":" + x, b + ":" + y;
    assert s[|a|] == ':' && t[|b|] == ':';
    assert forall k :: 0 <= k < |a| ==> s[k] == a[k];
    assert forall k :: 0 <= k < |b| ==> t[k] == b[k];
    assert s[..|a|] == a && t[..|b|] == b;
    assert s[|a| + 1..] == x && t[|b| + 1..] == y;
  }

  lemma KeysAreInjective(o: Origin, p: Origin)
    requires Registered(o) && Registered(p) && KeyOf(o) == KeyOf(p)
    ensures o == p
  {
    CutIsUnique(Kind(o), Kind(p), Label(o) + ":" + Id(o), Label(p) + ":" + Id(p));
    CutIsUnique(Label(o), Label(p), Id(o), Id(p));
    assert Kind(o)[0] == Kind(p)[0];
  }

  /** A request: who sent it, and when. */
  datatype Request = Request(origin: Origin, now: real)

  function CallsOf(rs: seq<Request>): (cs: seq<Call>)
    ensures |cs| == |rs|
    ensures forall i :: 0 <= i < |rs| ==> cs[i] == CallOf(rs[i].origin, rs[i].now)
  {
    if rs == [] then [] else CallsOf(rs[..|rs| - 1]) + [CallOf(rs[|rs| - 1].origin, rs[|rs| - 1].now)]
  }

  function InstantsOf(rs: seq<Request>, o: Origin): seq<real> {
    if rs == [] then []
    else
      var last := rs[|rs| - 1];
      var rest := InstantsOf(rs[..|rs| - 1], o);
      if last.origin == o then rest + [last.now] else rest
  }

  lemma {:induction false} InstantsByKey(rs: seq<Request>, o: Origin)
    requires Registered(o) && forall r :: r in rs ==> Registered(r.origin)
    ensures TimesOf(CallsOf(rs), KeyOf(o)) == InstantsOf(rs, o)
  {
    hide KeyOf, LimitFor, Registered;
    if rs != [] {
      var n := |rs| - 1;
      InstantsByKey(rs[..n], o);
      assert CallsOf(rs)[..n] == CallsOf(rs[..n]);
      assert rs[n] in rs;
      if KeyOf(rs[n].origin) == KeyOf(o) { KeysAreInjective(rs[n].origin, o); }
    }
  }

  /** However requests interleave, each origin is limited exactly as if it were alone, by its own limit. */
  lemma OriginsAreIndependent(rs: seq<Request>, o: Origin)
    requires Registered(o) && forall r :: r in rs ==> Registered(r.origin)
    ensures VerdictsOf(CallsOf(rs), ServeAll(CallsOf(rs)).1, KeyOf(o))
         == Play(LimitFor(o).0, LimitFor(o).0 as real / LimitFor(o).1, InstantsOf(rs, o)).verdicts
  {
    var calls := CallsOf(rs);
    forall c | c in calls && c.key == KeyOf(o)
      ensures c.limit == LimitFor(o).0 && c.per == LimitFor(o).1
    {
      var i :| 0 <= i < |calls| && calls[i] == c;
      assert rs[i] in rs;
      KeysAreInjective(rs[i].origin, o);
    }
    InstantsByKey(rs, o);
    KeysAreIndependent(calls, KeyOf(o), LimitFor(o).0, LimitFor(o).1);
  }

  // ---------------------------------------------------------------- the limiter object

  class Bucket {
    var tokens: real
    var lastRefill: real

    constructor (tokens: real, lastRefill: real)
      ensures this.tokens == tokens && this.lastRefill == lastRefill
    {
      this.tokens, this.lastRefill := tokens, lastRefill;
    }
  }

  class Limiter {
    var buckets: map<string, Bucket>

    /** No two keys share a bucket. */
    ghost predicate Valid()
      reads this
    {
      forall k, l :: k in buckets && l in buckets && buckets[k] == buckets[l] ==> k == l
    }

    ghost function View(): map<string, BucketState>
      reads this, buckets.Values
    {
      map k | k in buckets :: BucketState(buckets[k].tokens, buckets[k].lastRefill)
    }

    constructor ()
      ensures Valid() && View() == map[]
    {
      buckets := map[];
    }

    /** Writing through one bucket changes one entry of the table, as no two keys share a bucket. */
    twostate lemma OneBucketChanged(key: string)
      requires old(Valid()) && unchanged(this) && key in buckets
      requires forall k :: k in buckets && k != key ==> unchanged(buckets[k])
      ensures View() == old(View())[key := BucketState(buckets[key].tokens, buckets[key].lastRefill)]
    {
    }

    method Allow(key: string, limit: int, per: real, now: real) returns (ok: bool, wait: int)
      requires Valid()
      modifies this, buckets.Values
      ensures Valid()
      ensures (View(), Verdict(ok, wait)) == Serve(old(View()), Call(key, limit, per, now))
      ensures fresh(buckets.Values - old(buckets.Values))
    {
      if limit <= 0 || per <= 0.0 || key == "" {
        return true, 0;
      }
      var ratePerSecond := limit as real / per;
      if key !in buckets {
        var b := new Bucket((limit - 1) as real, now);
        buckets := buckets[key := b];
        assert View() == old(View())[key := BucketState((limit - 1) as real, now)];
        return true, 0;
      }
      var b := buckets[key];
      ghost var found := BucketState(b.tokens, b.lastRefill);
      assert found == old(View())[key];
      var elapsed := now - b.lastRefill;
      if elapsed > 0.0 {
        b.tokens := Min(limit as real, b.tokens + elapsed * ratePerSecond);
        b.lastRefill := now;
      }
      assert BucketState(b.tokens, b.lastRefill) == Refill(found, limit, ratePerSecond, now);
      hide Refill;
      if b.tokens >= 1.0 {
        b.tokens := b.tokens - 1.0;
        OneBucketChanged(key);
        return true, 0;
      }
      OneBucketChanged(key);
      var need := 1.0 - b.tokens;
      wait := Ceil(need / ratePerSecond);
      if wait < 1 {
        wait := 1;
      }
      return false, wait;
    }
  }
}
