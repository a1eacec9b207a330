/**
  * Keygen retries: scheduleKeygenRetry and the re-entry of processKeygenBlock, bifrost/signer/sign.go.
  * Heights and intervals are int64 in the source and unbounded here.
  */
module Keygen {
  import opened Outcome

  /** The remainder of Go: it takes the sign of the dividend. */
  function Rem(a: int, k: int): int
    requires k > 0
  {
    if a >= 0 then a % k else -((-a) % k)
  }

  /** The retry height for a keygen block at `b`, retry interval `k` and current height `h`. */
  function Target(b: int, k: int, h: int): int
    requires k > 0
  {
    k - Rem(h - b, k) + h
  }

  /** What the node reads before it schedules; None is a failed request. Durations share one unit. */
  datatype Readings = Readings(churn: Option<int>, retry: Option<int>, height: Option<int>, blockTime: int, timeout: int)

  const CHURN_DEFAULT := 720

  function Churn(mimir: int): (n: int)
    ensures n > 0
  {
    if mimir <= 0 then CHURN_DEFAULT else mimir
  }

  /** The height a retry is scheduled for, if one is. */
  function Schedule(b: int, r: Readings): Option<int> {
    if r.churn.None? || r.retry.None? || r.retry.value <= 0 then None
    else if r.retry.value * r.blockTime <= Quo(r.timeout * 3, 2) || r.height.None? then None
    else
      var target := Target(b, r.retry.value, r.height.value);
      if target > b + Churn(r.churn.value) - r.retry.value then None else Some(target)
  }

  /** Division of Go: towards zero. */
  function Quo(a: int, k: int): int
    requires k > 0
  {
    if a >= 0 then a / k else -((-a) / k)
  }

  lemma MultipleMod(k: int, m: int)
    requires k > 0
    ensures (k * m) % k == 0
  {
    var q, r := (k * m) / k, (k * m) % k;
    assert k * (m - q) == r;
    Between(k, m - q);
  }

  lemma Between(k: int, m: int)
    requires k > 0 && -k < k * m < k
    ensures m == 0
  {
  }

  lemma AtLeastOne(k: int, m: int)
    requires k > 0
    ensures k * m > 0 ==> k * m >= k
    ensures k * m > -k <==> m >= 0
  {
  }

  /**
    * The target is the block height plus a multiple of the interval, and is past the current height.
    * It is at most one interval away exactly when the node is not behind the keygen block, or is
    * behind by whole intervals.
    */
  lemma TargetOnGrid(b: int, k: int, h: int)
    requires k > 0
    ensures (Target(b, k, h) - b) % k == 0
    ensures h < Target(b, k, h) < h + 2 * k
    ensures Target(b, k, h) <= h + k <==> h >= b || (b - h) % k == 0
  {
    var a := h - b;
    if a >= 0 {
      assert a == k * (a / k) + a % k;
      assert Target(b, k, h) - b == k * (1 + a / k);
      MultipleMod(k, 1 + a / k);
    } else {
      assert -a == k * ((-a) / k) + (-a) % k;
      assert Target(b, k, h) - b == k * (1 - (-a) / k);
      MultipleMod(k, 1 - (-a) / k);
    }
  }

  lemma GridStep(b: int, k: int, s: int, t: int)
    requires k > 0 && s < t && (s - b) % k == 0 && (t - b) % k == 0
    ensures s + k <= t
  {
    var p, q := (s - b) / k, (t - b) / k;
    assert t - s == k * (q - p);
    AtLeastOne(k, q - p);
  }

  // ---------- runs of failing keygens ----------

  /**
    * The readings at the successive schedulings for one keygen block, with fixed intervals. Each
    * height is at or past the target scheduled before, since that retry had to start first.
    */
  ghost predicate IsRetryRun(b: int, k: int, churn: int, rs: seq<Readings>) {
    && (forall i :: 0 <= i < |rs| ==>
          && rs[i].churn.Some? && Churn(rs[i].churn.value) == churn && rs[i].retry == Some(k)
          && Schedule(b, rs[i]).Some?)
    && (forall i :: 0 < i < |rs| ==> rs[i].height.value >= Schedule(b, rs[i - 1]).value)
  }

  lemma ScheduleFacts(b: int, k: int, r: Readings)
    requires Schedule(b, r).Some? && r.retry == Some(k)
    ensures k > 0 && r.churn.Some? && r.height.Some?
    ensures var t := Schedule(b, r).value;
            && t == Target(b, k, r.height.value) <= b + Churn(r.churn.value) - k
            && (t - b) % k == 0 && r.height.value < t
  {
    TargetOnGrid(b, k, r.height.value);
  }

  /** Each target is past the one before by at least an interval. */
  lemma {:induction false} TargetsAdvance(b: int, k: int, churn: int, rs: seq<Readings>, i: nat)
    requires IsRetryRun(b, k, churn, rs) && i < |rs|
    ensures Schedule(b, rs[i]).value >= Schedule(b, rs[0]).value + i * k
    ensures i > 0 ==> Schedule(b, rs[i]).value >= Schedule(b, rs[i - 1]).value + k
  {
    hide Schedule, Target;
    if i > 0 {
      TargetsAdvance(b, k, churn, rs, i - 1);
      ScheduleFacts(b, k, rs[i - 1]);
      ScheduleFacts(b, k, rs[i]);
      GridStep(b, k, Schedule(b, rs[i - 1]).value, Schedule(b, rs[i]).value);
      assert i * k == (i - 1) * k + k;
    }
  }

  /** The most retries a keygen block gets. */
  function MaxRetries(k: int, churn: int): nat
    requires k > 0
  {
    if churn / k >= 1 then churn / k - 1 else 0
  }

  /** A run whose first height is not below the block has at most churn / k - 1 retries, */
  lemma RetriesAreFinite(b: int, k: int, churn: int, rs: seq<Readings>)
    requires k > 0 && IsRetryRun(b, k, churn, rs) && (rs != [] ==> rs[0].height.value >= b)
    ensures |rs| <= MaxRetries(k, churn)
  {
    hide Schedule, Target;
    if rs != [] {
      var n := |rs|;
      ScheduleFacts(b, k, rs[0]);
      GridStep(b, k, b, Schedule(b, rs[0]).value);
      TargetsAdvance(b, k, churn, rs, n - 1);
      ScheduleFacts(b, k, rs[n - 1]);
      Fits(k, churn, n);
    }
  }

  lemma Fits(k: int, churn: int, n: int)
    requires k > 0 && n >= 0
    ensures k + (n - 1) * k <= churn - k <==> n + 1 <= churn / k
  {
    var q := churn / k;
    assert churn == k * q + churn % k;
    assert churn - k - (k + (n - 1) * k) == k * (q - (n + 1)) + churn % k;
    AtLeastOne(k, q - (n + 1));
  }

  /** and some run has as many, so the bound is exact. */
  lemma RetriesReachBound(b: int, k: int, churn: int, blockTime: int, timeout: int) returns (rs: seq<Readings>)
    requires k > 0 && churn > 0 && k * blockTime > Quo(timeout * 3, 2)
    ensures IsRetryRun(b, k, churn, rs) && (rs != [] ==> rs[0].height.value == b) && |rs| == MaxRetries(k, churn)
  {
    var n := MaxRetries(k, churn);
    rs := seq(n, i requires 0 <= i < n => Readings(Some(churn), Some(k), Some(b + i * k), blockTime, timeout));
    forall i | 0 <= i < n ensures Schedule(b, rs[i]) == Some(b + i * k + k) {
      MultipleMod(k, i);
      Fits(k, churn, i + 1);
    }
    forall i | 0 < i < n ensures rs[i].height.value == rs[i - 1].height.value + k {
      assert i * k == (i - 1) * k + k;
    }
  }
}
