/**
 Bounded retry of the bucket initialisation: exponential backoff with a cap, a bound on the
 attempts and a deadline for the whole. Durations are nanoseconds.
 */
module RetryBudget {

  /** One less than 2^64 seconds and 999999999 nanoseconds: what a `Duration` can hold. */
  const LONGEST: nat := 0x1_0000_0000_0000_0000 * 1_000_000_000 - 1

  type Duration = n: int | 0 <= n <= LONGEST

  const SECOND: Duration := 1_000_000_000

  datatype Policy = Policy(maxAttempts: nat, deadline: Duration, initial: Duration, cap: Duration, jitter: Duration)

  const DEFAULT: Policy := Policy(12, 90_000_000_000, 1_000_000_000, 8_000_000_000, 250_000_000)

  /** `x` doubled `n` times, that is, shifted left. */
  function Doubled(x: nat, n: nat): nat {
    if n == 0 then x else 2 * Doubled(x, n - 1)
  }

  function Min(a: int, b: int): int { if a <= b then a else b }

  function Saturated(n: nat): Duration { Min(n, LONGEST) }

  /** `backoff_for_attempt`: the shift stops at 16 and the product saturates. */
  function Backoff(p: Policy, attempt: nat): Duration {
    if attempt == 0 then 0
    else
      var shift := Min(attempt - 1, 16);
      Min(Saturated(Doubled(p.initial, shift)), p.cap)
  }

  lemma {:induction false} DoubledMonotone(x: nat, a: nat, b: nat)
    requires a <= b
    ensures Doubled(x, a) <= Doubled(x, b)
  {
    if a < b {
      DoubledMonotone(x, a, b - 1);
    }
  }

  /** Later failures never wait less. */
  lemma BackoffNonDecreasing(p: Policy, a: nat, b: nat)
    requires a <= b
    ensures Backoff(p, a) <= Backoff(p, b)
  {
    if a > 0 {
      DoubledMonotone(p.initial, Min(a - 1, 16), Min(b - 1, 16));
    }
  }

  /** The backoff without the limit on the shift: the initial wait times 2^(attempt - 1), up to the cap. */
  function Doubling(p: Policy, attempt: nat): nat
    requires attempt > 0
  {
    Min(Doubled(p.initial, attempt - 1), p.cap)
  }

  lemma {:induction false} DoubledScales(x: nat, n: nat)
    ensures Doubled(x, n) == x * Doubled(1, n)
  {
    if n > 0 {
      DoubledScales(x, n - 1);
      assert 2 * (x * Doubled(1, n - 1)) == x * (2 * Doubled(1, n - 1));
    }
  }

  lemma DoubledOf16(x: nat)
    ensures Doubled(x, 16) == 65536 * x
  {
    DoubledScales(x, 16);
    assert Doubled(1, 2) == 4;
    assert Doubled(1, 4) == 16;
    assert Doubled(1, 6) == 64;
    assert Doubled(1, 8) == 256;
    assert Doubled(1, 10) == 1024;
    assert Doubled(1, 12) == 4096;
    assert Doubled(1, 14) == 16384;
  }

  /** The backoff doubles up to the cap for 17 attempts and then stays. */
  lemma BackoffMeans(p: Policy, attempt: nat)
    ensures Backoff(p, 0) == 0
    ensures attempt > 0 ==>
            Backoff(p, attempt) == if attempt <= 17 then Doubling(p, attempt) else Min(65536 * p.initial, p.cap)
  {
    DoubledOf16(p.initial);
  }

  /** The backoff doubles up to its cap for every attempt exactly when the cap is within 2^16 steps. */
  lemma DoublesIffCapWithinShift(p: Policy)
    ensures (forall k :: k > 0 ==> Backoff(p, k) == Doubling(p, k)) <==> p.initial == 0 || p.cap <= 65536 * p.initial
  {
    DoubledOf16(p.initial);
    if p.initial == 0 || p.cap <= 65536 * p.initial {
      forall k | k > 0 ensures Backoff(p, k) == Doubling(p, k) {
        BackoffMeans(p, k);
        if k > 17 {
          DoubledMonotone(p.initial, 16, k - 1);
          DoubledScales(p.initial, k - 1);
        }
      }
    } else {
      assert Doubled(p.initial, 17) == 2 * Doubled(p.initial, 16);
      assert Backoff(p, 18) == Min(65536 * p.initial, p.cap);
      assert Doubling(p, 18) == Min(131072 * p.initial, p.cap);
    }
  }

  // ---------------------------------------------------------------- the retry loop

  datatype Result = Usable | Transient | Permanent

  /** What each attempt answers, how long it takes, and the jitter drawn after it; the first one is number 0. */
  datatype World = World(results: nat -> Result, costs: nat -> nat, jitters: nat -> nat)

  function Delay(p: Policy, w: World, k: nat): nat {
    Backoff(p, k + 1) + w.jitters(k)
  }

  /** When attempt `k` would start if all before it fail. */
  function StartOf(p: Policy, w: World, k: nat): nat {
    if k == 0 then 0 else StartOf(p, w, k - 1) + w.costs(k - 1) + Delay(p, w, k - 1)
  }

  /** The start times of the first `n` attempts. */
  function StartTimes(p: Policy, w: World, n: nat): seq<nat> {
    if n == 0 then [] else StartTimes(p, w, n - 1) + [StartOf(p, w, n - 1)]
  }

  predicate OnTime(p: Policy, w: World, k: nat) {
    StartOf(p, w, k) < p.deadline
  }

  /** Attempt `k` is made: the one before it is, fails in a way worth retrying, and both bounds allow another. */
  predicate Made(p: Policy, w: World, k: nat) {
    k == 0 || (Made(p, w, k - 1) && k < p.maxAttempts && w.results(k - 1).Transient? && OnTime(p, w, k))
  }

  datatype Outcome = Connected | Misconfigured | Exhausted

  function OutcomeOf(r: Result): Outcome {
    match r
    case Usable => Connected
    case Permanent => Misconfigured
    case Transient => Exhausted
  }

  /** `ensure_buckets_with_retry` with exact sleeps: the attempts made are exactly those due. */
  method EnsureBuckets(p: Policy, w: World) returns (outcome: Outcome, starts: seq<nat>)
    ensures starts != [] && outcome == OutcomeOf(w.results(|starts| - 1))
    ensures Made(p, w, |starts| - 1) && !Made(p, w, |starts|)
    ensures starts == StartTimes(p, w, |starts|)
  {
    var now: nat := 0;
    var k: nat := 0;
    starts := [];
    while true
      invariant k < Max(1, p.maxAttempts) && Made(p, w, k)
      invariant |starts| == k && now == StartOf(p, w, k) && starts == StartTimes(p, w, k)
      decreases Max(1, p.maxAttempts) - k
    {
      starts := starts + [now];
      var result := w.results(k);
      if result.Usable? {
        return Connected, starts;
      }
      if result.Permanent? {
        return Misconfigured, starts;
      }
      now := now + w.costs(k) + Delay(p, w, k);
      if k + 1 >= p.maxAttempts || now >= p.deadline {
        return Exhausted, starts;
      }
      k := k + 1;
    }
  }

  function Max(a: int, b: int): int { if a >= b then a else b }

  /** However the world answers, the attempts are bounded and every later one starts before the deadline. */
  lemma AttemptsBounded(p: Policy, w: World, k: nat)
    requires Made(p, w, k)
    ensures k < Max(1, p.maxAttempts)
    ensures k > 0 ==> StartOf(p, w, k) < p.deadline
  {
  }

  /** The part of the time that is not backoff. */
  function Overhead(w: World, k: nat): nat {
    if k == 0 then 0 else Overhead(w, k - 1) + w.costs(k - 1) + w.jitters(k - 1)
  }

  function Backoffs(p: Policy, k: nat): nat {
    if k == 0 then 0 else Backoffs(p, k - 1) + Backoff(p, k)
  }

  lemma {:induction false} StartSplits(p: Policy, w: World, k: nat)
    ensures StartOf(p, w, k) == Backoffs(p, k) + Overhead(w, k)
  {
    if k > 0 {
      StartSplits(p, w, k - 1);
    }
  }

  lemma DefaultBackoff(k: nat)
    requires k > 0
    ensures Backoff(DEFAULT, k) == (if k == 1 then 1 else if k == 2 then 2 else if k == 3 then 4 else 8) * SECOND
  {
    if k >= 4 {
      BackoffNonDecreasing(DEFAULT, 4, k);
    }
    assert Doubled(SECOND, 1) == 2 * SECOND;
    assert Doubled(SECOND, 2) == 4 * SECOND;
    assert Doubled(SECOND, 3) == 8 * SECOND;
  }

  lemma {:induction false} DefaultTail(k: nat)
    requires k >= 3
    ensures Backoffs(DEFAULT, k) == (7 + 8 * (k - 3)) * SECOND
  {
    DefaultBackoff(k);
    if k == 3 {
      DefaultBackoff(1);
      DefaultBackoff(2);
      assert Backoffs(DEFAULT, 1) == SECOND;
      assert Backoffs(DEFAULT, 2) == 3 * SECOND;
    } else {
      DefaultTail(k - 1);
    }
  }

  /** Attempt `k` is made exactly if it is allowed and all before it, with their pauses, fit the budget. */
  lemma {:induction false} MadeIffWithinBudget(p: Policy, w: World, k: nat)
    requires k > 0
    ensures Made(p, w, k) <==>
            k < p.maxAttempts && (forall i :: 0 <= i < k ==> w.results(i).Transient?) &&
            Backoffs(p, k) + Overhead(w, k) < p.deadline
  {
    StartSplits(p, w, k);
    StartSplits(p, w, k - 1);
    if k > 1 {
      MadeIffWithinBudget(p, w, k - 1);
    }
  }

  /** The number of the last attempt that the default policy allows; the first one is number 0. */
  const LAST: nat := DEFAULT.maxAttempts - 1

  /**
   The default policy makes its twelfth attempt, when only transient failures occur, exactly if
   the first eleven attempts and their jitter take less than 19 seconds.
   */
  lemma DefaultMakesAllAttempts(w: World)
    requires forall i :: 0 <= i < LAST ==> w.results(i).Transient?
    ensures Made(DEFAULT, w, LAST) <==> Overhead(w, LAST) < 19 * SECOND
  {
    DefaultTail(LAST);
    MadeIffWithinBudget(DEFAULT, w, LAST);
  }
}
