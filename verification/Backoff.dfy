/** Capped exponential backoff with jitter, and the classification of job failures. Delays are computed
    in exact arithmetic; the random draw is a parameter. */
module Backoff {

  datatype Policy = Policy(baseDelayMs: nat, maxDelayMs: nat)

  /** The draw of the random source; `NotFinite` stands for NaN and the infinities. */
  datatype Draw = Drawn(value: real) | NotFinite

  const ALMOST_ONE := 0.999999999999

  function ClampUnitInterval(draw: Draw): (unit: real)
    ensures 0.0 <= unit < 1.0
  {
    match draw
    case NotFinite => 0.0
    case Drawn(value) => if value < 0.0 then 0.0 else if value >= 1.0 then ALMOST_ONE else value
  }

  function Pow2(n: nat): (p: nat)
    ensures p >= 1
  {
    if n == 0 then 1 else 2 * Pow2(n - 1)
  }

  function Min(a: nat, b: nat): nat {
    if a <= b then a else b
  }

  /** base, 2 base, 4 base, ... up to the cap. */
  function Exponential(attemptCount: int, policy: Policy): nat {
    Min(policy.maxDelayMs, policy.baseDelayMs * Pow2(if attemptCount < 1 then 0 else attemptCount - 1))
  }

  function ComputeBackoffMs(attemptCount: int, policy: Policy, draw: Draw): int {
    Jittered(Exponential(attemptCount, policy), ClampUnitInterval(draw))
  }

  /** Between half the capped exponential, rounded down, and the whole of it, which it only reaches when
      there is nothing to wait for. */
  lemma BackoffBounds(attemptCount: int, policy: Policy, draw: Draw)
    ensures var whole := Exponential(attemptCount, policy);
            && whole / 2 <= ComputeBackoffMs(attemptCount, policy, draw) <= whole
            && (whole > 0 ==> ComputeBackoffMs(attemptCount, policy, draw) < whole)
  {
    JitterBounds(Exponential(attemptCount, policy), ClampUnitInterval(draw));
  }

  /** Half of a whole number plus a part of that half. */
  function Jittered(whole: nat, unit: real): int {
    (whole as real / 2.0 + unit * (whole as real / 2.0)).Floor
  }

  lemma JitterBounds(whole: nat, unit: real)
    requires 0.0 <= unit < 1.0
    ensures whole / 2 <= Jittered(whole, unit) <= whole
    ensures whole > 0 ==> Jittered(whole, unit) < whole
  {
    var half := whole as real / 2.0;
    ScaledDown(unit, half);
    var part := unit * half;
    FloorBetween(whole, half + part);
  }

  lemma FloorBetween(whole: nat, exact: real)
    requires whole as real / 2.0 <= exact && (exact < whole as real || (whole == 0 && exact == 0.0))
    ensures whole / 2 <= exact.Floor <= whole && (whole > 0 ==> exact.Floor < whole)
  {
    assert (whole / 2) as real <= whole as real / 2.0;
  }

  lemma ScaledDown(unit: real, half: real)
    requires 0.0 <= unit < 1.0 && half >= 0.0
    ensures 0.0 <= unit * half <= half
    ensures half > 0.0 ==> unit * half < half
  {
    assert half - unit * half == (1.0 - unit) * half;
    assert half > 0.0 ==> (1.0 - unit) * half > 0.0;
  }

  lemma {:induction false} Pow2Grows(m: nat, n: nat)
    requires m <= n
    ensures Pow2(m) <= Pow2(n)
  {
    if m < n {
      Pow2Grows(m, n - 1);
    }
  }

  /** Later attempts never wait for less before the jitter, and never for more than the cap. */
  lemma ExponentialGrows(a: int, b: int, policy: Policy)
    requires a <= b
    ensures Exponential(a, policy) <= Exponential(b, policy) <= policy.maxDelayMs
  {
    var m, n := if a < 1 then 0 else a - 1, if b < 1 then 0 else b - 1;
    Pow2Grows(m, n);
    assert policy.baseDelayMs * Pow2(m) <= policy.baseDelayMs * Pow2(n);
  }

  /** The first attempt waits for the base, and each later one twice as long as the one before it, up to the cap. */
  lemma ExponentialDoubles(attemptCount: int, policy: Policy)
    ensures attemptCount <= 1 ==>
              Exponential(attemptCount, policy) == if policy.baseDelayMs <= policy.maxDelayMs then policy.baseDelayMs else policy.maxDelayMs
    ensures attemptCount >= 1 ==>
              Exponential(attemptCount + 1, policy) == if 2 * Exponential(attemptCount, policy) <= policy.maxDelayMs
                                                       then 2 * Exponential(attemptCount, policy) else policy.maxDelayMs
  {
    if attemptCount >= 1 {
      assert Pow2(attemptCount) == 2 * Pow2(attemptCount - 1);
      TwiceTheProduct(policy.baseDelayMs, Pow2(attemptCount - 1));
    } else {
      assert Pow2(0) == 1;
    }
  }

  lemma TwiceTheProduct(a: nat, b: nat)
    ensures a * (2 * b) == 2 * (a * b)
  {
  }

  /** The draw places the delay between half the exponential and the whole of it, in proportion, rounded down.
      A draw that is no number counts as 0, as does one below it, and one from 1 on as almost 1. */
  lemma DrawPlacesTheDelay(attemptCount: int, policy: Policy, value: real)
    ensures 0.0 <= value < 1.0 ==>
              var exact := Exponential(attemptCount, policy) as real * (1.0 + value) / 2.0;
              ComputeBackoffMs(attemptCount, policy, Drawn(value)) as real <= exact < ComputeBackoffMs(attemptCount, policy, Drawn(value)) as real + 1.0
    ensures value < 0.0 ==> ComputeBackoffMs(attemptCount, policy, Drawn(value)) == ComputeBackoffMs(attemptCount, policy, Drawn(0.0))
    ensures value >= 1.0 ==> ComputeBackoffMs(attemptCount, policy, Drawn(value)) == ComputeBackoffMs(attemptCount, policy, Drawn(0.999999999999))
    ensures ComputeBackoffMs(attemptCount, policy, NotFinite) == ComputeBackoffMs(attemptCount, policy, Drawn(0.0))
  {
    var whole := Exponential(attemptCount, policy) as real;
    HalfAndPart(whole, value);
  }

  lemma HalfAndPart(whole: real, value: real)
    ensures whole / 2.0 + value * (whole / 2.0) == whole * (1.0 + value) / 2.0
  {
  }

  /** What n retries wait for at most. */
  function TotalExponential(n: nat, policy: Policy): nat {
    if n == 0 then 0 else TotalExponential(n - 1, policy) + Exponential(n, policy)
  }

  lemma {:induction false} TotalIsCapped(n: nat, policy: Policy)
    ensures TotalExponential(n, policy) <= n * policy.maxDelayMs
  {
    if n > 0 {
      TotalIsCapped(n - 1, policy);
      ExponentialGrows(n, n, policy);
      OneMore(n, policy.maxDelayMs);
    }
  }

  lemma OneMore(n: nat, m: nat)
    requires n > 0
    ensures n * m == (n - 1) * m + m
  {
  }

  lemma PositiveExponential(attemptCount: int, policy: Policy)
    requires policy.baseDelayMs > 0 && policy.maxDelayMs > 0
    ensures Exponential(attemptCount, policy) > 0
  {
    ProductIsPositive(policy.baseDelayMs, Pow2(if attemptCount < 1 then 0 else attemptCount - 1));
  }

  lemma {:induction false} ProductIsPositive(a: nat, b: nat)
    requires a > 0 && b > 0
    ensures a * b > 0
  {
    if a > 1 {
      ProductIsPositive(a - 1, b);
      assert a * b == (a - 1) * b + b;
    }
  }

  /* ---- failures ---- */

  datatype ErrorKind =
    | Validation
    | Authentication
    | Authorization
    | NotFound
    | Conflict
    | InvalidStateTransition
    | Integrity
    | ExternalService
    | RateLimit

  /** What a handler threw. */
  datatype Thrown = ApplicationError(kind: ErrorKind) | UnknownError

  /** classifyJobFailure: whether trying again may help. */
  predicate IsRetryable(thrown: Thrown) {
    match thrown
    case ApplicationError(kind) => kind == ExternalService || kind == RateLimit || kind == Conflict
    case UnknownError => true
  }

  /** Of the errors the application raises itself, the ones about input, rights, state or integrity are final. */
  lemma FinalErrors(thrown: Thrown)
    ensures !IsRetryable(thrown)
            <==> thrown in {ApplicationError(Validation), ApplicationError(Authentication), ApplicationError(Authorization),
                            ApplicationError(NotFound), ApplicationError(InvalidStateTransition), ApplicationError(Integrity)}
  {
  }
}
