/** Quota conversion and the charge of a channel test, with finite floating-point numbers as reals. */
module QuotaMath {
  const MAX_QUOTA := 0x7FFF_FFFF
  const MIN_QUOTA := -0x8000_0000
  const QUOTA_PER_UNIT := 500000.0

  datatype Float = NaN | Infinite(positive: bool) | Finite(x: real)

  datatype Kind = Overflow | Underflow | NotANumber
  datatype Clamp = Unclamped | Clamp(op: string, kind: Kind, original: Float, clamped: int)
  datatype Result = Ok(quota: int) | Err(clamp: Clamp)

  // ----- rounding -----

  function Truncate(x: real): int {
    if x >= 0.0 then x.Floor else -(-x).Floor
  }

  /** Half away from zero. */
  function Round(x: real): int {
    if x >= 0.0 then (x + 0.5).Floor else -(-x + 0.5).Floor
  }

  function Abs(x: real): real {
    if x >= 0.0 then x else -x
  }

  /** The result is a nearest integer, and of two nearest ones the one further from zero; no other
      integer is. */
  lemma RoundIsNearest(x: real, n: int)
    ensures Round(x) == n <==>
            Abs(n as real - x) <= 0.5 && (Abs(n as real - x) == 0.5 ==> Abs(n as real) > Abs(x))
  {
  }

  lemma RoundMonotone(x: real, y: real)
    requires x <= y
    ensures Round(x) <= Round(y) && Truncate(x) <= Truncate(y)
  {
  }

  lemma RoundOfInteger(n: int)
    ensures Round(n as real) == n && Truncate(n as real) == n
  {
  }

  // ----- saturation -----

  predicate Above(value: Float, bound: int) {
    value == Infinite(true) || (value.Finite? && value.x > bound as real)
  }

  predicate Below(value: Float, bound: int) {
    value == Infinite(false) || (value.Finite? && value.x < bound as real)
  }

  function Saturate(value: Float, op: string, max: int, min: int): (int, Clamp) {
    if value == NaN then (0, Clamp(op, NotANumber, value, 0))
    else if Above(value, max) then (max, Clamp(op, Overflow, value, max))
    else if Below(value, min) then (min, Clamp(op, Underflow, value, min))
    else (if value.Finite? then Truncate(value.x) else 0, Unclamped)
  }

  function FromFloatChecked(value: Float): (int, Clamp) {
    Saturate(value, "QuotaFromFloat", MAX_QUOTA, MIN_QUOTA)
  }

  function FromFloat(x: real): int {
    FromFloatChecked(Finite(x)).0
  }

  /** NaN and the infinities round to themselves. */
  function RoundFloat(value: Float): Float {
    if value.Finite? then Finite(Round(value.x) as real) else value
  }

  function RoundChecked(value: Float): (int, Clamp) {
    Saturate(RoundFloat(value), "QuotaRound", MAX_QUOTA, MIN_QUOTA)
  }

  function QuotaRound(x: real): int {
    RoundChecked(Finite(x)).0
  }

  function Strict(quota: (int, Clamp)): Result {
    if quota.1 != Unclamped then Err(quota.1) else Ok(quota.0)
  }

  function FromFloatStrict(value: Float): Result {
    Strict(FromFloatChecked(value))
  }

  function RoundStrict(value: Float): Result {
    Strict(RoundChecked(value))
  }

  /** Saturation is projection onto the range: no member `other` of the range is closer to the truncated value than
      the result; the infinities go to the ends and NaN to 0. */
  lemma SaturationProjects(value: Float, op: string, max: int, min: int, other: int)
    requires min <= max
    ensures var quota := Saturate(value, op, max, min).0;
            match value
            case NaN => quota == 0
            case Infinite(positive) => quota == if positive then max else min
            case Finite(x) =>
              && min <= quota <= max
              && (min <= other <= max ==> Distance(quota, Truncate(x)) <= Distance(other, Truncate(x)))
  {
    if value.Finite? {
      TruncateBounds(value.x, max);
      TruncateBounds(value.x, min);
      hide Truncate;
    }
  }

  function Distance(m: int, n: int): nat {
    if m <= n then n - m else m - n
  }

  lemma TruncateBounds(x: real, bound: int)
    ensures x > bound as real ==> Truncate(x) >= bound
    ensures x < bound as real ==> Truncate(x) <= bound
    ensures x == bound as real ==> Truncate(x) == bound
  {
  }

  /** The clamp is reported exactly for what lies outside the range, with the value and the right kind. */
  lemma ClampExactly(value: Float, op: string, max: int, min: int)
    requires min <= 0 <= max
    ensures var (quota, clamp) := Saturate(value, op, max, min);
            && (clamp == Unclamped <==> value.Finite? && min as real <= value.x <= max as real)
            && (clamp != Unclamped ==>
                  && (clamp.op, clamp.original, clamp.clamped) == (op, value, quota)
                  && (clamp.kind == NotANumber <==> value == NaN)
                  && (clamp.kind == Overflow <==> value == Infinite(true) || (value.Finite? && value.x > 0.0)))
  {
    hide Truncate;
  }

  /** The strict forms answer exactly for the values that need no clamp, and then with a quota less than
      one (truncated) or at most a half (rounded) from the value. */
  lemma StrictAnswers(value: Float)
    ensures FromFloatStrict(value).Ok? <==> value.Finite? && MIN_QUOTA as real <= value.x <= MAX_QUOTA as real
    ensures FromFloatStrict(value).Ok? ==>
              var q := FromFloatStrict(value).quota as real; Abs(q) <= Abs(value.x) && Abs(q - value.x) < 1.0
    ensures RoundStrict(value).Ok? <==>
              value.Finite? && MIN_QUOTA as real - 0.5 < value.x < MAX_QUOTA as real + 0.5
    ensures RoundStrict(value).Ok? ==> Abs(RoundStrict(value).quota as real - value.x) <= 0.5
    ensures FromFloatStrict(value).Err? ==> FromFloatStrict(value).clamp.op == "QuotaFromFloat"
    ensures RoundStrict(value).Err? ==> RoundStrict(value).clamp.op == "QuotaRound"
  {
    hide Truncate, Round;
    if value.Finite? {
      TruncatedIsClose(value.x);
      RoundedIsClose(value.x);
    }
  }

  lemma TruncatedIsClose(x: real)
    ensures var q := Truncate(x) as real; Abs(q) <= Abs(x) && Abs(q - x) < 1.0
  {
  }

  lemma RoundedIsClose(x: real)
    ensures Abs(Round(x) as real - x) <= 0.5 && Truncate(Round(x) as real) == Round(x)
    ensures MIN_QUOTA as real <= Round(x) as real <= MAX_QUOTA as real <==>
            MIN_QUOTA as real - 0.5 < x < MAX_QUOTA as real + 0.5
  {
    RoundOfInteger(Round(x));
  }

  lemma QuotaMonotone(x: real, y: real)
    requires x <= y
    ensures QuotaRound(x) <= QuotaRound(y) && FromFloat(x) <= FromFloat(y)
  {
    RoundMonotone(x, y);
    RoundMonotone(Round(x) as real, Round(y) as real);
  }

  // ----- the charge of a channel test -----

  datatype PriceData = PriceData(usePrice: bool, modelPrice: real, modelRatio: real, completionRatio: real)
  datatype Usage = Usage(promptTokens: int, completionTokens: int)

  function Times(x: real, ratio: real): real {
    x * ratio
  }

  /** The price without any rounding. */
  function Exact(p: PriceData, u: Usage): real {
    Times(u.promptTokens as real + Times(u.completionTokens as real, p.completionRatio), p.modelRatio)
  }

  /** Prompt tokens and priced completion tokens, rounded. */
  function Tokens(p: PriceData, u: Usage): int {
    QuotaRound(u.promptTokens as real + QuotaRound(Times(u.completionTokens as real, p.completionRatio)) as real)
  }

  function Charge(p: PriceData, u: Usage): int {
    if p.usePrice then FromFloat(Times(p.modelPrice, QUOTA_PER_UNIT))
    else
      var quota := QuotaRound(Times(Tokens(p, u) as real, p.modelRatio));
      if p.modelRatio != 0.0 && quota <= 0 then 1 else quota
  }

  method SettleTestQuota(p: PriceData, u: Usage) returns (quota: int)
    ensures quota == Charge(p, u)
  {
    hide QuotaRound, FromFloat, Times;
    quota := 0;
    if !p.usePrice {
      var completionQuota := QuotaRound(Times(u.completionTokens as real, p.completionRatio));
      quota := QuotaRound(u.promptTokens as real + completionQuota as real);
      quota := QuotaRound(Times(quota as real, p.modelRatio));
      if p.modelRatio != 0.0 && quota <= 0 {
        quota := 1;
      }
      return;
    }
    return FromFloat(Times(p.modelPrice, QUOTA_PER_UNIT));
  }

  lemma TimesMonotone(x: real, y: real, ratio: real)
    requires x <= y && 0.0 <= ratio
    ensures Times(x, ratio) <= Times(y, ratio)
  {
  }

  lemma TimesNear(x: real, y: real, ratio: real)
    requires Abs(x - y) <= 0.5 && 0.0 <= ratio
    ensures Abs(Times(x, ratio) - Times(y, ratio)) <= ratio / 2.0
  {
    TimesMonotone(x, y + 0.5, ratio);
    TimesMonotone(y, x + 0.5, ratio);
    assert Times(y + 0.5, ratio) == Times(y, ratio) + ratio / 2.0;
    assert Times(x + 0.5, ratio) == Times(x, ratio) + ratio / 2.0;
  }

  /** Whatever the token counts and ratios, a charge by tokens is free exactly when the model ratio is
      zero, and never leaves the range. */
  lemma ChargeRange(p: PriceData, u: Usage)
    requires !p.usePrice
    ensures 0 <= Charge(p, u) <= MAX_QUOTA
    ensures Charge(p, u) == 0 <==> p.modelRatio == 0.0
  {
    var tokens := Tokens(p, u);
    if p.modelRatio == 0.0 {
      assert Times(tokens as real, p.modelRatio) == 0.0;
      RoundOfInteger(0);
    }
  }

  /** A charge by price does not depend on the tokens: it is 500000 per unit of price, without its fraction, and stays
      within the range. */
  lemma FixedCharge(p: PriceData, u: Usage)
    requires p.usePrice
    ensures var exact := 500000.0 * p.modelPrice;
            && (-2147483648.0 <= exact <= 2147483647.0 ==>
                  Abs(Charge(p, u) as real) <= Abs(exact) && Abs(Charge(p, u) as real - exact) < 1.0)
            && (exact > 2147483647.0 ==> Charge(p, u) == 2147483647)
            && (exact < -2147483648.0 ==> Charge(p, u) == -2147483648)
  {
    var x := Times(p.modelPrice, QUOTA_PER_UNIT);
    assert x == 500000.0 * p.modelPrice;
    TruncatedIsClose(x);
    hide Truncate, Times;
  }

  /** The least charge is 1, and only a model ratio of 0 is free. */
  lemma LeastCharge(p: PriceData, u: Usage)
    requires !p.usePrice && p.modelRatio != 0.0 && QuotaRound(Times(Tokens(p, u) as real, p.modelRatio)) <= 0
    ensures Charge(p, u) == 1
  {
  }

  /** More tokens never cost less. */
  lemma ChargeMonotone(p: PriceData, u: Usage, v: Usage)
    requires !p.usePrice && 0.0 <= p.modelRatio && 0.0 <= p.completionRatio
    requires u.promptTokens <= v.promptTokens && u.completionTokens <= v.completionTokens
    ensures Charge(p, u) <= Charge(p, v)
  {
    hide QuotaRound, Times;
    var x := Times(u.completionTokens as real, p.completionRatio);
    var y := Times(v.completionTokens as real, p.completionRatio);
    TimesMonotone(u.completionTokens as real, v.completionTokens as real, p.completionRatio);
    QuotaMonotone(x, y);
    QuotaMonotone(u.promptTokens as real + QuotaRound(x) as real, v.promptTokens as real + QuotaRound(y) as real);
    TimesMonotone(Tokens(p, u) as real, Tokens(p, v) as real, p.modelRatio);
    QuotaMonotone(Times(Tokens(p, u) as real, p.modelRatio), Times(Tokens(p, v) as real, p.modelRatio));
  }

  /** No stage of the charge saturates. */
  predicate NothingClamped(p: PriceData, u: Usage) {
    var x := Times(u.completionTokens as real, p.completionRatio);
    && RoundChecked(Finite(x)).1 == Unclamped
    && RoundChecked(Finite(u.promptTokens as real + QuotaRound(x) as real)).1 == Unclamped
    && RoundChecked(Finite(Times(Tokens(p, u) as real, p.modelRatio))).1 == Unclamped
  }

  lemma UnclampedRound(x: real)
    requires RoundChecked(Finite(x)).1 == Unclamped
    ensures Abs(QuotaRound(x) as real - x) <= 0.5 && (0.0 <= x ==> 0 <= QuotaRound(x))
  {
    RoundIsNearest(x, Round(x));
    RoundOfInteger(Round(x));
  }

  lemma UnclampedInteger(n: int)
    requires RoundChecked(Finite(n as real)).1 == Unclamped
    ensures QuotaRound(n as real) == n
  {
    RoundOfInteger(n);
  }

  /** Three roundings move the price by at most half the model ratio and a half, the minimum charge by at
      most a half more. */
  lemma ChargeIsClose(p: PriceData, u: Usage)
    requires !p.usePrice && 0.0 <= p.modelRatio && 0.0 <= p.completionRatio
    requires 0 <= u.promptTokens && 0 <= u.completionTokens && NothingClamped(p, u)
    ensures Abs(Charge(p, u) as real - Exact(p, u)) <= p.modelRatio / 2.0 + 1.0
    ensures Charge(p, u) > 1 ==> Abs(Charge(p, u) as real - Exact(p, u)) <= p.modelRatio / 2.0 + 0.5
  {
    assert Times(0.0, p.completionRatio) == 0.0 && Times(0.0, p.modelRatio) == 0.0;
    hide QuotaRound, RoundChecked, Times;
    var x := Times(u.completionTokens as real, p.completionRatio);
    TimesMonotone(0.0, u.completionTokens as real, p.completionRatio);
    UnclampedRound(x);
    var c := QuotaRound(x);
    assert (u.promptTokens + c) as real == u.promptTokens as real + c as real;
    UnclampedInteger(u.promptTokens + c);
    TimesMonotone(0.0, Tokens(p, u) as real, p.modelRatio);
    TimesMonotone(0.0, u.promptTokens as real + x, p.modelRatio);
    TimesNear(Tokens(p, u) as real, u.promptTokens as real + x, p.modelRatio);
    UnclampedRound(Times(Tokens(p, u) as real, p.modelRatio));
  }

  lemma InRangeRound(x: real)
    requires MIN_QUOTA as real <= x <= MAX_QUOTA as real
    ensures RoundChecked(Finite(x)).1 == Unclamped
  {
    RoundMonotone(MIN_QUOTA as real, x);
    RoundMonotone(x, MAX_QUOTA as real);
    RoundOfInteger(MIN_QUOTA);
    RoundOfInteger(MAX_QUOTA);
  }

  /** A caller can tell from the exact price: no stage saturates when it fits with half a token and half a
      model ratio to spare. */
  lemma SmallChargesFit(p: PriceData, u: Usage)
    requires !p.usePrice && 0.0 <= p.modelRatio && 0.0 <= p.completionRatio
    requires 0 <= u.promptTokens && 0 <= u.completionTokens
    requires u.promptTokens as real + Times(u.completionTokens as real, p.completionRatio) + 0.5 <= MAX_QUOTA as real
    requires Exact(p, u) + p.modelRatio / 2.0 <= MAX_QUOTA as real
    ensures NothingClamped(p, u)
  {
    assert Times(0.0, p.completionRatio) == 0.0 && Times(0.0, p.modelRatio) == 0.0;
    hide QuotaRound, RoundChecked, Times;
    var x := Times(u.completionTokens as real, p.completionRatio);
    TimesMonotone(0.0, u.completionTokens as real, p.completionRatio);
    InRangeRound(x);
    UnclampedRound(x);
    var c := QuotaRound(x);
    assert (u.promptTokens + c) as real == u.promptTokens as real + c as real;
    InRangeRound((u.promptTokens + c) as real);
    UnclampedInteger(u.promptTokens + c);
    TimesMonotone(0.0, Tokens(p, u) as real, p.modelRatio);
    TimesNear(Tokens(p, u) as real, u.promptTokens as real + x, p.modelRatio);
    InRangeRound(Times(Tokens(p, u) as real, p.modelRatio));
  }
}
