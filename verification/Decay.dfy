/** Decay of an indicator's score with age. Time is in seconds (real numbers); the
    curve 0.5 ** x and the base-2 logarithm are any strictly decreasing function and
    its inverse. */
module Decay {
  import opened Collections
  import opened Options

  const DAY: real := 86400.0
  const DEFAULT_HALFLIFE := 30

  /** `half(x)` stands for 0.5 ** x. */
  datatype Curve = Curve(half: real -> real, log2: real -> real)

  ghost predicate IsHalving(c: Curve) {
    && c.half(0.0) == 1.0
    && (forall x :: c.half(x) > 0.0)
    && (forall x, y :: x < y ==> c.half(x) > c.half(y))
    && (forall r: real :: r > 0.0 ==> c.half(c.log2(r)) * r == 1.0)
  }

  datatype Rule = Rule(halfLife: int, revoke: int, maxAge: int, points: seq<int>)

  /** What the settings page lets a rule be. */
  predicate IsRule(rule: Rule) {
    rule.halfLife >= 1 && rule.revoke >= 1 && rule.maxAge >= 1
  }

  function HalfLife(rule: Rule): int {
    if rule.halfLife == 0 then DEFAULT_HALFLIFE else rule.halfLife
  }

  /** Rounding to the nearest integer, ties to even. */
  function Round(x: real): int {
    var down := x.Floor;
    var rest := x - down as real;
    if rest < 0.5 || (rest == 0.5 && down % 2 == 0) then down else down + 1
  }

  function MinReal(a: real, b: real): real { if a < b then a else b }

  function AgeDays(lastSeen: Option<real>, now: real): (age: real)
    ensures age >= 0.0
  {
    if lastSeen.None? || now < lastSeen.value then 0.0 else (now - lastSeen.value) / DAY
  }

  function HalfLives(age: real, halfLife: int): real
    requires halfLife > 0
  {
    age / halfLife as real
  }

  /** The score before rounding, at an age in half-lives. */
  function OnCurve(c: Curve, score: int, x: real): real {
    score as real * c.half(x)
  }

  /** `effective_confidence` and `decayed_score`: the score halved once per half-life. */
  function Decayed(c: Curve, score: int, age: real, halfLife: int): int {
    Max(0, if halfLife > 0 then Round(OnCurve(c, score, HalfLives(age, halfLife))) else score)
  }

  function DaysUntil(c: Curve, score: int, target: int, rule: Rule): Option<real> {
    if score == 0 || score <= target || target <= 0 || HalfLife(rule) <= 0 then None
    else Some(HalfLife(rule) as real * c.log2(score as real / target as real))
  }

  function Ceiling(rule: Rule): real {
    HalfLife(rule) as real * rule.maxAge as real
  }

  function DaysValid(c: Curve, score: int, rule: Rule): real {
    var t := DaysUntil(c, score, rule.revoke, rule);
    if t.None? then Ceiling(rule) else MinReal(t.value, Ceiling(rule))
  }

  /** The stored date, with its fraction of a second dropped. */
  function ValidUntil(c: Curve, score: int, lastSeen: Option<real>, rule: Rule): Option<real> {
    if lastSeen.None? then None else Some((lastSeen.value + DaysValid(c, score, rule) * DAY).Floor as real)
  }

  /** What both the decay pass and the drawer call expired. */
  predicate Expired(c: Curve, score: int, lastSeen: Option<real>, now: real, rule: Rule) {
    var age := AgeDays(lastSeen, now);
    Decayed(c, score, age, HalfLife(rule)) < rule.revoke || age > Ceiling(rule)
  }

  // ---------------------------------------------------------------------
  // Arithmetic
  // ---------------------------------------------------------------------

  lemma RoundAtLeast(x: real, n: int)
    ensures x >= n as real ==> Round(x) >= n
    ensures Round(x) > n ==> x > n as real
  {
  }

  lemma HalfFalls(c: Curve, x: real, y: real)
    requires IsHalving(c) && x <= y
    ensures c.half(x) >= c.half(y) > 0.0 && (x < y ==> c.half(x) > c.half(y))
  {
    assert x == y || c.half(x) > c.half(y);
  }

  lemma CurveFalls(c: Curve, score: int, x: real, y: real)
    requires IsHalving(c) && x <= y
    ensures score >= 0 ==> OnCurve(c, score, x) >= OnCurve(c, score, y)
    ensures score > 0 && x < y ==> OnCurve(c, score, x) > OnCurve(c, score, y)
  {
    hide IsHalving;
    HalfFalls(c, x, y);
    var s, above, below := score as real, c.half(x), c.half(y);
    if score >= 0 {
      if score > 0 && x < y {
        ProductStrict(s, below, above);
      }
    }
  }

  /** After the logarithm of the ratio, in half-lives, the score is at its target. */
  lemma CurveMeetsTarget(c: Curve, score: int, target: int)
    requires IsHalving(c) && score > 0 && target > 0
    ensures OnCurve(c, score, c.log2(score as real / target as real)) == target as real
  {
    var s, t := score as real, target as real;
    var r := s / t;
    assert r > 0.0 && r * t == s;
    var h := c.half(c.log2(r));
    assert h * r == 1.0;
  }

  lemma ScaleRatio(age: real, days: real, h: int, l: real)
    requires h > 0 && days == h as real * l
    ensures age <= days <==> HalfLives(age, h) <= l
    ensures age < days <==> HalfLives(age, h) < l
  {
    var q := HalfLives(age, h);
    assert h as real * q == age;
    if q < l {
      ProductStrict(h as real, q, l);
    } else if q > l {
      ProductStrict(h as real, l, q);
    }
  }

  lemma ProductStrict(a: real, x: real, y: real)
    requires a > 0.0 && x < y
    ensures a * x < a * y
  {
  }

  // ---------------------------------------------------------------------
  // In plain numbers
  // ---------------------------------------------------------------------

  /** The integer nearest to x, the even one when there are two. */
  ghost predicate Nearest(n: int, x: real) {
    x - 0.5 <= n as real <= x + 0.5 && (n as real == x - 0.5 || n as real == x + 0.5 ==> n % 2 == 0)
  }

  /** Days of 86400 seconds since the indicator was last seen; 0 when it never was, or in
      the future. */
  ghost predicate DaysSince(lastSeen: Option<real>, now: real, days: real) {
    if lastSeen == None || now <= lastSeen.value then days == 0.0 else days * 86400.0 == now - lastSeen.value
  }

  ghost function Halved(c: Curve, confidence: int, days: real, halfLife: int): real
    requires halfLife > 0
  {
    confidence as real * c.half(days / halfLife as real)
  }

  ghost predicate Left(n: int, x: real) {
    if x < 0.5 then n == 0 else Nearest(n, x)
  }

  /** What is left of a confidence: halved once in every half-life, rounded, and never
      below 0; without a positive half-life, all of it. */
  ghost predicate IsAged(c: Curve, confidence: int, days: real, halfLife: int, aged: int) {
    if halfLife > 0 then
      Left(aged, Halved(c, confidence, days, halfLife))
    else aged == if confidence > 0 then confidence else 0
  }

  /** Whether this is the half-life of the rule, which the default stands in for, and the
      age at which its indicators expire whatever they are worth. */
  ghost predicate IsOldest(rule: Rule, h: int, ceiling: real) {
    h == (if rule.halfLife == 0 then 30 else rule.halfLife) && ceiling == h as real * rule.maxAge as real
  }

  /** Older than its ceiling, or aged below the revoke score. */
  ghost predicate IsExpired(c: Curve, confidence: int, lastSeen: Option<real>, now: real, rule: Rule) {
    exists h, ceiling, days, aged ::
      && IsOldest(rule, h, ceiling) && DaysSince(lastSeen, now, days) && IsAged(c, confidence, days, h, aged)
      && (days > ceiling || aged < rule.revoke)
  }

  /** The whole second reached after the days in which the confidence falls to the revoke
      score, or at the ceiling if that comes first or the score is not above the target. */
  ghost predicate IsDated(c: Curve, confidence: int, lastSeen: Option<real>, rule: Rule, until: Option<real>) {
    if lastSeen == None then until == None
    else
      until != None && exists h, ceiling, days ::
        && IsOldest(rule, h, ceiling) && IsValidity(c, confidence, rule.revoke, h, ceiling, days)
        && until.value <= lastSeen.value + days * 86400.0 < until.value + 1.0 && until.value == until.value.Floor as real
  }

  ghost function DaysDown(c: Curve, confidence: int, revoke: int, h: int): real
    requires revoke > 0
  {
    h as real * c.log2(confidence as real / revoke as real)
  }

  ghost predicate IsValidity(c: Curve, confidence: int, revoke: int, h: int, ceiling: real, days: real) {
    if confidence == 0 || confidence <= revoke || revoke <= 0 || h <= 0 then days == ceiling
    else
      var falls := DaysDown(c, confidence, revoke, h);
      days <= falls && days <= ceiling && (days == falls || days == ceiling)
  }

  lemma RoundIsNearest(x: real)
    ensures Nearest(Round(x), x)
  {
  }

  lemma LeftIs(n: int, x: real)
    ensures Left(n, x) <==> n == Max(0, Round(x))
  {
    RoundIsNearest(x);
  }

  lemma AgeIs(lastSeen: Option<real>, now: real, days: real)
    ensures DaysSince(lastSeen, now, days) <==> days == AgeDays(lastSeen, now)
  {
  }

  lemma AgedIs(c: Curve, confidence: int, days: real, halfLife: int, aged: int)
    ensures IsAged(c, confidence, days, halfLife, aged) <==> aged == Decayed(c, confidence, days, halfLife)
  {
    if halfLife > 0 {
      HalvedIs(c, confidence, days, halfLife);
      hide Round, Left, Halved, OnCurve;
      LeftIs(aged, OnCurve(c, confidence, HalfLives(days, halfLife)));
    }
  }

  lemma HalvedIs(c: Curve, confidence: int, days: real, halfLife: int)
    requires halfLife > 0
    ensures Halved(c, confidence, days, halfLife) == OnCurve(c, confidence, HalfLives(days, halfLife))
  {
  }

  lemma OldestIs(rule: Rule, h: int, ceiling: real)
    ensures IsOldest(rule, h, ceiling) <==> h == HalfLife(rule) && ceiling == Ceiling(rule)
  {
  }

  lemma ExpiredIs(c: Curve, confidence: int, lastSeen: Option<real>, now: real, rule: Rule)
    ensures Expired(c, confidence, lastSeen, now, rule) <==> IsExpired(c, confidence, lastSeen, now, rule)
  {
    hide IsAged, Decayed, DaysSince, AgeDays, IsOldest, HalfLife, Ceiling;
    var h, ceiling, days := HalfLife(rule), Ceiling(rule), AgeDays(lastSeen, now);
    OldestIs(rule, h, ceiling);
    AgeIs(lastSeen, now, days);
    AgedIs(c, confidence, days, h, Decayed(c, confidence, days, h));
    if IsExpired(c, confidence, lastSeen, now, rule) {
      var h', ceiling', days', aged' :|
        && IsOldest(rule, h', ceiling') && DaysSince(lastSeen, now, days') && IsAged(c, confidence, days', h', aged')
        && (days' > ceiling' || aged' < rule.revoke);
      OldestIs(rule, h', ceiling');
      AgeIs(lastSeen, now, days');
      AgedIs(c, confidence, days', h', aged');
    }
  }

  lemma DatedIs(c: Curve, confidence: int, lastSeen: Option<real>, rule: Rule)
    ensures IsDated(c, confidence, lastSeen, rule, ValidUntil(c, confidence, lastSeen, rule))
  {
    ValidityIs(c, confidence, rule);
    OldestIs(rule, HalfLife(rule), Ceiling(rule));
    hide IsValidity, DaysValid, IsOldest, Ceiling, HalfLife;
  }

  lemma ValidityIs(c: Curve, confidence: int, rule: Rule)
    ensures IsValidity(c, confidence, rule.revoke, HalfLife(rule), Ceiling(rule), DaysValid(c, confidence, rule))
  {
    hide Ceiling;
  }

  // ---------------------------------------------------------------------
  // The curve
  // ---------------------------------------------------------------------

  /** Age never makes an indicator more believable. */
  lemma NeverRisesWithAge(c: Curve, score: int, young: real, aged: real, halfLife: int)
    requires IsHalving(c) && score >= 0 && young <= aged
    ensures Decayed(c, score, aged, halfLife) <= Decayed(c, score, young, halfLife)
  {
    if halfLife > 0 {
      hide IsHalving, Round, OnCurve, HalfLives;
      CurveFalls(c, score, HalfLives(young, halfLife), HalfLives(aged, halfLife));
    }
  }

  /** Unaged, it is the score itself; aged, never more. */
  lemma UnagedIsWhole(c: Curve, score: int, halfLife: int)
    requires IsHalving(c)
    ensures Decayed(c, score, 0.0, halfLife) == Max(0, score)
  {
    if halfLife > 0 {
      assert HalfLives(0.0, halfLife) == 0.0;
      assert OnCurve(c, score, 0.0) == score as real;
    }
  }

  /** Up to the day it reaches a target it is not below it; before that day it is above
      it, and after it below (all before rounding). */
  lemma TargetDay(c: Curve, score: int, target: int, rule: Rule, age: real)
    requires IsHalving(c) && score > target > 0 && HalfLife(rule) > 0
    ensures DaysUntil(c, score, target, rule).Some?
    ensures
      var days, now := DaysUntil(c, score, target, rule).value, OnCurve(c, score, HalfLives(age, HalfLife(rule)));
      && (age <= days <==> now >= target as real) && (age < days <==> now > target as real)
  {
    hide IsHalving, OnCurve, HalfLives;
    var h, l := HalfLife(rule), c.log2(score as real / target as real);
    var q := HalfLives(age, h);
    ScaleRatio(age, DaysUntil(c, score, target, rule).value, h, l);
    CurveMeetsTarget(c, score, target);
    if q <= l {
      CurveFalls(c, score, q, l);
    } else {
      CurveFalls(c, score, l, q);
    }
  }

  // ---------------------------------------------------------------------
  // Expiry
  // ---------------------------------------------------------------------

  lemma CeilingAhead(rule: Rule)
    requires IsRule(rule)
    ensures Ceiling(rule) > 0.0
  {
    ProductStrict(HalfLife(rule) as real, 0.0, rule.maxAge as real);
  }

  /** The days of validity of an indicator above the revoke score are positive. */
  lemma DaysAhead(c: Curve, score: int, rule: Rule)
    requires IsHalving(c) && IsRule(rule) && score > rule.revoke
    ensures DaysUntil(c, score, rule.revoke, rule).Some?
    ensures 0.0 < DaysValid(c, score, rule) <= DaysUntil(c, score, rule.revoke, rule).value
    ensures DaysValid(c, score, rule) <= Ceiling(rule)
  {
    hide IsHalving, OnCurve, HalfLives, Ceiling, DaysUntil;
    CeilingAhead(rule);
    TargetDay(c, score, rule.revoke, rule, 0.0);
    StartOfCurve(c, score, HalfLife(rule));
  }

  lemma StartOfCurve(c: Curve, score: int, halfLife: int)
    requires IsHalving(c) && halfLife > 0
    ensures OnCurve(c, score, HalfLives(0.0, halfLife)) == score as real
  {
    assert HalfLives(0.0, halfLife) == 0.0;
  }

  lemma AgeByDate(lastSeen: real, now: real, days: real)
    requires days >= 0.0 && now <= (lastSeen + days * DAY).Floor as real
    ensures AgeDays(Some(lastSeen), now) <= days
  {
  }

  /** Above the revoke score an indicator is never expired at or before its stored
      date. */
  lemma NotExpiredWhileValid(c: Curve, score: int, lastSeen: Option<real>, now: real, rule: Rule)
    requires IsHalving(c) && IsRule(rule) && score > rule.revoke
    requires lastSeen.Some? && now <= ValidUntil(c, score, lastSeen, rule).value
    ensures !Expired(c, score, lastSeen, now, rule)
  {
    hide IsHalving, Round, DaysUntil, DaysValid, Ceiling, OnCurve, HalfLives, AgeDays;
    var age := AgeDays(lastSeen, now);
    DaysAhead(c, score, rule);
    AgeByDate(lastSeen.value, now, DaysValid(c, score, rule));
    TargetDay(c, score, rule.revoke, rule, age);
    RoundAtLeast(OnCurve(c, score, HalfLives(age, HalfLife(rule))), rule.revoke);
  }

  /** Exactly when it is: past the ceiling, or more than half a point under the revoke
      score on the curve, or half a point under an odd one, which rounds down. */
  lemma ExpiredIff(c: Curve, score: int, lastSeen: Option<real>, now: real, rule: Rule)
    requires IsRule(rule)
    ensures
      var age := AgeDays(lastSeen, now);
      var x, half := OnCurve(c, score, HalfLives(age, HalfLife(rule))), rule.revoke as real - 0.5;
      Expired(c, score, lastSeen, now, rule) <==> age > Ceiling(rule) || x < half || (x == half && rule.revoke % 2 == 1)
  {
    hide OnCurve, HalfLives, AgeDays, Ceiling, Round;
    RoundBelow(OnCurve(c, score, HalfLives(AgeDays(lastSeen, now), HalfLife(rule))), rule.revoke);
  }

  lemma RoundBelow(x: real, n: int)
    ensures Round(x) < n <==> x < n as real - 0.5 || (x == n as real - 0.5 && n % 2 == 1)
  {
  }

  /** Without a sighting, what is expired stays expired. */
  lemma ExpiredForGood(c: Curve, score: int, lastSeen: Option<real>, now: real, later: real, rule: Rule)
    requires IsHalving(c) && score >= 0 && now <= later && Expired(c, score, lastSeen, now, rule)
    ensures Expired(c, score, lastSeen, later, rule)
  {
    hide IsHalving, Decayed, Ceiling;
    NeverRisesWithAge(c, score, AgeDays(lastSeen, now), AgeDays(lastSeen, later), HalfLife(rule));
  }

  /** `_expires_in_days`, unrounded. */
  function ExpiresInDays(c: Curve, score: int, age: real, rule: Rule): real
    requires IsRule(rule)
  {
    if score <= rule.revoke then 0.0
    else
      var left := MinReal(HalfLife(rule) as real * c.log2(score as real / rule.revoke as real), Ceiling(rule)) - age;
      if left > 0.0 then left else 0.0
  }

  /** The countdown and the stored date tell the same day exactly when the indicator is
      above the revoke score: at or below it the countdown is at zero while the date
      is still the age ceiling. */
  lemma CountdownAgreesIff(c: Curve, score: int, age: real, rule: Rule)
    requires IsHalving(c) && IsRule(rule) && 0.0 <= age < DaysValid(c, score, rule)
    ensures age + ExpiresInDays(c, score, age, rule) == DaysValid(c, score, rule) <==> score > rule.revoke
  {
    hide IsHalving, Ceiling;
    if score > rule.revoke {
      DaysAhead(c, score, rule);
    }
  }

  // ---------------------------------------------------------------------
  // next_reaction
  // ---------------------------------------------------------------------

  datatype Reaction = Reaction(score: int, inDays: real)

  ghost predicate Descending(points: seq<int>) {
    forall i, j :: 0 <= i < j < |points| ==> points[i] >= points[j]
  }

  lemma DecayedAtMost(c: Curve, score: int, age: real, halfLife: int)
    requires IsHalving(c) && score >= 0 && age >= 0.0
    ensures Decayed(c, score, age, halfLife) <= score
  {
    hide IsHalving, Decayed;
    NeverRisesWithAge(c, score, 0.0, age, halfLife);
    UnagedIsWhole(c, score, halfLife);
  }

  /** A point below the current score lies ahead. */
  lemma ReactionAhead(c: Curve, score: int, age: real, rule: Rule, point: int)
    requires IsHalving(c) && IsRule(rule) && score >= 0 && age >= 0.0
    requires point < Decayed(c, score, age, HalfLife(rule))
    ensures DaysUntil(c, score, point, rule).Some? <==> point > 0
    ensures point > 0 ==> DaysUntil(c, score, point, rule).value > age
  {
    hide IsHalving, Round, OnCurve, HalfLives, DaysUntil;
    DecayedAtMost(c, score, age, HalfLife(rule));
    if point > 0 {
      TargetDay(c, score, point, rule, age);
      RoundAtLeast(OnCurve(c, score, HalfLives(age, HalfLife(rule))), point);
    } else {
      NoDays(c, score, point, rule);
    }
  }

  lemma NoDays(c: Curve, score: int, target: int, rule: Rule)
    requires target <= 0
    ensures DaysUntil(c, score, target, rule).None?
  {
  }

  /** Days as they are shown, to one decimal. */
  function Tenth(days: real): real {
    Round(days * 10.0) as real / 10.0
  }

  ghost predicate RoundedTo(y: real, x: real) {
    exists n :: Nearest(n, x) && y == n as real
  }

  lemma TenthOf(days: real)
    ensures RoundedTo(Tenth(days) * 10.0, days * 10.0)
  {
    RoundIsNearest(days * 10.0);
    assert Tenth(days) * 10.0 == Round(days * 10.0) as real;
  }

  /** The largest positive reaction point below the current score, with the days, to
      one decimal, up to the moment, still ahead, at which the curve is at that point;
      none exactly when there is no such point. */
  method NextReaction(c: Curve, score: int, age: real, rule: Rule) returns (next: Option<Reaction>)
    requires IsHalving(c) && IsRule(rule) && score >= 0 && age >= 0.0
    requires Descending(rule.points)
    ensures
      var current := Decayed(c, score, age, HalfLife(rule));
      match next
      case None => forall p :: p in rule.points ==> p <= 0 || p >= current
      case Some(r) =>
        && r.score in rule.points && 0 < r.score < current
        && (forall p :: p in rule.points && 0 < p < current ==> p <= r.score)
        && DaysUntil(c, score, r.score, rule).Some?
        && var left := DaysUntil(c, score, r.score, rule).value - age;
           left > 0.0 && OnCurve(c, score, HalfLives(age + left, HalfLife(rule))) == r.score as real && r.inDays == Tenth(left)
           && RoundedTo(r.inDays * 10.0, left * 10.0)
  {
    hide IsHalving, Decayed, DaysUntil, OnCurve, HalfLives, Tenth, RoundedTo;
    var current := Decayed(c, score, age, HalfLife(rule));
    for i := 0 to |rule.points|
      invariant forall k :: 0 <= k < i ==> rule.points[k] <= 0 || rule.points[k] >= current
    {
      var point := rule.points[i];
      if point < current {
        ReactionAhead(c, score, age, rule, point);
        var t := DaysUntil(c, score, point, rule);
        if t.Some? {
          DecayedAtMost(c, score, age, HalfLife(rule));
          TargetDay(c, score, point, rule, t.value);
          var left := t.value - age;
          assert age + left == t.value;
          TenthOf(left);
          return Some(Reaction(point, Tenth(if left > 0.0 then left else 0.0)));
        }
      }
    }
    return None;
  }
}
