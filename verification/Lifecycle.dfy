/** The life of a stored indicator: its score, the sightings that refresh it, the
    pass that expires and rescores the store, and the analyst's whitelist. */
module Lifecycle {
  import opened Collections
  import opened Decay
  import opened Options
  import opened Text

  const SIGHTING_BOOST := 8
  const CONFIDENCE_CAP := 100

  datatype Status = Active | Expired | KnownGood

  datatype Indicator = Indicator(kind: string, value: string, severity: string, confidence: int, lastSeen: Option<real>,
                                 status: Status, sightings: int, source: string, actor: string, family: string,
                                 hasReport: bool, score: Option<int>, validUntil: Option<real>)

  type IndicatorId = string
  type Indicators = map<IndicatorId, Indicator>

  function OrZero(score: Option<int>): int { if score.None? then 0 else score.value }

  // ---------------------------------------------------------------------
  // Sightings
  // ---------------------------------------------------------------------

  /** `record_sighting`, on the indicator's row. */
  function Sighted(ind: Indicator, now: real): Indicator {
    ind.(sightings := ind.sightings + 1, lastSeen := Some(now), confidence := Min(CONFIDENCE_CAP, ind.confidence + SIGHTING_BOOST),
         status := if ind.status.KnownGood? then KnownGood else Active)
  }

  function SightedTimes(ind: Indicator, k: nat, now: real): (after: Indicator)
    ensures after.value == ind.value && after.severity == ind.severity && after.score == ind.score
    ensures k == 0 ==> after == ind
  {
    if k == 0 then ind else Sighted(SightedTimes(ind, k - 1, now), now)
  }

  /** k sightings, in closed form. */
  lemma {:induction false} SightingsAddUp(ind: Indicator, k: nat, now: real)
    ensures
      var after := SightedTimes(ind, k, now);
      && after.sightings == ind.sightings + k
      && (k > 0 || ind.confidence <= 100 ==> after.confidence == Min(100, ind.confidence + 8 * k))
      && (k > 0 ==> after.lastSeen == Some(now) && after.status == if ind.status.KnownGood? then KnownGood else Active)
      && after == ind.(sightings := after.sightings, confidence := after.confidence, lastSeen := after.lastSeen, status := after.status)
  {
    if k > 0 {
      SightingsAddUp(ind, k - 1, now);
    }
  }

  // ---------------------------------------------------------------------
  // Score
  // ---------------------------------------------------------------------

  type Grade = char

  const DEFAULT_RELIABILITY: Grade := 'C'

  /** Grades count in either case. */
  function Weight(g: Grade): real {
    match g
    case 'A' | 'a' => 1.0
    case 'B' | 'b' => 0.92
    case 'D' | 'd' => 0.68
    case 'E' | 'e' => 0.5
    case 'F' | 'f' => 0.4
    case _ => 0.82
  }

  const CORROBORATION_FIRST := 16
  const CORROBORATION_EXTRA := 4
  const CORROBORATION_CAP := 26
  const SIGHTING_FIRST := CORROBORATION_CAP + 6
  const SIGHTING_EXTRA := 4
  const SIGHTING_CAP := 44
  const ATTRIBUTION_BONUS := 8
  const FAMILY_BONUS := 5

  function CorroborationBonus(sources: int): int {
    if sources < 2 then 0 else Min(CORROBORATION_CAP, CORROBORATION_FIRST + (sources - 2) * CORROBORATION_EXTRA)
  }

  function SightingBonus(sightings: int): int {
    if sightings < 1 then 0 else Min(SIGHTING_CAP, SIGHTING_FIRST + (sightings - 1) * SIGHTING_EXTRA)
  }

  function AttributionBonus(ind: Indicator): int {
    if ind.hasReport || ind.actor != "" then ATTRIBUTION_BONUS
    else if Strip(ind.family) != "" then FAMILY_BONUS
    else 0
  }

  /** The half-life the score uses: the built-in one of the type, not a rule's. */
  function TypeHalfLife(kind: string): int {
    match Lower(kind)
    case "ip" => 14
    case "url" => 21
    case "domain" => 45
    case "email" => 60
    case "hash" => 180
    case "sha256" => 180
    case "md5" => 180
    case "sha1" => 180
    case "cve" => 365
    case _ => DEFAULT_HALFLIFE
  }

  /** What the rest of the store says about an indicator. */
  datatype Facts = Facts(sources: int, reliability: Grade, localSightings: int, shift: int)

  function Base(c: Curve, ind: Indicator, reliability: Grade, now: real): int {
    Round(Decayed(c, ind.confidence, AgeDays(ind.lastSeen, now), TypeHalfLife(ind.kind)) as real * Weight(reliability))
  }

  function Raw(c: Curve, ind: Indicator, f: Facts, now: real): int {
    Base(c, ind, f.reliability, now) + CorroborationBonus(Max(1, f.sources)) + SightingBonus(f.localSightings)
    + AttributionBonus(ind) + f.shift
  }

  function Score(c: Curve, ind: Indicator, f: Facts, now: real): (score: int)
    ensures 0 <= score <= 100
  {
    Max(0, Min(100, Raw(c, ind, f, now)))
  }

  datatype Label = Claim | Corroboration | SeenHere | Attributed | Conclusion | Capped | Floored

  datatype Component = Component(what: Label, delta: int)

  function Sum(components: seq<Component>): int {
    if components == [] then 0 else Sum(components[..|components| - 1]) + components[|components| - 1].delta
  }

  lemma SumSnoc(components: seq<Component>, last: Component)
    ensures Sum(components + [last]) == Sum(components) + last.delta
  {
    assert (components + [last])[..|components|] == components;
  }

  /** What a part of the explanation stands for. */
  function Term(c: Curve, ind: Indicator, f: Facts, now: real, what: Label): int {
    match what
    case Claim => Base(c, ind, f.reliability, now)
    case Corroboration => CorroborationBonus(Max(1, f.sources))
    case SeenHere => SightingBonus(f.localSightings)
    case Attributed => AttributionBonus(ind)
    case Conclusion => f.shift
    case Capped => 100 - Raw(c, ind, f, now)
    case Floored => -Raw(c, ind, f, now)
  }

  // The score in plain numbers.

  /** The entry of a table; beyond its ends the first and the last. */
  ghost function Nth(table: seq<int>, n: int): int
    requires table != []
  {
    if n < 0 then table[0] else if n >= |table| then table[|table| - 1] else table[n]
  }

  ghost predicate IsTypeDays(kind: string, days: int) {
    && (kind == "ip" ==> days == 14) && (kind == "url" ==> days == 21) && (kind == "domain" ==> days == 45)
    && (kind == "email" ==> days == 60) && (kind in {"hash", "sha256", "md5", "sha1"} ==> days == 180) && (kind == "cve" ==> days == 365)
    && (kind !in {"ip", "url", "domain", "email", "hash", "sha256", "md5", "sha1", "cve"} ==> days == 30)
  }

  ghost predicate IsWeight(g: Grade, w: real) {
    && (g == 'A' || g == 'a' ==> w == 1.0) && (g == 'B' || g == 'b' ==> w == 0.92) && (g == 'D' || g == 'd' ==> w == 0.68)
    && (g == 'E' || g == 'e' ==> w == 0.5) && (g == 'F' || g == 'f' ==> w == 0.4)
    && (g !in "ABDEFabdef" ==> w == 0.82)
  }

  /** The source's confidence, aged by the half-life of the type and weighted by the grade. */
  ghost predicate IsClaim(c: Curve, ind: Indicator, g: Grade, now: real, claim: int) {
    exists days, halfLife, aged, w :: DaysSince(ind.lastSeen, now, days) && IsTypeDays(Lower(ind.kind), halfLife)
      && IsAged(c, ind.confidence, days, halfLife, aged) && IsWeight(g, w) && Nearest(claim, aged as real * w)
  }

  /** What a report or an actor adds, or else a family that is not blank. */
  ghost function Named(ind: Indicator): int {
    if ind.hasReport || ind.actor != "" then 8 else if exists ch :: ch in ind.family && ch as int !in SPACES then 5 else 0
  }

  /** The claim, what the number of sources and of local sightings adds, what the
      attribution adds, and the conclusions. */
  ghost function Total(ind: Indicator, f: Facts, claim: int): int {
    claim + Nth([0, 0, 16, 20, 24, 26], f.sources) + Nth([0, 32, 36, 40, 44], f.localSightings) + Named(ind) + f.shift
  }

  /** Kept between 0 and 100. */
  ghost predicate IsScore(c: Curve, ind: Indicator, f: Facts, now: real, score: int) {
    exists claim :: IsClaim(c, ind, f.reliability, now, claim)
      && score == if Total(ind, f, claim) > 100 then 100 else if Total(ind, f, claim) < 0 then 0 else Total(ind, f, claim)
  }

  function Part(what: Label, delta: int): seq<Component> {
    if delta == 0 then [] else [Component(what, delta)]
  }

  /** The explanation: the claim, the other terms that are not 0, in this order, and what
      the end of the scale took off or added. */
  ghost predicate Explained(c: Curve, ind: Indicator, f: Facts, now: real, score: int, parts: seq<Component>) {
    && |parts| > 0 && IsClaim(c, ind, f.reliability, now, parts[0].delta)
    && var total := Total(ind, f, parts[0].delta);
    && score == (if total > 100 then 100 else if total < 0 then 0 else total)
    && parts == [Component(Claim, parts[0].delta)] + Part(Corroboration, Nth([0, 0, 16, 20, 24, 26], f.sources))
                + Part(SeenHere, Nth([0, 32, 36, 40, 44], f.localSightings)) + Part(Attributed, Named(ind))
                + Part(Conclusion, f.shift) + Part(if total > 100 then Capped else Floored, score - total)
  }

  lemma TypeDaysIs(kind: string)
    ensures IsTypeDays(Lower(kind), TypeHalfLife(kind))
  {
  }

  lemma WeightIs(g: Grade)
    ensures IsWeight(g, Weight(g))
  {
  }

  lemma ClaimIs(c: Curve, ind: Indicator, g: Grade, now: real)
    ensures IsClaim(c, ind, g, now, Base(c, ind, g, now))
  {
    hide IsAged, Decayed, DaysSince, AgeDays, IsWeight, Weight, Nearest, Round, IsTypeDays, TypeHalfLife;
    var days, halfLife := AgeDays(ind.lastSeen, now), TypeHalfLife(ind.kind);
    var aged := Decayed(c, ind.confidence, days, halfLife);
    AgeIs(ind.lastSeen, now, days);
    AgedIs(c, ind.confidence, days, halfLife, aged);
    TypeDaysIs(ind.kind);
    WeightIs(g);
    RoundIsNearest(aged as real * Weight(g));
  }

  lemma NamedIs(ind: Indicator)
    ensures AttributionBonus(ind) == Named(ind)
  {
    hide Strip, SPACES;
    var i, j := StripIs(ind.family);
    if i < j {
      assert ind.family[i] in ind.family;
    } else {
      assert ind.family == ind.family[..i] + ind.family[j..];
    }
  }

  lemma BonusesAre(f: Facts)
    ensures CorroborationBonus(Max(1, f.sources)) == Nth([0, 0, 16, 20, 24, 26], f.sources)
    ensures SightingBonus(f.localSightings) == Nth([0, 32, 36, 40, 44], f.localSightings)
  {
  }

  lemma ScoreIs(c: Curve, ind: Indicator, f: Facts, now: real)
    ensures Raw(c, ind, f, now) == Total(ind, f, Base(c, ind, f.reliability, now))
    ensures IsScore(c, ind, f, now, Score(c, ind, f, now))
  {
    hide Base, IsClaim, Nth, Named, AttributionBonus, CorroborationBonus, SightingBonus;
    ClaimIs(c, ind, f.reliability, now);
    NamedIs(ind);
    BonusesAre(f);
  }

  /** The parts of the explanation before the scale comes in. */
  method Parts(c: Curve, ind: Indicator, f: Facts, now: real) returns (raw: int, parts: seq<Component>)
    ensures raw == Raw(c, ind, f, now) == Sum(parts) && Explains(c, ind, f, now, parts)
    ensures parts == [Component(Claim, Base(c, ind, f.reliability, now))] + Part(Corroboration, CorroborationBonus(Max(1, f.sources)))
                     + Part(SeenHere, SightingBonus(f.localSightings)) + Part(Attributed, AttributionBonus(ind))
                     + Part(Conclusion, f.shift)
  {
    hide Raw, Base, Sum, CorroborationBonus, SightingBonus, AttributionBonus, Explains, Term, Part;
    var base := Base(c, ind, f.reliability, now);
    var corroboration := CorroborationBonus(Max(1, f.sources));
    var sighting := SightingBonus(f.localSightings);
    var attribution := AttributionBonus(ind);
    raw := base + corroboration + sighting + attribution + f.shift;
    RawIs(c, ind, f, now);
    TermsAre(c, ind, f, now);
    parts := [];
    NoSum(c, ind, f, now);
    parts := Add(c, ind, f, now, parts, Claim, base, true);
    parts := Add(c, ind, f, now, parts, Corroboration, corroboration, corroboration != 0);
    parts := Add(c, ind, f, now, parts, SeenHere, sighting, sighting != 0);
    parts := Add(c, ind, f, now, parts, Attributed, attribution, attribution != 0);
    parts := Add(c, ind, f, now, parts, Conclusion, f.shift, f.shift != 0);
  }

  /** The score with its explanation: each part is what its label says, the parts
      always add up to the score, and a last part names the end of the scale that cut
      it off, exactly when one did. */
  method ScoreIndicator(c: Curve, ind: Indicator, f: Facts, now: real) returns (score: int, components: seq<Component>)
    ensures score == Score(c, ind, f, now) && Sum(components) == score
    ensures forall k :: 0 <= k < |components| ==> components[k].delta == Term(c, ind, f, now, components[k].what)
    ensures (exists k :: 0 <= k < |components| && components[k].what.Capped?) <==> Raw(c, ind, f, now) > 100
    ensures (exists k :: 0 <= k < |components| && components[k].what.Floored?) <==> Raw(c, ind, f, now) < 0
    ensures Explained(c, ind, f, now, score, components)
  {
    hide Raw, Base, Sum, CorroborationBonus, SightingBonus, AttributionBonus, Explains, Explained, Term, Part;
    var raw, parts := Parts(c, ind, f, now);
    score := Max(0, Min(100, raw));
    LastPart(c, ind, f, now, parts);
    ghost var last := Component(if raw > score then Capped else Floored, score - raw);
    PartIs(last.what, last.delta);
    SumSnoc(parts, last);
    components := parts;
    if raw != score {
      components := components + [Component(if raw > score then Capped else Floored, score - raw)];
    }
    assert components == parts + Part(last.what, last.delta);
    ExplainedIs(c, ind, f, now, score, components);
  }

  lemma PartIs(what: Label, delta: int)
    ensures Part(what, delta) == if delta == 0 then [] else [Component(what, delta)]
  {
  }

  lemma ExplainedIs(c: Curve, ind: Indicator, f: Facts, now: real, score: int, parts: seq<Component>)
    requires
      var base, raw := Base(c, ind, f.reliability, now), Raw(c, ind, f, now);
      && score == Score(c, ind, f, now)
      && parts == [Component(Claim, base)] + Part(Corroboration, CorroborationBonus(Max(1, f.sources)))
                  + Part(SeenHere, SightingBonus(f.localSightings)) + Part(Attributed, AttributionBonus(ind))
                  + Part(Conclusion, f.shift) + Part(if raw > score then Capped else Floored, score - raw)
    ensures Explained(c, ind, f, now, score, parts)
  {
    hide Base, IsClaim, Nth, Named, AttributionBonus, CorroborationBonus, SightingBonus, Raw, Total;
    ClaimIs(c, ind, f.reliability, now);
    NamedIs(ind);
    BonusesAre(f);
    ScoreIs(c, ind, f, now);
    assert parts[0] == Component(Claim, Base(c, ind, f.reliability, now));
  }

  /** The parts before the scale comes in. */
  ghost predicate Explains(c: Curve, ind: Indicator, f: Facts, now: real, components: seq<Component>) {
    forall k :: 0 <= k < |components| ==>
      components[k].delta == Term(c, ind, f, now, components[k].what) && !components[k].what.Capped? && !components[k].what.Floored?
  }

  lemma TermsAre(c: Curve, ind: Indicator, f: Facts, now: real)
    ensures Term(c, ind, f, now, Claim) == Base(c, ind, f.reliability, now)
    ensures Term(c, ind, f, now, Corroboration) == CorroborationBonus(Max(1, f.sources))
    ensures Term(c, ind, f, now, SeenHere) == SightingBonus(f.localSightings)
    ensures Term(c, ind, f, now, Attributed) == AttributionBonus(ind)
    ensures Term(c, ind, f, now, Conclusion) == f.shift
  {
    hide Base, CorroborationBonus, SightingBonus, AttributionBonus;
  }

  lemma LastPart(c: Curve, ind: Indicator, f: Facts, now: real, parts: seq<Component>)
    requires Explains(c, ind, f, now, parts)
    ensures
      var raw, score := Raw(c, ind, f, now), Score(c, ind, f, now);
      var last := Component(if raw > score then Capped else Floored, score - raw);
      var all := if raw != score then parts + [last] else parts;
      && (forall k :: 0 <= k < |all| ==> all[k].delta == Term(c, ind, f, now, all[k].what))
      && ((exists k :: 0 <= k < |all| && all[k].what.Capped?) <==> raw > 100)
      && ((exists k :: 0 <= k < |all| && all[k].what.Floored?) <==> raw < 0)
  {
    hide Raw, Base, CorroborationBonus, SightingBonus, AttributionBonus;
    var raw, score := Raw(c, ind, f, now), Score(c, ind, f, now);
    var last := Component(if raw > score then Capped else Floored, score - raw);
    if raw != score {
      assert (parts + [last])[|parts|] == last;
    }
  }

  method Add(ghost c: Curve, ghost ind: Indicator, ghost f: Facts, ghost now: real, components: seq<Component>,
             what: Label, delta: int, present: bool)
    returns (more: seq<Component>)
    requires Explains(c, ind, f, now, components)
    requires delta == Term(c, ind, f, now, what) && !what.Capped? && !what.Floored?
    requires present <==> what.Claim? || delta != 0
    ensures Explains(c, ind, f, now, more) && Sum(more) == Sum(components) + delta
    ensures more == components + if what.Claim? && present then [Component(what, delta)] else Part(what, delta)
  {
    hide Term, Sum;
    SumSnoc(components, Component(what, delta));
    more := if present then components + [Component(what, delta)] else components;
  }

  lemma RawIs(c: Curve, ind: Indicator, f: Facts, now: real)
    ensures Raw(c, ind, f, now) == Base(c, ind, f.reliability, now) + CorroborationBonus(Max(1, f.sources))
                                   + SightingBonus(f.localSightings) + AttributionBonus(ind) + f.shift
  {
  }

  lemma NoSum(c: Curve, ind: Indicator, f: Facts, now: real)
    ensures Sum([]) == 0 && Explains(c, ind, f, now, [])
  {
  }

  /** A first sighting in the deployment's own telemetry, with no other source, beats
      any number of sources without one. */
  lemma SightingBeatsCorroboration(c: Curve, ind: Indicator, f: Facts, g: Facts, now: real)
    requires f.reliability == g.reliability && f.shift == g.shift
    requires f.localSightings >= 1 && g.localSightings < 1
    ensures Raw(c, ind, f, now) >= Raw(c, ind, g, now) + 6
    ensures Score(c, ind, f, now) >= Score(c, ind, g, now)
    ensures 0 <= Raw(c, ind, g, now) < 100 ==> Score(c, ind, f, now) > Score(c, ind, g, now)
  {
    hide Base, AttributionBonus;
  }

  // ---------------------------------------------------------------------
  // decay_iocs
  // ---------------------------------------------------------------------

  /** What one pass reads besides the store: the clock, the decay rule of each
      (lower-case) type, who asserts each value and the best grade among them, the
      grade of each source, and the analysts' conclusions. */
  datatype Context = Context(curve: Curve, now: real, rules: string -> Rule, asserted: map<string, (int, Grade)>,
                             grades: map<string, Grade>, shifts: map<string, int>)

  function RuleOf(x: Context, ind: Indicator): Rule {
    x.rules(Lower(ind.kind))
  }

  function FactsOf(x: Context, ind: Indicator): Facts {
    var sources := if ind.value in x.asserted then x.asserted[ind.value].0 else 1;
    var known := if ind.value in x.asserted then Some(x.asserted[ind.value].1) else None;
    var best :=
      if ind.source in x.grades && (known.None? || x.grades[ind.source] < known.value) then x.grades[ind.source]
      else if known.Some? then known.value
      else DEFAULT_RELIABILITY;
    Facts(sources, best, Max(0, (if ind.sightings == 0 then 1 else ind.sightings) - 1),
          if ind.value in x.shifts then x.shifts[ind.value] else 0)
  }

  function Target(x: Context, ind: Indicator): (status: Status)
    ensures !status.KnownGood?
  {
    if Decay.Expired(x.curve, ind.confidence, ind.lastSeen, x.now, RuleOf(x, ind)) then Expired else Active
  }

  function Dated(x: Context, ind: Indicator): Option<real> {
    ValidUntil(x.curve, ind.confidence, ind.lastSeen, RuleOf(x, ind))
  }

  function Fresh(x: Context, ind: Indicator): int {
    Score(x.curve, ind, FactsOf(x, ind), x.now)
  }

  /** The three stored columns, computed afresh from the others. */
  function Recomputed(x: Context, ind: Indicator): Indicator {
    ind.(status := Target(x, ind), validUntil := Dated(x, ind),
         score := if Fresh(x, ind) != OrZero(ind.score) then Some(Fresh(x, ind)) else ind.score)
  }

  function AfterPass(x: Context, rows: Indicators): Indicators {
    map id | id in rows :: if rows[id].status.KnownGood? then rows[id] else Recomputed(x, rows[id])
  }

  datatype Tally = Tally(scanned: nat, expired: nat, reactivated: nat, rescored: nat, dated: nat)

  function Scanned(rows: Indicators): set<IndicatorId> {
    set id | id in rows && !rows[id].status.KnownGood?
  }

  predicate BecomesExpired(x: Context, ind: Indicator) {
    Target(x, ind).Expired? && !ind.status.Expired?
  }

  predicate BecomesActive(x: Context, ind: Indicator) {
    Target(x, ind).Active? && !ind.status.Active?
  }

  function Expiring(x: Context, rows: Indicators, ids: set<IndicatorId>): set<IndicatorId> {
    set id | id in ids && id in rows && BecomesExpired(x, rows[id])
  }

  function Reviving(x: Context, rows: Indicators, ids: set<IndicatorId>): set<IndicatorId> {
    set id | id in ids && id in rows && BecomesActive(x, rows[id])
  }

  /** The rows whose score changes, and those whose date does. */
  function ScoreUpdates(x: Context, rows: Indicators, ids: set<IndicatorId>): map<IndicatorId, int> {
    map id | id in ids && id in rows && Fresh(x, rows[id]) != OrZero(rows[id].score) :: Fresh(x, rows[id])
  }

  function DateUpdates(x: Context, rows: Indicators, ids: set<IndicatorId>): map<IndicatorId, Option<real>> {
    map id | id in ids && id in rows && Dated(x, rows[id]) != rows[id].validUntil :: Dated(x, rows[id])
  }

  function StatusUpdates(x: Context, rows: Indicators, ids: set<IndicatorId>): map<IndicatorId, Status> {
    map id | id in ids && id in rows && Target(x, rows[id]) != rows[id].status :: Target(x, rows[id])
  }

  function TallyOf(x: Context, rows: Indicators, ids: set<IndicatorId>): Tally {
    Tally(|ids|, |Expiring(x, rows, ids)|, |Reviving(x, rows, ids)|, |ScoreUpdates(x, rows, ids)|, |DateUpdates(x, rows, ids)|)
  }

  // One more row looked at.

  lemma ExpiringOne(x: Context, rows: Indicators, ids: set<IndicatorId>, id: IndicatorId)
    requires id in rows && id !in ids
    ensures |Expiring(x, rows, ids + {id})| == |Expiring(x, rows, ids)| + if BecomesExpired(x, rows[id]) then 1 else 0
  {
    hide BecomesExpired;
    assert Expiring(x, rows, ids + {id}) == Expiring(x, rows, ids) + (if BecomesExpired(x, rows[id]) then {id} else {});
  }

  lemma RevivingOne(x: Context, rows: Indicators, ids: set<IndicatorId>, id: IndicatorId)
    requires id in rows && id !in ids
    ensures |Reviving(x, rows, ids + {id})| == |Reviving(x, rows, ids)| + if BecomesActive(x, rows[id]) then 1 else 0
  {
    hide BecomesActive;
    assert Reviving(x, rows, ids + {id}) == Reviving(x, rows, ids) + (if BecomesActive(x, rows[id]) then {id} else {});
  }

  lemma ScoreOne(x: Context, rows: Indicators, ids: set<IndicatorId>, id: IndicatorId)
    requires id in rows && id !in ids
    ensures
      var before, after := ScoreUpdates(x, rows, ids), ScoreUpdates(x, rows, ids + {id});
      if Fresh(x, rows[id]) != OrZero(rows[id].score) then after == before[id := Fresh(x, rows[id])] && |after| == |before| + 1
      else after == before
  {
    hide Fresh;
    var before := ScoreUpdates(x, rows, ids);
    assert before[id := Fresh(x, rows[id])].Keys == before.Keys + {id};
  }

  lemma DateOne(x: Context, rows: Indicators, ids: set<IndicatorId>, id: IndicatorId)
    requires id in rows && id !in ids
    ensures
      var before, after := DateUpdates(x, rows, ids), DateUpdates(x, rows, ids + {id});
      if Dated(x, rows[id]) != rows[id].validUntil then after == before[id := Dated(x, rows[id])] && |after| == |before| + 1
      else after == before
  {
    hide Dated;
    var before := DateUpdates(x, rows, ids);
    assert before[id := Dated(x, rows[id])].Keys == before.Keys + {id};
  }

  lemma StatusOne(x: Context, rows: Indicators, ids: set<IndicatorId>, id: IndicatorId)
    requires id in rows && id !in ids
    ensures
      var before, after := StatusUpdates(x, rows, ids), StatusUpdates(x, rows, ids + {id});
      if Target(x, rows[id]) != rows[id].status then after == before[id := Target(x, rows[id])] else after == before
  {
    hide Target;
  }

  lemma EmptyTally(x: Context, rows: Indicators)
    ensures TallyOf(x, rows, {}) == Tally(0, 0, 0, 0, 0)
    ensures StatusUpdates(x, rows, {}) == map[] && ScoreUpdates(x, rows, {}) == map[] && DateUpdates(x, rows, {}) == map[]
  {
    hide Target, Fresh, Dated;
  }

  lemma ColumnsAre(x: Context, ind: Indicator, rule: Rule)
    requires rule == RuleOf(x, ind)
    ensures Target(x, ind) == if Decay.Expired(x.curve, ind.confidence, ind.lastSeen, x.now, rule) then Expired else Active
    ensures Dated(x, ind) == ValidUntil(x.curve, ind.confidence, ind.lastSeen, rule)
    ensures Fresh(x, ind) == Score(x.curve, ind, FactsOf(x, ind), x.now)
    ensures BecomesExpired(x, ind) <==> Target(x, ind) != ind.status && Target(x, ind).Expired?
    ensures BecomesActive(x, ind) <==> Target(x, ind) != ind.status && !Target(x, ind).Expired?
  {
    hide Decay.Expired, ValidUntil, Score, FactsOf;
  }

  lemma RowDone(x: Context, rows: Indicators, done: set<IndicatorId>, id: IndicatorId)
    requires id in rows && id !in done
    ensures
      var t, ind, next := TallyOf(x, rows, done), rows[id], done + {id};
      && TallyOf(x, rows, next) == Tally(t.scanned + 1,
            t.expired + (if Target(x, ind) != ind.status && Target(x, ind).Expired? then 1 else 0),
            t.reactivated + (if Target(x, ind) != ind.status && !Target(x, ind).Expired? then 1 else 0),
            t.rescored + (if Fresh(x, ind) != OrZero(ind.score) then 1 else 0),
            t.dated + (if Dated(x, ind) != ind.validUntil then 1 else 0))
      && StatusUpdates(x, rows, next) == (if Target(x, ind) != ind.status then StatusUpdates(x, rows, done)[id := Target(x, ind)]
                                          else StatusUpdates(x, rows, done))
      && ScoreUpdates(x, rows, next) == (if Fresh(x, ind) != OrZero(ind.score) then ScoreUpdates(x, rows, done)[id := Fresh(x, ind)]
                                         else ScoreUpdates(x, rows, done))
      && DateUpdates(x, rows, next) == (if Dated(x, ind) != ind.validUntil then DateUpdates(x, rows, done)[id := Dated(x, ind)]
                                        else DateUpdates(x, rows, done))
  {
    hide Expiring, Reviving, ScoreUpdates, DateUpdates, StatusUpdates, Target, Fresh, Dated, BecomesExpired, BecomesActive;
    ColumnsAre(x, rows[id], RuleOf(x, rows[id]));
    ExpiringOne(x, rows, done, id);
    RevivingOne(x, rows, done, id);
    StatusOne(x, rows, done, id);
    ScoreOne(x, rows, done, id);
    DateOne(x, rows, done, id);
  }

  lemma ScannedAreRows(rows: Indicators)
    ensures Scanned(rows) <= rows.Keys
  {
  }

  /** The updates of the pass, written. */
  function Written(rows: Indicators, statuses: map<IndicatorId, Status>, scores: map<IndicatorId, int>,
                   dates: map<IndicatorId, Option<real>>): Indicators {
    map id | id in rows ::
      rows[id].(status := if id in statuses then statuses[id] else rows[id].status,
                score := if id in scores then Some(scores[id]) else rows[id].score,
                validUntil := if id in dates then dates[id] else rows[id].validUntil)
  }

  lemma WrittenIsAfter(x: Context, rows: Indicators)
    ensures
      var ids := Scanned(rows);
      Written(rows, StatusUpdates(x, rows, ids), ScoreUpdates(x, rows, ids), DateUpdates(x, rows, ids)) == AfterPass(x, rows)
  {
    hide Target, Fresh, Dated;
  }

  // The pass, row by row.

  /** Who asserts the value counts, one source when nobody is known to; the best grade of
      those who do and of the row's own source, C when there is none; every sighting after
      the first is a local one. */
  ghost predicate IsFacts(x: Context, ind: Indicator, f: Facts) {
    var known :=
      (if ind.value in x.asserted then {x.asserted[ind.value].1} else {}) + (if ind.source in x.grades then {x.grades[ind.source]} else {});
    && f.sources == (if ind.value in x.asserted then x.asserted[ind.value].0 else 1)
    && (if known == {} then f.reliability == 'C' else f.reliability in known && forall g :: g in known ==> f.reliability <= g)
    && f.localSightings == (if ind.sightings > 1 then ind.sightings - 1 else 0)
    && f.shift == (if ind.value in x.shifts then x.shifts[ind.value] else 0)
  }

  /** What a pass makes of a row that is not known-good: its status, its date and its score
      - no score counting as 0 - are those of the moment, and the rest stays. */
  ghost predicate Passed(x: Context, before: Indicator, after: Indicator) {
    var rule := x.rules(Lower(before.kind));
    && after == before.(status := after.status, score := after.score, validUntil := after.validUntil)
    && after.status == (if IsExpired(x.curve, before.confidence, before.lastSeen, x.now, rule) then Expired else Active)
    && IsDated(x.curve, before.confidence, before.lastSeen, rule, after.validUntil)
    && exists f, score :: IsFacts(x, before, f) && IsScore(x.curve, before, f, x.now, score)
         && after.score == if before.score == Some(score) || (before.score == None && score == 0) then before.score else Some(score)
  }

  ghost predicate AsPassed(x: Context, before: Indicators, after: Indicators, t: Tally) {
    && after.Keys == before.Keys
    && (forall id :: id in before && before[id].status.KnownGood? ==> after[id] == before[id])
    && (forall id :: id in before && !before[id].status.KnownGood? ==> Passed(x, before[id], after[id]))
    && t.scanned == (|set id | id in before && !before[id].status.KnownGood?|)
    && t.expired == (|set id | id in before && before[id].status.Active? && after[id].status.Expired?|)
    && t.reactivated == (|set id | id in before && before[id].status.Expired? && after[id].status.Active?|)
    && t.rescored == (|set id | id in before && after[id].score != before[id].score|)
    && t.dated == (|set id | id in before && after[id].validUntil != before[id].validUntil|)
  }

  lemma FactsAre(x: Context, ind: Indicator)
    ensures IsFacts(x, ind, FactsOf(x, ind))
  {
  }

  lemma RowPassed(x: Context, ind: Indicator)
    ensures Passed(x, ind, Recomputed(x, ind))
  {
    hide IsFacts, FactsOf, IsScore, Score, Decay.Expired, IsExpired, IsDated, ValidUntil;
    FactsAre(x, ind);
    ScoreIs(x.curve, ind, FactsOf(x, ind), x.now);
    ExpiredIs(x.curve, ind.confidence, ind.lastSeen, x.now, RuleOf(x, ind));
    DatedIs(x.curve, ind.confidence, ind.lastSeen, RuleOf(x, ind));
  }

  lemma PassIs(x: Context, rows: Indicators)
    ensures AsPassed(x, rows, AfterPass(x, rows), TallyOf(x, rows, Scanned(rows)))
  {
    hide Passed, Recomputed, Expiring, Reviving, ScoreUpdates, DateUpdates, Target, Dated, Fresh;
    var after := AfterPass(x, rows);
    forall id | id in rows && !rows[id].status.KnownGood? ensures Passed(x, rows[id], after[id]) {
      RowPassed(x, rows[id]);
    }
    StatusesChanged(x, rows);
    ColumnsChanged(x, rows);
  }

  lemma StatusesChanged(x: Context, rows: Indicators)
    ensures
      var after, ids := AfterPass(x, rows), Scanned(rows);
      && Expiring(x, rows, ids) == (set id | id in rows && rows[id].status.Active? && after[id].status.Expired?)
      && Reviving(x, rows, ids) == (set id | id in rows && rows[id].status.Expired? && after[id].status.Active?)
  {
    hide Target, Dated, Fresh;
  }

  lemma ColumnsChanged(x: Context, rows: Indicators)
    ensures
      var after, ids := AfterPass(x, rows), Scanned(rows);
      && |ScoreUpdates(x, rows, ids)| == (|set id | id in rows && after[id].score != rows[id].score|)
      && |DateUpdates(x, rows, ids)| == (|set id | id in rows && after[id].validUntil != rows[id].validUntil|)
  {
    hide Target, Dated, Fresh;
    var after, ids := AfterPass(x, rows), Scanned(rows);
    assert ScoreUpdates(x, rows, ids).Keys == set id | id in rows && after[id].score != rows[id].score;
    assert DateUpdates(x, rows, ids).Keys == set id | id in rows && after[id].validUntil != rows[id].validUntil;
  }

  class IocStore {
    var rows: Indicators

    /** The pass collects its updates row by row and writes them at the end. */
    method DecayIocs(x: Context) returns (t: Tally)
      modifies this
      ensures rows == AfterPass(x, old(rows)) && t == TallyOf(x, old(rows), Scanned(old(rows)))
      ensures AsPassed(x, old(rows), rows, t)
    {
      hide TallyOf, Scanned, ScoreUpdates, DateUpdates, StatusUpdates, AfterPass, Target, Fresh, Dated, Decay.Expired,
        ValidUntil, Score, FactsOf, Written, OrZero, AsPassed;
      var todo := Scanned(rows);
      ghost var done: set<IndicatorId> := {};
      t := Tally(0, 0, 0, 0, 0);
      var ruleCache: map<string, Rule> := map[];
      var statuses, scores, dates := map[], map[], map[];
      EmptyTally(x, rows);
      ScannedAreRows(rows);
      while todo != {}
        invariant rows == old(rows) && todo + done == Scanned(rows) && todo !! done
        invariant forall k :: k in ruleCache ==> ruleCache[k] == x.rules(k)
        invariant t == TallyOf(x, rows, done)
        invariant statuses == StatusUpdates(x, rows, done)
        invariant scores == ScoreUpdates(x, rows, done) && dates == DateUpdates(x, rows, done)
        decreases todo
      {
        var id :| id in todo;
        var ind := rows[id];
        var key := Lower(ind.kind);
        if key !in ruleCache {
          ruleCache := ruleCache[key := x.rules(key)];
        }
        var rule := ruleCache[key];
        ColumnsAre(x, ind, rule);
        RowDone(x, rows, done, id);
        var target := if Decay.Expired(x.curve, ind.confidence, ind.lastSeen, x.now, rule) then Expired else Active;
        var until := ValidUntil(x.curve, ind.confidence, ind.lastSeen, rule);
        if until != ind.validUntil {
          dates := dates[id := until];
          t := t.(dated := t.dated + 1);
        }
        if target != ind.status {
          statuses := statuses[id := target];
          if target.Expired? {
            t := t.(expired := t.expired + 1);
          } else {
            t := t.(reactivated := t.reactivated + 1);
          }
        }
        var score := Score(x.curve, ind, FactsOf(x, ind), x.now);
        if score != OrZero(ind.score) {
          scores := scores[id := score];
          t := t.(rescored := t.rescored + 1);
        }
        t := t.(scanned := t.scanned + 1);
        todo, done := todo - {id}, done + {id};
      }
      assert done == Scanned(rows);
      WrittenIsAfter(x, rows);
      PassIs(x, rows);
      rows := Written(rows, statuses, scores, dates);
    }

    method SetKnownGood(id: IndicatorId, knownGood: bool) returns (found: bool)
      modifies this
      ensures found <==> id in old(rows)
      ensures rows == Marked(old(rows), id, knownGood)
      ensures rows == if found then old(rows)[id := old(rows)[id].(status := if knownGood then KnownGood else Active)] else old(rows)
    {
      found := id in rows;
      if found {
        rows := rows[id := rows[id].(status := if knownGood then KnownGood else Active)];
      }
    }
  }

  function Marked(rows: Indicators, id: IndicatorId, knownGood: bool): Indicators {
    if id in rows then rows[id := rows[id].(status := if knownGood then KnownGood else Active)] else rows
  }

  // ---------------------------------------------------------------------
  // What passes leave behind
  // ---------------------------------------------------------------------

  /** The stored columns are what they would be computed to be. */
  predicate Current(x: Context, ind: Indicator) {
    ind.status == Target(x, ind) && ind.validUntil == Dated(x, ind) && OrZero(ind.score) == Fresh(x, ind)
  }

  /** None of the three columns takes part in computing them. */
  lemma ColumnsAreDerived(x: Context, ind: Indicator, status: Status, score: Option<int>, until: Option<real>)
    ensures
      var other := ind.(status := status, score := score, validUntil := until);
      Target(x, other) == Target(x, ind) && Dated(x, other) == Dated(x, ind) && Fresh(x, other) == Fresh(x, ind)
  {
    hide Decay.Expired, ValidUntil, Round;
  }

  lemma RecomputedIsCurrent(x: Context, ind: Indicator)
    ensures Current(x, Recomputed(x, ind)) && !Recomputed(x, ind).status.KnownGood?
  {
    hide Dated, Fresh;
    var after := Recomputed(x, ind);
    ColumnsAreDerived(x, ind, after.status, after.score, after.validUntil);
  }

  lemma CurrentIsFixed(x: Context, ind: Indicator)
    requires Current(x, ind)
    ensures Recomputed(x, ind) == ind && !BecomesExpired(x, ind) && !BecomesActive(x, ind)
  {
    hide Target, Dated, Fresh;
  }

  /** After a pass every row but the whitelisted has its columns current, and those
      are untouched. */
  lemma PassMakesCurrent(x: Context, rows: Indicators, id: IndicatorId)
    requires id in rows
    ensures id in AfterPass(x, rows)
    ensures rows[id].status.KnownGood? ==> AfterPass(x, rows)[id] == rows[id]
    ensures !rows[id].status.KnownGood? ==> Current(x, AfterPass(x, rows)[id]) && !AfterPass(x, rows)[id].status.KnownGood?
  {
    hide Recomputed, Current;
    RecomputedIsCurrent(x, rows[id]);
  }

  /** A second pass at the same moment changes nothing and says so. */
  lemma SecondPassIsQuiet(x: Context, rows: Indicators)
    ensures
      var once := AfterPass(x, rows);
      AfterPass(x, once) == once && TallyOf(x, once, Scanned(once)) == Tally(|Scanned(rows)|, 0, 0, 0, 0)
  {
    hide Recomputed, Current, BecomesExpired, BecomesActive, Target, Dated, Fresh;
    var once := AfterPass(x, rows);
    forall id | id in rows
      ensures once[id].status.KnownGood? <==> rows[id].status.KnownGood?
      ensures !once[id].status.KnownGood? ==> Quiet(x, once[id])
    {
      PassMakesCurrent(x, rows, id);
      if !once[id].status.KnownGood? {
        IsQuiet(x, once[id]);
      }
    }
    AllQuiet(x, rows, once);
  }

  ghost predicate Quiet(x: Context, ind: Indicator) {
    && Recomputed(x, ind) == ind && !BecomesExpired(x, ind) && !BecomesActive(x, ind)
    && Fresh(x, ind) == OrZero(ind.score) && Dated(x, ind) == ind.validUntil
  }

  lemma IsQuiet(x: Context, ind: Indicator)
    requires Current(x, ind)
    ensures Quiet(x, ind)
  {
    hide Recomputed, BecomesExpired, BecomesActive, Target, Dated, Fresh;
    CurrentIsFixed(x, ind);
  }

  lemma AllQuiet(x: Context, rows: Indicators, once: Indicators)
    requires rows.Keys == once.Keys
    requires forall id :: id in once ==> (once[id].status.KnownGood? <==> rows[id].status.KnownGood?)
    requires forall id :: id in once && !once[id].status.KnownGood? ==> Quiet(x, once[id])
    ensures AfterPass(x, once) == once && TallyOf(x, once, Scanned(once)) == Tally(|Scanned(rows)|, 0, 0, 0, 0)
  {
    hide Recomputed, BecomesExpired, BecomesActive, Target, Dated, Fresh;
    var ids := Scanned(once);
    assert ids == Scanned(rows);
    assert forall id :: id in ids ==> Quiet(x, once[id]);
    assert Expiring(x, once, ids) == {} && Reviving(x, once, ids) == {};
    assert ScoreUpdates(x, once, ids) == map[] && DateUpdates(x, once, ids) == map[];
  }

  function ExpiredIds(rows: Indicators): set<IndicatorId> {
    set id | id in rows && rows[id].status.Expired?
  }

  lemma StatusAfter(x: Context, rows: Indicators)
    ensures AfterPass(x, rows).Keys == rows.Keys
    ensures forall id :: id in rows ==>
              AfterPass(x, rows)[id].status == if rows[id].status.KnownGood? then KnownGood else Target(x, rows[id])
  {
    hide Target, Dated, Fresh;
  }

  lemma Exchanged(before: set<IndicatorId>, less: set<IndicatorId>, more: set<IndicatorId>)
    requires less <= before && more !! before
    ensures |(before - less) + more| == |before| - |less| + |more|
  {
    assert before == (before - less) + less;
  }

  lemma ExpiredAfter(x: Context, rows: Indicators)
    ensures
      var ids, before := Scanned(rows), ExpiredIds(rows);
      && Reviving(x, rows, ids) <= before && Expiring(x, rows, ids) !! before
      && ExpiredIds(AfterPass(x, rows)) == (before - Reviving(x, rows, ids)) + Expiring(x, rows, ids)
  {
    hide Target, AfterPass;
    StatusAfter(x, rows);
    var ids, before, after := Scanned(rows), ExpiredIds(rows), AfterPass(x, rows);
    var more, less := Expiring(x, rows, ids), Reviving(x, rows, ids);
    forall id | id in rows
      ensures id in ExpiredIds(after) <==> id in (before - less) + more
    {
    }
    forall id | id in ExpiredIds(after) ensures id in rows {
    }
  }

  /** The two tallies account for the change in expired rows. */
  lemma TalliesBalance(x: Context, rows: Indicators)
    ensures
      var t := TallyOf(x, rows, Scanned(rows));
      |ExpiredIds(AfterPass(x, rows))| == |ExpiredIds(rows)| + t.expired - t.reactivated
  {
    hide ExpiredIds, AfterPass, Scanned, Expiring, Reviving, ScoreUpdates, DateUpdates;
    ExpiredAfter(x, rows);
    Exchanged(ExpiredIds(rows), Reviving(x, rows, Scanned(rows)), Expiring(x, rows, Scanned(rows)));
  }

  /** As long as the stored date is not past, a pass finds the indicator active; once a
      pass has expired it, later passes under the same rules keep it so. */
  lemma DateIsKept(x: Context, ind: Indicator, y: Context)
    requires IsHalving(x.curve) && y.curve == x.curve && RuleOf(y, ind) == RuleOf(x, ind) && IsRule(RuleOf(x, ind))
    requires Current(x, ind)
    ensures ind.confidence > RuleOf(x, ind).revoke && ind.validUntil.Some? && y.now <= ind.validUntil.value ==> Target(y, ind).Active?
    ensures ind.confidence >= 0 && ind.status.Expired? && x.now <= y.now ==> Target(y, ind).Expired?
  {
    hide Decay.Expired, IsHalving, ValidUntil, Fresh;
    var rule := RuleOf(x, ind);
    if ind.confidence > rule.revoke && ind.validUntil.Some? && y.now <= ind.validUntil.value {
      DatedHasStart(x, ind);
      NotExpiredWhileValid(x.curve, ind.confidence, ind.lastSeen, y.now, rule);
    }
    if ind.confidence >= 0 && ind.status.Expired? && x.now <= y.now {
      ExpiredForGood(x.curve, ind.confidence, ind.lastSeen, x.now, y.now, rule);
    }
  }

  lemma DatedHasStart(x: Context, ind: Indicator)
    requires Dated(x, ind).Some?
    ensures ind.lastSeen.Some?
  {
  }

  /** Right after a sighting a pass finds the indicator active exactly when the boosted
      confidence reaches the revoke score. */
  lemma SightingRevives(x: Context, ind: Indicator)
    requires IsHalving(x.curve) && IsRule(RuleOf(x, ind)) && ind.confidence >= 0
    ensures
      var seen := Sighted(ind, x.now);
      Target(x, seen).Active? <==> seen.confidence >= RuleOf(x, ind).revoke
  {
    hide IsHalving, Decayed, Ceiling;
    var seen := Sighted(ind, x.now);
    CeilingAhead(RuleOf(x, ind));
    UnagedIsWhole(x.curve, seen.confidence, HalfLife(RuleOf(x, ind)));
    assert AgeDays(seen.lastSeen, x.now) == 0.0;
  }

  // ---------------------------------------------------------------------
  // Whitelisted indicators
  // ---------------------------------------------------------------------

  datatype Action = Pass(x: Context) | Sighting(id: IndicatorId, now: real) | SetKnownGood(id: IndicatorId, knownGood: bool)

  function Step(rows: Indicators, a: Action): Indicators {
    match a
    case Pass(x) => AfterPass(x, rows)
    case Sighting(id, now) => if id in rows then rows[id := Sighted(rows[id], now)] else rows
    case SetKnownGood(id, knownGood) => Marked(rows, id, knownGood)
  }

  function After(rows: Indicators, run: seq<Action>): Indicators
    decreases |run|
  {
    if run == [] then rows else After(Step(rows, run[0]), run[1..])
  }

  /** The sightings of one indicator in a run, applied to its row. */
  function OnlySightings(ind: Indicator, run: seq<Action>, id: IndicatorId): Indicator
    decreases |run|
  {
    if run == [] then ind
    else OnlySightings(if run[0].Sighting? && run[0].id == id then Sighted(ind, run[0].now) else ind, run[1..], id)
  }

  /** Over every run in which nobody takes it off the whitelist, a known-good indicator
      stays known-good; no pass touches its row, and its score and date stay what
      they were. */
  lemma {:induction false} KnownGoodStays(rows: Indicators, run: seq<Action>, id: IndicatorId)
    requires id in rows && rows[id].status.KnownGood?
    requires forall i :: 0 <= i < |run| && run[i].SetKnownGood? && run[i].id == id ==> run[i].knownGood
    ensures id in After(rows, run) && After(rows, run)[id] == OnlySightings(rows[id], run, id)
    ensures
      var ind := After(rows, run)[id];
      ind.status.KnownGood? && ind.score == rows[id].score && ind.validUntil == rows[id].validUntil
    decreases |run|
  {
    if run != [] {
      hide Recomputed, IsHalving;
      var next := Step(rows, run[0]);
      KnownGoodStays(next, run[1..], id);
    }
  }
}
