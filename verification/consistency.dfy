/** How well one chosen effect lines up with the player's dream card. */
module Consistency {
  import opened Wrappers
  import opened Numeric
  import opened Types

  const RiasecWeight := 4
  const SecondaryWeight := 2
  const IntegrityWeight := 1
  const ScandalPenaltyPoints := 15
  const LegendBonus := 20

  const ScandalNote := "Scandal warning triggered"
  const LegendNote := "Legendary action aligned with dream card"

  /** The delta is bounded by this on both sides. */
  const DeltaBound := 30

  datatype ConsistencyResult = ConsistencyResult(delta: int, scandalPenalty: int, notes: seq<string>)

  /** `(patch ?? {})[k] ?? 0`. */
  function PatchValue<K>(patch: Option<map<K, int>>, k: K): int {
    if patch.Some? && k in patch.value then patch.value[k] else 0
  }

  /** The weight scales the score only when it is present and truthy, i.e. non-zero. */
  predicate HasWeight(effect: OptionEffect) {
    effect.consistencyWeight.Some? && effect.consistencyWeight.value != 0.0
  }

  /** Reference: the factor the alignment score is multiplied by. */
  function Multiplier(effect: OptionEffect): real {
    if HasWeight(effect) then effect.consistencyWeight.value else 1.0
  }

  /** Reference: the unweighted alignment score, as a sum of its four contributions. */
  function Alignment(card: DreamCard, effect: OptionEffect): int {
    var secondary := if card.secondaryRiasec.Some? then PatchValue(effect.riasec, card.secondaryRiasec.value) else 0;
    var legend := if effect.triggers.legend then LegendBonus else 0;
    RiasecWeight * PatchValue(effect.riasec, card.primaryRiasec)
      + SecondaryWeight * secondary
      + IntegrityWeight * PatchValue(effect.lifeStatus, Integrity)
      + legend
  }

  /** The additive part of `scoreConsistency`, step by step in the program's order: primary and
      secondary trait, integrity (only when truthy), then the legend bonus. */
  function TraitScore(card: DreamCard, effect: OptionEffect): (score: real)
    ensures score == Alignment(card, effect) as real
  {
    var riasec := effect.riasec.GetOr(map[]);
    var score := (PatchValue(Some(riasec), card.primaryRiasec) * RiasecWeight) as real;
    var score := if card.secondaryRiasec.Some?
                 then score + (PatchValue(Some(riasec), card.secondaryRiasec.value) * SecondaryWeight) as real
                 else score;
    var integrity := PatchValue(effect.lifeStatus, Integrity);
    var score := if integrity != 0 then score + (integrity * IntegrityWeight) as real else score;
    if effect.triggers.legend then score + LegendBonus as real else score
  }

  /** The trait score scaled by the weight when the weight is truthy. */
  function WeightedScore(card: DreamCard, effect: OptionEffect): (w: real)
    ensures w == Multiplier(effect) * Alignment(card, effect) as real
  {
    var score := TraitScore(card, effect);
    if HasWeight(effect) then score * effect.consistencyWeight.value else score
  }

  /** `scoreConsistency`: the trait score, the scandal penalty and notes, the weight (only when
      truthy), then rounding and the clamp. */
  function ScoreConsistency(card: DreamCard, effect: OptionEffect): (r: ConsistencyResult)
    ensures -DeltaBound <= r.delta <= DeltaBound
    ensures r.scandalPenalty == (if effect.triggers.scandal then ScandalPenaltyPoints else 0)
    ensures r.notes == (if effect.triggers.scandal then [ScandalNote] else [])
                       + (if effect.triggers.legend then [LegendNote] else [])
    ensures r.delta == Clamp(Round(WeightedScore(card, effect) - r.scandalPenalty as real), -DeltaBound, DeltaBound)
  {
    var penalty := if effect.triggers.scandal then ScandalPenaltyPoints else 0;
    var notes := if effect.triggers.scandal then [ScandalNote] else [];
    var notes := if effect.triggers.legend then notes + [LegendNote] else notes;
    ConsistencyResult(Clamp(Round(WeightedScore(card, effect) - penalty as real), -DeltaBound, DeltaBound), penalty, notes)
  }

  /** Without weight, triggers or integrity the delta is the clamped trait score. */
  lemma PlainTraitScore(card: DreamCard, effect: OptionEffect)
    requires effect.consistencyWeight.None? && effect.triggers == NoTriggers
    requires PatchValue(effect.lifeStatus, Integrity) == 0
    ensures ScoreConsistency(card, effect).delta ==
      Clamp(RiasecWeight * PatchValue(effect.riasec, card.primaryRiasec)
            + (if card.secondaryRiasec.Some? then SecondaryWeight * PatchValue(effect.riasec, card.secondaryRiasec.value) else 0),
            -DeltaBound, DeltaBound)
  {
  }

  /** A weight of 0 is falsy and so scores exactly like an absent weight. */
  lemma ZeroWeightIgnored(card: DreamCard, effect: OptionEffect)
    ensures ScoreConsistency(card, effect.(consistencyWeight := Some(0.0)))
         == ScoreConsistency(card, effect.(consistencyWeight := None))
  {
  }

  /** Position of a key in the order the program enumerates the personality vector. */
  function Position(k: RiasecKey): (i: nat)
    ensures i < |RiasecOrder| && RiasecOrder[i] == k
  {
    match k
    case R => 0 case I => 1 case A => 2 case S => 3 case E => 4 case C => 5
  }

  lemma PositionOfIndex(i: int)
    requires 0 <= i < |RiasecOrder|
    ensures Position(RiasecOrder[i]) == i
  {
  }

  /** `dominantRiasec`: a stable descending sort's head, i.e. the first key, in enumeration
      order, whose value is maximal. */
  method DominantRiasec(vec: RiasecVec) returns (k: RiasecKey)
    ensures forall j :: 0 <= j < |RiasecOrder| ==> vec[RiasecOrder[j]] <= vec[k]
    ensures forall j :: 0 <= j < Position(k) ==> vec[RiasecOrder[j]] < vec[k]
  {
    var best := 0;
    var i := 1;
    while i < |RiasecOrder|
      invariant 1 <= i <= |RiasecOrder|
      invariant 0 <= best < i
      invariant forall j :: 0 <= j < i ==> vec[RiasecOrder[j]] <= vec[RiasecOrder[best]]
      invariant forall j :: 0 <= j < best ==> vec[RiasecOrder[j]] < vec[RiasecOrder[best]]
    {
      if vec[RiasecOrder[i]] > vec[RiasecOrder[best]] {
        best := i;
      }
      i := i + 1;
    }
    PositionOfIndex(best);
    k := RiasecOrder[best];
  }
}
