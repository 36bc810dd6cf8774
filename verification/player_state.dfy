/** The mutable record of one run, rendered as pure transitions over `PlayerSnapshot`. */
module PlayerState {
  import opened Numeric
  import opened Types

  const DefaultAttributes: AttributeVec :=
    (var m := map[Intellect := 10, Physical := 10, Inspiration := 10, Luck := 10]; AttributeMapTotal(m); m)
  const DefaultLifeStatus: LifeStatusVec :=
    (var m := map[Money := 100, Stress := 10, Happiness := 50, Integrity := 50]; LifeStatusMapTotal(m); m)
  const DefaultRiasec: RiasecVec :=
    (var m := map[R := 10, I := 10, A := 10, S := 10, E := 10, C := 10]; RiasecMapTotal(m); m)

  /** The run length the stage thresholds are written against, whatever the configured total. */
  const StageBaseTurns := 50

  predicate NonNegative<K>(m: map<K, int>) {
    forall k :: k in m ==> m[k] >= 0
  }

  /** Every counter the patch operations floor at 0 is at least 0. */
  predicate Valid(p: PlayerSnapshot) {
    && NonNegative(p.attributes)
    && NonNegative(p.lifeStatus)
    && NonNegative(p.hidden.riasec)
    && p.hidden.consistencyScore >= 0
    && p.hidden.scandalValue >= 0
  }

  /** The constructor: default counters, stage 1, `totalTurns` left, no flags raised. */
  function New(totalTurns: int): (p: PlayerSnapshot)
    ensures Valid(p)
    ensures p.turnsRemaining == totalTurns && p.stage == 1
    ensures p.haggard == NotHaggard && p.scandal == NoScandal
    ensures p.hidden.consistencyScore == 0 && p.hidden.scandalValue == 0
    ensures forall k :: p.attributes[k] > 0
    ensures forall k :: p.lifeStatus[k] > 0
    ensures forall k :: p.hidden.riasec[k] > 0
  {
    PlayerSnapshot(DefaultAttributes, DefaultLifeStatus, HiddenMetrics(DefaultRiasec, 0, 0), 1, totalTurns, NotHaggard, NoScandal)
  }

  /** The loop `for key of Object.keys(delta)`: every key the patch names is moved by its delta
      and floored at 0; the others keep their value. */
  function ApplyPatch<K>(vec: map<K, int>, patch: map<K, int>): (r: map<K, int>)
    ensures r.Keys == vec.Keys
    ensures forall k :: k in vec && k in patch ==> r[k] == Max(0, vec[k] + patch[k])
    ensures forall k :: k in vec && k !in patch ==> r[k] == vec[k]
    ensures NonNegative(vec) ==> NonNegative(r)
  {
    map k | k in vec :: if k in patch then Max(0, vec[k] + patch[k]) else vec[k]
  }

  function ApplyAttributes(p: PlayerSnapshot, delta: map<AttributeKey, int>): (r: PlayerSnapshot)
    ensures forall k :: k in delta ==> r.attributes[k] == Max(0, p.attributes[k] + delta[k])
    ensures forall k :: k !in delta ==> r.attributes[k] == p.attributes[k]
    ensures r == p.(attributes := r.attributes)
    ensures Valid(p) ==> Valid(r)
  {
    p.(attributes := ApplyPatch(p.attributes, delta))
  }

  function ApplyLifeStatus(p: PlayerSnapshot, delta: map<LifeStatusKey, int>): (r: PlayerSnapshot)
    ensures forall k :: k in delta ==> r.lifeStatus[k] == Max(0, p.lifeStatus[k] + delta[k])
    ensures forall k :: k !in delta ==> r.lifeStatus[k] == p.lifeStatus[k]
    ensures r == p.(lifeStatus := r.lifeStatus)
    ensures Valid(p) ==> Valid(r)
  {
    p.(lifeStatus := ApplyPatch(p.lifeStatus, delta))
  }

  function ApplyRiasec(p: PlayerSnapshot, delta: map<RiasecKey, int>): (r: PlayerSnapshot)
    ensures forall k :: k in delta ==> r.hidden.riasec[k] == Max(0, p.hidden.riasec[k] + delta[k])
    ensures forall k :: k !in delta ==> r.hidden.riasec[k] == p.hidden.riasec[k]
    ensures r == p.(hidden := p.hidden.(riasec := r.hidden.riasec))
    ensures Valid(p) ==> Valid(r)
  {
    p.(hidden := p.hidden.(riasec := ApplyPatch(p.hidden.riasec, delta)))
  }

  function ApplyConsistency(p: PlayerSnapshot, delta: int): (r: PlayerSnapshot)
    ensures r.hidden.consistencyScore >= 0
    ensures p.hidden.consistencyScore + delta >= 0 ==> r.hidden.consistencyScore == p.hidden.consistencyScore + delta
    ensures p.hidden.consistencyScore + delta < 0 ==> r.hidden.consistencyScore == 0
    ensures r == p.(hidden := p.hidden.(consistencyScore := r.hidden.consistencyScore))
    ensures Valid(p) ==> Valid(r)
  {
    p.(hidden := p.hidden.(consistencyScore := Max(0, p.hidden.consistencyScore + delta)))
  }

  /** The tier a scandal value forces, if any: "max" from 100, "warning" from 40. */
  function ScandalTierFor(value: int, current: ScandalLevel): ScandalLevel {
    if value >= 100 then ScandalMax
    else if value >= 40 then ScandalWarning
    else current
  }

  function ApplyScandal(p: PlayerSnapshot, delta: int): (r: PlayerSnapshot)
    ensures r.hidden.scandalValue == Max(0, p.hidden.scandalValue + delta)
    ensures r.hidden.scandalValue >= 100 ==> r.scandal == ScandalMax
    ensures 40 <= r.hidden.scandalValue < 100 ==> r.scandal == ScandalWarning
    ensures r.hidden.scandalValue < 40 ==> r.scandal == p.scandal
    ensures p.scandal != NoScandal ==> r.scandal != NoScandal
    ensures r == p.(hidden := p.hidden.(scandalValue := r.hidden.scandalValue), scandal := r.scandal)
    ensures Valid(p) ==> Valid(r)
  {
    var value := Max(0, p.hidden.scandalValue + delta);
    p.(hidden := p.hidden.(scandalValue := value), scandal := ScandalTierFor(value, p.scandal))
  }

  function UpdateHaggard(p: PlayerSnapshot): (r: PlayerSnapshot)
    ensures r.haggard == Haggard <==> p.lifeStatus[Stress] >= 80 || p.attributes[Physical] <= 15
    ensures r == p.(haggard := r.haggard)
  {
    var stressHigh := p.lifeStatus[Stress] >= 80;
    var healthLow := p.attributes[Physical] <= 15;
    p.(haggard := if stressHigh || healthLow then Haggard else NotHaggard)
  }

  /** The stage for a number of turns left, by elapsed turns against the fixed 50-turn base. */
  function StageFor(turnsRemaining: int): StageId {
    var turnsUsed := StageBaseTurns - turnsRemaining;
    if turnsUsed >= 40 then 5
    else if turnsUsed >= 30 then 4
    else if turnsUsed >= 20 then 3
    else if turnsUsed >= 10 then 2
    else 1
  }

  /** One stage per ten elapsed turns, from stage 1 up to stage 5; nothing else changes. */
  function AdvanceStageIfNeeded(p: PlayerSnapshot): (r: PlayerSnapshot)
    ensures r.stage == Clamp((StageBaseTurns - p.turnsRemaining) / 10 + 1, 1, 5)
    ensures r == p.(stage := r.stage)
  {
    p.(stage := StageFor(p.turnsRemaining))
  }

  function EndTurn(p: PlayerSnapshot): (r: PlayerSnapshot)
    ensures r.turnsRemaining == Max(0, p.turnsRemaining - 1)
    ensures r.stage == StageFor(r.turnsRemaining)
    ensures r.haggard == Haggard <==> p.lifeStatus[Stress] >= 80 || p.attributes[Physical] <= 15
    ensures p.lifeStatus[Integrity] < 20 && p.scandal != ScandalMax ==> r.scandal == ScandalWarning
    ensures !(p.lifeStatus[Integrity] < 20 && p.scandal != ScandalMax) ==> r.scandal == p.scandal
    ensures p.scandal != NoScandal ==> r.scandal != NoScandal
    ensures r.attributes == p.attributes && r.lifeStatus == p.lifeStatus && r.hidden == p.hidden
    ensures Valid(p) ==> Valid(r)
  {
    var counted := p.(turnsRemaining := Max(0, p.turnsRemaining - 1));
    var staged := AdvanceStageIfNeeded(counted);
    var rested := UpdateHaggard(staged);
    if rested.lifeStatus[Integrity] < 20 && rested.scandal != ScandalMax then rested.(scandal := ScandalWarning)
    else rested
  }

  /** The stage never moves back when fewer turns remain. */
  lemma StageForMonotone(before: int, after: int)
    requires after <= before
    ensures StageFor(before) <= StageFor(after)
  {
  }

  /** Across `EndTurn` the stage is non-decreasing, provided the stage is not ahead of the
      turn count (true of `New` and kept by `EndTurn`). */
  lemma EndTurnStageNonDecreasing(p: PlayerSnapshot)
    requires p.stage <= StageFor(p.turnsRemaining)
    ensures p.stage <= EndTurn(p).stage
    ensures EndTurn(p).stage <= StageFor(EndTurn(p).turnsRemaining)
  {
    if p.turnsRemaining > 0 {
      StageForMonotone(p.turnsRemaining, EndTurn(p).turnsRemaining);
    }
  }

  /** The thresholds ignore the configured length: a 30-turn run is in stage 3 after one turn. */
  lemma ShortRunSkipsStages()
    ensures EndTurn(New(30)).stage == 3
  {
  }

  /** A negative scandal delta can take the level from "max" back down to "warning". */
  lemma ScandalCanStepDown(p: PlayerSnapshot, delta: int)
    requires p.scandal == ScandalMax
    requires 40 <= p.hidden.scandalValue + delta < 100
    ensures ApplyScandal(p, delta).scandal == ScandalWarning
  {
  }

  /** Integrity below 20 raises a "warning" at the next turn end, whatever the scandal value. */
  lemma LowIntegrityWarns(p: PlayerSnapshot)
    requires p.scandal == NoScandal && p.lifeStatus[Integrity] < 20
    ensures EndTurn(p).scandal == ScandalWarning
  {
  }
}
