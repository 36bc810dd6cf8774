/** The engine: one run's catalog, history, player and dream card, and the turn it resolves. */
module GameEngine {
  import opened Wrappers
  import opened Numeric
  import opened Types
  import PlayerState
  import Consistency
  import ScenarioHandler
  import Endings
  import IntroModule

  /** The three ways `resolveScenario` throws. */
  datatype ResolveError = ScenarioNotFound | OptionNotFound | RequirementNotMet

  /** The dream card lives here rather than in the player record; the engine never changes it. */
  datatype Engine = Engine(catalog: seq<Scenario>, history: seq<ScenarioResult>, player: PlayerSnapshot, dreamCard: DreamCard)

  /** What holds of every engine a run can reach: every counter floored at 0. */
  predicate Invariant(e: Engine) {
    PlayerState.Valid(e.player)
  }

  /** The stage is not ahead of the turn count; true of a new player and after every turn. */
  predicate StageOnTrack(p: PlayerSnapshot) {
    p.stage <= PlayerState.StageFor(p.turnsRemaining)
  }

  /** The constructor; a non-zero initial consistency is applied through the usual floor at 0. */
  function NewEngine(card: DreamCard, totalTurns: int, catalog: seq<Scenario>, initialConsistency: int): (e: Engine)
    ensures Invariant(e) && StageOnTrack(e.player)
    ensures e.history == [] && e.catalog == catalog && e.dreamCard == card
    ensures e.player.hidden.consistencyScore == Max(0, initialConsistency)
    ensures e.player == PlayerState.New(totalTurns).(hidden := e.player.hidden)
    ensures e.player.hidden.riasec == PlayerState.New(totalTurns).hidden.riasec
    ensures e.player.hidden.scandalValue == 0
  {
    var player := PlayerState.New(totalTurns);
    var player := if initialConsistency != 0 then PlayerState.ApplyConsistency(player, initialConsistency) else player;
    Engine(catalog, [], player, card)
  }

  /** `spinLifeWheel` with `Math.random()` given as `u`. */
  function SpinLifeWheel(u: real): (face: int)
    requires 0.0 <= u < 1.0
    ensures 1 <= face <= 6
    ensures (face - 1) as real <= u * 6.0 < face as real
  {
    (u * 6.0).Floor + 1
  }

  /** Each face comes from exactly one sixth of the unit interval. */
  lemma SpinLifeWheelFaces(u: real, face: int)
    requires 0.0 <= u < 1.0 && 1 <= face <= 6
    ensures SpinLifeWheel(u) == face <==> (face - 1) as real / 6.0 <= u < face as real / 6.0
  {
  }

  /** `nextScenario`: the handler is asked with an empty set of used ids. */
  function NextScenario(e: Engine, draw: nat): (r: Option<Scenario>)
    ensures r.None? <==> |e.catalog| == 0
    ensures r.Some? ==> r.value in e.catalog
    ensures |ScenarioHandler.GetByStage(e.catalog, e.player.stage)| > 0 ==> r.Some? && r.value.stage == e.player.stage
  {
    var r := ScenarioHandler.PickNextScenario(e.catalog, e.player.stage, {}, draw);
    ScenarioHandler.UnusedOfStage(e.catalog, e.player.stage, {});
    assert ScenarioHandler.Unused(ScenarioHandler.GetByStage(e.catalog, e.player.stage), {})
        == ScenarioHandler.GetByStage(e.catalog, e.player.stage) by {
      UnusedOfNothing(ScenarioHandler.GetByStage(e.catalog, e.player.stage));
    }
    r
  }

  lemma {:induction false} UnusedOfNothing(pool: seq<Scenario>)
    ensures ScenarioHandler.Unused(pool, {}) == pool
  {
    if pool != [] {
      UnusedOfNothing(pool[1..]);
      assert [pool[0]] + pool[1..] == pool;
    }
  }

  /** The history plays no part in the draw. */
  lemma NextScenarioIgnoresHistory(e: Engine, h: seq<ScenarioResult>, draw: nat)
    ensures NextScenario(e.(history := h), draw) == NextScenario(e, draw)
  {
  }

  /** Scenarios repeat: every scenario of the current stage, including one just resolved, is
      the outcome of some draw. */
  lemma ScenariosCanRepeat(e: Engine, x: Scenario)
    requires x in ScenarioHandler.GetByStage(e.catalog, e.player.stage)
    ensures exists d: nat :: NextScenario(e, d) == Some(x)
  {
    var inStage := ScenarioHandler.GetByStage(e.catalog, e.player.stage);
    UnusedOfNothing(inStage);
    assert ScenarioHandler.HasUnused(e.catalog, e.player.stage, {});
    ScenarioHandler.PickNextCoversPool(e.catalog, e.player.stage, {}, x);
    var d: nat :| ScenarioHandler.PickNextScenario(e.catalog, e.player.stage, {}, d) == Some(x);
    assert NextScenario(e, d) == Some(x);
  }

  /** The scandal points the scandal trigger adds. */
  const TriggerScandal := 20

  /** The option-level patch steps of `resolveScenario`, each applied only when present. */
  function PatchAttributes(p: PlayerSnapshot, patch: Option<map<AttributeKey, int>>): (r: PlayerSnapshot)
    requires PlayerState.Valid(p)
    ensures PlayerState.Valid(r)
    ensures forall k :: r.attributes[k] == Max(0, p.attributes[k] + Consistency.PatchValue(patch, k))
    ensures r == p.(attributes := r.attributes)
  {
    if patch.Some? then PlayerState.ApplyAttributes(p, patch.value) else p
  }

  function PatchLifeStatus(p: PlayerSnapshot, patch: Option<map<LifeStatusKey, int>>): (r: PlayerSnapshot)
    requires PlayerState.Valid(p)
    ensures PlayerState.Valid(r)
    ensures forall k :: r.lifeStatus[k] == Max(0, p.lifeStatus[k] + Consistency.PatchValue(patch, k))
    ensures r == p.(lifeStatus := r.lifeStatus)
  {
    if patch.Some? then PlayerState.ApplyLifeStatus(p, patch.value) else p
  }

  function PatchRiasec(p: PlayerSnapshot, patch: Option<map<RiasecKey, int>>): (r: PlayerSnapshot)
    requires PlayerState.Valid(p)
    ensures PlayerState.Valid(r)
    ensures forall k :: r.hidden.riasec[k] == Max(0, p.hidden.riasec[k] + Consistency.PatchValue(patch, k))
    ensures r == p.(hidden := p.hidden.(riasec := r.hidden.riasec))
  {
    if patch.Some? then PlayerState.ApplyRiasec(p, patch.value) else p
  }

  /** The level after the scandal steps of one effect, read off the final value alone: when
      either step ran, "max" from 100 and "warning" from 40; below 40, or when neither ran, the
      level the player had. */
  function ScandalAfter(before: ScandalLevel, touched: bool, value: int): ScandalLevel {
    if touched && value >= 100 then ScandalMax
    else if touched && value >= 40 then ScandalWarning
    else before
  }

  /** The explicit scandal delta (when it is a number) and then the trigger's fixed 20. */
  function PatchScandal(p: PlayerSnapshot, delta: Option<int>, trigger: bool): (r: PlayerSnapshot)
    requires PlayerState.Valid(p)
    ensures PlayerState.Valid(r)
    ensures r.hidden.scandalValue == Max(0, p.hidden.scandalValue + delta.GetOr(0)) + (if trigger then TriggerScandal else 0)
    ensures r.scandal == ScandalAfter(p.scandal, delta.Some? || trigger, r.hidden.scandalValue)
    ensures p.scandal != NoScandal ==> r.scandal != NoScandal
    ensures r == p.(hidden := p.hidden.(scandalValue := r.hidden.scandalValue), scandal := r.scandal)
  {
    var p1 := if delta.Some? then PlayerState.ApplyScandal(p, delta.value) else p;
    if trigger then PlayerState.ApplyScandal(p1, TriggerScandal) else p1
  }

  /** `scenario.options.find`. */
  function FindOption(options: seq<ScenarioOption>, id: OptionId): (r: Option<ScenarioOption>)
    ensures r.Some? ==> r.value.id == id
  {
    if options == [] then None
    else if options[0].id == id then Some(options[0])
    else FindOption(options[1..], id)
  }

  /** The search finds nothing exactly when no option has the id, and otherwise the first
      option that has it. */
  lemma {:induction false} FindOptionFirst(options: seq<ScenarioOption>, id: OptionId)
    ensures FindOption(options, id).None? <==> forall i :: 0 <= i < |options| ==> options[i].id != id
    ensures FindOption(options, id).Some? ==>
      exists i :: 0 <= i < |options| && options[i] == FindOption(options, id).value
                  && options[i].id == id && forall j :: 0 <= j < i ==> options[j].id != id
  {
    if options != [] && options[0].id != id {
      FindOptionFirst(options[1..], id);
      if FindOption(options, id).Some? {
        var i :| 0 <= i < |options[1..]| && options[1..][i] == FindOption(options, id).value
                 && options[1..][i].id == id && forall j :: 0 <= j < i ==> options[1..][j].id != id;
        assert options[i + 1] == options[1..][i];
      }
      if FindOption(options, id).None? {
        assert forall i :: 1 <= i < |options| ==> options[i] == options[1..][i - 1];
      }
    }
  }

  /** Every listed minimum is reached: a current value below its minimum fails the check. */
  predicate MeetsMinimums<K>(current: map<K, int>, minimums: Option<map<K, int>>) {
    minimums.None? || forall k :: k in minimums.value && k in current ==> current[k] >= minimums.value[k]
  }

  /** The option-level requirement check of `resolveScenario`. */
  predicate RequirementsMet(p: PlayerSnapshot, req: Option<Requirements>) {
    req.None?
    || (MeetsMinimums(p.attributes, req.value.minAttributes) && MeetsMinimums(p.lifeStatus, req.value.minLifeStatus))
  }

  /** The happiness nudge an effect gets when it touches no visible stat. */
  const DefaultHappiness := 5

  /** An effect touching neither attributes nor life status gets `{ happiness: 5 }`. */
  function NormalizeEffect(effect: OptionEffect): (r: OptionEffect)
    ensures r.attributes.Some? || r.lifeStatus.Some?
    ensures (effect.attributes.Some? || effect.lifeStatus.Some?) ==> r == effect
    ensures effect.attributes.None? && effect.lifeStatus.None? ==>
      r == effect.(lifeStatus := Some(map[Happiness := DefaultHappiness]))
  {
    if effect.attributes.None? && effect.lifeStatus.None? then
      effect.(lifeStatus := Some(map[Happiness := DefaultHappiness]))
    else effect
  }

  /** The program writes the nudge into the option's own effect object; since normalising twice
      changes nothing, later resolutions of that option behave the same, so the catalog is kept
      unchanged here. */
  lemma NormalizeIdempotent(effect: OptionEffect)
    ensures NormalizeEffect(NormalizeEffect(effect)) == NormalizeEffect(effect)
  {
  }

  /** The effect on the player, in the program's order: attributes, life status, personality
      vector, the explicit scandal delta, then the scandal trigger. */
  function ApplyEffect(p: PlayerSnapshot, effect: OptionEffect): (r: PlayerSnapshot)
    requires PlayerState.Valid(p)
    ensures PlayerState.Valid(r)
    ensures forall k :: r.attributes[k] == Max(0, p.attributes[k] + Consistency.PatchValue(effect.attributes, k))
    ensures forall k :: r.lifeStatus[k] == Max(0, p.lifeStatus[k] + Consistency.PatchValue(effect.lifeStatus, k))
    ensures forall k :: r.hidden.riasec[k] == Max(0, p.hidden.riasec[k] + Consistency.PatchValue(effect.riasec, k))
    ensures r.hidden.scandalValue
         == Max(0, p.hidden.scandalValue + effect.scandalDelta.GetOr(0)) + (if effect.triggers.scandal then TriggerScandal else 0)
    ensures r.scandal == ScandalAfter(p.scandal, effect.scandalDelta.Some? || effect.triggers.scandal, r.hidden.scandalValue)
    ensures p.scandal != NoScandal ==> r.scandal != NoScandal
    ensures r.hidden.consistencyScore == p.hidden.consistencyScore
    ensures r.stage == p.stage && r.turnsRemaining == p.turnsRemaining && r.haggard == p.haggard
  {
    var p1 := PatchAttributes(p, effect.attributes);
    var p2 := PatchLifeStatus(p1, effect.lifeStatus);
    var p3 := PatchRiasec(p2, effect.riasec);
    PatchScandal(p3, effect.scandalDelta, effect.triggers.scandal)
  }

  /** The player side of a turn: the effect, the consistency delta, then the end of turn. */
  function PlayTurn(p: PlayerSnapshot, effect: OptionEffect, delta: int): (q: PlayerSnapshot)
    requires PlayerState.Valid(p)
    ensures PlayerState.Valid(q)
    ensures TurnEffects(p, effect, delta, q)
    ensures StageOnTrack(p) ==> p.stage <= q.stage
  {
    var applied := ApplyEffect(p, effect);
    var scored := PlayerState.ApplyConsistency(applied, delta);
    if StageOnTrack(p) then
      PlayerState.EndTurnStageNonDecreasing(scored);
      PlayerState.EndTurn(scored)
    else PlayerState.EndTurn(scored)
  }

  /** What one turn does to the player, stated against the player before it. */
  ghost predicate TurnEffects(p: PlayerSnapshot, effect: OptionEffect, delta: int, q: PlayerSnapshot) {
    && q.turnsRemaining == Max(0, p.turnsRemaining - 1)
    && q.stage == PlayerState.StageFor(q.turnsRemaining)
    && (forall k :: q.attributes[k] == Max(0, p.attributes[k] + Consistency.PatchValue(effect.attributes, k)))
    && (forall k :: q.lifeStatus[k] == Max(0, p.lifeStatus[k] + Consistency.PatchValue(effect.lifeStatus, k)))
    && (forall k :: q.hidden.riasec[k] == Max(0, p.hidden.riasec[k] + Consistency.PatchValue(effect.riasec, k)))
    && q.hidden.scandalValue
       == Max(0, p.hidden.scandalValue + effect.scandalDelta.GetOr(0)) + (if effect.triggers.scandal then TriggerScandal else 0)
    && q.hidden.consistencyScore == Max(0, p.hidden.consistencyScore + delta)
    && (q.haggard == Haggard <==> q.lifeStatus[Stress] >= 80 || q.attributes[Physical] <= 15)
    && q.scandal == IntegrityCheck(q.lifeStatus[Integrity],
                      ScandalAfter(p.scandal, effect.scandalDelta.Some? || effect.triggers.scandal, q.hidden.scandalValue))
    && (p.scandal != NoScandal ==> q.scandal != NoScandal)
  }

  /** The end-of-turn integrity rule: integrity below 20 forces "warning" unless the level is "max". */
  function IntegrityCheck(integrity: int, level: ScandalLevel): ScandalLevel {
    if integrity < 20 && level != ScandalMax then ScandalWarning else level
  }

  /** The successful tail of `resolveScenario` for a found option whose requirements hold. */
  function Commit(e: Engine, scenarioId: string, option: ScenarioOption): (out: (Engine, ScenarioResult))
    requires Invariant(e)
    ensures Invariant(out.0)
    ensures out.0 == e.(history := e.history + [out.1], player := out.1.snapshot)
    ensures out.1.scenarioId == scenarioId && out.1.optionId == option.id
    ensures out.1.delta == NormalizeEffect(option.effect)
    ensures var score := Consistency.ScoreConsistency(e.dreamCard, out.1.delta);
            out.1.reflection == Reflection(score.delta, score.scandalPenalty, score.notes)
    ensures TurnEffects(e.player, out.1.delta, out.1.reflection.consistencyDelta, out.1.snapshot)
    ensures StageOnTrack(e.player) ==> e.player.stage <= out.1.snapshot.stage
  {
    var effect := NormalizeEffect(option.effect);
    var consistency := Consistency.ScoreConsistency(e.dreamCard, effect);
    var ended := PlayTurn(e.player, effect, consistency.delta);
    var result := ScenarioResult(scenarioId, option.id, effect, ended,
                                 Reflection(consistency.delta, consistency.scandalPenalty, consistency.notes));
    (e.(history := e.history + [result], player := ended), result)
  }

  /** `resolveScenario`: look up the scenario and option, check the option's requirements, apply
      the (normalised) effect, score consistency, end the turn and log the result. On an error
      the engine is returned unchanged. */
  function Resolve(e: Engine, scenarioId: string, optionId: OptionId): (out: (Engine, Result<ScenarioResult, ResolveError>))
    requires Invariant(e)
    ensures out.1.Err? ==> out.0 == e
    ensures Invariant(out.0)
    ensures out.0.catalog == e.catalog && out.0.dreamCard == e.dreamCard
    ensures out.1.Ok? ==>
      && out.0.history == e.history + [out.1.value]
      && out.1.value.snapshot == out.0.player
      && out.1.value.scenarioId == scenarioId && out.1.value.optionId == optionId
    ensures out.1.Ok? ==> var score := Consistency.ScoreConsistency(e.dreamCard, out.1.value.delta);
            out.1.value.reflection == Reflection(score.delta, score.scandalPenalty, score.notes)
    ensures out.1.Ok? ==> TurnEffects(e.player, out.1.value.delta, out.1.value.reflection.consistencyDelta, out.0.player)
    ensures StageOnTrack(e.player) ==> StageOnTrack(out.0.player) && e.player.stage <= out.0.player.stage
  {
    match ScenarioHandler.GetScenarioById(e.catalog, scenarioId)
    case None => (e, Err(ScenarioNotFound))
    case Some(scenario) =>
      match FindOption(scenario.options, optionId)
      case None => (e, Err(OptionNotFound))
      case Some(option) =>
        if !RequirementsMet(e.player, option.requirements) then (e, Err(RequirementNotMet))
        else
          var (after, result) := Commit(e, scenarioId, option);
          (after, Ok(result))
  }

  /** Which error `resolveScenario` raises, and that it succeeds exactly when the scenario and
      option are found and the option's requirements hold. */
  lemma ResolveOutcomes(e: Engine, scenarioId: string, optionId: OptionId)
    requires Invariant(e)
    ensures var r := Resolve(e, scenarioId, optionId).1;
      && (r == Err(ScenarioNotFound) <==> forall i :: 0 <= i < |e.catalog| ==> e.catalog[i].id != scenarioId)
      && (r == Err(OptionNotFound) <==>
            exists s :: ScenarioHandler.GetScenarioById(e.catalog, scenarioId) == Some(s)
                        && forall i :: 0 <= i < |s.options| ==> s.options[i].id != optionId)
      && (r == Err(RequirementNotMet) <==>
            exists s, o :: ScenarioHandler.GetScenarioById(e.catalog, scenarioId) == Some(s)
                           && FindOption(s.options, optionId) == Some(o) && !RequirementsMet(e.player, o.requirements))
      && (r.Ok? <==>
            exists s, o :: ScenarioHandler.GetScenarioById(e.catalog, scenarioId) == Some(s)
                           && FindOption(s.options, optionId) == Some(o) && RequirementsMet(e.player, o.requirements)
                           && r.value.delta == NormalizeEffect(o.effect))
  {
    ScenarioHandler.GetScenarioByIdFirst(e.catalog, scenarioId);
    match ScenarioHandler.GetScenarioById(e.catalog, scenarioId)
    case None =>
    case Some(s) => FindOptionFirst(s.options, optionId);
  }

  /** An allowed choice always resolves, and nothing stops a turn once no turns remain: the
      entry is still logged and the count stays at 0. */
  lemma AllowedChoiceResolves(e: Engine, c: Choice)
    requires Invariant(e)
    ensures AlwaysAllowed(e.catalog, c) ==>
      && Resolve(e, c.scenarioId, c.optionId).1.Ok?
      && |Resolve(e, c.scenarioId, c.optionId).0.history| == |e.history| + 1
      && Resolve(e, c.scenarioId, c.optionId).0.player.turnsRemaining == Max(0, e.player.turnsRemaining - 1)
    ensures AlwaysAllowed(e.catalog, c) && e.player.turnsRemaining == 0 ==>
      Resolve(e, c.scenarioId, c.optionId).0.player.turnsRemaining == 0
  {
  }

  /** One player decision. */
  datatype Choice = Choice(scenarioId: string, optionId: OptionId)

  /** The choice names a scenario and option that exist, and the option has no requirements. */
  predicate AlwaysAllowed(catalog: seq<Scenario>, c: Choice) {
    && ScenarioHandler.GetScenarioById(catalog, c.scenarioId).Some?
    && FindOption(ScenarioHandler.GetScenarioById(catalog, c.scenarioId).value.options, c.optionId).Some?
    && FindOption(ScenarioHandler.GetScenarioById(catalog, c.scenarioId).value.options, c.optionId).value.requirements.None?
  }

  /** One decision as the UI makes it: resolve the choice; a failing choice leaves the engine
      as it was. */
  method Step(e: Engine, c: Choice) returns (r: Engine)
    requires Invariant(e)
    ensures Invariant(r)
    ensures r.catalog == e.catalog && r.dreamCard == e.dreamCard
    ensures e.history <= r.history && |r.history| <= |e.history| + 1
    ensures StageOnTrack(e.player) ==> StageOnTrack(r.player) && e.player.stage <= r.player.stage
    ensures e.player.scandal != NoScandal ==> r.player.scandal != NoScandal
    ensures AlwaysAllowed(e.catalog, c) ==>
      |r.history| == |e.history| + 1 && r.player.turnsRemaining == Max(0, e.player.turnsRemaining - 1)
  {
    AllowedChoiceResolves(e, c);
    r := Resolve(e, c.scenarioId, c.optionId).0;
  }

  /** Every choice names an option that exists and asks nothing. */
  predicate AllAllowed(catalog: seq<Scenario>, choices: seq<Choice>) {
    forall i :: 0 <= i < |choices| ==> AlwaysAllowed(catalog, choices[i])
  }

  /** A run: the screen resolving the player's choices in order. Allowed choices each log an
      entry and use up a turn, floored at 0; nothing stops the run when the turns are gone. */
  method PlayChoices(e: Engine, choices: seq<Choice>) returns (r: Engine)
    requires Invariant(e)
    ensures Invariant(r)
    ensures r.catalog == e.catalog && r.dreamCard == e.dreamCard
    ensures e.history <= r.history && |r.history| <= |e.history| + |choices|
    ensures StageOnTrack(e.player) ==> StageOnTrack(r.player) && e.player.stage <= r.player.stage
    ensures e.player.scandal != NoScandal ==> r.player.scandal != NoScandal
    ensures AllAllowed(e.catalog, choices) ==> |r.history| == |e.history| + |choices|
    ensures AllAllowed(e.catalog, choices) && |choices| > 0 ==>
      r.player.turnsRemaining == Max(0, e.player.turnsRemaining - |choices|)
  {
    ghost var allowed := AllAllowed(e.catalog, choices);
    r := e;
    var i := 0;
    while i < |choices|
      invariant 0 <= i <= |choices|
      invariant Invariant(r)
      invariant r.catalog == e.catalog && r.dreamCard == e.dreamCard
      invariant e.history <= r.history && |r.history| <= |e.history| + i
      invariant StageOnTrack(e.player) ==> StageOnTrack(r.player) && e.player.stage <= r.player.stage
      invariant e.player.scandal != NoScandal ==> r.player.scandal != NoScandal
      invariant allowed ==> |r.history| == |e.history| + i
      invariant allowed ==> r.player.turnsRemaining == if i == 0 then e.player.turnsRemaining else Max(0, e.player.turnsRemaining - i)
    {
      if allowed {
        assert AlwaysAllowed(r.catalog, choices[i]);
      }
      r := Step(r, choices[i]);
      i := i + 1;
    }
  }

  /** `n` copies of one choice. */
  function Repeat(c: Choice, n: nat): (cs: seq<Choice>)
    ensures |cs| == n
    ensures forall i :: 0 <= i < n ==> cs[i] == c
  {
    if n == 0 then [] else [c] + Repeat(c, n - 1)
  }

  /** From a fresh engine with `totalTurns` turns, `totalTurns + 1` allowed choices all resolve:
      the history ends longer than the run and the turn count rests at 0. */
  method PlayPastLastTurn(card: DreamCard, totalTurns: nat, catalog: seq<Scenario>, c: Choice) returns (r: Engine)
    requires AlwaysAllowed(catalog, c)
    ensures r.catalog == catalog && r.dreamCard == card
    ensures |r.history| == totalTurns + 1 > totalTurns
    ensures r.player.turnsRemaining == 0
  {
    var e := NewEngine(card, totalTurns, catalog, 0);
    r := PlayChoices(e, Repeat(c, totalTurns + 1));
  }

  /** The weight counts twice: the recorded delta is already weighted, and the ending score
      multiplies it by the weight again (an alignment of 4 with weight 2 adds 16, not 8). */
  lemma EndingScoreWeighsTwice(card: DreamCard, effect: OptionEffect)
    requires card.secondaryRiasec.None?
    requires effect.riasec == Some(map[card.primaryRiasec := 1])
    requires effect.lifeStatus.None? && !effect.triggers.scandal && !effect.triggers.legend
    requires effect.consistencyWeight == Some(2.0)
    ensures var score := Consistency.ScoreConsistency(card, effect);
            score.delta == 8
            && Endings.Contribution(ScenarioResult("", OptionA, effect, PlayerState.New(0),
                 Reflection(score.delta, score.scandalPenalty, score.notes))) == 16.0
  {
    assert Consistency.Alignment(card, effect) == 4;
    assert Consistency.Multiplier(effect) == 2.0;
  }

  /** The report's job list: six suggestions per leading intro stat; their text is not modelled. */
  datatype JobSuggestion = JobSuggestion(track: IntroStatKey, rank: int)

  const JobsPerTrack := 6

  function CareerSuggestions(track: IntroStatKey): (jobs: seq<JobSuggestion>)
    ensures |jobs| == JobsPerTrack
    ensures forall i :: 0 <= i < |jobs| ==> jobs[i] == JobSuggestion(track, i)
  {
    seq(JobsPerTrack, i => JobSuggestion(track, i))
  }

  /** `getDominantIntroTrait`: no stats, no trait; otherwise the leading entry's key. */
  function DominantIntroTrait(stats: Option<IntroStats>): (r: Option<IntroStatKey>)
    ensures r.None? <==> stats.None?
    ensures r.Some? ==> r.value == IntroModule.LeadingEntry(IntroModule.Entries(stats.value)).0
  {
    match stats
    case None => None
    case Some(st) => Some(IntroModule.LeadingEntry(IntroModule.Entries(st)).0)
  }

  /** `buildCareerSuggestions`. */
  function BuildCareerSuggestions(profile: Option<IntroProfile>): (jobs: seq<JobSuggestion>)
    ensures |jobs| == 0 <==> profile.None? || profile.value.stats.None?
    ensures |jobs| > 0 ==> (|jobs| == JobsPerTrack
      && forall i :: 0 <= i < |jobs| ==> jobs[i].track == DominantIntroTrait(profile.value.stats).value)
  {
    var dominant := if profile.Some? then DominantIntroTrait(profile.value.stats) else None;
    if dominant.None? then [] else CareerSuggestions(dominant.value)
  }

  /** For a profile from the questionnaire, the report's job track and the suggested career
      come from the same leading stat. */
  lemma JobsFollowSuggestedCareer(name: string, age: string, gender: string, answers: IntroModule.Answers)
    ensures var profile := IntroModule.HandleStart(name, age, gender, answers);
            var jobs := BuildCareerSuggestions(Some(profile));
            |jobs| == JobsPerTrack
            && (jobs[0].track == Ambition <==> profile.suggestedCareer == TraineeLawyer)
            && (jobs[0].track == Creativity <==> profile.suggestedCareer == JuniorDesigner)
            && (jobs[0].track == Stability <==> profile.suggestedCareer == SteadyClerk)
  {
  }

  datatype LifeReflectionReport = LifeReflectionReport(
    ending: Endings.EndingId,
    endingScore: int,
    riasecProfile: RiasecVec,
    stageSummaries: map<StageId, nat>,
    suggestedJobs: seq<JobSuggestion>)

  /** `generateLifeReflectionReport`. */
  function GenerateLifeReflectionReport(e: Engine, profile: Option<IntroProfile>): (report: LifeReflectionReport)
    ensures report.ending != Endings.Gambler && report.ending != Endings.Awakening
    ensures -Endings.EndingScoreBound <= report.endingScore <= Endings.EndingScoreBound
    ensures report.riasecProfile == e.player.hidden.riasec
    ensures report.endingScore == Endings.GetEndingScore(e.history)
    ensures report.stageSummaries.Keys == {1, 2, 3, 4, 5}
    ensures report.stageSummaries == Endings.StageSummaries(e.catalog, e.history)
    ensures Endings.TallySum(report.stageSummaries) == |e.history|
    ensures report.suggestedJobs == BuildCareerSuggestions(profile)
    ensures |report.suggestedJobs| == 0 <==> profile.None? || profile.value.stats.None?
  {
    var ending := Endings.EvaluateEnding(e.player, e.history);
    Endings.GamblerAndAwakeningUnreachable(e.player, e.history);
    var score := Endings.GetEndingScore(e.history);
    var tally := Endings.StageSummaries(e.catalog, e.history);
    var jobs := BuildCareerSuggestions(profile);
    LifeReflectionReport(ending, score, e.player.hidden.riasec, tally, jobs)
  }

  /** The report names the first ending of the table whose rule holds for the final player and
      history, or the default ending when none does. */
  lemma ReportReadsTheRun(e: Engine, profile: Option<IntroProfile>)
    ensures var report := GenerateLifeReflectionReport(e, profile);
            && report.ending == Endings.EvaluateEnding(e.player, e.history)
            && (report.ending == Endings.DefaultEnding <==>
                  forall j :: 0 <= j < |Endings.EndingTable| ==> !Endings.Matches(Endings.EndingTable[j], e.player, e.history))
            && (report.ending != Endings.DefaultEnding ==>
                  exists i :: 0 <= i < |Endings.EndingTable| && Endings.EndingTable[i] == report.ending
                              && Endings.Matches(report.ending, e.player, e.history)
                              && forall j :: 0 <= j < i ==> !Endings.Matches(Endings.EndingTable[j], e.player, e.history))
  {
  }

  /** The report's score is the sum over the history, rounded and clamped to [-500, 500]. */
  lemma ReportScoresTheRun(e: Engine, profile: Option<IntroProfile>)
    ensures var score := GenerateLifeReflectionReport(e, profile).endingScore;
            var raw := Endings.RawScore(e.history);
            && (e.history == [] ==> score == 0)
            && (-Endings.EndingScoreBound as real <= raw <= Endings.EndingScoreBound as real ==>
                  raw - 1.0 / 2.0 < score as real <= raw + 1.0 / 2.0)
            && (raw > Endings.EndingScoreBound as real ==> score == Endings.EndingScoreBound)
            && (raw < -Endings.EndingScoreBound as real ==> score == -Endings.EndingScoreBound)
  {
  }

  /** Each stage's count in the report is the number of history entries filed under that stage. */
  lemma ReportTalliesTheRun(e: Engine, profile: Option<IntroProfile>, s: StageId)
    ensures GenerateLifeReflectionReport(e, profile).stageSummaries[s] == |Endings.StagePositions(e.catalog, e.history, s)|
  {
    Endings.StageSummariesCount(e.catalog, e.history, s);
  }
}
