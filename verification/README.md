# Lifejourney engine — a Dafny model

Lifejourney is a turn-based life simulation. A player picks a dream card and then answers
scenarios, one per turn. Each scenario option carries an effect. The effect patches the player's
attributes, life status and hidden personality vector (the six RIASEC keys). The option's
alignment with the dream card is scored into a consistency value, and the run ends in a
reflection report that names an ending.

This project models the engine under `src/engine/` together with the pure helpers of the UI
layer. It uses immutable datatypes and pure functions. Methods appear only where a loop is the
natural form.

| file | module | what it models |
|---|---|---|
| `wrappers.dfy` | `Wrappers` | `Option` (for `undefined`/`null`, with `GetOr` for `??`) and `Result` (for thrown errors) |
| `numeric.dfy` | `Numeric` | `Math.max`/`Math.min`, the `clamp` helper, and `Math.round` as `Floor(x + 1/2)` |
| `types.dfy` | `Types` | The records of `src/engine/types.ts`. Attribute, life-status and personality records are total maps over their key types. |
| `player_state.dfy` | `PlayerState` | `PlayerState`: defaults, the floored patch operations, the scandal tiers, fatigue, stages and `endTurn` |
| `consistency.dfy` | `Consistency` | `scoreConsistency` and `dominantRiasec` |
| `scenario_handler.dfy` | `ScenarioHandler` | `getByStage`, `getScenarioById` and the fallback chain of `pickNextScenario` |
| `endings.dfy` | `Endings` | `getEndingScore`, the ordered ending table of `evaluateEnding`, `isBalancedProfile`, `isMostlyStableDecisions` and the per-stage tally of the report |
| `game_engine.dfy` | `GameEngine` | The `GameEngine` class: constructor, `spinLifeWheel`, `nextScenario`, `resolveScenario` (as a `Result`), career suggestions and the report. Also runs of several decisions. |
| `intro_module.dfy` | `IntroModule` | Questionnaire scoring, `getSuggestedCareer`, `goToNextStep`, `canNext` and `handleStart` |
| `game_screen.dfy` | `GameScreen` | The game screen's pure helpers: dream cards, dominant trait, recommended card, destiny bonus, option lock, path arithmetic, and the stand-in scenario |
| `ui_manager.dfy` | `UiManager` | `getMood`, `getHudBars` and `buildLifeWheel` |

Modelling choices:

- **The engine is a value.** `Engine(catalog, history, player, dreamCard)` is a datatype.
  - `Resolve` returns the next engine together with `Ok(result)` or `Err(...)`.
  - The three errors of `resolveScenario` are `ScenarioNotFound`, `OptionNotFound` and `RequirementNotMet`.
  - On an error the engine comes back unchanged, which is the all-or-nothing behaviour of the original: it throws before touching anything.
- **Random numbers are inputs.**
  - `Math.random()` in `spinLifeWheel` is a real `u` in [0, 1).
  - In `pickNextScenario` it is a natural `draw`, reduced modulo the pool size.
  - Lemmas state that every face, and every pool member, is the outcome of some input.
- **Numbers.** Stats are unbounded integers. Consistency weights and the scores that pass through
  rounding are `real`.
- **The scenario catalog is a parameter.** The data module `src/data/scenarios` is not part of this
  model.
- **The dream card lives in the engine datatype, not in the player record.** Nothing ever changes it.
- **Runs of decisions.** `GameEngine.PlayChoices` resolves a sequence of `(scenarioId, optionId)`
  choices in order, the way the screen does.

The model follows the code as written, including these behaviours, which a reader might not expect:

- **Scandal level.** The level can step down from "max" to "warning" when a negative scandal delta
  brings the value into [40, 100). It never returns to "none".
- **Stages.** The thresholds are fixed against 50 turns, whatever `totalTurns` is.
- **Repeats.** `nextScenario` passes no used ids, so scenarios repeat even while unseen ones remain.
- **No turn guard.** Nothing stops a resolve once `turnsRemaining` is 0, so the history can outgrow the run.
- **Weights.**
  - The scorer ignores a weight of 0, because 0 is falsy.
  - The ending score keeps a weight of 0, since it uses `?? 1`.
  - The ending score also multiplies by the weight a second time.
- **Option requirements only.** Only option-level requirements are checked. Scenario-level
  `requirements` are carried but never read.

## Model

| member | source | states |
|---|---|---|
| Numeric.Clamp | src/engine/gameEngine.ts:21-22 | The result lies in [lo, hi]. It equals the value when the value is inside, and the nearer bound otherwise. |
| Numeric.Round | src/engine/consistency.ts:51 | `Math.round` gives an integer within half a unit of its argument, with halves going up. |
| PlayerState.New | src/engine/playerState.ts:13-52 | A new player has these properties: every attribute, life-status and personality value is positive; the stage is 1; `totalTurns` turns remain; both flags are off; consistency and scandal are 0. |
| PlayerState.ApplyPatch | src/engine/playerState.ts:70-86 | Each key the patch names becomes max(0, old + delta). Keys the patch does not name keep their value. No key is added, and non-negative records stay non-negative. |
| PlayerState.ApplyAttributes | src/engine/playerState.ts:70-74 | Floored patch of the attributes. Nothing else in the player record changes. |
| PlayerState.ApplyLifeStatus | src/engine/playerState.ts:76-80 | Floored patch of the life status. Nothing else changes. |
| PlayerState.ApplyRiasec | src/engine/playerState.ts:82-86 | Floored patch of the personality vector. Nothing else changes. |
| PlayerState.ApplyConsistency | src/engine/playerState.ts:88-90 | The score becomes old + delta, or 0 if that would be negative. It is never negative. |
| PlayerState.ApplyScandal | src/engine/playerState.ts:92-99 | The new value is max(0, old + delta). At 100 or more the level is "max"; in [40, 100) it is "warning"; below 40 it is unchanged. A raised level never returns to "none". |
| PlayerState.UpdateHaggard | src/engine/playerState.ts:101-105 | Fatigue is on exactly when stress ≥ 80 or the physical attribute ≤ 15. It is recomputed each time, so it is not sticky. |
| PlayerState.AdvanceStageIfNeeded | src/engine/playerState.ts:107-120 | Stage = clamp((50 − turns left) / 10 + 1, 1, 5): one stage per ten elapsed turns, counted against 50. |
| PlayerState.EndTurn | src/engine/playerState.ts:122-129 | Turns left become max(0, old − 1) and the stage follows them. Fatigue is recomputed. Integrity below 20 forces "warning" unless the level is "max". The counters are unchanged, and a raised scandal level stays raised. |
| PlayerState.StageForMonotone | src/engine/playerState.ts:107-120 | Fewer turns left never gives an earlier stage. |
| PlayerState.EndTurnStageNonDecreasing | src/engine/playerState.ts:122-124 | Across `endTurn` the stage never decreases, and it stays in step with the turn count. |
| PlayerState.ShortRunSkipsStages | src/engine/playerState.ts:108 | With a 30-turn run, one turn already puts the player in stage 3, because the thresholds assume 50 turns. |
| PlayerState.ScandalCanStepDown | src/engine/playerState.ts:92-99 | From "max", a negative delta that lands the value in [40, 100) sets the level to "warning". |
| PlayerState.LowIntegrityWarns | src/engine/playerState.ts:126-128 | Integrity below 20 raises "warning" at the end of the turn, whatever the scandal value. |
| Consistency.TraitScore | src/engine/consistency.ts:28-45 | The additive score computed step by step equals the reference sum: 4·primary + 2·secondary (absent secondary adds 0) + 1·integrity + 20 for a legend. |
| Consistency.WeightedScore | src/engine/consistency.ts:47-49 | The weighted score is the reference alignment times the weight. An absent or zero weight multiplies by 1. |
| Consistency.ScoreConsistency | src/engine/consistency.ts:16-53 | The delta is in [−30, 30], and equals the rounded, clamped weighted score minus the penalty; the penalty is not weighted. The penalty is 15 exactly when the scandal trigger is set. The notes are the scandal note iff that trigger is set, then the legend note iff the legend trigger is set. |
| Consistency.PlainTraitScore | src/engine/consistency.ts:28-31 | With no weight, triggers or integrity, the delta is clamp(4·primary + 2·secondary, −30, 30), and the secondary term is dropped without a secondary key. |
| Consistency.ZeroWeightIgnored | src/engine/consistency.ts:47-49 | A weight of 0 scores exactly like an absent weight. |
| Consistency.DominantRiasec | src/engine/consistency.ts:55-57 | The key returned holds a value ≥ every other value. Every key before it in enumeration order holds less, as the head of a stable descending sort. |
| ScenarioHandler.GetByStage | src/engine/scenarioHandler.ts:10-12 | The result holds exactly the catalog entries of that stage. |
| ScenarioHandler.GetByStageAppend | src/engine/scenarioHandler.ts:10-12 | Filtering distributes over concatenation, so catalog order is kept. |
| ScenarioHandler.Unused | src/engine/scenarioHandler.ts:25 | The result holds exactly the pool entries whose id is not used. |
| ScenarioHandler.GetScenarioByIdFirst | src/engine/scenarioHandler.ts:14-16 | The lookup is empty iff no entry has the id. Otherwise it returns the first entry with that id. |
| ScenarioHandler.LaterPool | src/engine/scenarioHandler.ts:30-37 | The scan over later stages returns the non-empty unused pool of the lowest later stage that has one. It returns none iff no later stage has one. |
| ScenarioHandler.ChoosePool | src/engine/scenarioHandler.ts:23-46 | The pool is empty iff the catalog is. It is the stage's unused entries if any exist; else those of the lowest later stage with any; else the whole stage; else the whole catalog. |
| ScenarioHandler.DrawFrom | src/engine/scenarioHandler.ts:45-46 | An indexed draw is none iff the pool is empty, and otherwise a pool member. |
| ScenarioHandler.DrawFromCovers | src/engine/scenarioHandler.ts:45-46 | Every pool member is the outcome of some draw. |
| ScenarioHandler.PickNextScenario | src/engine/scenarioHandler.ts:23-47 | None iff the catalog is empty, otherwise a catalog member. Prefers an unused entry of the stage, then an unused entry of the lowest later stage that has one. When everything from the stage onward is used, it repeats an entry of the stage if the stage has any. |
| ScenarioHandler.PickNextCoversPool | src/engine/scenarioHandler.ts:23-47 | Every member of the chosen pool can be picked. |
| Endings.RawScoreSplit | src/engine/gameEngine.ts:183-186 | The ending-score fold is additive over any split of the history. |
| Endings.GetEndingScore | src/engine/gameEngine.ts:182-188 | The ending score is an integer in [−500, 500], and 0 for an empty history. Inside the bounds it is within half a unit of the raw sum of (weight ?? 1)·delta − penalty. Above 500 it is 500, and below −500 it is −500. |
| Endings.CountStable | src/engine/gameEngine.ts:288-289 | The count is the number of positions whose entry has a non-zero weight of at least 1.2, the length of the filtered list. It never exceeds the history length. |
| Endings.MaxOf | src/engine/gameEngine.ts:282 | `Math.max` of a non-empty list is one of its values and at least every value. |
| Endings.MinOf | src/engine/gameEngine.ts:283 | `Math.min` of a non-empty list is one of its values and at most every value. |
| Endings.BalancedIsSpread | src/engine/gameEngine.ts:280-285 | The profile is balanced (every two attributes within 15 of each other) iff the largest attribute minus the smallest is at most 15. |
| Endings.ShortHistoryIsStable | src/engine/gameEngine.ts:287-290 | A history of fewer than three entries is "mostly stable". |
| Endings.FirstMatch | src/engine/gameEngine.ts:190-258 | Returns the index of the first rule from `from` on that matches, or the table length if none does. |
| Endings.EvaluateEnding | src/engine/gameEngine.ts:190-259 | The result is the default ending iff no rule matches. Otherwise it is a rule that matches, with no earlier rule matching. |
| Endings.ReversalStopsSearch | src/engine/gameEngine.ts:209-211 | A "Reversal roulette" note ends the search by the fifth rule. |
| Endings.GamblerAndAwakeningUnreachable | src/engine/gameEngine.ts:239-256 | "ending-gambler" and "ending-awakening" are never chosen. |
| Endings.StageSummaries | src/engine/gameEngine.ts:268-275 | The tally has exactly the keys 1 to 5, and its counts sum to the history length. |
| Endings.StageSummariesCount | src/engine/gameEngine.ts:268-275 | Each stage's count is the number of history positions filed under that stage: the scenario's stage, or 1 when the id is unknown. |
| IntroModule.BeliefGain | src/ui/components/IntroModule.tsx:25-29 | The belief answer adds 1 or 2 points to one stat. |
| IntroModule.MattersGain | src/ui/components/IntroModule.tsx:30-34 | The "what matters" answer adds 1 or 2 points to one stat. |
| IntroModule.SuperpowerGain | src/ui/components/IntroModule.tsx:35-40 | The superpower answer adds 1 or 2 points to one stat. |
| IntroModule.GoalGain | src/ui/components/IntroModule.tsx:41-44 | The core-goal answer adds 1 or 2 points to one stat. |
| IntroModule.AnswerGains | src/ui/components/IntroModule.tsx:25-44 | There are four questions. Each answered one gains 1 or 2 points. |
| IntroModule.ComputeStatsFromAnswers | src/ui/components/IntroModule.tsx:15-46 | All stats are ≥ 0 and sum to at most 8. No answers gives all zeros. |
| IntroModule.OneAnswerAdded | src/ui/components/IntroModule.tsx:21-44 | Adding one answer raises exactly one stat by 1 or 2 and leaves the others. |
| IntroModule.AnsweringAddsToOneStat | src/ui/components/IntroModule.tsx:21-44 | For every question and every answer, answering it (all else equal) adds 1 or 2 points to exactly one stat. |
| IntroModule.BeliefFateScoring | src/ui/components/IntroModule.tsx:25-29 | "yes" gives Ambition 2, "no" gives Stability 2, "not sure" gives Creativity 1. |
| IntroModule.LeadingEntry | src/ui/components/IntroModule.tsx:76-79 | The reduce yields a value ≥ every entry's, and ≥ −1. It is either the sentinel or an entry that no earlier entry ties. |
| IntroModule.GetSuggestedCareer | src/ui/components/IntroModule.tsx:74-90 | The label is that of the leading stat. The explorer label never occurs. |
| IntroModule.LeadingKeyIsFirstMaximum | src/ui/components/IntroModule.tsx:75-79 | On non-negative stats the leading key is the first stat holding the maximum; ties go to the earlier key. |
| IntroModule.SuggestedCareerIsFirstMaximum | src/ui/components/IntroModule.tsx:74-90 | On non-negative stats the suggestion names the first stat holding the maximum, in both directions. |
| IntroModule.GoToNextStep | src/ui/components/IntroModule.tsx:107-109 | The next step is the step plus one, capped at 5. |
| IntroModule.TrimStart | src/ui/components/IntroModule.tsx:128 | The result is a suffix that starts with a non-space. Only white space was removed. |
| IntroModule.TrimEnd | src/ui/components/IntroModule.tsx:128 | The result is a prefix that ends with a non-space. Only white space was removed. |
| IntroModule.TrimEmptyIffBlank | src/ui/components/IntroModule.tsx:128 | The trimmed name is non-empty iff the name has a character that is not white space. |
| IntroModule.CanNext | src/ui/components/IntroModule.tsx:126-137 | Step 0 needs a non-blank name. Steps 1 to 4 each need their answer. Any other step may always advance. |
| IntroModule.HandleStart | src/ui/components/IntroModule.tsx:111-124 | The profile copies the name, age, gender and given answers. The goal defaults to "peace". The stats are those scored from the answers as given (not the defaulted goal), total at most 8, and the career is the one suggested for them. |
| IntroModule.DefaultGoalScoresNothing | src/ui/components/IntroModule.tsx:119-121 | With no goal chosen the profile says "peace", yet Stability is 2 lower than if "peace" had been chosen. |
| GameEngine.NewEngine | src/engine/gameEngine.ts:86-97 | A fresh engine has an empty history, the given catalog and card, and the default player. Its consistency is max(0, initial), and the invariants hold. |
| GameEngine.SpinLifeWheel | src/engine/gameEngine.ts:107-109 | The face is in 1..6, and u·6 lies in [face − 1, face). |
| GameEngine.SpinLifeWheelFaces | src/engine/gameEngine.ts:107-109 | Each face comes from exactly the sixth [(face − 1)/6, face/6) of the unit interval. |
| GameEngine.NextScenario | src/engine/gameEngine.ts:111-113 | None iff the catalog is empty, otherwise a catalog member. If the current stage has entries, the result is from that stage. |
| GameEngine.UnusedOfNothing | src/engine/gameEngine.ts:112 | With no used ids, the unused filter keeps the whole pool. |
| GameEngine.NextScenarioIgnoresHistory | src/engine/gameEngine.ts:111-113 | The history plays no part in the draw. |
| GameEngine.ScenariosCanRepeat | src/engine/gameEngine.ts:111-113 | Every scenario of the current stage, including one already played, can be drawn again. |
| GameEngine.PatchAttributes | src/engine/gameEngine.ts:145-147 | Each attribute becomes max(0, old + patch value), and an absent patch changes nothing. Only the attributes change. |
| GameEngine.PatchLifeStatus | src/engine/gameEngine.ts:148-150 | The same for the life status. |
| GameEngine.PatchRiasec | src/engine/gameEngine.ts:151-153 | The same for the personality vector. |
| GameEngine.PatchScandal | src/engine/gameEngine.ts:154-159 | The scandal value becomes max(0, old + delta), plus 20 more when triggered. When either step runs, the final value alone fixes the level: "max" from 100, "warning" from 40. Below 40, or when neither runs, the level is kept. A raised level stays raised. |
| GameEngine.FindOption | src/engine/gameEngine.ts:120 | The option found, if any, carries the requested id. |
| GameEngine.FindOptionFirst | src/engine/gameEngine.ts:120-123 | The option search is empty iff no option has the id. Otherwise it returns the first option with that id. |
| GameEngine.NormalizeEffect | src/engine/gameEngine.ts:139-144 | The result always touches a visible stat. An effect that already does is unchanged. Any other effect gains `{ happiness: 5 }`. |
| GameEngine.NormalizeIdempotent | src/engine/gameEngine.ts:142-144 | Normalising twice is normalising once. |
| GameEngine.ApplyEffect | src/engine/gameEngine.ts:145-159 | This is the effect of the three patches and the scandal steps, each stated against the player before. The scandal level follows the final value as for `PatchScandal`. Consistency, stage, turns and fatigue are untouched. |
| GameEngine.PlayTurn | src/engine/gameEngine.ts:145-164 | The player after one turn: the patches, the scandal value, consistency max(0, old + delta), turns max(0, old − 1), and the stage for them. Fatigue is on iff the new stress is at least 80 or the new physical attribute at most 15. The scandal level is the level after the scandal steps, raised to "warning" when the new integrity is below 20 and the level is not "max". The stage does not move back. |
| GameEngine.Commit | src/engine/gameEngine.ts:139-179 | Exactly one history entry is appended, and the entry holds: the ids; the normalised effect; the scorer's delta, penalty and notes; the post-turn snapshot, which becomes the player. The snapshot follows the turn rules of `PlayTurn`, fatigue and scandal level included. |
| GameEngine.Resolve | src/engine/gameEngine.ts:115-180 | An error leaves the engine unchanged. Success appends one entry holding the new snapshot, the requested ids, and the scorer's delta, penalty and notes. The new player follows the turn rules of `PlayTurn`, fatigue and scandal level included. The counters stay non-negative, the catalog and card never change, and the stage never moves back. |
| GameEngine.ResolveOutcomes | src/engine/gameEngine.ts:115-137 | The errors, in order: not found iff no catalog entry has the id; option not found iff the scenario has no such option; requirement not met iff a minimum fails. Success iff all three checks pass. |
| GameEngine.AllowedChoiceResolves | src/engine/gameEngine.ts:115-180 | An existing option without requirements always resolves and uses one turn. At 0 turns it still resolves, and the count stays 0. |
| GameEngine.Step | src/engine/gameEngine.ts:115-180 | One decision adds at most one entry and keeps the invariants and the stage order. An allowed decision adds exactly one entry and uses one turn. |
| GameEngine.PlayChoices | src/engine/gameEngine.ts:115-180 | Over a run of decisions the invariants hold: the history only grows, the stage never moves back, and a raised scandal stays raised. With all decisions allowed there is one entry per decision, and turns drop by the count, floored at 0. |
| GameEngine.PlayPastLastTurn | src/engine/gameEngine.ts:115-180 | From a fresh engine with n turns, n + 1 allowed decisions all resolve. The history outgrows the run, and the turns rest at 0. |
| GameEngine.EndingScoreWeighsTwice | src/engine/gameEngine.ts:182-188 | A weight of 2 on an alignment of 4 records a delta of 8, and the ending score counts it as 16. |
| GameEngine.CareerSuggestions | src/engine/gameEngine.ts:24-49 | There are six suggestions per track, all on that track. |
| GameEngine.DominantIntroTrait | src/engine/gameEngine.ts:51-60 | No stats gives no trait. Otherwise the trait is the reduce's leading key. |
| GameEngine.BuildCareerSuggestions | src/engine/gameEngine.ts:70-79 | The list is empty iff there is no profile or no stats. Otherwise it is the six suggestions of the dominant trait. |
| GameEngine.JobsFollowSuggestedCareer | src/engine/gameEngine.ts:70-79 | For a profile from the questionnaire, the job track and the suggested career come from the same leading stat. |
| GameEngine.GenerateLifeReflectionReport | src/engine/gameEngine.ts:261-278 | The report never names the gambler or awakening ending. The score is the ending score, in [−500, 500]. The personality profile is the player's. The tally is the per-stage tally, with keys 1 to 5 summing to the history length. The jobs are the career suggestions, empty iff there are no stats. |
| GameEngine.ReportReadsTheRun | src/engine/gameEngine.ts:261-265 | The report's ending is the default iff no rule matches. Otherwise it is the first rule of the table that holds for the final player and history. |
| GameEngine.ReportScoresTheRun | src/engine/gameEngine.ts:266 | The score is 0 for an empty history, within half a unit of the raw sum inside [−500, 500], and ±500 outside. |
| GameEngine.ReportTalliesTheRun | src/engine/gameEngine.ts:268-275 | Each stage's count in the report is the number of history entries filed under it. |
| GameScreen.DominantTrait | src/ui/components/GameScreen.tsx:87-96 | No stats gives none. On non-negative stats the trait is the first stat holding the maximum, in both directions. |
| GameScreen.RecommendedDreamId | src/ui/components/GameScreen.tsx:98-112 | Ambition gives "founder", Creativity "artist", Stability "surgeon", and no trait gives none — each in both directions. |
| GameScreen.DestinyBonus | src/ui/components/GameScreen.tsx:114-121 | The bonus is 0 or 10, and 10 exactly when the recommended id is the card's id. A profile without stats gets 0. |
| GameScreen.FindCard | src/ui/components/GameScreen.tsx:129 | The card search returns a card with the id, or none iff no card has it. |
| GameScreen.RecommendedCardsExist | src/ui/components/GameScreen.tsx:25-74 | Every recommended id names one of the six cards. |
| GameScreen.InitialCard | src/ui/components/GameScreen.tsx:127-130 | The opening card is one of the six: the recommended card, or the first card (surgeon) when there is none. When the profile has stats it earns the bonus. |
| GameScreen.StartRun | src/ui/components/GameScreen.tsx:174-182 | A new run has 50 turns and an empty history. Its initial consistency is the destiny bonus, 0 or 10. |
| GameScreen.AnyBelow | src/ui/components/GameScreen.tsx:217-230 | The scan finds a key below its minimum iff one exists, i.e. iff the engine's minimum check fails. |
| GameScreen.IsOptionLocked | src/ui/components/GameScreen.tsx:214-232 | An option is locked exactly when the engine's requirement check fails for it. |
| GameScreen.EngineRefusesExactlyLocked | src/engine/gameEngine.ts:124-137 | For an option in the catalog, the engine raises the requirement error iff the lock's condition holds. It succeeds otherwise. |
| GameScreen.StepsFrom | src/ui/components/GameScreen.tsx:244-252 | The timer visits consecutive cells from start + 1 to the target. |
| GameScreen.PathMove | src/ui/components/GameScreen.tsx:240-253 | No roll means no move. The cells are consecutive, never beyond 50, and a positive roll from before the end moves min(start + roll, 50) − start cells. |
| GameScreen.PathIndexStaysOnBoard | src/ui/components/GameScreen.tsx:240-253 | The marker never moves back and never passes 50. A die roll moves it to min(start + roll, 50). |
| GameScreen.PathStaysOnBoard | src/ui/components/GameScreen.tsx:240-253 | Over any sequence of picks the marker stays between its start and 50. |
| GameScreen.FallbackScenario | src/ui/components/GameScreen.tsx:199-210 | The stand-in has id "fallback", the current stage, and no scenario requirements. |
| GameScreen.FallbackOptionFound | src/ui/components/GameScreen.tsx:204-209 | Each of A–D finds its own stand-in option. |
| GameScreen.FallbackShape | src/ui/components/GameScreen.tsx:204-209 | Every option id exists on the stand-in, with the empty effect and no requirements. |
| GameScreen.ShownScenario | src/ui/components/GameScreen.tsx:194-212 | With an empty catalog the screen shows the stand-in for the current stage. Otherwise it shows a catalog member. |
| GameScreen.FallbackPickFails | src/ui/components/GameScreen.tsx:234-238 | Picking any stand-in option fails with "not found" and leaves the engine unchanged. |
| GameScreen.PickShown | src/ui/components/GameScreen.tsx:234-238 | The corrected pick sends catalog scenarios to the engine unchanged. On a shown scenario outside the catalog it succeeds iff the option exists and its requirements hold. On the stand-in it always succeeds: it logs one entry with the happiness nudge and uses one turn. |
| GameScreen.FallbackPickContinues | src/ui/components/GameScreen.tsx:194-212 | Whenever the screen shows the stand-in, the corrected pick accepts any of its options. The pick logs one entry and uses one turn. |
| UiManager.GetMood | src/ui/uiManager.ts:7-13 | The mood is "scandal" iff the level is not "none". It is "haggard" iff there is no scandal and the player is haggard, and "normal" otherwise. |
| UiManager.ScandalMoodSticks | src/ui/uiManager.ts:7-9 | Once the scandal mood shows, every later resolve keeps it. |
| UiManager.GetHudBars | src/ui/uiManager.ts:16-27 | There are eight bars: the attributes in I, R, A, L order, then the four life-status fields, each with its value copied. |
| UiManager.HudBarsShowEveryStat | src/ui/uiManager.ts:16-27 | Every visible stat has a bar. |
| UiManager.HudBarIdsDistinct | src/ui/uiManager.ts:16-27 | No two bars share an id. |
| UiManager.HudBarShowsItsStat | src/ui/uiManager.ts:16-27 | Every bar shows the value of the stat it names. |
| UiManager.NatToString | src/ui/uiManager.ts:31-32 | The decimal text is non-empty, all digits, and has no leading zero. |
| UiManager.ParseNatToString | src/ui/uiManager.ts:31-32 | The text of a number reads back as that number. |
| UiManager.NatToStringInjective | src/ui/uiManager.ts:31-32 | Distinct numbers have distinct texts. |
| UiManager.BuildLifeWheel | src/ui/uiManager.ts:29-34 | There are max(0, n) segments. Segment i is labelled with the decimal text of i + 1, and its id is "segment-" followed by that label. |
| UiManager.WheelLabelsDistinct | src/ui/uiManager.ts:29-34 | Segment labels are pairwise distinct. |
| UiManager.DefaultWheelShowsEveryFace | src/ui/uiManager.ts:29 | The default wheel has six segments, and every face the die shows labels one of them. |

## Left out

- React components, hooks, timers, scrolling, sprites and map geometry. These are presentation
  only. The path animation is modelled as the list of cells the timer visits, not as time.
- Probability distributions. The random draws are free inputs, so the model says which outcomes are
  possible, not how likely they are.
- IEEE-754 arithmetic. Weights and scores are exact reals, and `Math.round` is `Floor(x + 1/2)`.
- Display text:
  - the Chinese ending and career texts;
  - the `CAREER_SUGGESTIONS` titles and descriptions;
  - the career label strings.

  Endings are identified by id. Jobs and career labels are identified by track and rank.
- The scenario catalog module `src/data/scenarios` is not part of this model; the catalog is a parameter.
- Effect normalisation writes the default `{ happiness: 5 }` back into the catalog's option object.
  The model keeps the catalog unchanged and normalises on every resolve. `GameEngine.NormalizeIdempotent`
  shows that the two agree.
- `getTopRiasecKey` in `gameEngine.ts` is never called, so it is not modelled. The personality
  vector is passed to `buildCareerSuggestions` but not read.
- `getDominantTrait` in the game screen is the same code as `getDominantIntroTrait` in the
  engine. It is defined once, in `GameEngine.DominantIntroTrait`.
- `IntroStats` is a record of three numbers, so the "empty entries" branch of the dominant-trait
  helpers cannot arise in the model.
- The intro module's back button is rendered only on step 0, where it is disabled. It is not modelled.
- `triggers.haggard` is carried in the effect but never read by the code, so it has no effect in the model.
- Numeric.Clamp: requires lo ≤ hi. Every call passes constant bounds that satisfy it.
- UiManager.GetMood: the mood names are datatype constructors, not the CSS class strings.
- GameEngine.GenerateLifeReflectionReport: its own contract leaves out the ending's first-match order
  and the per-stage counts, to keep its proof small. `GameEngine.ReportReadsTheRun` and
  `GameEngine.ReportTalliesTheRun` state them.
- GameEngine.PlayChoices: states the turn count only when every decision is allowed. A refused
  decision leaves the engine unchanged and is covered by `GameEngine.Step`.

## Findings

| source | as written | input that shows it | evidently intended | confidence | as-written member | corrected member |
|---|---|---|---|---|---|---|
| src/ui/components/GameScreen.tsx:234-238 | A pick on the stand-in scenario is sent to `resolveScenario` with the id "fallback". The stand-in is shown only when the catalog yields nothing, so the lookup fails and the pick throws. | An empty catalog: the screen shows the stand-in, and choosing option A throws "Scenario not found: fallback". | As the stand-in's own description promises, any option lets play continue with the empty effect. | medium, not executed | GameScreen.FallbackPickFails | GameScreen.PickShown (property: GameScreen.FallbackPickContinues) |
