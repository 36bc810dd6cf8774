/** The records the engine and its UI exchange: player state, scenario content, effects and history. */
module Types {
  import opened Wrappers

  /** Attribute keys; the program spells them I, R, A and L. */
  datatype AttributeKey = Intellect | Physical | Inspiration | Luck

  datatype LifeStatusKey = Money | Stress | Happiness | Integrity

  /** The six personality categories of the hidden vector. */
  datatype RiasecKey = R | I | A | S | E | C

  /** Enumeration orders of the records' keys, as the program builds them. */
  const AttributeOrder: seq<AttributeKey> := [Intellect, Physical, Inspiration, Luck]
  const LifeStatusOrder: seq<LifeStatusKey> := [Money, Stress, Happiness, Integrity]
  const RiasecOrder: seq<RiasecKey> := [R, I, A, S, E, C]

  /** Where each attribute key sits in its enumeration order. */
  function AttributeIndex(k: AttributeKey): (i: nat)
    ensures i < |AttributeOrder| && AttributeOrder[i] == k
  {
    match k
    case Intellect => 0
    case Physical => 1
    case Inspiration => 2
    case Luck => 3
  }

  /** Records with a value for every key. A map display naming every key is total; the
      lemmas below discharge that by case analysis on the key. */
  type AttributeVec = m: map<AttributeKey, int> | forall k: AttributeKey :: k in m
    witness ZeroAttributes()

  type LifeStatusVec = m: map<LifeStatusKey, int> | forall k: LifeStatusKey :: k in m
    witness ZeroLifeStatus()

  type RiasecVec = m: map<RiasecKey, int> | forall k: RiasecKey :: k in m
    witness ZeroRiasec()

  lemma AttributeMapTotal(m: map<AttributeKey, int>)
    requires Intellect in m && Physical in m && Inspiration in m && Luck in m
    ensures forall k: AttributeKey :: k in m
  {
    forall k: AttributeKey ensures k in m {
      match k
      case Intellect => case Physical => case Inspiration => case Luck =>
    }
  }

  lemma LifeStatusMapTotal(m: map<LifeStatusKey, int>)
    requires Money in m && Stress in m && Happiness in m && Integrity in m
    ensures forall k: LifeStatusKey :: k in m
  {
    forall k: LifeStatusKey ensures k in m {
      match k
      case Money => case Stress => case Happiness => case Integrity =>
    }
  }

  lemma RiasecMapTotal(m: map<RiasecKey, int>)
    requires R in m && I in m && A in m && S in m && E in m && C in m
    ensures forall k: RiasecKey :: k in m
  {
    forall k: RiasecKey ensures k in m {
      match k
      case R => case I => case A => case S => case E => case C =>
    }
  }

  function ZeroAttributes(): (m: map<AttributeKey, int>)
    ensures forall k: AttributeKey :: k in m && m[k] == 0
  {
    var m := map[Intellect := 0, Physical := 0, Inspiration := 0, Luck := 0];
    AttributeMapTotal(m);
    m
  }

  function ZeroLifeStatus(): (m: map<LifeStatusKey, int>)
    ensures forall k: LifeStatusKey :: k in m && m[k] == 0
  {
    var m := map[Money := 0, Stress := 0, Happiness := 0, Integrity := 0];
    LifeStatusMapTotal(m);
    m
  }

  function ZeroRiasec(): (m: map<RiasecKey, int>)
    ensures forall k: RiasecKey :: k in m && m[k] == 0
  {
    var m := map[R := 0, I := 0, A := 0, S := 0, E := 0, C := 0];
    RiasecMapTotal(m);
    m
  }

  /** Stages of a run; content is bucketed by stage. */
  type StageId = s: int | 1 <= s <= 5 witness 1

  /** The sticky scandal tier; the program spells the levels "none", "warning" and "max". */
  datatype ScandalLevel = NoScandal | ScandalWarning | ScandalMax

  /** The fatigue flag; the program spells it "none" or "haggard". */
  datatype HaggardLevel = NotHaggard | Haggard

  datatype HiddenMetrics = HiddenMetrics(riasec: RiasecVec, consistencyScore: int, scandalValue: int)

  /** Everything the outside world may read about the player. */
  datatype PlayerSnapshot = PlayerSnapshot(
    attributes: AttributeVec,
    lifeStatus: LifeStatusVec,
    hidden: HiddenMetrics,
    stage: StageId,
    turnsRemaining: int,
    haggard: HaggardLevel,
    scandal: ScandalLevel)

  datatype DreamCard = DreamCard(id: string, caption: string, primaryRiasec: RiasecKey, secondaryRiasec: Option<RiasecKey>)

  /** Boolean flags of an effect; an absent flag is false. */
  datatype Triggers = Triggers(scandal: bool, haggard: bool, legend: bool)

  /** A sparse patch: every field may be absent. */
  datatype OptionEffect = OptionEffect(
    attributes: Option<map<AttributeKey, int>>,
    lifeStatus: Option<map<LifeStatusKey, int>>,
    riasec: Option<map<RiasecKey, int>>,
    consistencyWeight: Option<real>,
    scandalDelta: Option<int>,
    triggers: Triggers,
    notes: Option<string>)

  const NoTriggers := Triggers(false, false, false)

  /** The effect `{}`. */
  const EmptyEffect := OptionEffect(None, None, None, None, None, NoTriggers, None)

  /** Minimum thresholds gating an option. */
  datatype Requirements = Requirements(
    minAttributes: Option<map<AttributeKey, int>>,
    minLifeStatus: Option<map<LifeStatusKey, int>>)

  datatype OptionId = OptionA | OptionB | OptionC | OptionD

  datatype ScenarioOption = ScenarioOption(
    id: OptionId,
    caption: string,
    effect: OptionEffect,
    requirements: Option<Requirements>)

  /** Scenario-level `requirements` are carried but never checked by the engine. */
  datatype Scenario = Scenario(
    id: string,
    stage: StageId,
    title: string,
    description: string,
    options: seq<ScenarioOption>,
    requirements: Option<Requirements>)

  datatype Reflection = Reflection(consistencyDelta: int, scandalPenalty: int, notes: seq<string>)

  /** One history entry; `delta` is the effect as applied. */
  datatype ScenarioResult = ScenarioResult(
    scenarioId: string,
    optionId: OptionId,
    delta: OptionEffect,
    snapshot: PlayerSnapshot,
    reflection: Reflection)

  /** Onboarding questionnaire. */
  datatype IntroStatKey = Ambition | Creativity | Stability
  datatype BeliefFate = Yes | No | NotSure
  datatype WhatMattersMost = Love | Career | Freedom | Family
  datatype SuperpowerChoice = MindReading | TimeTravel | Invisibility | Healing
  datatype CoreGoalId = GoalMoney | GoalFame | GoalPeace

  /** The three intro stats; `Object.entries` enumerates them in this field order. */
  datatype IntroStats = IntroStats(ambition: int, creativity: int, stability: int)

  /** The four career labels `getSuggestedCareer` can produce (their display text is not modelled). */
  datatype CareerLabel = TraineeLawyer | JuniorDesigner | SteadyClerk | CareerExplorer

  datatype IntroProfile = IntroProfile(
    name: string,
    age: string,
    gender: string,
    beliefFate: Option<BeliefFate>,
    whatMattersMost: Option<WhatMattersMost>,
    superpower: Option<SuperpowerChoice>,
    coreGoal: CoreGoalId,
    stats: Option<IntroStats>,
    suggestedCareer: CareerLabel)
}
