/** The pure helpers of the game screen: dream cards, the destiny bonus, the option lock,
    the path animation and the stand-in scenario shown when the catalog yields nothing. */
module GameScreen {
  import opened Wrappers
  import opened Numeric
  import opened Types
  import IntroModule
  import ScenarioHandler
  import GameEngine

  /** The six dream cards, in display order (icons and subtitles are not modelled). */
  const DreamCards: seq<DreamCard> := [
    DreamCard("surgeon", "頂級外科醫生", I, Some(S)),
    DreamCard("artist", "新銳藝術家", A, Some(S)),
    DreamCard("founder", "科技創業家", E, Some(I)),
    DreamCard("designer", "體驗設計師", A, Some(I)),
    DreamCard("planner", "城市規劃師", I, Some(C)),
    DreamCard("mentor", "生涯導師", S, Some(E))
  ]

  /** The run length the screen asks the engine for. */
  const TotalTurns := 50

  /** The bonus added to the initial consistency score when the card matches the profile. */
  const DestinyBonusPoints := 10

  /** The last cell of the board path. */
  const MaxProgressIndex := 50

  /** `getDominantTrait`: the screen repeats the engine's reduce over the intro stats, so the two
      agree by definition. On non-negative stats it is the first stat holding the maximum. */
  function DominantTrait(stats: Option<IntroStats>): (r: Option<IntroStatKey>)
    ensures r.None? <==> stats.None?
    ensures stats.Some? && stats.value.ambition >= 0 && stats.value.creativity >= 0 && stats.value.stability >= 0 ==>
      var st := stats.value;
      && (r == Some(Ambition) <==> st.ambition >= st.creativity && st.ambition >= st.stability)
      && (r == Some(Creativity) <==> st.creativity > st.ambition && st.creativity >= st.stability)
      && (r == Some(Stability) <==> st.stability > st.ambition && st.stability > st.creativity)
  {
    var r := GameEngine.DominantIntroTrait(stats);
    if stats.Some? && stats.value.ambition >= 0 && stats.value.creativity >= 0 && stats.value.stability >= 0 then
      IntroModule.LeadingKeyIsFirstMaximum(stats.value);
      r
    else r
  }

  /** `getRecommendedDreamIdForTrait`. */
  function RecommendedDreamId(dominant: Option<IntroStatKey>): (r: Option<string>)
    ensures r.None? <==> dominant.None?
    ensures dominant == Some(Ambition) <==> r == Some("founder")
    ensures dominant == Some(Creativity) <==> r == Some("artist")
    ensures dominant == Some(Stability) <==> r == Some("surgeon")
  {
    match dominant
    case None => None
    case Some(Ambition) => Some("founder")
    case Some(Creativity) => Some("artist")
    case Some(Stability) => Some("surgeon")
  }

  /** The stats of an optional profile (`profile?.stats`). */
  function ProfileStats(profile: Option<IntroProfile>): Option<IntroStats> {
    if profile.Some? then profile.value.stats else None
  }

  /** `getDestinyBonus`: 10 exactly when the profile recommends this very card. */
  function DestinyBonus(profile: Option<IntroProfile>, card: DreamCard): (bonus: int)
    ensures bonus == 0 || bonus == DestinyBonusPoints
    ensures bonus == DestinyBonusPoints <==> RecommendedDreamId(DominantTrait(ProfileStats(profile))) == Some(card.id)
    ensures ProfileStats(profile).None? ==> bonus == 0
  {
    var recommended := RecommendedDreamId(DominantTrait(ProfileStats(profile)));
    if recommended.Some? && recommended.value == card.id then DestinyBonusPoints else 0
  }

  /** `DREAM_CARDS.find` by id. */
  function FindCard(cards: seq<DreamCard>, id: string): (r: Option<DreamCard>)
    ensures r.Some? ==> r.value in cards && r.value.id == id
    ensures r.None? <==> forall i :: 0 <= i < |cards| ==> cards[i].id != id
  {
    if cards == [] then None
    else if cards[0].id == id then Some(cards[0])
    else FindCard(cards[1..], id)
  }

  /** Every id the recommendation can produce names a card. */
  lemma RecommendedCardsExist(dominant: Option<IntroStatKey>)
    ensures RecommendedDreamId(dominant).Some? ==> FindCard(DreamCards, RecommendedDreamId(dominant).value).Some?
  {
    assert DreamCards[0].id == "surgeon" && DreamCards[1].id == "artist" && DreamCards[2].id == "founder";
  }

  /** The card the screen opens with: the recommended card, or the first card when there is no leading stat.
      The opening card always earns the bonus when the profile has stats. */
  function InitialCard(profile: Option<IntroProfile>): (card: DreamCard)
    ensures card in DreamCards
    ensures var recommended := RecommendedDreamId(DominantTrait(ProfileStats(profile)));
            && (recommended.Some? ==> card.id == recommended.value)
            && (recommended.None? ==> card == DreamCards[0])
    ensures DestinyBonus(profile, card) == (if ProfileStats(profile).Some? then DestinyBonusPoints else 0)
  {
    var recommended := RecommendedDreamId(DominantTrait(ProfileStats(profile)));
    RecommendedCardsExist(DominantTrait(ProfileStats(profile)));
    var id := if recommended.Some? then recommended.value else DreamCards[0].id;
    FindCard(DreamCards, id).GetOr(DreamCards[0])
  }

  /** `startNewRun`: a fresh engine for the card, its bonus as initial consistency. */
  function StartRun(profile: Option<IntroProfile>, card: DreamCard, catalog: seq<Scenario>): (e: GameEngine.Engine)
    ensures GameEngine.Invariant(e) && GameEngine.StageOnTrack(e.player)
    ensures e.history == [] && e.catalog == catalog && e.dreamCard == card
    ensures e.player.turnsRemaining == TotalTurns
    ensures e.player.hidden.consistencyScore == DestinyBonus(profile, card)
    ensures e.player.hidden.consistencyScore in {0, DestinyBonusPoints}
  {
    GameEngine.NewEngine(card, TotalTurns, catalog, DestinyBonus(profile, card))
  }

  /** One `for … of Object.entries(minimums)` loop of `isOptionLocked`: is some listed key
      below its minimum? The entries are visited in an arbitrary order, which cannot matter. */
  method AnyBelow<K>(current: map<K, int>, minimums: map<K, int>) returns (below: bool)
    ensures below <==> exists k :: k in minimums && k in current && current[k] < minimums[k]
    ensures below <==> !GameEngine.MeetsMinimums(current, Some(minimums))
  {
    var rest := minimums.Keys;
    while rest != {}
      invariant rest <= minimums.Keys
      invariant forall k :: k in minimums && k !in rest && k in current ==> current[k] >= minimums[k]
      decreases rest
    {
      var k :| k in rest;
      if k in current && current[k] < minimums[k] {
        return true;
      }
      rest := rest - {k};
    }
    return false;
  }

  /** `isOptionLocked`: the screen greys out exactly the options the engine would refuse. */
  method IsOptionLocked(p: PlayerSnapshot, option: ScenarioOption) returns (locked: bool)
    ensures locked <==> !GameEngine.RequirementsMet(p, option.requirements)
  {
    if option.requirements.None? {
      return false;
    }
    var req := option.requirements.value;
    if req.minAttributes.Some? {
      locked := AnyBelow(p.attributes, req.minAttributes.value);
      if locked {
        return;
      }
    }
    if req.minLifeStatus.Some? {
      locked := AnyBelow(p.lifeStatus, req.minLifeStatus.value);
      if locked {
        return;
      }
    }
    return false;
  }

  /** The partner of the lock: for an option the catalog holds, the engine answers with the
      requirement error exactly when the option's requirements fail. */
  lemma EngineRefusesExactlyLocked(e: GameEngine.Engine, s: Scenario, o: ScenarioOption)
    requires GameEngine.Invariant(e)
    requires ScenarioHandler.GetScenarioById(e.catalog, s.id) == Some(s)
    requires GameEngine.FindOption(s.options, o.id) == Some(o)
    ensures GameEngine.Resolve(e, s.id, o.id).1 == Err(GameEngine.RequirementNotMet)
            <==> !GameEngine.RequirementsMet(e.player, o.requirements)
    ensures GameEngine.Resolve(e, s.id, o.id).1.Ok? <==> GameEngine.RequirementsMet(e.player, o.requirements)
  {
    GameEngine.ResolveOutcomes(e, s.id, o.id);
  }

  /** The cells `stepOnce` visits, one per timer tick, from just after `current` up to `target`. */
  function StepsFrom(current: int, target: int): (cells: seq<int>)
    requires current < target
    ensures |cells| == target - current
    ensures forall i :: 0 <= i < |cells| ==> cells[i] == current + 1 + i
    ensures cells[|cells| - 1] == target
    decreases target - current
  {
    var next := current + 1;
    if next < target then [next] + StepsFrom(next, target) else [next]
  }

  /** The path move after a pick: the last roll (if truthy) moves the marker towards
      `min(start + roll, 50)` one cell at a time; a target not ahead of the start moves nothing. */
  function PathMove(start: int, lastRoll: Option<int>): (cells: seq<int>)
    ensures lastRoll.None? || lastRoll.value == 0 ==> cells == []
    ensures forall i :: 0 <= i < |cells| ==> cells[i] == start + 1 + i
    ensures forall i :: 0 <= i < |cells| ==> cells[i] <= MaxProgressIndex
    ensures lastRoll.Some? && lastRoll.value > 0 && start < MaxProgressIndex ==>
      |cells| == Min(start + lastRoll.value, MaxProgressIndex) - start
  {
    if lastRoll.None? || lastRoll.value == 0 then []
    else
      var target := Min(start + lastRoll.value, MaxProgressIndex);
      if target > start then StepsFrom(start, target) else []
  }

  /** Where the marker rests once the steps have played out. */
  function PathIndexAfter(start: int, lastRoll: Option<int>): int {
    var cells := PathMove(start, lastRoll);
    if cells == [] then start else cells[|cells| - 1]
  }

  /** The marker never moves back, never leaves the board, and a die roll (1 to 6) from a cell
      before the end moves it by the roll, stopping at the last cell. */
  lemma PathIndexStaysOnBoard(start: int, lastRoll: Option<int>)
    ensures start <= PathIndexAfter(start, lastRoll)
    ensures start <= MaxProgressIndex ==> PathIndexAfter(start, lastRoll) <= MaxProgressIndex
    ensures lastRoll.Some? && 1 <= lastRoll.value <= 6 && start <= MaxProgressIndex ==>
      PathIndexAfter(start, lastRoll) == Min(start + lastRoll.value, MaxProgressIndex)
  {
  }

  /** A whole run of moves from the start cell 0. */
  function PathAfterRolls(start: int, rolls: seq<Option<int>>): int
    decreases |rolls|
  {
    if rolls == [] then start else PathAfterRolls(PathIndexAfter(start, rolls[0]), rolls[1..])
  }

  /** Over any sequence of picks the marker stays between its start and the last cell. */
  lemma {:induction false} PathStaysOnBoard(start: int, rolls: seq<Option<int>>)
    requires 0 <= start <= MaxProgressIndex
    ensures start <= PathAfterRolls(start, rolls) <= MaxProgressIndex
    decreases |rolls|
  {
    if rolls != [] {
      PathIndexStaysOnBoard(start, rolls[0]);
      PathStaysOnBoard(PathIndexAfter(start, rolls[0]), rolls[1..]);
    }
  }

  /** The stand-in option labels A to D, each with the empty effect and no requirements. */
  const FallbackOptions: seq<ScenarioOption> := [
    ScenarioOption(OptionA, "穩穩前進", EmptyEffect, None),
    ScenarioOption(OptionB, "嘗試新路", EmptyEffect, None),
    ScenarioOption(OptionC, "暫停休息", EmptyEffect, None),
    ScenarioOption(OptionD, "交給命運", EmptyEffect, None)
  ]

  const FallbackId := "fallback"

  /** The temporary scenario shown in the current stage. */
  function FallbackScenario(stage: StageId): (s: Scenario)
    ensures s.id == FallbackId && s.stage == stage && s.requirements.None?
  {
    Scenario(FallbackId, stage, "臨時情境：系統找不到題目",
      "為了讓流程不中斷，這是一個臨時題目。請隨意選一個選項繼續體驗。", FallbackOptions, None)
  }

  /** Every option id finds its own stand-in option: the ids are distinct and in order. */
  lemma FallbackOptionFound(o: OptionId)
    ensures GameEngine.FindOption(FallbackOptions, o) == Some(FallbackOptions[OptionIndex(o)])
  {
    GameEngine.FindOptionFirst(FallbackOptions, o);
    assert forall j :: 0 <= j < |FallbackOptions| && FallbackOptions[j].id == o ==> j == OptionIndex(o);
  }

  /** Whichever option is picked on the stand-in, it exists, asks nothing and changes nothing. */
  lemma FallbackShape(stage: StageId, o: OptionId)
    ensures GameEngine.FindOption(FallbackScenario(stage).options, o).Some?
    ensures GameEngine.FindOption(FallbackScenario(stage).options, o).value.id == o
    ensures GameEngine.FindOption(FallbackScenario(stage).options, o).value.effect == EmptyEffect
    ensures GameEngine.FindOption(FallbackScenario(stage).options, o).value.requirements.None?
  {
    FallbackOptionFound(o);
  }

  /** Where each option sits in the stand-in list. */
  function OptionIndex(o: OptionId): (i: nat)
    ensures i < |FallbackOptions| && FallbackOptions[i].id == o
  {
    match o
    case OptionA => 0
    case OptionB => 1
    case OptionC => 2
    case OptionD => 3
  }

  /** `onSpinComplete`: the drawn scenario, or the stand-in when the engine has none. */
  function ShownScenario(e: GameEngine.Engine, draw: nat): (s: Scenario)
    ensures |e.catalog| == 0 ==> s.id == FallbackId && s.stage == e.player.stage
    ensures |e.catalog| > 0 ==> s in e.catalog
  {
    match GameEngine.NextScenario(e, draw)
    case Some(x) => x
    case None => FallbackScenario(e.player.stage)
  }

  /** The stand-in appears only for an empty catalog, so picking any of its options fails with
      the not-found error and leaves the engine as it was. */
  lemma FallbackPickFails(e: GameEngine.Engine, draw: nat, o: OptionId)
    requires GameEngine.Invariant(e)
    requires GameEngine.NextScenario(e, draw).None?
    ensures GameEngine.Resolve(e, ShownScenario(e, draw).id, o) == (e, Err(GameEngine.ScenarioNotFound))
  {
    ScenarioHandler.GetScenarioByIdFirst(e.catalog, FallbackId);
  }

  /** The pick as the stand-in's text promises it: an option of a shown scenario the catalog does
      not hold is resolved against the shown scenario itself; every other pick goes to the engine. */
  function PickShown(e: GameEngine.Engine, shown: Scenario, o: OptionId)
    : (out: (GameEngine.Engine, Result<ScenarioResult, GameEngine.ResolveError>))
    requires GameEngine.Invariant(e)
    ensures GameEngine.Invariant(out.0)
    ensures ScenarioHandler.GetScenarioById(e.catalog, shown.id).Some? ==> out == GameEngine.Resolve(e, shown.id, o)
    ensures out.1.Err? ==> out.0 == e
    ensures out.1.Ok? ==> out.0.history == e.history + [out.1.value] && out.1.value.snapshot == out.0.player
    ensures ScenarioHandler.GetScenarioById(e.catalog, shown.id).None? ==>
      (out.1.Ok? <==> exists opt :: GameEngine.FindOption(shown.options, o) == Some(opt)
                                   && GameEngine.RequirementsMet(e.player, opt.requirements))
    ensures ScenarioHandler.GetScenarioById(e.catalog, shown.id).None? && shown.options == FallbackOptions ==>
      && out.1.Ok?
      && |out.0.history| == |e.history| + 1
      && out.1.value.delta == GameEngine.NormalizeEffect(EmptyEffect)
      && out.0.player.turnsRemaining == Max(0, e.player.turnsRemaining - 1)
  {
    if ScenarioHandler.GetScenarioById(e.catalog, shown.id).Some? then GameEngine.Resolve(e, shown.id, o)
    else
      FallbackOptionFound(o);
      match GameEngine.FindOption(shown.options, o)
      case None => (e, Err(GameEngine.OptionNotFound))
      case Some(opt) =>
        if !GameEngine.RequirementsMet(e.player, opt.requirements) then (e, Err(GameEngine.RequirementNotMet))
        else
          var (after, result) := GameEngine.Commit(e, shown.id, opt);
          (after, Ok(result))
  }

  /** With the corrected pick the stand-in does what it says: any of its options is accepted,
      logs one entry with the default happiness nudge, and uses up a turn. */
  lemma FallbackPickContinues(e: GameEngine.Engine, draw: nat, o: OptionId)
    requires GameEngine.Invariant(e)
    requires GameEngine.NextScenario(e, draw).None?
    ensures var out := PickShown(e, ShownScenario(e, draw), o);
            && out.1.Ok?
            && |out.0.history| == |e.history| + 1
            && out.0.player.turnsRemaining == Max(0, e.player.turnsRemaining - 1)
  {
    ScenarioHandler.GetScenarioByIdFirst(e.catalog, FallbackId);
  }
}
