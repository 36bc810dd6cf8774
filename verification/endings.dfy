/** What the engine reads off a finished run: the ending score, the ordered ending table, the
    profile tests the table uses, and the per-stage tally of the report. */
module Endings {
  import opened Wrappers
  import opened Numeric
  import opened Types
  import opened ScenarioHandler

  const EndingScoreBound := 500

  /** One entry's share of the ending score: the weight (default 1, and 0 is kept) times the
      recorded delta, minus the recorded penalty. */
  function Contribution(entry: ScenarioResult): real {
    entry.delta.consistencyWeight.GetOr(1.0) * entry.reflection.consistencyDelta as real
      - entry.reflection.scandalPenalty as real
  }

  /** The `reduce` over history, left to right from 0. */
  function RawScore(history: seq<ScenarioResult>): real
    decreases |history|
  {
    if history == [] then 0.0
    else RawScore(history[..|history| - 1]) + Contribution(history[|history| - 1])
  }

  /** The fold is additive over any split of the history. */
  lemma {:induction false} RawScoreSplit(front: seq<ScenarioResult>, back: seq<ScenarioResult>)
    ensures RawScore(front + back) == RawScore(front) + RawScore(back)
    decreases |back|
  {
    if back == [] {
      assert front + back == front;
    } else {
      var last := back[|back| - 1];
      var init := back[..|back| - 1];
      assert front + back == (front + init) + [last];
      assert (front + back)[..|front + back| - 1] == front + init;
      RawScoreSplit(front, init);
    }
  }

  /** `getEndingScore`. */
  function GetEndingScore(history: seq<ScenarioResult>): (r: int)
    ensures -EndingScoreBound <= r <= EndingScoreBound
    ensures history == [] ==> r == 0
    ensures -EndingScoreBound as real <= RawScore(history) <= EndingScoreBound as real ==>
      RawScore(history) - 1.0 / 2.0 < r as real <= RawScore(history) + 1.0 / 2.0
    ensures RawScore(history) > EndingScoreBound as real ==> r == EndingScoreBound
    ensures RawScore(history) < -EndingScoreBound as real ==> r == -EndingScoreBound
  {
    Clamp(Round(RawScore(history)), -EndingScoreBound, EndingScoreBound)
  }

  /** `s.includes(marker)`. */
  predicate Includes(s: string, marker: string) {
    exists i :: 0 <= i <= |s| && marker <= s[i..]
  }

  predicate AnyNoteIncludes(history: seq<ScenarioResult>, marker: string) {
    exists i :: 0 <= i < |history| && history[i].delta.notes.Some? && Includes(history[i].delta.notes.value, marker)
  }

  predicate AnyLegend(history: seq<ScenarioResult>) {
    exists i :: 0 <= i < |history| && history[i].delta.triggers.legend
  }

  const ReversalMarker := "Reversal roulette"
  const TravelMarker := "Travel"

  /** `isBalancedProfile`: the four attributes lie within 15 of each other. */
  predicate IsBalancedProfile(p: PlayerSnapshot) {
    forall j, k :: p.attributes[j] - p.attributes[k] <= 15
  }

  /** `Object.values(attributes)`. */
  function AttributeValues(p: PlayerSnapshot): (vs: seq<int>)
    ensures |vs| == |AttributeOrder|
    ensures forall i :: 0 <= i < |vs| ==> vs[i] == p.attributes[AttributeOrder[i]]
  {
    seq(|AttributeOrder|, i requires 0 <= i < |AttributeOrder| => p.attributes[AttributeOrder[i]])
  }

  /** `Math.max(...values)` of a non-empty list. */
  function MaxOf(vs: seq<int>): (m: int)
    requires |vs| > 0
    ensures forall i :: 0 <= i < |vs| ==> vs[i] <= m
    ensures exists i :: 0 <= i < |vs| && vs[i] == m
  {
    if |vs| == 1 then vs[0]
    else
      var rest := MaxOf(vs[1..]);
      assert forall i :: 1 <= i < |vs| ==> vs[i] == vs[1..][i - 1];
      Max(vs[0], rest)
  }

  /** `Math.min(...values)` of a non-empty list. */
  function MinOf(vs: seq<int>): (m: int)
    requires |vs| > 0
    ensures forall i :: 0 <= i < |vs| ==> m <= vs[i]
    ensures exists i :: 0 <= i < |vs| && vs[i] == m
  {
    if |vs| == 1 then vs[0]
    else
      var rest := MinOf(vs[1..]);
      assert forall i :: 1 <= i < |vs| ==> vs[i] == vs[1..][i - 1];
      Min(vs[0], rest)
  }

  /** The pairwise form of `isBalancedProfile` is the program's `max - min <= 15`. */
  lemma BalancedIsSpread(p: PlayerSnapshot)
    ensures IsBalancedProfile(p) <==> MaxOf(AttributeValues(p)) - MinOf(AttributeValues(p)) <= 15
  {
    var vs := AttributeValues(p);
    var hi :| 0 <= hi < |vs| && vs[hi] == MaxOf(vs);
    var lo :| 0 <= lo < |vs| && vs[lo] == MinOf(vs);
    if IsBalancedProfile(p) {
      assert p.attributes[AttributeOrder[hi]] - p.attributes[AttributeOrder[lo]] <= 15;
    }
    if MaxOf(vs) - MinOf(vs) <= 15 {
      forall j: AttributeKey, k: AttributeKey ensures p.attributes[j] - p.attributes[k] <= 15 {
        assert vs[AttributeIndex(j)] == p.attributes[j];
        assert vs[AttributeIndex(k)] == p.attributes[k];
      }
    }
  }

  /** An entry counts as stable when its weight is present, non-zero and at least 1.2. */
  predicate IsStable(entry: ScenarioResult) {
    entry.delta.consistencyWeight.Some? && entry.delta.consistencyWeight.value != 0.0
      && entry.delta.consistencyWeight.value >= 12.0 / 10.0
  }

  /** The positions of the stable entries: what `history.filter(...)` keeps. */
  function StablePositions(history: seq<ScenarioResult>): set<nat> {
    set i: nat | i < |history| && IsStable(history[i])
  }

  lemma StablePositionsSnoc(history: seq<ScenarioResult>)
    requires |history| > 0
    ensures |StablePositions(history)|
         == |StablePositions(history[..|history| - 1])| + (if IsStable(history[|history| - 1]) then 1 else 0)
  {
    var n := |history| - 1;
    var before := StablePositions(history[..n]);
    if IsStable(history[n]) {
      assert StablePositions(history) == before + {n};
    } else {
      assert StablePositions(history) == before;
    }
  }

  /** The length of the filtered list: the number of stable entries. */
  function CountStable(history: seq<ScenarioResult>): (n: nat)
    ensures n == |StablePositions(history)|
    ensures n <= |history|
  {
    if history == [] then
      assert StablePositions(history) == {};
      0
    else
      StablePositionsSnoc(history);
      CountStable(history[..|history| - 1]) + (if IsStable(history[|history| - 1]) then 1 else 0)
  }

  /** `isMostlyStableDecisions`: at least `floor(0.4 * length)` stable entries. */
  predicate IsMostlyStableDecisions(history: seq<ScenarioResult>) {
    CountStable(history) >= (|history| as real * (4.0 / 10.0)).Floor
  }

  /** A history of fewer than three entries needs no stable entry at all. */
  lemma ShortHistoryIsStable(history: seq<ScenarioResult>)
    requires |history| < 3
    ensures IsMostlyStableDecisions(history)
  {
    assert (|history| as real * (4.0 / 10.0)).Floor == 0;
  }

  /** The endings, by the id the program gives them. */
  datatype EndingId =
    | LegendaryResearch | TiredBillionaire | FreeArtist | Scandal | Reversal | Mentor
    | OrderGuardian | DataHermit | ForgottenGear | ContentTourist | Athlete | CrossInnovator
    | PowerBroker | Minimalist | Gambler | Heir | Explorer | Ghost | Martyr | Awakening
    | DefaultEnding

  /** The program's string id of each ending. */
  function EndingName(id: EndingId): string {
    match id
    case LegendaryResearch => "ending-legendary-research"
    case TiredBillionaire => "ending-tired-billionaire"
    case FreeArtist => "ending-free-artist"
    case Scandal => "ending-scandal"
    case Reversal => "ending-reversal"
    case Mentor => "ending-mentor"
    case OrderGuardian => "ending-order-guardian"
    case DataHermit => "ending-data-hermit"
    case ForgottenGear => "ending-forgotten-gear"
    case ContentTourist => "ending-content-tourist"
    case Athlete => "ending-athlete"
    case CrossInnovator => "ending-cross-innovator"
    case PowerBroker => "ending-power-broker"
    case Minimalist => "ending-minimalist"
    case Gambler => "ending-gambler"
    case Heir => "ending-heir"
    case Explorer => "ending-explorer"
    case Ghost => "ending-ghost"
    case Martyr => "ending-martyr"
    case Awakening => "ending-awakening"
    case DefaultEnding => "ending-default"
  }

  /** The predicate paired with each ending in the table. */
  predicate Matches(id: EndingId, p: PlayerSnapshot, history: seq<ScenarioResult>) {
    var at := p.attributes;
    var life := p.lifeStatus;
    var hidden := p.hidden;
    match id
    case LegendaryResearch => at[Intellect] > 90 && AnyLegend(history)
    case TiredBillionaire => life[Money] > 1_000_000 && life[Happiness] < 30
    case FreeArtist => at[Inspiration] > 85 && life[Happiness] > 80
    case Scandal => hidden.scandalValue >= 100
    case Reversal => AnyNoteIncludes(history, ReversalMarker)
    case Mentor => hidden.riasec[S] > 85
    case OrderGuardian => hidden.riasec[C] > 90
    case DataHermit => hidden.riasec[I] > 85 && hidden.riasec[S] < 30
    case ForgottenGear => at[Physical] > 80 && hidden.riasec[E] < 30
    case ContentTourist => at[Inspiration] > 80 && life[Stress] > 70
    case Athlete => at[Physical] > 90 && life[Stress] > 60
    case CrossInnovator => at[Intellect] > 80 && at[Inspiration] > 80
    case PowerBroker => hidden.riasec[E] > 85 && hidden.riasec[S] < 40
    case Minimalist => life[Money] < 200 && life[Happiness] > 95
    case Gambler => AnyNoteIncludes(history, ReversalMarker) && hidden.scandalValue > 0
    case Heir => IsMostlyStableDecisions(history)
    case Explorer => AnyNoteIncludes(history, TravelMarker)
    case Ghost => IsBalancedProfile(p)
    case Martyr => hidden.riasec[E] > 70 && at[Intellect] > 70 && life[Stress] > 80
    case Awakening => AnyNoteIncludes(history, ReversalMarker)
    case DefaultEnding => true
  }

  /** The decision table, in the program's order; `DefaultEnding` is the fallback after it. */
  const EndingTable: seq<EndingId> := [
    LegendaryResearch, TiredBillionaire, FreeArtist, Scandal, Reversal, Mentor,
    OrderGuardian, DataHermit, ForgottenGear, ContentTourist, Athlete, CrossInnovator,
    PowerBroker, Minimalist, Gambler, Heir, Explorer, Ghost, Martyr, Awakening]

  /** The index of the first rule from `from` on that matches, or `|rules|` if none does. */
  function FirstMatch(rules: seq<EndingId>, from: nat, p: PlayerSnapshot, history: seq<ScenarioResult>): (i: nat)
    requires from <= |rules|
    ensures from <= i <= |rules|
    ensures i < |rules| ==> Matches(rules[i], p, history)
    ensures forall j :: from <= j < i ==> !Matches(rules[j], p, history)
    decreases |rules| - from
  {
    if from == |rules| then from
    else if Matches(rules[from], p, history) then from
    else FirstMatch(rules, from + 1, p, history)
  }

  /** The default ending is not a row of the table. */
  lemma TableOmitsDefault()
    ensures forall j :: 0 <= j < |EndingTable| ==> EndingTable[j] != DefaultEnding
  {
  }

  /** The first five rows end with the reversal rule, and neither the gambler nor the
      awakening rule is among them. */
  lemma TableHead()
    ensures EndingTable[4] == Reversal
    ensures forall j :: 0 <= j <= 4 ==> EndingTable[j] != Gambler && EndingTable[j] != Awakening
  {
  }

  /** `evaluateEnding`: the first rule of the table that holds, else the default ending. */
  function EvaluateEnding(p: PlayerSnapshot, history: seq<ScenarioResult>): (r: EndingId)
    ensures r == DefaultEnding <==> forall j :: 0 <= j < |EndingTable| ==> !Matches(EndingTable[j], p, history)
    ensures r != DefaultEnding ==> exists i :: 0 <= i < |EndingTable| && EndingTable[i] == r && Matches(r, p, history)
                                              && forall j :: 0 <= j < i ==> !Matches(EndingTable[j], p, history)
  {
    var i := FirstMatch(EndingTable, 0, p, history);
    TableOmitsDefault();
    if i < |EndingTable| then EndingTable[i] else DefaultEnding
  }

  /** A "Reversal roulette" note makes the fifth rule match, so the search stops by then. */
  lemma ReversalStopsSearch(p: PlayerSnapshot, history: seq<ScenarioResult>)
    requires AnyNoteIncludes(history, ReversalMarker)
    ensures FirstMatch(EndingTable, 0, p, history) <= 4
  {
    TableHead();
    assert Matches(EndingTable[4], p, history);
  }

  /** "ending-gambler" and "ending-awakening" can never be chosen: each needs a "Reversal roulette"
      note, and such a note already selects "ending-reversal" earlier in the table. */
  lemma GamblerAndAwakeningUnreachable(p: PlayerSnapshot, history: seq<ScenarioResult>)
    ensures EvaluateEnding(p, history) != Gambler
    ensures EvaluateEnding(p, history) != Awakening
  {
    if AnyNoteIncludes(history, ReversalMarker) {
      ReversalStopsSearch(p, history);
      TableHead();
    } else {
      assert !Matches(Gambler, p, history) && !Matches(Awakening, p, history);
    }
  }

  /** The stage a history entry is filed under: its scenario's stage, or 1 if the id is unknown. */
  function EntryStage(catalog: seq<Scenario>, entry: ScenarioResult): StageId {
    match GetScenarioById(catalog, entry.scenarioId)
    case Some(s) => s.stage
    case None => 1
  }

  const EmptyTally: map<StageId, nat> := map[1 := 0, 2 := 0, 3 := 0, 4 := 0, 5 := 0]

  function TallySum(t: map<StageId, nat>): nat
    requires forall s: StageId :: s in t
  {
    t[1] + t[2] + t[3] + t[4] + t[5]
  }

  /** The positions of the history entries filed under stage `s`. */
  function StagePositions(catalog: seq<Scenario>, history: seq<ScenarioResult>, s: StageId): set<nat> {
    set i: nat | i < |history| && EntryStage(catalog, history[i]) == s
  }

  lemma StagePositionsSnoc(catalog: seq<Scenario>, history: seq<ScenarioResult>, s: StageId)
    requires |history| > 0
    ensures |StagePositions(catalog, history, s)|
         == |StagePositions(catalog, history[..|history| - 1], s)| + (if EntryStage(catalog, history[|history| - 1]) == s then 1 else 0)
  {
    var n := |history| - 1;
    var front := history[..n];
    var before := StagePositions(catalog, front, s);
    assert forall i :: 0 <= i < n ==> front[i] == history[i];
    if EntryStage(catalog, history[n]) == s {
      assert StagePositions(catalog, history, s) == before + {n};
    } else {
      assert StagePositions(catalog, history, s) == before;
    }
  }

  /** The report's `stageSummaries`: for each stage 1 to 5, the number of entries filed under it. */
  function StageSummaries(catalog: seq<Scenario>, history: seq<ScenarioResult>): (t: map<StageId, nat>)
    ensures forall s: StageId :: s in t
    ensures t.Keys == {1, 2, 3, 4, 5}
    ensures TallySum(t) == |history|
    decreases |history|
  {
    if history == [] then EmptyTally
    else
      var before := StageSummaries(catalog, history[..|history| - 1]);
      var s := EntryStage(catalog, history[|history| - 1]);
      before[s := before[s] + 1]
  }

  /** Each stage's count in the tally is the number of entries filed under that stage. */
  lemma {:induction false} StageSummariesCount(catalog: seq<Scenario>, history: seq<ScenarioResult>, s: StageId)
    ensures StageSummaries(catalog, history)[s] == |StagePositions(catalog, history, s)|
    decreases |history|
  {
    if history == [] {
      assert StagePositions(catalog, history, s) == {};
    } else {
      StageSummariesCount(catalog, history[..|history| - 1], s);
      StagePositionsSnoc(catalog, history, s);
    }
  }
}
