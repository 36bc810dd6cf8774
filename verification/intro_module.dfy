/** The onboarding questionnaire: scoring the answers, the suggested career, step navigation
    and assembling the profile. */
module IntroModule {
  import opened Wrappers
  import opened Numeric
  import opened Types

  /** The four questions; an unanswered question is `None`. */
  datatype Answers = Answers(
    beliefFate: Option<BeliefFate>,
    whatMattersMost: Option<WhatMattersMost>,
    superpower: Option<SuperpowerChoice>,
    coreGoal: Option<CoreGoalId>)

  const Unanswered := Answers(None, None, None, None)

  const InitialStats := IntroStats(0, 0, 0)

  function StatOf(stats: IntroStats, key: IntroStatKey): int {
    match key
    case Ambition => stats.ambition
    case Creativity => stats.creativity
    case Stability => stats.stability
  }

  /** The entries of the stats record, in enumeration order. */
  function Entries(stats: IntroStats): seq<(IntroStatKey, int)> {
    [(Ambition, stats.ambition), (Creativity, stats.creativity), (Stability, stats.stability)]
  }

  function Total(stats: IntroStats): int {
    stats.ambition + stats.creativity + stats.stability
  }

  /** What one answer scores: a stat and the points it adds. */
  function BeliefGain(b: BeliefFate): (gain: (IntroStatKey, int))
    ensures 1 <= gain.1 <= 2
  {
    match b
    case Yes => (Ambition, 2)
    case No => (Stability, 2)
    case NotSure => (Creativity, 1)
  }

  function MattersGain(w: WhatMattersMost): (gain: (IntroStatKey, int))
    ensures 1 <= gain.1 <= 2
  {
    match w
    case Career => (Ambition, 2)
    case Freedom => (Creativity, 2)
    case Love => (Stability, 2)
    case Family => (Stability, 2)
  }

  function SuperpowerGain(sp: SuperpowerChoice): (gain: (IntroStatKey, int))
    ensures 1 <= gain.1 <= 2
  {
    match sp
    case TimeTravel => (Creativity, 2)
    case Healing => (Stability, 2)
    case Invisibility => (Creativity, 1)
    case MindReading => (Stability, 1)
  }

  function GoalGain(g: CoreGoalId): (gain: (IntroStatKey, int))
    ensures 1 <= gain.1 <= 2
  {
    match g
    case GoalMoney => (Ambition, 2)
    case GoalFame => (Ambition, 2)
    case GoalPeace => (Stability, 2)
  }

  /** The gain of each question, if it was answered. */
  function AnswerGains(answers: Answers): (gains: seq<Option<(IntroStatKey, int)>>)
    ensures |gains| == 4
    ensures forall i :: 0 <= i < 4 && gains[i].Some? ==> 1 <= gains[i].value.1 <= 2
  {
    [if answers.beliefFate.Some? then Some(BeliefGain(answers.beliefFate.value)) else None,
     if answers.whatMattersMost.Some? then Some(MattersGain(answers.whatMattersMost.value)) else None,
     if answers.superpower.Some? then Some(SuperpowerGain(answers.superpower.value)) else None,
     if answers.coreGoal.Some? then Some(GoalGain(answers.coreGoal.value)) else None]
  }

  /** The points an optional gain adds to stat `k`. */
  function PointsOn(gain: Option<(IntroStatKey, int)>, k: IntroStatKey): int {
    if gain.Some? && gain.value.0 == k then gain.value.1 else 0
  }

  /** One stat after every `add` call: the points each answered question puts on it. */
  function Score(answers: Answers, k: IntroStatKey): int {
    var g := AnswerGains(answers);
    PointsOn(g[0], k) + PointsOn(g[1], k) + PointsOn(g[2], k) + PointsOn(g[3], k)
  }

  /** `computeStatsFromAnswers`: start from zero and let each answered question add to one stat. */
  function ComputeStatsFromAnswers(answers: Answers): (stats: IntroStats)
    ensures stats.ambition >= 0 && stats.creativity >= 0 && stats.stability >= 0
    ensures Total(stats) <= 8
    ensures answers == Unanswered ==> stats == InitialStats
  {
    var g := AnswerGains(answers);
    assert forall i :: 0 <= i < 4 ==>
      PointsOn(g[i], Ambition) + PointsOn(g[i], Creativity) + PointsOn(g[i], Stability) <= 2;
    IntroStats(Score(answers, Ambition), Score(answers, Creativity), Score(answers, Stability))
  }

  /** `after` has exactly one stat 1 or 2 points above `before`, and the others equal. */
  predicate OneStatGains(after: IntroStats, before: IntroStats) {
    exists k: IntroStatKey ::
      (StatOf(after, k) - StatOf(before, k) == 1 || StatOf(after, k) - StatOf(before, k) == 2)
      && forall j: IntroStatKey :: j != k ==> StatOf(after, j) == StatOf(before, j)
  }

  /** Two answer sets that differ only in question `q`, unanswered in `before`. */
  lemma OneAnswerAdded(after: Answers, before: Answers, q: nat)
    requires q < 4 && AnswerGains(before)[q].None? && AnswerGains(after)[q].Some?
    requires forall j :: 0 <= j < 4 && j != q ==> AnswerGains(after)[j] == AnswerGains(before)[j]
    ensures OneStatGains(ComputeStatsFromAnswers(after), ComputeStatsFromAnswers(before))
  {
    var gain := AnswerGains(after)[q];
    forall k: IntroStatKey ensures Score(after, k) == Score(before, k) + PointsOn(gain, k) {
      assert forall j :: 0 <= j < 4 && j != q ==> PointsOn(AnswerGains(after)[j], k) == PointsOn(AnswerGains(before)[j], k);
    }
    var k := gain.value.0;
    assert StatOf(ComputeStatsFromAnswers(after), k) == Score(after, k) by { match k case Ambition => case Creativity => case Stability => }
    assert StatOf(ComputeStatsFromAnswers(before), k) == Score(before, k) by { match k case Ambition => case Creativity => case Stability => }
    forall j: IntroStatKey | j != k ensures StatOf(ComputeStatsFromAnswers(after), j) == StatOf(ComputeStatsFromAnswers(before), j) {
      match j case Ambition => case Creativity => case Stability =>
    }
  }

  /** Answering any one question, all else equal, adds 1 or 2 points to exactly one stat. */
  lemma AnsweringAddsToOneStat(answers: Answers)
    ensures forall b :: OneStatGains(ComputeStatsFromAnswers(answers.(beliefFate := Some(b))),
                                     ComputeStatsFromAnswers(answers.(beliefFate := None)))
    ensures forall w :: OneStatGains(ComputeStatsFromAnswers(answers.(whatMattersMost := Some(w))),
                                     ComputeStatsFromAnswers(answers.(whatMattersMost := None)))
    ensures forall s :: OneStatGains(ComputeStatsFromAnswers(answers.(superpower := Some(s))),
                                     ComputeStatsFromAnswers(answers.(superpower := None)))
    ensures forall g :: OneStatGains(ComputeStatsFromAnswers(answers.(coreGoal := Some(g))),
                                     ComputeStatsFromAnswers(answers.(coreGoal := None)))
  {
    forall b: BeliefFate
      ensures OneStatGains(ComputeStatsFromAnswers(answers.(beliefFate := Some(b))),
                           ComputeStatsFromAnswers(answers.(beliefFate := None)))
    {
      OneAnswerAdded(answers.(beliefFate := Some(b)), answers.(beliefFate := None), 0);
    }
    forall w: WhatMattersMost
      ensures OneStatGains(ComputeStatsFromAnswers(answers.(whatMattersMost := Some(w))),
                           ComputeStatsFromAnswers(answers.(whatMattersMost := None)))
    {
      OneAnswerAdded(answers.(whatMattersMost := Some(w)), answers.(whatMattersMost := None), 1);
    }
    forall sp: SuperpowerChoice
      ensures OneStatGains(ComputeStatsFromAnswers(answers.(superpower := Some(sp))),
                           ComputeStatsFromAnswers(answers.(superpower := None)))
    {
      OneAnswerAdded(answers.(superpower := Some(sp)), answers.(superpower := None), 2);
    }
    forall g: CoreGoalId
      ensures OneStatGains(ComputeStatsFromAnswers(answers.(coreGoal := Some(g))),
                           ComputeStatsFromAnswers(answers.(coreGoal := None)))
    {
      OneAnswerAdded(answers.(coreGoal := Some(g)), answers.(coreGoal := None), 3);
    }
  }

  /** The belief-in-fate answer alone: "yes" is Ambition 2, "no" Stability 2, "not sure" Creativity 1. */
  lemma BeliefFateScoring(b: BeliefFate)
    ensures b == Yes ==> ComputeStatsFromAnswers(Unanswered.(beliefFate := Some(b))) == IntroStats(2, 0, 0)
    ensures b == No ==> ComputeStatsFromAnswers(Unanswered.(beliefFate := Some(b))) == IntroStats(0, 0, 2)
    ensures b == NotSure ==> ComputeStatsFromAnswers(Unanswered.(beliefFate := Some(b))) == IntroStats(0, 1, 0)
  {
  }

  /** The `reduce` in `getSuggestedCareer`: start from ("Stability", -1) and replace the running
      best only on a strictly greater value, so the first of several equal maxima wins. */
  function LeadingEntry(entries: seq<(IntroStatKey, int)>): (best: (IntroStatKey, int))
    ensures best.1 >= -1
    ensures forall i :: 0 <= i < |entries| ==> entries[i].1 <= best.1
    ensures best == (Stability, -1)
         || exists i :: 0 <= i < |entries| && entries[i] == best && forall j :: 0 <= j < i ==> entries[j].1 < best.1
    decreases |entries|
  {
    if entries == [] then (Stability, -1)
    else
      var init := entries[..|entries| - 1];
      var before := LeadingEntry(init);
      var last := entries[|entries| - 1];
      assert forall i :: 0 <= i < |init| ==> entries[i] == init[i];
      if last.1 > before.1 then last else before
  }

  /** `getSuggestedCareer`: the label of the leading stat. */
  function GetSuggestedCareer(stats: IntroStats): (r: CareerLabel)
    ensures r != CareerExplorer
    ensures r == TraineeLawyer <==> LeadingEntry(Entries(stats)).0 == Ambition
    ensures r == JuniorDesigner <==> LeadingEntry(Entries(stats)).0 == Creativity
    ensures r == SteadyClerk <==> LeadingEntry(Entries(stats)).0 == Stability
  {
    match LeadingEntry(Entries(stats)).0
    case Ambition => TraineeLawyer
    case Creativity => JuniorDesigner
    case Stability => SteadyClerk
  }

  /** On non-negative stats the leading entry is the first stat holding the maximum: the
      sentinel -1 never survives, and a later equal value never replaces an earlier one. */
  lemma LeadingKeyIsFirstMaximum(stats: IntroStats)
    requires stats.ambition >= 0 && stats.creativity >= 0 && stats.stability >= 0
    ensures LeadingEntry(Entries(stats)).0 == Ambition <==>
              stats.ambition >= stats.creativity && stats.ambition >= stats.stability
    ensures LeadingEntry(Entries(stats)).0 == Creativity <==>
              stats.creativity > stats.ambition && stats.creativity >= stats.stability
    ensures LeadingEntry(Entries(stats)).0 == Stability <==>
              stats.stability > stats.ambition && stats.stability > stats.creativity
  {
    var e := Entries(stats);
    var best := LeadingEntry(e);
    assert e[0].1 <= best.1;
    if best == (Stability, -1) {
      assert false;
    }
    var i :| 0 <= i < |e| && e[i] == best && forall j :: 0 <= j < i ==> e[j].1 < best.1;
    assert forall j :: 0 <= j < |e| ==> e[j].1 <= best.1;
    assert e[0].1 <= best.1 && e[1].1 <= best.1 && e[2].1 <= best.1;
  }

  /** On scored answers (every stat at least 0), the suggestion names a stat holding the maximum
      and no earlier stat holds it. */
  lemma SuggestedCareerIsFirstMaximum(stats: IntroStats)
    requires stats.ambition >= 0 && stats.creativity >= 0 && stats.stability >= 0
    ensures GetSuggestedCareer(stats) == TraineeLawyer <==>
              stats.ambition >= stats.creativity && stats.ambition >= stats.stability
    ensures GetSuggestedCareer(stats) == JuniorDesigner <==>
              stats.creativity > stats.ambition && stats.creativity >= stats.stability
    ensures GetSuggestedCareer(stats) == SteadyClerk <==>
              stats.stability > stats.ambition && stats.stability > stats.creativity
  {
    LeadingKeyIsFirstMaximum(stats);
  }

  /** The last step of the questionnaire. */
  const LastStep := 5

  /** `goToNextStep`. */
  function GoToNextStep(step: int): (r: int)
    ensures r <= LastStep
    ensures step < LastStep ==> r == step + 1
    ensures step >= LastStep ==> r == LastStep
  {
    Min(step + 1, LastStep)
  }

  /** The characters `String.prototype.trim` removes: ECMAScript white space and line terminators. */
  predicate IsJsWhiteSpace(ch: char) {
    ch == '\t' || ch == '\n' || ch == '\U{000B}' || ch == '\U{000C}' || ch == '\r' || ch == ' '
    || ch == '\U{00A0}' || ch == '\U{1680}' || ('\U{2000}' <= ch <= '\U{200A}')
    || ch == '\U{2028}' || ch == '\U{2029}' || ch == '\U{202F}' || ch == '\U{205F}'
    || ch == '\U{3000}' || ch == '\U{FEFF}'
  }

  function TrimStart(s: string): (r: string)
    ensures |r| <= |s| && r == s[|s| - |r|..]
    ensures r != [] ==> !IsJsWhiteSpace(r[0])
    ensures forall i :: 0 <= i < |s| - |r| ==> IsJsWhiteSpace(s[i])
  {
    if s != [] && IsJsWhiteSpace(s[0]) then TrimStart(s[1..]) else s
  }

  function TrimEnd(s: string): (r: string)
    ensures |r| <= |s| && r == s[..|r|]
    ensures r != [] ==> !IsJsWhiteSpace(r[|r| - 1])
    ensures forall i :: |r| <= i < |s| ==> IsJsWhiteSpace(s[i])
  {
    if s != [] && IsJsWhiteSpace(s[|s| - 1]) then TrimEnd(s[..|s| - 1]) else s
  }

  function Trim(s: string): string {
    TrimEnd(TrimStart(s))
  }

  /** A name survives trimming exactly when it has a character that is not white space. */
  lemma TrimEmptyIffBlank(s: string)
    ensures |Trim(s)| > 0 <==> exists i :: 0 <= i < |s| && !IsJsWhiteSpace(s[i])
  {
    var t := TrimStart(s);
    var k := |s| - |t|;
    if |Trim(s)| > 0 {
      assert s[k] == t[0];
    }
    if exists i :: 0 <= i < |s| && !IsJsWhiteSpace(s[i]) {
      var i :| 0 <= i < |s| && !IsJsWhiteSpace(s[i]);
      assert k <= i;
      assert !IsJsWhiteSpace(t[0]);
    }
  }

  /** `canNext`: which step's answer must be present before moving on. */
  function CanNext(step: int, name: string, answers: Answers): (r: bool)
    ensures step == 0 ==> (r <==> exists i :: 0 <= i < |name| && !IsJsWhiteSpace(name[i]))
    ensures step == 1 ==> (r <==> answers.beliefFate.Some?)
    ensures step == 2 ==> (r <==> answers.whatMattersMost.Some?)
    ensures step == 3 ==> (r <==> answers.superpower.Some?)
    ensures step == 4 ==> (r <==> answers.coreGoal.Some?)
    ensures step !in {0, 1, 2, 3, 4} ==> r
  {
    TrimEmptyIffBlank(name);
    if step == 0 then |Trim(name)| > 0
    else if step == 1 then answers.beliefFate.Some?
    else if step == 2 then answers.whatMattersMost.Some?
    else if step == 3 then answers.superpower.Some?
    else if step == 4 then answers.coreGoal.Some?
    else true
  }

  /** `handleStart`: the profile handed to the game. The goal defaults to "peace", but the stats
      are scored from the answers as given. */
  function HandleStart(name: string, age: string, gender: string, answers: Answers): (profile: IntroProfile)
    ensures profile.coreGoal == answers.coreGoal.GetOr(GoalPeace)
    ensures profile.stats == Some(ComputeStatsFromAnswers(answers))
    ensures profile.stats.Some? && Total(profile.stats.value) <= 8
    ensures profile.suggestedCareer == GetSuggestedCareer(profile.stats.value)
    ensures profile.beliefFate == answers.beliefFate && profile.whatMattersMost == answers.whatMattersMost
    ensures profile.superpower == answers.superpower
    ensures profile.name == name && profile.age == age && profile.gender == gender
  {
    var stats := ComputeStatsFromAnswers(answers);
    IntroProfile(name, age, gender, answers.beliefFate, answers.whatMattersMost, answers.superpower,
                 answers.coreGoal.GetOr(GoalPeace), Some(stats), GetSuggestedCareer(stats))
  }

  /** The defaulted goal scores nothing: with no goal chosen the profile says "peace", yet its
      Stability is 2 lower than if "peace" had been chosen. */
  lemma DefaultGoalScoresNothing(name: string, age: string, gender: string, answers: Answers)
    requires answers.coreGoal.None?
    ensures HandleStart(name, age, gender, answers).coreGoal == GoalPeace
    ensures HandleStart(name, age, gender, answers).stats.value.stability + 2
         == HandleStart(name, age, gender, answers.(coreGoal := Some(GoalPeace))).stats.value.stability
  {
  }
}
