/** The UI manager: the screen mood, the HUD bars and the segments of the life wheel. */
module UiManager {
  import opened Numeric
  import opened Types
  import GameEngine

  /** The class name suffix the screen gets. */
  datatype UiMood = NormalMood | HaggardMood | ScandalMood

  /** `getMood`: any scandal outranks fatigue. */
  function GetMood(p: PlayerSnapshot): (mood: UiMood)
    ensures mood == ScandalMood <==> p.scandal != NoScandal
    ensures mood == HaggardMood <==> p.scandal == NoScandal && p.haggard == Haggard
    ensures mood == NormalMood <==> p.scandal == NoScandal && p.haggard == NotHaggard
  {
    match p.scandal
    case ScandalMax => ScandalMood
    case ScandalWarning => ScandalMood
    case NoScandal =>
      match p.haggard
      case Haggard => HaggardMood
      case NotHaggard => NormalMood
  }

  /** Once the screen shows the scandal mood it keeps showing it, whatever is chosen later:
      the scandal tier may fall from max to warning but never back to none. */
  lemma ScandalMoodSticks(e: GameEngine.Engine, scenarioId: string, optionId: OptionId)
    requires GameEngine.Invariant(e)
    requires GetMood(e.player) == ScandalMood
    ensures GetMood(GameEngine.Resolve(e, scenarioId, optionId).0.player) == ScandalMood
  {
  }

  /** A bar's id: an attribute (spelt I, R, A, L) or a life-status field. */
  datatype BarId = AttributeBar(attribute: AttributeKey) | LifeStatusBar(status: LifeStatusKey)

  datatype HudBar = HudBar(id: BarId, text: string, value: int)

  function AttributeLabel(k: AttributeKey): string {
    match k
    case Intellect => "Intelligence"
    case Physical => "Physical"
    case Inspiration => "Inspiration"
    case Luck => "Luck"
  }

  function LifeStatusLabel(k: LifeStatusKey): string {
    match k
    case Money => "Money"
    case Stress => "Stress"
    case Happiness => "Happiness"
    case Integrity => "Integrity"
  }

  /** `getHudBars`: the four attributes in I, R, A, L order, then the four life-status fields. */
  function GetHudBars(p: PlayerSnapshot): (bars: seq<HudBar>)
    ensures |bars| == |AttributeOrder| + |LifeStatusOrder| == 8
    ensures forall i :: 0 <= i < |AttributeOrder| ==>
      bars[i] == HudBar(AttributeBar(AttributeOrder[i]), AttributeLabel(AttributeOrder[i]), p.attributes[AttributeOrder[i]])
    ensures forall i :: 0 <= i < |LifeStatusOrder| ==>
      bars[|AttributeOrder| + i]
        == HudBar(LifeStatusBar(LifeStatusOrder[i]), LifeStatusLabel(LifeStatusOrder[i]), p.lifeStatus[LifeStatusOrder[i]])
  {
    seq(|AttributeOrder|, i requires 0 <= i < |AttributeOrder| =>
          HudBar(AttributeBar(AttributeOrder[i]), AttributeLabel(AttributeOrder[i]), p.attributes[AttributeOrder[i]]))
    + seq(|LifeStatusOrder|, i requires 0 <= i < |LifeStatusOrder| =>
          HudBar(LifeStatusBar(LifeStatusOrder[i]), LifeStatusLabel(LifeStatusOrder[i]), p.lifeStatus[LifeStatusOrder[i]]))
  }

  /** Where each life-status key sits in its enumeration order. */
  function LifeStatusIndex(k: LifeStatusKey): (i: nat)
    ensures i < |LifeStatusOrder| && LifeStatusOrder[i] == k
  {
    match k
    case Money => 0
    case Stress => 1
    case Happiness => 2
    case Integrity => 3
  }

  /** The value a bar reads, looked up by id. */
  function BarValue(p: PlayerSnapshot, id: BarId): int {
    match id
    case AttributeBar(k) => p.attributes[k]
    case LifeStatusBar(k) => p.lifeStatus[k]
  }

  /** Every stat the player can see has a bar. */
  lemma HudBarsShowEveryStat(p: PlayerSnapshot, id: BarId)
    ensures exists i :: 0 <= i < |GetHudBars(p)| && GetHudBars(p)[i].id == id
  {
    var bars := GetHudBars(p);
    match id
    case AttributeBar(k) =>
      assert bars[AttributeIndex(k)].id == id;
    case LifeStatusBar(k) =>
      assert bars[|AttributeOrder| + LifeStatusIndex(k)].id == id;
  }

  /** The position of a stat's bar. */
  function BarIndex(id: BarId): nat {
    match id
    case AttributeBar(k) => AttributeIndex(k)
    case LifeStatusBar(k) => |AttributeOrder| + LifeStatusIndex(k)
  }

  lemma BarAtItsIndex(p: PlayerSnapshot, i: int)
    requires 0 <= i < |GetHudBars(p)|
    ensures BarIndex(GetHudBars(p)[i].id) == i
  {
    if i < |AttributeOrder| {
      assert GetHudBars(p)[i].id == AttributeBar(AttributeOrder[i]);
    } else {
      assert GetHudBars(p)[i].id == LifeStatusBar(LifeStatusOrder[i - |AttributeOrder|]);
    }
  }

  /** No stat has two bars. */
  lemma HudBarIdsDistinct(p: PlayerSnapshot, i: int, j: int)
    requires 0 <= i < j < |GetHudBars(p)|
    ensures GetHudBars(p)[i].id != GetHudBars(p)[j].id
  {
    BarAtItsIndex(p, i);
    BarAtItsIndex(p, j);
  }

  /** Each bar shows the value of the stat it is named after. */
  lemma HudBarShowsItsStat(p: PlayerSnapshot, i: int)
    requires 0 <= i < |GetHudBars(p)|
    ensures GetHudBars(p)[i].value == BarValue(p, GetHudBars(p)[i].id)
  {
  }

  /** The segment count when none is given; it matches the six faces of the die. */
  const DefaultSegments := 6

  datatype WheelSegment = WheelSegment(id: string, text: string)

  function DigitChar(d: int): char
    requires 0 <= d < 10
  {
    "0123456789"[d]
  }

  predicate IsDigitChar(ch: char) {
    '0' <= ch <= '9'
  }

  predicate IsDecimal(s: string) {
    forall i :: 0 <= i < |s| ==> IsDigitChar(s[i])
  }

  function DigitValue(ch: char): int
    requires IsDigitChar(ch)
  {
    ch as int - '0' as int
  }

  /** The decimal text of a natural number, as a template literal writes it. */
  function NatToString(n: nat): (s: string)
    ensures |s| > 0
    ensures IsDecimal(s)
    ensures n > 0 ==> s[0] != '0'
    decreases n
  {
    if n < 10 then [DigitChar(n)] else NatToString(n / 10) + [DigitChar(n % 10)]
  }

  /** Reading decimal digits back. */
  function ParseNat(s: string): (n: nat)
    requires IsDecimal(s)
    decreases |s|
  {
    if s == [] then 0 else ParseNat(s[..|s| - 1]) * 10 + DigitValue(s[|s| - 1])
  }

  /** The text of a number reads back as that number. */
  lemma {:induction false} ParseNatToString(n: nat)
    ensures ParseNat(NatToString(n)) == n
    decreases n
  {
    var s := NatToString(n);
    if n >= 10 {
      ParseNatToString(n / 10);
      assert s[..|s| - 1] == NatToString(n / 10);
    }
  }

  /** Distinct numbers have distinct texts. */
  lemma NatToStringInjective(m: nat, n: nat)
    requires NatToString(m) == NatToString(n)
    ensures m == n
  {
    ParseNatToString(m);
    ParseNatToString(n);
  }

  /** `buildLifeWheel(segments)`: a negative count gives no segments. */
  function BuildLifeWheel(segments: int): (wheel: seq<WheelSegment>)
    ensures |wheel| == Max(0, segments)
    ensures forall i :: 0 <= i < |wheel| ==> IsDecimal(wheel[i].text) && ParseNat(wheel[i].text) == i + 1
    ensures forall i :: 0 <= i < |wheel| ==> wheel[i].id == "segment-" + wheel[i].text
  {
    var wheel := seq(Max(0, segments), i requires 0 <= i => WheelSegment("segment-" + NatToString(i + 1), NatToString(i + 1)));
    assert forall i :: 0 <= i < |wheel| ==> IsDecimal(wheel[i].text) && ParseNat(wheel[i].text) == i + 1 by {
      forall i | 0 <= i < |wheel| ensures IsDecimal(wheel[i].text) && ParseNat(wheel[i].text) == i + 1 {
        ParseNatToString(i + 1);
      }
    }
    wheel
  }

  /** Segment labels are pairwise distinct. */
  lemma WheelLabelsDistinct(segments: int, i: int, j: int)
    requires 0 <= i < j < Max(0, segments)
    ensures BuildLifeWheel(segments)[i].text != BuildLifeWheel(segments)[j].text
  {
  }

  /** The default wheel has a segment labelled with every face the die can show, and only those. */
  lemma DefaultWheelShowsEveryFace(u: real)
    requires 0.0 <= u < 1.0
    ensures var face := GameEngine.SpinLifeWheel(u);
            exists i :: 0 <= i < |BuildLifeWheel(DefaultSegments)|
                        && ParseNat(BuildLifeWheel(DefaultSegments)[i].text) == face
    ensures |BuildLifeWheel(DefaultSegments)| == 6
  {
    var face := GameEngine.SpinLifeWheel(u);
    assert ParseNat(BuildLifeWheel(DefaultSegments)[face - 1].text) == face;
  }
}
