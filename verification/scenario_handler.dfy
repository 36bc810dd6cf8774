/** The scenario catalog: stage queries, lookup by id, and the next-scenario fallback chain. */
module ScenarioHandler {
  import opened Wrappers
  import opened Types

  /** The highest stage the fallback chain scans up to. */
  const LastStage := 5

  /** `getByStage`: the catalog entries of one stage, in catalog order. */
  function GetByStage(catalog: seq<Scenario>, stage: StageId): (r: seq<Scenario>)
    ensures forall x :: x in r <==> x in catalog && x.stage == stage
    ensures |r| <= |catalog|
  {
    if catalog == [] then []
    else (if catalog[0].stage == stage then [catalog[0]] else []) + GetByStage(catalog[1..], stage)
  }

  /** Filtering by stage commutes with concatenation, so it keeps catalog order. */
  lemma {:induction false} GetByStageAppend(front: seq<Scenario>, back: seq<Scenario>, stage: StageId)
    ensures GetByStage(front + back, stage) == GetByStage(front, stage) + GetByStage(back, stage)
  {
    if front == [] {
      assert front + back == back;
    } else {
      assert (front + back)[1..] == front[1..] + back;
      GetByStageAppend(front[1..], back, stage);
    }
  }

  /** The entries of `pool` whose id has not been used, in order. */
  function Unused(pool: seq<Scenario>, used: set<string>): (r: seq<Scenario>)
    ensures forall x :: x in r <==> x in pool && x.id !in used
    ensures |r| <= |pool|
  {
    if pool == [] then []
    else (if pool[0].id !in used then [pool[0]] else []) + Unused(pool[1..], used)
  }

  /** `getScenarioById`: `find` over the catalog. */
  function GetScenarioById(catalog: seq<Scenario>, id: string): Option<Scenario> {
    if catalog == [] then None
    else if catalog[0].id == id then Some(catalog[0])
    else GetScenarioById(catalog[1..], id)
  }

  /** The lookup finds nothing exactly when no entry has the id, and otherwise the first entry
      that has it. */
  lemma {:induction false} GetScenarioByIdFirst(catalog: seq<Scenario>, id: string)
    ensures GetScenarioById(catalog, id).None? <==> forall i :: 0 <= i < |catalog| ==> catalog[i].id != id
    ensures GetScenarioById(catalog, id).Some? ==>
      exists i :: 0 <= i < |catalog| && catalog[i] == GetScenarioById(catalog, id).value
                  && catalog[i].id == id && forall j :: 0 <= j < i ==> catalog[j].id != id
  {
    if catalog != [] && catalog[0].id != id {
      GetScenarioByIdFirst(catalog[1..], id);
      if GetScenarioById(catalog, id).Some? {
        var i :| 0 <= i < |catalog[1..]| && catalog[1..][i] == GetScenarioById(catalog, id).value
                 && catalog[1..][i].id == id && forall j :: 0 <= j < i ==> catalog[1..][j].id != id;
        assert catalog[i + 1] == catalog[1..][i];
      }
      if GetScenarioById(catalog, id).None? {
        assert forall i :: 1 <= i < |catalog| ==> catalog[i] == catalog[1..][i - 1];
      }
    }
  }

  /** Some scenario of `stage` has not been used yet. */
  predicate HasUnused(catalog: seq<Scenario>, stage: StageId, used: set<string>) {
    exists x :: x in catalog && x.stage == stage && x.id !in used
  }

  lemma UnusedOfStage(catalog: seq<Scenario>, stage: StageId, used: set<string>)
    ensures |Unused(GetByStage(catalog, stage), used)| > 0 <==> HasUnused(catalog, stage, used)
  {
    var pool := Unused(GetByStage(catalog, stage), used);
    if HasUnused(catalog, stage, used) {
      var x :| x in catalog && x.stage == stage && x.id !in used;
      assert x in pool;
    }
    if |pool| > 0 {
      assert pool[0] in pool;
    }
  }

  /** The scan over stages `next..5` for the first one with an unused scenario. */
  function LaterPool(catalog: seq<Scenario>, next: int, used: set<string>): (r: Option<seq<Scenario>>)
    requires next >= 1
    ensures r.Some? ==> |r.value| > 0
    ensures r.Some? ==> forall x :: x in r.value ==>
      x in catalog && x.id !in used && next <= x.stage
      && forall s: StageId :: next <= s < x.stage ==> !HasUnused(catalog, s, used)
    ensures r.None? <==> forall s: StageId :: next <= s ==> !HasUnused(catalog, s, used)
    ensures r.Some? ==> r.value == Unused(GetByStage(catalog, r.value[0].stage), used)
    decreases LastStage + 1 - next
  {
    if next > LastStage then None
    else
      var pool := Unused(GetByStage(catalog, next), used);
      UnusedOfStage(catalog, next, used);
      if |pool| > 0 then Some(pool)
      else LaterPool(catalog, next + 1, used)
  }

  /** The pool `pickNextScenario` draws from: the unused scenarios of the requested stage, else
      those of the first later stage that has any, else the whole stage, else the whole catalog. */
  function ChoosePool(catalog: seq<Scenario>, stage: StageId, used: set<string>): (pool: seq<Scenario>)
    ensures forall x :: x in pool ==> x in catalog
    ensures |pool| == 0 <==> |catalog| == 0
    ensures (exists s: StageId :: stage <= s && HasUnused(catalog, s, used)) ==>
      forall x :: x in pool ==>
        x.id !in used && stage <= x.stage
        && forall s: StageId :: stage <= s < x.stage ==> !HasUnused(catalog, s, used)
    ensures HasUnused(catalog, stage, used) ==> forall x :: x in pool ==> x.stage == stage && x.id !in used
    ensures HasUnused(catalog, stage, used) ==> pool == Unused(GetByStage(catalog, stage), used)
    ensures !HasUnused(catalog, stage, used) && (exists s: StageId :: stage < s && HasUnused(catalog, s, used)) ==>
      |pool| > 0 && pool == Unused(GetByStage(catalog, pool[0].stage), used)
    ensures (forall s: StageId :: stage <= s ==> !HasUnused(catalog, s, used)) && |GetByStage(catalog, stage)| > 0
      ==> pool == GetByStage(catalog, stage)
    ensures (forall s: StageId :: stage <= s ==> !HasUnused(catalog, s, used)) && |GetByStage(catalog, stage)| == 0
      ==> pool == catalog
  {
    var inStage := GetByStage(catalog, stage);
    var available := Unused(inStage, used);
    UnusedOfStage(catalog, stage, used);
    if |available| == 0 then
      match LaterPool(catalog, stage + 1, used)
      case Some(later) => later
      case None =>
        if |inStage| > 0 then inStage
        else
          assert forall x :: x in catalog ==> x.stage != stage;
          catalog
    else
      available
  }

  /** `pool[Math.floor(Math.random() * pool.length)]`, the random number given as `draw`. */
  function DrawFrom(pool: seq<Scenario>, draw: nat): (r: Option<Scenario>)
    ensures r.None? <==> |pool| == 0
    ensures r.Some? ==> r.value in pool
  {
    if |pool| == 0 then None else Some(pool[draw % |pool|])
  }

  /** Every member of a pool is the outcome of some draw. */
  lemma DrawFromCovers(pool: seq<Scenario>, x: Scenario) returns (draw: nat)
    requires x in pool
    ensures DrawFrom(pool, draw) == Some(x)
  {
    var i :| 0 <= i < |pool| && pool[i] == x;
    draw := i;
  }

  /** `pickNextScenario`: a draw from the chosen pool. */
  function PickNextScenario(catalog: seq<Scenario>, stage: StageId, used: set<string>, draw: nat): (r: Option<Scenario>)
    ensures r.None? <==> |catalog| == 0
    ensures r.Some? ==> r.value in catalog
    ensures HasUnused(catalog, stage, used) ==> r.Some? && r.value.stage == stage && r.value.id !in used
    ensures (exists s: StageId :: stage <= s && HasUnused(catalog, s, used)) ==>
      r.Some? && r.value.id !in used && stage <= r.value.stage
      && forall s: StageId :: stage <= s < r.value.stage ==> !HasUnused(catalog, s, used)
    ensures (forall s: StageId :: stage <= s ==> !HasUnused(catalog, s, used)) && |GetByStage(catalog, stage)| > 0
      ==> r.Some? && r.value.stage == stage
  {
    DrawFrom(ChoosePool(catalog, stage, used), draw)
  }

  /** Every member of the chosen pool is the outcome of some draw. */
  lemma PickNextCoversPool(catalog: seq<Scenario>, stage: StageId, used: set<string>, x: Scenario)
    requires x in ChoosePool(catalog, stage, used)
    ensures exists draw: nat :: PickNextScenario(catalog, stage, used, draw) == Some(x)
  {
    var draw := DrawFromCovers(ChoosePool(catalog, stage, used), x);
    assert PickNextScenario(catalog, stage, used, draw) == Some(x);
  }
}
