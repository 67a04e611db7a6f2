/** The deterministic part of the two collaborator calls: the difficulty tier asked
    for, the fallback environment used when generation fails, and how a round's
    outcome is built from the damage whether or not a narration came back. */
module GeminiService {
  import opened Types

  // ---------------------------------------------------------------------------
  // Environment generation

  /** The threat band requested for a round. */
  datatype Tier = Tier(minVal: int, maxVal: int)

  function DifficultyTier(round: int): (t: Tier)
    ensures 0 <= t.minVal < t.maxVal <= 100
  {
    if round <= 2 then Tier(20, 50)
    else if round <= 5 then Tier(40, 80)
    else Tier(70, 100)
  }

  /** Later rounds never ask for an easier band. */
  lemma DifficultyMonotone(r1: int, r2: int)
    requires r1 <= r2
    ensures DifficultyTier(r1).minVal <= DifficultyTier(r2).minVal
    ensures DifficultyTier(r1).maxVal <= DifficultyTier(r2).maxVal
  {
  }

  /** The substitute environment; three threats grow by 5 per round. */
  function FallbackEnvironment(round: int): (env: Environment)
    ensures env.resourceScarcity == 20.0
    ensures env.temperature - env.toxicity == 10.0 && env.toxicity - env.radiation == 10.0
  {
    Environment(
      "未知扇区 (数据恢复模式)",
      "传感器数据离线。已加载标准测试环境。",
      (30 + round * 5) as real,
      (20 + round * 5) as real,
      (10 + round * 5) as real,
      20.0,
      "Abstract digital grid")
  }

  /** The fallback respects the documented 0..100 range exactly for rounds -2 through 14,
      so for every round of an 8-round run. */
  lemma FallbackInRangeIff(round: int)
    ensures ThreatsInRange(FallbackEnvironment(round)) <==> -2 <= round <= 14
  {
  }

  lemma FallbackInRangeForRun(round: int)
    requires 1 <= round <= 8
    ensures ThreatsInRange(FallbackEnvironment(round))
  {
    FallbackInRangeIff(round);
  }

  /** Each further round makes the fallback hotter, more toxic and more irradiated. */
  lemma FallbackHarderEachRound(r1: int, r2: int)
    requires r1 < r2
    ensures FallbackEnvironment(r1).temperature < FallbackEnvironment(r2).temperature
    ensures FallbackEnvironment(r1).toxicity < FallbackEnvironment(r2).toxicity
    ensures FallbackEnvironment(r1).radiation < FallbackEnvironment(r2).radiation
  {
  }

  /** The environment a round gets: the generated one, or the fallback when the call
      (or reading its reply) failed. */
  function GenerateEnvironment(response: Option<Environment>, round: int): (env: Environment)
    ensures response.Some? ==> env == response.value
    ensures response.None? ==> env == FallbackEnvironment(round)
  {
    match response
    case Some(generated) => generated
    case None => FallbackEnvironment(round)
  }

  // ---------------------------------------------------------------------------
  // Evolution evaluation

  /** The story fields a successful evaluation call returns. */
  datatype Narration = Narration(
    organismName: string,
    description: string,
    narrative: string,
    acquiredTraits: seq<string>,
    mutationFeedback: string)

  function MaxInt(x: int, y: int): int {
    if x >= y then x else y
  }

  /** The round's outcome. Remaining HP is computed the same way on both paths; only
      the successful path derives `survived` from it, the fallback always claims survival. */
  function EvaluateEvolution(narration: Option<Narration>, damageTaken: int, currentHp: int): (r: EvolutionResult)
    ensures r.damageTaken == damageTaken
    ensures r.hpRemaining >= 0 && r.hpRemaining >= currentHp - damageTaken
    ensures r.hpRemaining > 0 ==> r.hpRemaining == currentHp - damageTaken
    ensures damageTaken >= 0 ==> r.hpRemaining <= MaxInt(0, currentHp)
    ensures narration.Some? ==> (r.survived <==> r.hpRemaining > 0)
    ensures narration.None? ==> r.survived
  {
    var hpRemaining := MaxInt(0, currentHp - damageTaken);
    match narration
    case Some(n) =>
      EvolutionResult(hpRemaining > 0, damageTaken, hpRemaining, n.organismName, n.description,
                      n.narrative, n.acquiredTraits, n.mutationFeedback)
    case None =>
      EvolutionResult(true, damageTaken, hpRemaining, "未知生命体", "数据传输中断...",
                      "模拟遭受干扰。伤害计算已应用。", ["数据恢复"], "保持信号连接。")
  }

  /** Whether the narration arrived changes neither the damage nor the remaining HP. */
  lemma OutcomeIndependentOfNarration(n1: Option<Narration>, n2: Option<Narration>, damageTaken: int, currentHp: int)
    ensures EvaluateEvolution(n1, damageTaken, currentHp).hpRemaining ==
            EvaluateEvolution(n2, damageTaken, currentHp).hpRemaining
    ensures EvaluateEvolution(n1, damageTaken, currentHp).damageTaken ==
            EvaluateEvolution(n2, damageTaken, currentHp).damageTaken
  {
  }

  /** The fallback reports survival even for a lethal blow: 20 damage against 10 HP. */
  lemma FallbackClaimsSurvival()
    ensures EvaluateEvolution(None, 20, 10).survived
    ensures EvaluateEvolution(None, 20, 10).hpRemaining == 0
    ensures !EvaluateEvolution(Some(Narration("", "", "", [], "")), 20, 10).survived
  {
  }
}
