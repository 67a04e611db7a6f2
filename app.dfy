/** The round state machine: each player action rewrites the whole game record.
    Collaborator replies (environment, narration) and the random damage variance are inputs. */
module App {
  import opened Types
  import opened GameLogic
  import opened DnaEditor
  import opened GeminiService

  // ---------------------------------------------------------------------------
  // Constants

  /** Declared alongside the others; the template length it names is not read anywhere. */
  const StartDnaLength: int := 4
  const MaxRounds: int := 8
  const StartHp: int := 100
  const HpGrowthPerRound: int := 30

  /** The record the game boots with. */
  function InitialState(): (s: GameState)
    ensures s.phase == Intro && s.round == 1 && s.hp == s.maxHp == StartHp
  {
    GameState(Intro, 1, MaxRounds, 0, StartHp, StartHp, None, [], [], 0, None, [])
  }

  // ---------------------------------------------------------------------------
  // The invariant every resting state satisfies

  predicate IsResultPhase(p: GamePhase) {
    p == Result || p == Victory || p == GameOver
  }

  /** What holds between actions. Scanning and Evolving exist only while an action waits
      for a collaborator, and every action is taken here as one step, so no resting state
      is in either. */
  predicate Inv(s: GameState) {
    && s.maxRounds == MaxRounds
    && 1 <= s.round <= s.maxRounds
    && s.maxHp == StartHp + HpGrowthPerRound * (s.round - 1)
    && 0 <= s.hp <= s.maxHp
    && s.score >= 0
    && |s.dnaSequence| == |s.confirmedDnaSequence|
    && 0 <= s.newSlotsCount <= |s.dnaSequence|
    && |s.history| <= s.round
    && s.phase != Scanning && s.phase != Evolving
    && (s.phase == Engineering ==> s.environment.Some? && s.hp > 0 && |s.history| == s.round - 1)
    && (s.phase == Result ==> s.round < s.maxRounds && s.hp > 0)
    && (s.phase == Victory ==> s.round == s.maxRounds && s.hp > 0)
    && (s.phase == GameOver ==> s.hp == 0)
    && (IsResultPhase(s.phase) ==>
          |s.history| == s.round && s.lastResult == Some(s.history[|s.history| - 1]))
  }

  lemma InitialStateValid()
    ensures Inv(InitialState())
  {
  }

  /** Consequences of the invariant: the run is bounded and HP stays within the pool. */
  lemma InvBounds(s: GameState)
    requires Inv(s)
    ensures s.round <= MaxRounds
    ensures StartHp <= s.maxHp <= StartHp + HpGrowthPerRound * (MaxRounds - 1)
    ensures s.phase == Result ==> s.round + 1 <= MaxRounds
  {
  }

  // ---------------------------------------------------------------------------
  // Transitions as functions

  /** Starting a run: the template plus two free slots, both as working and as round-start
      sequence, at round 1 with full HP and an empty history. */
  function StartRun(species: SpeciesTemplate, env: Environment): (s: GameState)
    ensures s.phase == Engineering && s.environment == Some(env)
    ensures s.dnaSequence == s.confirmedDnaSequence == species.initialDna + [A, A] && s.newSlotsCount == 2
    ensures s.round == 1 && s.hp == s.maxHp == StartHp && s.score == 0 && s.history == []
    ensures Inv(s)
  {
    var initialDna := species.initialDna + [A, A];
    GameState(Engineering, 1, MaxRounds, 0, StartHp, StartHp, Some(env), initialDna, initialDna, 2, None, [])
  }

  function MinInt(x: int, y: int): int {
    if x <= y then x else y
  }

  /** Advancing to the next round: the pool grows by 30, a fifth of the new pool (rounded
      down) is healed up to the pool, one fresh A slot is appended and the grown sequence
      becomes the new round-start sequence. */
  function NextRoundState(prev: GameState, env: Environment): (s: GameState)
    ensures s.phase == Engineering && s.environment == Some(env) && s.round == prev.round + 1
    ensures s.maxHp == prev.maxHp + HpGrowthPerRound
    ensures s.maxRounds == prev.maxRounds
    ensures s.hp == MinInt(s.maxHp, prev.hp + s.maxHp / 5)
    ensures s.dnaSequence == s.confirmedDnaSequence == prev.dnaSequence + [A] && s.newSlotsCount == 1
    ensures s.score == prev.score && s.history == prev.history && s.lastResult == None
  {
    var newMaxHp := prev.maxHp + HpGrowthPerRound;
    var healAmount := (newMaxHp as real * 0.2).Floor;
    FifthFloor(newMaxHp);
    var newHp := MinInt(newMaxHp, prev.hp + healAmount);
    var nextDna := prev.dnaSequence + [A];
    GameState(Engineering, prev.round + 1, prev.maxRounds, prev.score, newHp, newMaxHp, Some(env),
              nextDna, nextDna, 1, None, prev.history)
  }

  /** Rounding a fifth of the pool down is integer division by 5 (both round toward
      negative infinity). */
  lemma FifthFloor(x: int)
    ensures (x as real * 0.2).Floor == x / 5
  {
    var q := x / 5;
    assert x == 5 * q + x % 5;
    assert q as real <= x as real * 0.2 < q as real + 1.0;
  }

  /** Moving on from a survived round keeps the invariant, strictly grows the pool and
      never lowers HP. */
  lemma NextRoundKeepsInv(prev: GameState, env: Environment)
    requires Inv(prev) && prev.phase == Result
    ensures Inv(NextRoundState(prev, env))
    ensures NextRoundState(prev, env).maxHp > prev.maxHp
    ensures NextRoundState(prev, env).hp >= prev.hp
  {
  }

  /** The damage actually dealt: the prediction scaled by 1 + variance, clamped at 0 and
      rounded down. */
  function FinalDamage(rawDamage: int, variance: real): (d: int)
    ensures d >= 0
    ensures d as real <= Max(0.0, rawDamage as real * (1.0 + variance)) < d as real + 1.0
  {
    Max(0.0, rawDamage as real * (1.0 + variance)).Floor
  }

  /** With the variance the game draws (from -10% up to +10%), the damage dealt lies in
      the range the editor displays for the prediction. */
  lemma FinalDamageInDisplayedRange(rawDamage: int, variance: real)
    requires rawDamage >= 0 && -0.1 <= variance <= 0.1
    ensures DamageRange(rawDamage).0 <= FinalDamage(rawDamage, variance) <= DamageRange(rawDamage).1
  {
    ScaledWithinTenPercent(rawDamage as real, variance);
    DamageBetween(rawDamage, rawDamage as real * (1.0 + variance), FinalDamage(rawDamage, variance));
  }

  /** Any whole damage that is the floor of a value within 10% of the prediction is in the
      displayed range. */
  lemma DamageBetween(predicted: int, x: real, d: int)
    requires 0.0 <= predicted as real * 0.9 <= x <= predicted as real * 1.1
    requires d as real <= Max(0.0, x) < d as real + 1.0
    ensures DamageRange(predicted).0 <= d <= DamageRange(predicted).1
  {
    var range := DamageRange(predicted);
    FloorBetween(range.0, predicted as real * 0.9, x, d, predicted as real * 1.1, range.1);
  }

  /** Scaling by 1 + v with |v| at most 0.1 stays within 10% of a non-negative value. */
  lemma ScaledWithinTenPercent(p: real, v: real)
    requires p >= 0.0 && -0.1 <= v <= 0.1
    ensures 0.0 <= p * 0.9 <= p * (1.0 + v) <= p * 1.1
  {
    assert p * (1.0 + v) == p + p * v;
    assert p * (0.1 - v) >= 0.0;
    assert p * (v + 0.1) >= 0.0;
  }

  /** Integer bounds carry over to the floor of a value between them. */
  lemma FloorBetween(lo: int, lower: real, x: real, fx: int, upper: real, hi: int)
    requires lo as real <= lower <= x <= upper <= hi as real
    requires fx as real <= x < fx as real + 1.0
    ensures lo <= fx <= hi
  {
  }

  /** Recording a resolved round: the phase follows from the remaining HP and the round,
      the round's score is added and the result is appended to the history. */
  function EvolvedState(prev: GameState, result: EvolutionResult): (s: GameState)
    ensures s.phase == GameOver <==> result.hpRemaining <= 0
    ensures s.phase == Victory <==> result.hpRemaining > 0 && prev.round >= prev.maxRounds
    ensures s.phase == Result <==> result.hpRemaining > 0 && prev.round < prev.maxRounds
    ensures s.hp == result.hpRemaining && s.lastResult == Some(result)
    ensures s.history == prev.history + [result] && s.history[..|prev.history|] == prev.history
    ensures result.hpRemaining >= 0 && prev.round >= 0 ==> s.score >= prev.score
    ensures s.round == prev.round && s.maxHp == prev.maxHp && s.environment == prev.environment
    ensures s.dnaSequence == prev.dnaSequence && s.confirmedDnaSequence == prev.confirmedDnaSequence
    ensures s.newSlotsCount == prev.newSlotsCount
  {
    var isDead := result.hpRemaining <= 0;
    var isVictory := !isDead && prev.round >= prev.maxRounds;
    var nextPhase := if isDead then GameOver else if isVictory then Victory else Result;
    var roundScore := (if isDead then 0 else 100) + result.hpRemaining + prev.round * 50;
    prev.(phase := nextPhase, score := prev.score + roundScore, hp := result.hpRemaining,
          lastResult := Some(result), history := prev.history + [result])
  }

  /** Resolving an engineering round with an outcome whose remaining HP is between 0 and
      the current HP keeps the invariant. */
  lemma EvolveKeepsInv(prev: GameState, result: EvolutionResult)
    requires Inv(prev) && prev.phase == Engineering
    requires 0 <= result.hpRemaining <= prev.hp
    ensures Inv(EvolvedState(prev, result))
  {
  }

  /** Phases and scores never read the `survived` flag: two outcomes that differ only in it
      lead to the same phase, HP and score. */
  lemma SurvivedFlagUnread(prev: GameState, result: EvolutionResult, flag: bool)
    ensures EvolvedState(prev, result).phase == EvolvedState(prev, result.(survived := flag)).phase
    ensures EvolvedState(prev, result).hp == EvolvedState(prev, result.(survived := flag)).hp
    ensures EvolvedState(prev, result).score == EvolvedState(prev, result.(survived := flag)).score
  {
  }

  /** A lethal round resolved through the fallback ends the game although the outcome
      claims survival. */
  lemma FallbackLethalRoundEndsRun(prev: GameState)
    requires Inv(prev) && prev.phase == Engineering && prev.hp == 10
    ensures EvaluateEvolution(None, 20, prev.hp).survived
    ensures EvolvedState(prev, EvaluateEvolution(None, 20, prev.hp)).phase == GameOver
  {
  }

  /** Returning to the title screen (the footer button and the header logo) only changes
      the phase; the next start resets the rest. */
  lemma ReturnToIntroKeepsInv(prev: GameState)
    requires Inv(prev)
    ensures Inv(prev.(phase := Intro)) && Inv(prev.(phase := SelectSpecies))
  {
  }

  /** Editing one slot while engineering keeps the invariant. */
  lemma DnaChangeKeepsInv(prev: GameState, index: nat, newBase: Base)
    requires Inv(prev) && index < |prev.dnaSequence|
    ensures Inv(prev.(dnaSequence := prev.dnaSequence[index := newBase]))
  {
  }

  // ---------------------------------------------------------------------------
  // The game as an object whose record is rewritten by each action

  class Game {
    var state: GameState

    ghost predicate Valid()
      reads this
    {
      Inv(state)
    }

    /** While engineering, at most one old slot differs from the round-start sequence. */
    predicate WithinBudget()
      reads this
    {
      state.phase == Engineering ==>
        MutationCount(state.dnaSequence, state.confirmedDnaSequence, state.newSlotsCount) <= 1
    }

    constructor()
      ensures state == InitialState()
      ensures Valid() && WithinBudget()
    {
      state := GameState(Intro, 1, MaxRounds, 0, StartHp, StartHp, None, [], [], 0, None, []);
    }

    method GoToSpeciesSelection()
      requires Valid()
      modifies this
      ensures state == old(state).(phase := SelectSpecies)
      ensures Valid() && WithinBudget()
    {
      state := state.(phase := SelectSpecies);
      ReturnToIntroKeepsInv(old(state));
    }

    /** Picking a template starts a run; `response` is the generated environment for
        round 1, or None when generation failed. */
    method SelectSpeciesAndStart(species: SpeciesTemplate, response: Option<Environment>)
      modifies this
      ensures state == StartRun(species, GenerateEnvironment(response, 1))
      ensures Valid() && WithinBudget()
    {
      var env := GenerateEnvironment(response, 1);
      var initialDna := species.initialDna + [A, A];
      state := GameState(Engineering, 1, MaxRounds, 0, StartHp, StartHp, Some(env),
                         initialDna, initialDna, 2, None, []);
      NoMutationsAtRoundStart(initialDna, 2);
    }

    /** Offered only on the survival screen; `response` is the generated environment for
        the next round, or None when generation failed. */
    method NextRound(response: Option<Environment>)
      requires Valid() && state.phase == Result
      modifies this
      ensures state == NextRoundState(old(state), GenerateEnvironment(response, old(state).round + 1))
      ensures Valid() && WithinBudget()
    {
      var nextRoundNum := state.round + 1;
      var env := GenerateEnvironment(response, nextRoundNum);
      var newMaxHp := state.maxHp + HpGrowthPerRound;
      var healAmount := (newMaxHp as real * 0.2).Floor;
      var newHp := MinInt(newMaxHp, state.hp + healAmount);
      var nextDna := state.dnaSequence + [A];
      NextRoundKeepsInv(state, env);
      state := GameState(Engineering, nextRoundNum, state.maxRounds, state.score, newHp, newMaxHp,
                         Some(env), nextDna, nextDna, 1, None, state.history);
      NoMutationsAtRoundStart(nextDna, 1);
    }

    /** The editor's change callback: ignored outside engineering; otherwise the sequence is
        copied and one slot of the copy is overwritten. */
    method HandleDnaChange(index: nat, newBase: Base)
      requires Valid() && index < |state.dnaSequence|
      modifies this
      ensures old(state).phase != Engineering ==> state == old(state)
      ensures old(state).phase == Engineering ==>
                state == old(state).(dnaSequence := old(state).dnaSequence[index := newBase])
      ensures Valid()
    {
      if state.phase != Engineering {
        return;
      }
      var current := state.dnaSequence;
      var newSeq := new Base[|current|](i requires 0 <= i < |current| => current[i]);
      newSeq[index] := newBase;
      assert newSeq[..] == current[index := newBase];
      DnaChangeKeepsInv(state, index, newBase);
      state := state.(dnaSequence := newSeq[..]);
    }

    /** A click on slot `index`: the editor is locked outside engineering, a requested
        change goes through the change callback, and a rejection changes nothing. */
    method ClickSlot(index: nat) returns (outcome: ClickOutcome)
      requires Valid() && index < |state.dnaSequence|
      modifies this
      ensures outcome == HandleSlotClick(old(state).phase != Engineering, old(state).dnaSequence,
                                         old(state).confirmedDnaSequence, old(state).newSlotsCount, index)
      ensures state == old(state).(dnaSequence := Applied(old(state).dnaSequence, outcome))
      ensures Valid()
      ensures old(WithinBudget()) ==> WithinBudget()
    {
      var locked := state.phase != Engineering;
      outcome := HandleSlotClick(locked, state.dnaSequence, state.confirmedDnaSequence, state.newSlotsCount, index);
      if locked {
        LockedClickIgnored(state.dnaSequence, state.confirmedDnaSequence, state.newSlotsCount, index);
      }
      if !locked && WithinBudget() {
        ClickKeepsBudget(locked, state.dnaSequence, state.confirmedDnaSequence, state.newSlotsCount, index);
      }
      match outcome
      case Edit(i, b) =>
        HandleDnaChange(i, b);
      case LimitReached =>
      case Ignored =>
    }

    /** Resolving the round: stats, prediction, the varied final damage, the evaluation
        (`narration` is None when the call failed) and the recorded outcome. Offered only
        while engineering. */
    method EvolveOrganism(variance: real, narration: Option<Narration>)
      requires Valid() && state.phase == Engineering
      modifies this
      ensures state == EvolvedState(old(state),
        EvaluateEvolution(narration,
          FinalDamage(PredictedDamage(StatsOf(old(state).dnaSequence), old(state).environment.value), variance),
          old(state).hp))
      ensures Valid()
    {
      var env := state.environment.value;
      var stats := CalculateStats(state.dnaSequence);
      var rawDamage := CalculateDamagePrediction(stats, env);
      var finalDamage := FinalDamage(rawDamage, variance);
      var result := EvaluateEvolution(narration, finalDamage, state.hp);
      var isDead := result.hpRemaining <= 0;
      var isVictory := !isDead && state.round >= state.maxRounds;
      var nextPhase := Result;
      if isDead {
        nextPhase := GameOver;
      } else if isVictory {
        nextPhase := Victory;
      }
      var roundScore := (if isDead then 0 else 100) + result.hpRemaining + state.round * 50;
      EvolveKeepsInv(state, result);
      state := state.(phase := nextPhase, score := state.score + roundScore, hp := result.hpRemaining,
                      lastResult := Some(result), history := state.history + [result]);
    }

    /** The restart / main-menu button and the header logo. */
    method ReturnToIntro()
      requires Valid()
      modifies this
      ensures state == old(state).(phase := Intro)
      ensures Valid() && WithinBudget()
    {
      ReturnToIntroKeepsInv(state);
      state := state.(phase := Intro);
    }
  }
}
