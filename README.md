# Biogenesis in Dafny

A model of the deterministic core of Biogenesis, a DNA-engineering evolution game, with
proofs of what its rules promise. The repository holds two games.

- **The browser game** (TypeScript) has four parts.
  - A stat engine turns a base sequence into four resistances: 12 per base on its own
    axis, plus a bonus for every non-overlapping occurrence of each of nine catalog combos.
  - A damage model turns those stats and an environment into a predicted damage.
  - A gene editor lets the player change at most one historical slot per round. The
    trailing new slots are always free.
  - A round state machine moves the run through its phases. It heals, grows the sequence,
    scores each resolved round and stops after round 8 or at 0 HP.
- **The console game** (`biogenesis.py`) has organisms whose fitness comes from the GC
  content of their sequence and the temperature. The environment drifts every generation,
  and the player gets three point mutations per generation.

Modules, one per source file:

| module | file | source |
|---|---|---|
| `Types` | `types.dfy` | `types.ts`: the closed enums (`Base`, `GamePhase`) and the records |
| `GameLogic` | `game_logic.dfy` | `utils/gameLogic.ts` |
| `DnaEditor` | `dna_editor.dfy` | `components/DNAEditor.tsx` |
| `GeminiService` | `gemini_service.dfy` | `services/geminiService.ts` |
| `App` | `app.dfy` | `App.tsx` |
| `Biogenesis` | `biogenesis.dfy` | `biogenesis.py` |

How each part is modelled:

- **Imperative code** stays imperative.
  - `calculateStats` and `calculateDamagePrediction` are methods with loops or
    accumulators. Each is proved equal to a specification function (`StatsOf`,
    `PredictedDamage`), and the properties are proved about those functions.
  - The React game is `App.Game`: a class whose `state` record each action rewrites.
  - The console game's `DNA`, `Organism`, `Environment` and `Game` are classes whose
    methods update their fields in place.
- **Pure code** is functions and lemmas. This covers the tier, the fallbacks, the click
  handler and the combo filter.
- **Collaborators are inputs.** Each reply from the remote text model (the generated
  environment, the narration) is an `Option` parameter, where `None` means the call
  failed. Every random draw is a parameter: the damage variance, the drift deltas, the
  survival and mutation rolls, the initial sequences.
- **Numbers.** Floating-point quantities are exact `real`s. Counts, stats, HP, scores and
  rounds are unbounded `int`s. No quantity in the core comes near a machine limit.

Three behaviours of the code that are easy to misread:

- **Combo counting.** Each pattern is counted on its own against the whole string. So
  "AAAGAA" earns the "AA" bonus twice and the "AAA" bonus once
  (`GameLogic.HeatTemplateExample`).
- **Restart.** The restart buttons (App.tsx:390, 433) only set the phase to INTRO. The
  next start builds a fresh record (`App.ReturnToIntroKeepsInv`).
- **Victory.** Victory tests `round >= maxRounds` (`App.EvolvedState`). On reachable
  states that means round 8 (`App.InvBounds`).

## Model

| member | source | states |
|---|---|---|
| GameLogic.BaseStatsSnoc | utils/gameLogic.ts:33-40 | appending a base adds exactly 12 to the axis it maps to and 0 to the other three |
| GameLogic.BaseStatsTotal | utils/gameLogic.ts:33-40 | the four base-only totals sum to 12 per base |
| GameLogic.Split | utils/gameLogic.ts:47 | splitting on a non-empty separator yields at least one piece |
| GameLogic.Occurrences | utils/gameLogic.ts:47 | the count of a pattern, scanning left to right and resuming after each match; what it means is stated by `SplitCountsOccurrences` (it is the split-minus-one count), `OccurrencesPositiveIffContains` and `OccurrencesFit` |
| GameLogic.SplitCountsOccurrences | utils/gameLogic.ts:47 | the `split(...).length - 1` count is the number of non-overlapping left-to-right occurrences |
| GameLogic.SplitJoinsBack | utils/gameLogic.ts:47 | joining the pieces with the separator gives the original sequence back |
| GameLogic.OccurrencesPositiveIffContains | utils/gameLogic.ts:47 | a pattern is counted at least once iff the sequence contains it as a substring |
| GameLogic.OccurrencesFit | utils/gameLogic.ts:47 | counted matches do not overlap: count times pattern length is at most the sequence length |
| GameLogic.OccurrencesExamples | utils/gameLogic.ts:47 | "AAA" holds "AA" once, "AAAA" twice, the empty sequence never |
| GameLogic.OccurrencesAbsent | utils/gameLogic.ts:47 | a pattern using a base the sequence lacks is never counted |
| GameLogic.CombosWellFormed | utils/gameLogic.ts:4-19 | every catalog pattern is non-empty |
| GameLogic.ApplyBase | utils/gameLogic.ts:34-39 | one switch case bumps only the base's own axis, by 12 |
| GameLogic.ApplyCombo | utils/gameLogic.ts:47-53 | one catalog step adds effect times occurrence count on every axis; the skipped zero-effect and zero-count bumps change nothing |
| GameLogic.StatsOf | utils/gameLogic.ts:23-57 | the stats of a sequence: per-base totals plus each catalog bonus once per occurrence; `CalculateStats` proves the two loops compute it, `CatalogBonusByAxis` writes the bonus out per axis, `StatsAtLeastBase` shows it never falls below the base totals |
| GameLogic.CalculateStats | utils/gameLogic.ts:23-57 | the two loops compute the base totals plus every catalog bonus (`StatsOf`) |
| GameLogic.ComboTotalOfEmpty | utils/gameLogic.ts:44-54 | no combo occurs in the empty sequence |
| GameLogic.StatsOfEmpty | utils/gameLogic.ts:23-57 | the empty sequence has all-zero stats |
| GameLogic.ComboTotalNonNegative | utils/gameLogic.ts:44-54 | with non-negative effects the combo bonus is non-negative on every axis |
| GameLogic.StatsAtLeastBase | utils/gameLogic.ts:43-54 | every stat is at least its base-only total, and no stat is negative |
| GameLogic.CatalogBonusByAxis | utils/gameLogic.ts:4-54 | the catalog bonus per axis is 25/15/50 (heat, cold) or 25/15/30 (toxin, physical) times the respective counts, each pattern counted against the whole sequence |
| GameLogic.NineEntryBonus | utils/gameLogic.ts:44-54 | the same sum for any nine-entry list with the catalog's patterns and effects |
| GameLogic.StatsFromCounts | utils/gameLogic.ts:23-57 | the stats follow from the base totals and the nine pattern counts |
| GameLogic.StatsOfTriple | utils/gameLogic.ts:23-57 | "AAA" has heat 111: 3 x 12 plus the "AA" and "AAA" bonuses once each |
| GameLogic.TripleCounts | utils/gameLogic.ts:47 | the nine pattern counts of "AAA" |
| GameLogic.FilterPresent | utils/gameLogic.ts:98 | the filter keeps exactly the entries contained in the sequence, in list order |
| GameLogic.FindActiveCombos | utils/gameLogic.ts:96-99 | a catalog entry is active iff its stat count is positive; the result is an order-preserving sub-list of the catalog |
| GameLogic.HeatDamage | utils/gameLogic.ts:67-71 | the heat contribution is never negative (the excess is clamped at 0); with `OneTemperatureAxis`, heat and cold never both apply |
| GameLogic.ColdDamage | utils/gameLogic.ts:74-78 | the cold contribution is never negative; at exactly 50 degrees it is cold, not heat, that applies (`OneTemperatureAxis`) |
| GameLogic.ToxinDamage | utils/gameLogic.ts:81-84 | the toxin contribution is never negative; `DamageMonotone` shows more resistance never raises it |
| GameLogic.PhysicalDamage | utils/gameLogic.ts:88-90 | the physical contribution is never negative, whichever of radiation and scarcity is the larger threat |
| GameLogic.RawDamage | utils/gameLogic.ts:59-94 | the sum of the four contributions is never negative, so its ceiling, `PredictedDamage`, is not either |
| GameLogic.PredictedDamage | utils/gameLogic.ts:59-94 | the prediction is the least integer not below the sum of the four clamped contributions, and it is non-negative |
| GameLogic.CalculateDamagePrediction | utils/gameLogic.ts:59-94 | the step-by-step accumulation computes `PredictedDamage` |
| GameLogic.OneTemperatureAxis | utils/gameLogic.ts:67-78 | at most one of heat and cold is charged; at temperature 50 it is cold |
| GameLogic.CeilMonotone | utils/gameLogic.ts:93 | rounding up is monotone |
| GameLogic.DamageMonotone | utils/gameLogic.ts:59-94 | raising any resistance never raises the predicted damage |
| GameLogic.DamageExamples | utils/gameLogic.ts:59-94 | zero stats at temperature 100 take 120; heat resistance 100 takes 0 |
| GameLogic.HeatTemplateExample | utils/gameLogic.ts:23-94 | "AAAGAA" has heat 160 and physical 12, and takes no damage at temperature 80 |
| GameLogic.TemplateStats | utils/gameLogic.ts:23-57 | the stats of "AAAGAA" |
| GameLogic.TemplateBase | utils/gameLogic.ts:33-40 | the base-only totals of "AAAGAA" |
| GameLogic.TemplateCounts | utils/gameLogic.ts:47 | the nine pattern counts of "AAAGAA" ("AA" twice, "AAA" once) |
| DnaEditor.IsOldSlot | components/DNAEditor.tsx:37 | a slot is old iff it lies before the slots added this round; `NewSlotClickAdvances` and `ClickRejectedIff` state what follows for a click |
| DnaEditor.MutationCount | components/DNAEditor.tsx:40-45 | the number of old slots that differ from the round-start sequence, as `MutationCountIsSize` proves against the set of such slots |
| DnaEditor.CanMutateOld | components/DNAEditor.tsx:47 | one more old slot may change only while no old slot differs; `ClickRejectedIff` states when a click is refused |
| DnaEditor.MutationsBelowIsSize | components/DNAEditor.tsx:40-45 | the reduce over a prefix counts exactly the old slots in it that differ from the round-start sequence |
| DnaEditor.MutationCountIsSize | components/DNAEditor.tsx:40-45 | the mutation count is the size of the set of old slots that differ from the round-start sequence |
| DnaEditor.NoMutationsAtRoundStart | components/DNAEditor.tsx:40-45 | a sequence equal to its round-start sequence has mutation count 0 |
| DnaEditor.MutationsBelowUpdate | components/DNAEditor.tsx:40-45 | replacing one slot changes the count only through that slot |
| DnaEditor.CycleBase | components/DNAEditor.tsx:49-56 | cycling never returns its input |
| DnaEditor.CycleBaseOrbit | components/DNAEditor.tsx:49-56 | four cycles return the start, passing all four bases |
| DnaEditor.HandleSlotClick | components/DNAEditor.tsx:58-83 | only a locked editor ignores a click; an edit always targets the clicked slot with the next base; a rejection only hits an unlocked, unmutated old slot |
| DnaEditor.Applied | components/DNAEditor.tsx:58-83 | carrying out a click changes at most the requested slot and keeps the length |
| DnaEditor.LockedClickIgnored | components/DNAEditor.tsx:59 | a locked editor ignores every click |
| DnaEditor.NewSlotClickAdvances | components/DNAEditor.tsx:61-63 | a new slot always advances |
| DnaEditor.MutatedSlotClickAdvances | components/DNAEditor.tsx:66-72 | an already-mutated old slot always advances, even back to its round-start base |
| DnaEditor.FreshOldSlotClickAdvances | components/DNAEditor.tsx:74-76 | while no old slot differs, clicking an unmutated old slot advances it |
| DnaEditor.ClickRejectedIff | components/DNAEditor.tsx:74-80 | an unlocked click is rejected iff it targets an unmutated old slot while the count is at least 1 |
| DnaEditor.ClickKeepsBudget | components/DNAEditor.tsx:58-83 | if at most one old slot differs before a click, at most one does after it |
| DnaEditor.BalancedTemplateClicks | components/DNAEditor.tsx:58-83 | on "ATCG": the first old edit is allowed, a second old slot is refused, the mutated slot keeps cycling |
| DnaEditor.DamageRange | components/DNAEditor.tsx:91-92 | the range is 90% of the prediction rounded down to 110% rounded up |
| DnaEditor.DamageRangeBrackets | components/DNAEditor.tsx:91-92 | for a non-negative prediction: 0 <= minimum <= prediction <= maximum |
| GeminiService.DifficultyTier | services/geminiService.ts:33-39 | every tier has 0 <= min < max <= 100 |
| GeminiService.DifficultyMonotone | services/geminiService.ts:33-39 | a later round never asks for a lower band |
| GeminiService.FallbackEnvironment | services/geminiService.ts:72-80 | scarcity 20; temperature, toxicity and radiation 10 apart |
| GeminiService.FallbackInRangeIff | services/geminiService.ts:75-78 | all four threats lie in 0..100 iff -2 <= round <= 14 |
| GeminiService.FallbackInRangeForRun | services/geminiService.ts:75-78 | for every round 1..8 the fallback threats lie in 0..100 |
| GeminiService.FallbackHarderEachRound | services/geminiService.ts:75-77 | the three growing threats strictly increase with the round |
| GeminiService.GenerateEnvironment | services/geminiService.ts:66-81 | the generated environment is used as is; on failure the round's fallback |
| GeminiService.EvaluateEvolution | services/geminiService.ts:149-173 | damage is echoed; HP is max(0, current - damage) on both paths, so >= 0 and <= current for non-negative damage; survived iff HP > 0 on success, always on failure |
| GeminiService.OutcomeIndependentOfNarration | services/geminiService.ts:149-167 | whether the narration arrived changes neither damage nor remaining HP |
| GeminiService.FallbackClaimsSurvival | services/geminiService.ts:164-167 | the fallback reports survival for 20 damage against 10 HP, with 0 HP left |
| App.InitialState | App.tsx:17-30 | the boot record: INTRO, round 1, 100 of 100 HP |
| App.InitialStateValid | App.tsx:17-30 | the boot record satisfies the invariant |
| App.Inv | App.tsx:11-30 | the invariant of every resting state (round within 1..8, pool tied to the round, HP within the pool, history one per finished round); established by `InitialStateValid` and `StartRun`, kept by `NextRoundKeepsInv`, `EvolveKeepsInv`, `ReturnToIntroKeepsInv` and `DnaChangeKeepsInv` |
| App.InvBounds | App.tsx:141-145 | in every resting state the round is at most 8, the pool is 100..310, and a survival screen has a next round |
| App.StartRun | App.tsx:56-71 | working = confirmed = template + [A, A], 2 new slots, round 1, 100/100 HP, score 0, empty history; the invariant holds |
| App.NextRoundState | App.tsx:82-104 | pool + 30, HP healed by a fifth of the new pool (rounded down) up to the pool, one A appended and confirmed, 1 new slot, round + 1, round limit, score and history kept |
| App.FifthFloor | App.tsx:84 | `floor(x * 0.2)` is `x / 5` for every integer pool (both round toward negative infinity) |
| App.NextRoundKeepsInv | App.tsx:83-85 | the next round keeps the invariant, strictly grows the pool and never lowers HP |
| App.FinalDamage | App.tsx:128 | the damage dealt is the floor of the clamped, varied prediction, and is non-negative |
| App.FinalDamageInDisplayedRange | App.tsx:127-128 | for any drawn variance in -10%..+10% the damage dealt lies in the editor's displayed range |
| App.EvolvedState | App.tsx:139-157 | GAME_OVER iff HP <= 0, VICTORY iff alive at or past the last round, RESULT otherwise; score never drops; exactly one result appended; HP is the remaining HP; nothing else changes |
| App.EvolveKeepsInv | App.tsx:139-157 | resolving a round with remaining HP between 0 and the current HP keeps the invariant |
| App.SurvivedFlagUnread | App.tsx:140-147 | the phase, HP and score do not depend on the `survived` flag |
| App.FallbackLethalRoundEndsRun | App.tsx:140-144 | a lethal round resolved through the fallback ends the run although the result claims survival |
| App.ReturnToIntroKeepsInv | App.tsx:390 | going back to the title or the species screen keeps the invariant |
| App.DnaChangeKeepsInv | App.tsx:109-115 | overwriting one slot keeps the invariant |
| App.Game.constructor | App.tsx:17-30 | the game starts in the boot record |
| App.Game.GoToSpeciesSelection | App.tsx:37-39 | only the phase changes, to SELECT_SPECIES |
| App.Game.SelectSpeciesAndStart | App.tsx:41-73 | the record becomes `StartRun` with the round-1 environment or its fallback; the edit budget holds |
| App.Game.NextRound | App.tsx:75-107 | from RESULT, the record becomes `NextRoundState` with the next round's environment or its fallback; the invariant and the edit budget hold |
| App.Game.HandleDnaChange | App.tsx:109-115 | ignored outside ENGINEERING; otherwise exactly the given slot of the copied sequence changes |
| App.Game.ClickSlot | App.tsx:488-495 | a click is handled with the editor locked outside ENGINEERING, and its requested change goes through the change callback; the edit budget is kept |
| App.Game.EvolveOrganism | App.tsx:117-159 | the record becomes `EvolvedState` of the evaluation of the varied prediction for the current sequence and environment; the invariant holds |
| App.Game.ReturnToIntro | App.tsx:390 | only the phase changes, to INTRO |
| Biogenesis.MutatedSequence | biogenesis.py:22-25 | an accepted mutation keeps the length and writes the new base only at the position |
| Biogenesis.MutationKeepsBases | biogenesis.py:20-27 | mutating a pure ATCG sequence keeps it pure |
| Biogenesis.MutationExamples | test_biogenesis.py:22-32 | "ATCGATCG" mutated at 0 to G is "GTCGATCG"; position 100, -1, base "X" or "AT" are refused |
| Biogenesis.CountChar | biogenesis.py:38 | a character count never exceeds the length |
| Biogenesis.CountZeroIffAbsent | biogenesis.py:38 | the count is 0 iff the character does not occur |
| Biogenesis.GcCountBounded | biogenesis.py:38 | G plus C never exceeds the length |
| Biogenesis.CountIsMultiplicity | biogenesis.py:38 | the count is the multiplicity in the sequence's multiset |
| Biogenesis.GcContentOf | biogenesis.py:36-39 | for a non-empty sequence the GC content lies in [0, 1]; it is 0 iff there is no G or C, and 1 iff every base is G or C |
| Biogenesis.Fraction | biogenesis.py:39 | part over whole lies in [0, 1]; 0 iff the part is 0, 1 iff it is the whole |
| Biogenesis.GcContentFromCounts | biogenesis.py:36-39 | the GC content is the r with r * length = G + C |
| Biogenesis.GcContentOfHalves | biogenesis.py:36-39 | the GC content of a concatenation follows from the counts of its parts |
| Biogenesis.GcContentAllGc | test_biogenesis.py:35-37 | "GGGGCCCC" has GC content 1.0 |
| Biogenesis.GcContentNoGc | test_biogenesis.py:39-41 | "AAAATTTT" has GC content 0.0 |
| Biogenesis.GcContentBalanced | test_biogenesis.py:43-45 | "ATCGATCG" has GC content 0.5 |
| Biogenesis.FitnessOf | biogenesis.py:54-69 | fitness lies in [0, 100], and is 100 iff the GC content is ideal and the temperature is 37 |
| Biogenesis.FitnessCloserIsFitter | biogenesis.py:58-62 | at one temperature, a GC content closer to the ideal is never less fit |
| Biogenesis.FitnessMilderIsFitter | biogenesis.py:64-66 | with one GC content, a temperature closer to 37 is never less fit |
| Biogenesis.FitnessBalancedExample | biogenesis.py:54-69 | a balanced sequence is 100 fit in the standard environment |
| Biogenesis.FitnessAllGcExample | biogenesis.py:54-69 | a pure GC sequence is 50 fit in the standard environment |
| Biogenesis.SurvivalRule | biogenesis.py:76-88 | an organism lives unless it is unfit (fitness below 30) and draws a death roll below 0.5, or is old (age above 10) and draws an age roll below 0.3; `Organism.Survive` applies it and `FitAndYoungSurvive` shows fit young organisms always live |
| Biogenesis.FitAndYoungSurvive | biogenesis.py:76-88 | fitness >= 30 at age <= 10 survives whatever the rolls |
| Biogenesis.Clamp | biogenesis.py:107-111 | the clamp lies in the band, equals the input iff it is inside, and is the nearer bound otherwise |
| Biogenesis.Dna.constructor | biogenesis.py:12-18 | a given non-empty sequence is kept, otherwise the drawn random sequence is used |
| Biogenesis.Dna.Mutate | biogenesis.py:20-27 | returns true iff the position is in range and the base is one of A, T, C, G; then only that position changes, otherwise nothing changes |
| Biogenesis.Dna.RandomMutation | biogenesis.py:29-34 | a drawn in-range position gets the drawn base |
| Biogenesis.Organism.constructor | biogenesis.py:47-52 | a new organism is alive, aged 0, with fitness 0 |
| Biogenesis.Organism.CalculateFitness | biogenesis.py:54-69 | the stored and returned fitness is `FitnessOf` its GC content and the environment, in [0, 100]; age and life unchanged |
| Biogenesis.Organism.Survive | biogenesis.py:71-88 | age grows by exactly 1, fitness is recomputed, survival follows the two rolls, and alive only goes from true to false |
| Biogenesis.Environment.constructor | biogenesis.py:97-101 | the given conditions at generation 0 |
| Biogenesis.Environment.ChangeConditions | biogenesis.py:103-111 | for any deltas: generation + 1, ideal GC clamped to [0.3, 0.7], temperature to [25, 45] |
| Biogenesis.EditScreen | biogenesis.py:155-184 | no edit without budget; none without a living organism; cancel on 0 for either number; an out-of-range organism number is refused; a missing number (organism, or position after a valid organism) is an input error; the edit goes ahead iff budget, a valid organism number and a non-zero position were given |
| Biogenesis.AliveOf | biogenesis.py:161 | the living organisms are exactly those whose flag is set, taken from the list, and there are no more of them than organisms |
| Biogenesis.AliveOfInOrder | biogenesis.py:161 | the living organisms keep their list order: they form an order-preserving sub-list of the organisms, as the list comprehension builds them |
| Biogenesis.AliveOfCountsFlags | biogenesis.py:205-209 | counting the survivors' flags counts the living organisms |
| Biogenesis.Lived | biogenesis.py:206-212 | a dead organism is untouched; a living one ages by one, gets a fitness in [0, 100] and keeps its length; no organism comes back to life |
| Biogenesis.AdaptedYoungOrganismSurvives | biogenesis.py:71-88 | a perfectly adapted organism of age <= 9 survives the next generation at 37 degrees |
| Biogenesis.Game.constructor | biogenesis.py:119-123 | no organisms, running, budget 3, environment at GC 0.5 and 37 degrees, generation 0 |
| Biogenesis.Game.SpawnOrganisms | biogenesis.py:138-140 | three alive, age-0 organisms named 物种-1..3 with the drawn sequences are appended |
| Biogenesis.Game.EditDna | biogenesis.py:155-195 | no edit when the budget is <= 0; the budget drops by one exactly when the mutation succeeds; only the chosen living organism's sequence changes; every other outcome is the screening answer |
| Biogenesis.Game.SpendEdit | biogenesis.py:190 | the budget drops by one and nothing else changes |
| Biogenesis.Game.MutateChosen | biogenesis.py:188 | only the chosen organism's sequence changes, exactly as `Dna.Mutate` says |
| Biogenesis.Game.LiveGeneration | biogenesis.py:207-212 | one organism's generation leaves it in the `Lived` state and reports whether it is alive |
| Biogenesis.Game.LiveAt | biogenesis.py:206-212 | the loop body advances the progress by one organism |
| Biogenesis.Game.LiveThroughAll | biogenesis.py:205-212 | every organism ends in its `Lived` state and the count is the number alive |
| Biogenesis.Game.FinishGeneration | biogenesis.py:215-222 | the budget is reset to 3, the game stops iff nothing is alive, and no organism or sequence changes |
| Biogenesis.Game.LiveAndFinish | biogenesis.py:204-222 | in the current environment, every organism lives its generation, the count is the number alive, the budget is 3 again and the game stops iff nothing is alive; the environment is untouched |
| Biogenesis.Game.NextGeneration | biogenesis.py:197-222 | the environment drifts with clamping, every organism lives its generation, the budget is 3 again, the count is the number alive and the game stops once it is 0 |

## Left out

- Rendering is not modelled: all JSX, the tutorial, intro and result overlays, the
  radar chart, the species visuals and the species picker UI. Their output is display only.
- Waiting on collaborators is not modelled: `async`/`await`, `isLoading`, the SCANNING and
  EVOLVING phases and the stale read of `gameState.round` in `nextRound`. Each action is
  one atomic step, so no resting state is in SCANNING or EVOLVING.
- The remote text-model client is an input: its prompts, schemas, `generateContent` and
  JSON parsing. `Option` is `None` when the call or its parsing failed.
- GeminiService.GenerateEnvironment: a generated environment is not range-checked,
  because the code trusts the reply. Only the fallback is proved to be in range.
- The browser `alert` of a refused click is the value `LimitReached`, which changes nothing.
- Random draws are parameters: `Math.random` for the variance, and `random.choice`,
  `randint`, `random.random` and `random.uniform` in the console game. The proofs hold
  for all values the draws can take.
- IEEE floating-point rounding is not modelled: the 1.2 multiplier, the 0.2 heal, the
  0.9/1.1 range, the GC ratio, fitness and drift are exact reals.
- Console I/O is not modelled: `start_game`'s banner, `display_status`, the `game_loop`
  menu, `print` and `__str__`. Their effects on the game are the methods above.
- `input()` parsing is modelled only by its result. The two numbers arrive as
  `Option<int>`, with `None` for a `ValueError`. The base string is taken as already
  upper-cased, because Dafny has no case folding.
- Biogenesis.Dna.RandomMutation: requires an in-range position. `randint(0, len - 1)`
  draws only those, and it raises on an empty sequence, which the game never creates.
- Biogenesis.Organism.CalculateFitness: requires a non-empty sequence. The division by
  the length raises `ZeroDivisionError` on an empty one.
- The guard `if (!gameState.environment) return` in `evolveOrganism` is not modelled. The
  invariant gives every ENGINEERING state an environment, and the evolve button is
  enabled only there.
- `START_DNA_LENGTH` is declared (`App.StartDnaLength`) but is read nowhere in the code.
- The 20-base sequences of `test_biogenesis.py` are replaced in the fitness examples by
  8-base sequences with the same GC content.
- `demo.py`, `test_biogenesis.py` as a harness, and `SPECIES_OPTIONS` are not part of this
  model. The balanced template "ATCG" and the heat template "AAAG" appear only as
  example data.
