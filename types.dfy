/** The records and closed enumerations shared by the evolution game's engine. */
module Types {

  /** The four genetic bases; each is tied to one resistance axis. */
  datatype Base = A | T | C | G

  /** The eight phases of a run, from the title screen to the two terminal screens. */
  datatype GamePhase =
    | Intro
    | SelectSpecies
    | Scanning     // fetching the round's environment
    | Engineering  // the player edits the sequence
    | Evolving     // the round is being resolved
    | Result
    | Victory
    | GameOver

  datatype Option<T> = None | Some(value: T)

  /** A hazard profile. The four threat scalars are documented as lying in 0..100. */
  datatype Environment = Environment(
    name: string,
    description: string,
    temperature: real,
    toxicity: real,
    radiation: real,
    resourceScarcity: real,
    imgPrompt: string)

  /** The documented range of every threat scalar of an environment. */
  predicate ThreatsInRange(env: Environment) {
    0.0 <= env.temperature <= 100.0 &&
    0.0 <= env.toxicity <= 100.0 &&
    0.0 <= env.radiation <= 100.0 &&
    0.0 <= env.resourceScarcity <= 100.0
  }

  /** The four stat totals derived from a sequence. */
  datatype OrganismStats = OrganismStats(heatRes: int, coldRes: int, toxinRes: int, physicalStr: int)

  /** A catalog entry: a literal base pattern and the bonus it grants per occurrence.
      An axis the source's partial effect leaves out is 0 here. */
  datatype DnaCombo = DnaCombo(
    name: string,
    sequence: seq<Base>,
    description: string,
    effect: OrganismStats,
    color: string)

  /** The outcome of resolving one round; `survived` is documented as "HP > 0 after damage". */
  datatype EvolutionResult = EvolutionResult(
    survived: bool,
    damageTaken: int,
    hpRemaining: int,
    organismName: string,
    description: string,
    narrative: string,
    acquiredTraits: seq<string>,
    mutationFeedback: string)

  datatype SpeciesTemplate = SpeciesTemplate(
    id: string,
    name: string,
    nameEn: string,
    description: string,
    initialDna: seq<Base>,
    color: string)

  /** The whole run state. It keeps both the working sequence and the round-start
      (confirmed) sequence, and how many trailing slots are new this round. */
  datatype GameState = GameState(
    phase: GamePhase,
    round: int,
    maxRounds: int,
    score: int,
    hp: int,
    maxHp: int,
    environment: Option<Environment>,
    dnaSequence: seq<Base>,
    confirmedDnaSequence: seq<Base>,
    newSlotsCount: int,
    lastResult: Option<EvolutionResult>,
    history: seq<EvolutionResult>)

  /** `sub` is an order-preserving sub-list of `s`. */
  predicate IsSubsequence<X(==)>(sub: seq<X>, s: seq<X>)
    decreases |s|
  {
    if sub == [] then true
    else if s == [] then false
    else (sub[0] == s[0] && IsSubsequence(sub[1..], s[1..])) || IsSubsequence(sub, s[1..])
  }
}
