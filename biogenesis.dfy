/** The console evolution game: sequences edited base by base, fitness from GC content
    and temperature, a fluctuating environment and a per-generation edit budget.
    Floating-point values are modelled as exact reals and every random draw is a parameter. */
module Biogenesis {
  import Types

  // ---------------------------------------------------------------------------
  // Sequences and single-base mutation

  /** The bases a mutation may write, as the one-character strings the game accepts. */
  const Bases: seq<string> := ["A", "T", "C", "G"]

  predicate IsBaseString(s: string) {
    forall i :: 0 <= i < |s| ==> s[i] in "ATCG"
  }

  /** A mutation is accepted exactly when the position is inside the sequence and the
      new base is one of the four one-character base strings. */
  predicate MutationAccepted(s: string, position: int, newBase: string) {
    0 <= position < |s| && newBase in Bases
  }

  /** The sequence after an accepted mutation: same length, only `position` changed. */
  function MutatedSequence(s: string, position: int, newBase: string): (r: string)
    requires MutationAccepted(s, position, newBase)
    ensures |r| == |s| && r[position] in "ATCG"
    ensures forall i :: 0 <= i < |s| && i != position ==> r[i] == s[i]
    ensures |newBase| == 1 && r[position] == newBase[0]
  {
    s[position := newBase[0]]
  }

  /** Mutating a pure base sequence keeps it a pure base sequence. */
  lemma MutationKeepsBases(s: string, position: int, newBase: string)
    requires IsBaseString(s) && MutationAccepted(s, position, newBase)
    ensures IsBaseString(MutatedSequence(s, position, newBase))
  {
    var r := MutatedSequence(s, position, newBase);
    forall i | 0 <= i < |r|
      ensures r[i] in "ATCG"
    {
      if i != position {
        assert r[i] == s[i];
      }
    }
  }

  lemma MutationExamples()
    ensures MutationAccepted("ATCGATCG", 0, "G") && MutatedSequence("ATCGATCG", 0, "G") == "GTCGATCG"
    ensures !MutationAccepted("GTCGATCG", 100, "G")
    ensures !MutationAccepted("ATCG", -1, "A") && !MutationAccepted("ATCG", 0, "X") && !MutationAccepted("ATCG", 0, "AT")
  {
    assert "G" in Bases by { assert Bases[3] == "G"; }
    assert "X" !in Bases;
    assert "AT" !in Bases;
  }

  // ---------------------------------------------------------------------------
  // GC content

  /** Occurrences of one character. */
  function CountChar(s: string, c: char): (n: nat)
    ensures n <= |s|
  {
    if s == [] then 0
    else CountChar(s[..|s| - 1], c) + (if s[|s| - 1] == c then 1 else 0)
  }

  /** The count is zero exactly when the character does not occur. */
  lemma {:induction false} CountZeroIffAbsent(s: string, c: char)
    ensures CountChar(s, c) == 0 <==> (forall i :: 0 <= i < |s| ==> s[i] != c)
  {
    if s != [] {
      CountZeroIffAbsent(s[..|s| - 1], c);
      assert forall i :: 0 <= i < |s| - 1 ==> s[..|s| - 1][i] == s[i];
    }
  }

  /** G and C together never outnumber the sequence. */
  lemma {:induction false} GcCountBounded(s: string)
    ensures CountChar(s, 'G') + CountChar(s, 'C') <= |s|
  {
    if s != [] {
      GcCountBounded(s[..|s| - 1]);
    }
  }

  /** The fraction of G and C bases. An empty sequence has none: the division fails there. */
  function GcContentOf(s: string): (r: real)
    requires |s| > 0
    ensures 0.0 <= r <= 1.0
    ensures r == 0.0 <==> CountChar(s, 'G') + CountChar(s, 'C') == 0
    ensures r == 1.0 <==> CountChar(s, 'G') + CountChar(s, 'C') == |s|
  {
    GcCountBounded(s);
    Fraction(CountChar(s, 'G') + CountChar(s, 'C'), |s|)
  }

  /** A part over a whole, as a real between 0 and 1. */
  function Fraction(part: nat, whole: nat): (r: real)
    requires 0 < whole && part <= whole
    ensures 0.0 <= r <= 1.0
    ensures r == 0.0 <==> part == 0
    ensures r == 1.0 <==> part == whole
  {
    part as real / whole as real
  }

  /** A fraction is determined by what it gives when multiplied back by the whole. */
  lemma FractionFromProduct(part: nat, whole: nat, r: real)
    requires 0 < whole && part <= whole && r * whole as real == part as real
    ensures Fraction(part, whole) == r
  {
  }

  /** The count is the multiplicity in the multiset of the sequence. */
  lemma {:induction false} CountIsMultiplicity(s: string, c: char)
    ensures CountChar(s, c) == multiset(s)[c]
  {
    if s != [] {
      CountIsMultiplicity(s[..|s| - 1], c);
      assert s == s[..|s| - 1] + [s[|s| - 1]];
    }
  }

  lemma GcContentAllGc()
    ensures GcContentOf("GGGGCCCC") == 1.0
  {
    assert "GGGGCCCC" == "GGGG" + "CCCC";
    GcContentOfHalves("GGGG", "CCCC", 4, 4, 1.0);
  }

  lemma GcContentNoGc()
    ensures GcContentOf("AAAATTTT") == 0.0
  {
    assert "AAAATTTT" == "AAAA" + "TTTT";
    GcContentOfHalves("AAAA", "TTTT", 0, 0, 0.0);
  }

  lemma GcContentBalanced()
    ensures GcContentOf("ATCGATCG") == 0.5
  {
    assert "ATCGATCG" == "ATCG" + "ATCG";
    GcContentOfHalves("ATCG", "ATCG", 2, 2, 0.5);
  }

  /** The GC content read off the multiset of the sequence: the fraction r with
      r * |s| == G + C. */
  lemma GcContentFromCounts(s: string, g: nat, c: nat, r: real)
    requires |s| > 0 && multiset(s)['G'] == g && multiset(s)['C'] == c
    requires r * |s| as real == (g + c) as real
    ensures GcContentOf(s) == r
  {
    CountIsMultiplicity(s, 'G');
    CountIsMultiplicity(s, 'C');
    GcCountBounded(s);
    FractionFromProduct(g + c, |s|, r);
  }

  // ---------------------------------------------------------------------------
  // Fitness

  function Abs(x: real): real {
    if x < 0.0 then -x else x
  }

  function MaxReal(x: real, y: real): real {
    if x >= y then x else y
  }

  function MinReal(x: real, y: real): real {
    if x <= y then x else y
  }

  /** 100 points minus 100 per unit of GC mismatch (floored at 0), minus 2 per degree away
      from 37, floored at 0 again. */
  function FitnessOf(gcContent: real, idealGc: real, temperature: real): (f: real)
    ensures 0.0 <= f <= 100.0
    ensures f == 100.0 <==> gcContent == idealGc && temperature == 37.0
  {
    var gcDiff := Abs(gcContent - idealGc);
    var fitness := MaxReal(0.0, 100.0 - gcDiff * 100.0);
    var tempDiff := Abs(temperature - 37.0);
    MaxReal(0.0, fitness - tempDiff * 2.0)
  }

  /** At the same temperature, a GC content closer to the ideal is never less fit. */
  lemma FitnessCloserIsFitter(gc1: real, gc2: real, idealGc: real, temperature: real)
    requires Abs(gc1 - idealGc) <= Abs(gc2 - idealGc)
    ensures FitnessOf(gc1, idealGc, temperature) >= FitnessOf(gc2, idealGc, temperature)
  {
  }

  /** With the same GC content, a temperature closer to 37 is never less fit. */
  lemma FitnessMilderIsFitter(gcContent: real, idealGc: real, t1: real, t2: real)
    requires Abs(t1 - 37.0) <= Abs(t2 - 37.0)
    ensures FitnessOf(gcContent, idealGc, t1) >= FitnessOf(gcContent, idealGc, t2)
  {
  }

  /** A balanced sequence fits the standard environment perfectly. */
  lemma FitnessBalancedExample()
    ensures FitnessOf(GcContentOf("ATCGATCG"), 0.5, 37.0) == 100.0
  {
    GcContentBalanced();
  }

  /** A pure GC sequence scores half in the standard environment. */
  lemma FitnessAllGcExample()
    ensures FitnessOf(GcContentOf("GGGGCCCC"), 0.5, 37.0) == 50.0
  {
    GcContentAllGc();
  }

  /** The GC content of a sequence given in two parts, from the counts of the parts. */
  lemma GcContentOfHalves(u: string, v: string, g: nat, c: nat, r: real)
    requires |u + v| > 0
    requires multiset(u)['G'] + multiset(v)['G'] == g && multiset(u)['C'] + multiset(v)['C'] == c
    requires r * |u + v| as real == (g + c) as real
    ensures GcContentOf(u + v) == r
  {
    assert multiset(u + v) == multiset(u) + multiset(v);
    GcContentFromCounts(u + v, g, c, r);
  }

  /** The survival rule of one generation: a weak organism dies on a bad death roll, an
      old one on a bad age roll. */
  predicate SurvivalRule(fitness: real, age: int, deathRoll: real, ageRoll: real) {
    !(fitness < 30.0 && deathRoll < 0.5) && !(age > 10 && ageRoll < 0.3)
  }

  /** A fit organism of at most 10 generations survives whatever the rolls. */
  lemma FitAndYoungSurvive(fitness: real, age: int, deathRoll: real, ageRoll: real)
    requires fitness >= 30.0 && age <= 10
    ensures SurvivalRule(fitness, age, deathRoll, ageRoll)
  {
  }

  // ---------------------------------------------------------------------------
  // Environment drift

  /** `max(lo, min(hi, x))`. */
  function Clamp(lo: real, hi: real, x: real): (r: real)
    requires lo <= hi
    ensures lo <= r <= hi
    ensures r == x <==> lo <= x <= hi
    ensures x < lo ==> r == lo
    ensures x > hi ==> r == hi
  {
    MaxReal(lo, MinReal(hi, x))
  }

  // ---------------------------------------------------------------------------
  // The objects

  class Dna {
    var sequence: string

    /** A given non-empty sequence is kept; otherwise `randomDraw` stands for the
        `length` bases drawn at random. */
    constructor(given: string, length: int, randomDraw: string)
      requires given == "" ==> |randomDraw| == (if length > 0 then length else 0) && IsBaseString(randomDraw)
      ensures given != "" ==> sequence == given
      ensures given == "" ==> sequence == randomDraw
    {
      if given != "" {
        sequence := given;
      } else {
        sequence := randomDraw;
      }
    }

    /** Rebuilds the sequence with one base replaced, and reports whether it did. */
    method Mutate(position: int, newBase: string) returns (ok: bool)
      modifies this
      ensures ok == MutationAccepted(old(sequence), position, newBase)
      ensures ok ==> sequence == MutatedSequence(old(sequence), position, newBase)
      ensures !ok ==> sequence == old(sequence)
    {
      if 0 <= position < |sequence| && newBase in Bases {
        var current := sequence;
        var seqList := new char[|current|](i requires 0 <= i < |current| => current[i]);
        seqList[position] := newBase[0];
        sequence := seqList[..];
        assert sequence == current[position := newBase[0]];
        ok := true;
      } else {
        ok := false;
      }
    }

    /** A mutation at a drawn position (in range) to a drawn base. */
    method RandomMutation(position: int, newBase: string)
      requires 0 <= position < |sequence| && newBase in Bases
      modifies this
      ensures sequence == MutatedSequence(old(sequence), position, newBase)
    {
      var accepted := Mutate(position, newBase);
    }
  }

  class Organism {
    const name: string
    const dna: Dna
    var fitness: real
    var age: int
    var alive: bool

    constructor(name: string, dna: Dna)
      ensures this.name == name && this.dna == dna
      ensures fitness == 0.0 && age == 0 && alive
    {
      this.name := name;
      this.dna := dna;
      fitness := 0.0;
      age := 0;
      alive := true;
    }

    method CalculateFitness(environment: Environment) returns (f: real)
      requires |dna.sequence| > 0
      modifies this
      ensures f == fitness
      ensures fitness == FitnessOf(GcContentOf(dna.sequence), environment.idealGcContent, environment.temperature)
      ensures 0.0 <= f <= 100.0
      ensures age == old(age) && alive == old(alive)
    {
      var gcContent := GcContentOf(dna.sequence);
      var gcDiff := Abs(gcContent - environment.idealGcContent);
      fitness := MaxReal(0.0, 100.0 - gcDiff * 100.0);
      var tempDiff := Abs(environment.temperature - 37.0);
      fitness := fitness - tempDiff * 2.0;
      fitness := MaxReal(0.0, fitness);
      f := fitness;
    }

    /** One generation: the organism ages by one, its fitness is recomputed, and it dies
        on a bad roll. `deathRoll` and `ageRoll` stand for the two random draws. */
    method Survive(environment: Environment, deathRoll: real, ageRoll: real) returns (survived: bool)
      requires |dna.sequence| > 0
      modifies this
      ensures age == old(age) + 1
      ensures fitness == FitnessOf(GcContentOf(dna.sequence), environment.idealGcContent, environment.temperature)
      ensures survived == SurvivalRule(fitness, age, deathRoll, ageRoll)
      ensures alive == (old(alive) && survived)
    {
      age := age + 1;
      var f := CalculateFitness(environment);
      if f < 30.0 {
        if deathRoll < 0.5 {
          alive := false;
          return false;
        }
      }
      if age > 10 {
        if ageRoll < 0.3 {
          alive := false;
          return false;
        }
      }
      return true;
    }
  }

  class Environment {
    const name: string
    var idealGcContent: real
    var temperature: real
    var generation: int

    constructor(name: string, idealGcContent: real, temperature: real)
      ensures this.name == name && this.idealGcContent == idealGcContent && this.temperature == temperature
      ensures generation == 0
    {
      this.name := name;
      this.idealGcContent := idealGcContent;
      this.temperature := temperature;
      generation := 0;
    }

    /** The conditions drift by the drawn deltas and are clamped to their bands. */
    method ChangeConditions(gcDelta: real, tempDelta: real)
      modifies this
      ensures generation == old(generation) + 1
      ensures idealGcContent == Clamp(0.3, 0.7, old(idealGcContent) + gcDelta)
      ensures temperature == Clamp(25.0, 45.0, old(temperature) + tempDelta)
      ensures 0.3 <= idealGcContent <= 0.7 && 25.0 <= temperature <= 45.0
    {
      generation := generation + 1;
      idealGcContent := MaxReal(0.3, MinReal(0.7, idealGcContent + gcDelta));
      temperature := MaxReal(25.0, MinReal(45.0, temperature + tempDelta));
    }
  }

  // ---------------------------------------------------------------------------
  // The game

  /** How an edit request ends. */
  datatype EditOutcome =
    | NoBudget          // this generation's edits are used up
    | NoAliveOrganisms
    | InputError        // a number that did not parse
    | Cancelled         // 0 entered
    | InvalidChoice     // no such organism
    | Mutated
    | MutationFailed    // position or base rejected

  /** The checks made before an edit, in the order they are made: the budget, whether
      anything is alive, the organism number (0 cancels) and the position (0 cancels).
      None means the edit goes ahead. */
  function EditScreen(budget: int, aliveCount: nat, choice: Types.Option<int>, positionInput: Types.Option<int>): (r: Types.Option<EditOutcome>)
    ensures r == Types.Some(NoBudget) <==> budget <= 0
    ensures r == Types.Some(NoAliveOrganisms) <==> budget > 0 && aliveCount == 0
    ensures r.None? <==>
              budget > 0 && choice.Some? && 1 <= choice.value <= aliveCount &&
              positionInput.Some? && positionInput.value != 0
    ensures r == Types.Some(Cancelled) <==>
              budget > 0 && aliveCount > 0 && choice.Some? &&
              (choice.value == 0 || (1 <= choice.value <= aliveCount && positionInput == Types.Some(0)))
    ensures r == Types.Some(InvalidChoice) <==>
              budget > 0 && aliveCount > 0 && choice.Some? && choice.value != 0 &&
              !(1 <= choice.value <= aliveCount)
    ensures r == Types.Some(InputError) <==>
              budget > 0 && aliveCount > 0 &&
              (choice.None? || (1 <= choice.value <= aliveCount && positionInput.None?))
    ensures r != Types.Some(Mutated) && r != Types.Some(MutationFailed)
  {
    if budget <= 0 then Types.Some(NoBudget)
    else if aliveCount == 0 then Types.Some(NoAliveOrganisms)
    else if choice.None? then Types.Some(InputError)
    else if choice.value == 0 then Types.Some(Cancelled)
    else if choice.value < 1 || choice.value > aliveCount then Types.Some(InvalidChoice)
    else if positionInput.None? then Types.Some(InputError)
    else if positionInput.value - 1 == -1 then Types.Some(Cancelled)
    else Types.None
  }

  /** The random draws one organism meets in a generation; the mutation draws are used only
      when it survives and `mutationRoll` is below 0.1. */
  datatype Fate = Fate(deathRoll: real, ageRoll: real, mutationRoll: real, mutationPosition: int, mutationBase: string)

  /** The living organisms, in list order: the list the player's number indexes
      (`AliveOfInOrder` proves the order). */
  function AliveOf(orgs: seq<Organism>): (alive: seq<Organism>)
    reads orgs
    ensures |alive| <= |orgs|
    ensures forall i :: 0 <= i < |alive| ==> alive[i] in orgs && alive[i].alive
    ensures forall j :: 0 <= j < |orgs| && orgs[j].alive ==> orgs[j] in alive
  {
    if orgs == [] then []
    else AliveOf(orgs[..|orgs| - 1]) + (if orgs[|orgs| - 1].alive then [orgs[|orgs| - 1]] else [])
  }

  /** The living organisms keep the order (and the multiplicity) they have in the list. */
  lemma {:induction false} AliveOfInOrder(orgs: seq<Organism>)
    ensures Types.IsSubsequence(AliveOf(orgs), orgs)
    decreases |orgs|
  {
    if orgs != [] {
      var init := orgs[..|orgs| - 1];
      var last := orgs[|orgs| - 1];
      AliveOfInOrder(init);
      assert orgs == init + [last];
      if last.alive {
        assert AliveOf(orgs) == AliveOf(init) + [last];
        SubsequenceSnoc(AliveOf(init), init, last);
      } else {
        assert AliveOf(orgs) == AliveOf(init);
        SubsequenceExtend(AliveOf(init), init, last);
      }
    }
  }

  /** A sub-list stays one when the same element is appended to both lists. */
  lemma {:induction false} SubsequenceSnoc<X>(sub: seq<X>, s: seq<X>, x: X)
    requires Types.IsSubsequence(sub, s)
    ensures Types.IsSubsequence(sub + [x], s + [x])
    decreases |s|
  {
    if s == [] {
      assert sub == [] && sub + [x] == [x] && s + [x] == [x];
      assert [x][1..] == [];
    } else {
      assert (s + [x])[1..] == s[1..] + [x];
      if sub != [] && sub[0] == s[0] && Types.IsSubsequence(sub[1..], s[1..]) {
        SubsequenceSnoc(sub[1..], s[1..], x);
        assert (sub + [x])[1..] == sub[1..] + [x];
      } else {
        SubsequenceSnoc(sub, s[1..], x);
      }
    }
  }

  /** A sub-list stays one when the longer list grows at the end. */
  lemma {:induction false} SubsequenceExtend<X>(sub: seq<X>, s: seq<X>, x: X)
    requires Types.IsSubsequence(sub, s)
    ensures Types.IsSubsequence(sub, s + [x])
    decreases |s|
  {
    if sub != [] {
      assert (s + [x])[1..] == s[1..] + [x];
      if sub[0] == s[0] && Types.IsSubsequence(sub[1..], s[1..]) {
        SubsequenceExtend(sub[1..], s[1..], x);
      } else {
        SubsequenceExtend(sub, s[1..], x);
      }
    }
  }

  function CountTrue(flags: seq<bool>): nat {
    if flags == [] then 0 else CountTrue(flags[..|flags| - 1]) + (if flags[|flags| - 1] then 1 else 0)
  }

  lemma CountTrueSnoc(flags: seq<bool>, b: bool)
    ensures CountTrue(flags + [b]) == CountTrue(flags) + (if b then 1 else 0)
  {
    assert (flags + [b])[..|flags|] == flags;
  }

  /** The number of living organisms, counted from their flags. */
  lemma {:induction false} AliveOfCountsFlags(orgs: seq<Organism>, flags: seq<bool>)
    requires |flags| == |orgs| && forall j :: 0 <= j < |orgs| ==> flags[j] == orgs[j].alive
    ensures |AliveOf(orgs)| == CountTrue(flags)
  {
    if orgs != [] {
      AliveOfCountsFlags(orgs[..|orgs| - 1], flags[..|flags| - 1]);
    }
  }

  function SpeciesName(k: nat): string
    requires 1 <= k <= 9
  {
    "物种-" + [(48 + k) as char]
  }

  /** The part of an organism a generation changes. */
  datatype OrganismState = OrganismState(alive: bool, age: int, fitness: real, sequence: string)

  /** The draws a living organism can use: a non-empty sequence and, should it mutate, a
      position inside it and one of the four bases. */
  predicate FateFits(before: OrganismState, fate: Fate) {
    before.alive ==>
      |before.sequence| > 0 && 0 <= fate.mutationPosition < |before.sequence| && fate.mutationBase in Bases
  }

  /** One generation for one organism: a dead one stays as it is; a living one ages by one,
      gets the fitness of its sequence, lives or dies by the survival rule and, if it lives
      and `mutationRoll` is below 0.1, mutates at the drawn position. */
  function Lived(before: OrganismState, fate: Fate, idealGc: real, temperature: real): (after: OrganismState)
    requires FateFits(before, fate)
    ensures !before.alive ==> after == before
    ensures after.alive ==> before.alive
    ensures before.alive ==> after.age == before.age + 1 && 0.0 <= after.fitness <= 100.0
    ensures |after.sequence| == |before.sequence|
  {
    if !before.alive then before
    else
      var age := before.age + 1;
      var fitness := FitnessOf(GcContentOf(before.sequence), idealGc, temperature);
      var alive := SurvivalRule(fitness, age, fate.deathRoll, fate.ageRoll);
      var sequence :=
        if alive && fate.mutationRoll < 0.1
        then MutatedSequence(before.sequence, fate.mutationPosition, fate.mutationBase)
        else before.sequence;
      OrganismState(alive, age, fitness, sequence)
  }

  /** A perfectly adapted organism of at most 9 generations always survives the next one. */
  lemma AdaptedYoungOrganismSurvives(before: OrganismState, fate: Fate, temperature: real)
    requires FateFits(before, fate) && before.alive && before.age <= 9
    requires temperature == 37.0
    ensures Lived(before, fate, GcContentOf(before.sequence), temperature).alive
  {
    var after := Lived(before, fate, GcContentOf(before.sequence), temperature);
    assert after.fitness == 100.0;
  }

  ghost function StateOf(o: Organism): OrganismState
    reads o, o.dna
  {
    OrganismState(o.alive, o.age, o.fitness, o.dna.sequence)
  }

  /** The states of a list of organisms, in order. */
  ghost function StatesOf(orgs: seq<Organism>): (states: seq<OrganismState>)
    reads orgs, set o | o in orgs :: o.dna
    ensures |states| == |orgs| && forall j :: 0 <= j < |orgs| ==> states[j] == StateOf(orgs[j])
  {
    if orgs == [] then [] else StatesOf(orgs[..|orgs| - 1]) + [StateOf(orgs[|orgs| - 1])]
  }

  class Game {
    var organisms: seq<Organism>
    const environment: Environment
    var running: bool
    var mutationsAvailable: int

    ghost function Dnas(): set<Dna>
      reads this
    {
      set i | 0 <= i < |organisms| :: organisms[i].dna
    }

    /** Distinct organisms with distinct, non-empty sequences, and a budget of 0 to 3. */
    ghost predicate Valid()
      reads this, organisms, Dnas()
    {
      && 0 <= mutationsAvailable <= 3
      && (forall j, k :: 0 <= j < |organisms| && 0 <= k < |organisms| && j != k ==>
            organisms[j] != organisms[k] && organisms[j].dna != organisms[k].dna)
      && (forall j :: 0 <= j < |organisms| ==> |organisms[j].dna.sequence| > 0)
    }

    constructor()
      ensures Valid()
      ensures organisms == [] && running && mutationsAvailable == 3
      ensures environment.idealGcContent == 0.5 && environment.temperature == 37.0 && environment.generation == 0
    {
      organisms := [];
      environment := new Environment("原始海洋", 0.5, 37.0);
      running := true;
      mutationsAvailable := 3;
    }

    /** The three starting organisms, each with a random 20-base sequence (`draws`). */
    method SpawnOrganisms(draws: seq<string>)
      requires Valid()
      requires |draws| == 3 && forall i :: 0 <= i < 3 ==> |draws[i]| == 20 && IsBaseString(draws[i])
      modifies this
      ensures Valid()
      ensures |organisms| == |old(organisms)| + 3 && organisms[..|old(organisms)|] == old(organisms)
      ensures forall k :: |old(organisms)| <= k < |organisms| ==>
                organisms[k].name == SpeciesName(k - |old(organisms)| + 1) &&
                organisms[k].dna.sequence == draws[k - |old(organisms)|] &&
                organisms[k].alive && organisms[k].age == 0
      ensures running == old(running) && mutationsAvailable == old(mutationsAvailable)
    {
      ghost var n := |organisms|;
      for i := 0 to 3
        invariant |organisms| == n + i && organisms[..n] == old(organisms)
        invariant Valid()
        invariant forall j :: n <= j < |organisms| ==> fresh(organisms[j]) && fresh(organisms[j].dna)
        invariant forall k :: n <= k < |organisms| ==>
                    organisms[k].name == SpeciesName(k - n + 1) && organisms[k].dna.sequence == draws[k - n] &&
                    organisms[k].alive && organisms[k].age == 0
        invariant running == old(running) && mutationsAvailable == old(mutationsAvailable)
      {
        var dna := new Dna("", 20, draws[i]);
        var org := new Organism(SpeciesName(i + 1), dna);
        organisms := organisms + [org];
        assert organisms[n + i] == org;
      }
    }

    /** One edit request with its answers already read: the organism number, the
        one-based position (None when either did not parse) and the new base. */
    method EditDna(choice: Types.Option<int>, positionInput: Types.Option<int>, newBase: string) returns (outcome: EditOutcome)
      requires Valid()
      modifies this, Dnas()
      ensures Valid()
      ensures organisms == old(organisms) && running == old(running)
      ensures outcome == NoBudget <==> old(mutationsAvailable) <= 0
      ensures mutationsAvailable == old(mutationsAvailable) - (if outcome == Mutated then 1 else 0)
      ensures outcome == Mutated <==>
                && old(mutationsAvailable) > 0
                && choice.Some? && 1 <= choice.value <= |AliveOf(organisms)|
                && positionInput.Some? && positionInput.value != 0
                && MutationAccepted(old(AliveOf(organisms)[choice.value - 1].dna.sequence), positionInput.value - 1, newBase)
      ensures outcome == Mutated ==>
                var chosen := AliveOf(organisms)[choice.value - 1];
                && chosen.dna.sequence == MutatedSequence(old(chosen.dna.sequence), positionInput.value - 1, newBase)
                && forall i :: 0 <= i < |organisms| && organisms[i] != chosen ==>
                     organisms[i].dna.sequence == old(organisms[i].dna.sequence)
      ensures outcome != Mutated ==>
                forall i :: 0 <= i < |organisms| ==> organisms[i].dna.sequence == old(organisms[i].dna.sequence)
      ensures outcome != Mutated && outcome != MutationFailed ==>
                EditScreen(old(mutationsAvailable), |AliveOf(organisms)|, choice, positionInput) == Types.Some(outcome)
    {
      var aliveOrganisms := AliveOf(organisms);
      var screened := EditScreen(mutationsAvailable, |aliveOrganisms|, choice, positionInput);
      if screened.Some? {
        return screened.value;
      }
      var organism := aliveOrganisms[choice.value - 1];
      var position := positionInput.value - 1;
      assert organism in organisms;
      var ok := MutateChosen(organism, position, newBase);
      if ok {
        SpendEdit();
        outcome := Mutated;
      } else {
        outcome := MutationFailed;
      }
    }

    /** A successful edit uses up one of the generation's edits. */
    method SpendEdit()
      requires Valid() && mutationsAvailable > 0
      modifies this
      ensures Valid()
      ensures mutationsAvailable == old(mutationsAvailable) - 1
      ensures organisms == old(organisms) && running == old(running)
      ensures AliveOf(organisms) == old(AliveOf(organisms))
      ensures forall i :: 0 <= i < |organisms| ==> organisms[i].dna.sequence == old(organisms[i].dna.sequence)
    {
      mutationsAvailable := mutationsAvailable - 1;
    }

    /** The edit itself: only the chosen organism's sequence can change. */
    method MutateChosen(organism: Organism, position: int, newBase: string) returns (ok: bool)
      requires Valid() && organism in organisms
      modifies organism.dna
      ensures Valid()
      ensures AliveOf(organisms) == old(AliveOf(organisms))
      ensures ok == MutationAccepted(old(organism.dna.sequence), position, newBase)
      ensures ok ==> organism.dna.sequence == MutatedSequence(old(organism.dna.sequence), position, newBase)
      ensures forall i :: 0 <= i < |organisms| && (organisms[i] != organism || !ok) ==>
                organisms[i].dna.sequence == old(organisms[i].dna.sequence)
    {
      ok := organism.dna.Mutate(position, newBase);
      assert forall i :: 0 <= i < |organisms| && organisms[i] != organism ==> organisms[i].dna != organism.dna;
    }

    /** The loop body of a generation for one organism: a living organism tries to
        survive and, if it does, mutates on a low `mutationRoll`. Reports whether it
        counts as alive afterwards. */
    method LiveGeneration(org: Organism, fate: Fate) returns (counted: bool)
      requires FateFits(StateOf(org), fate)
      modifies org, org.dna
      ensures counted == org.alive
      ensures |org.dna.sequence| == old(|org.dna.sequence|)
      ensures StateOf(org) == Lived(old(StateOf(org)), fate, environment.idealGcContent, environment.temperature)
    {
      counted := false;
      if org.alive {
        var survived := org.Survive(environment, fate.deathRoll, fate.ageRoll);
        if survived {
          counted := true;
          if fate.mutationRoll < 0.1 {
            org.dna.RandomMutation(fate.mutationPosition, fate.mutationBase);
          }
        }
      }
    }

    /** One generation: the environment drifts by the drawn deltas, every living organism
        meets its fate, the budget is refilled and the game ends once nothing is alive. */
    method NextGeneration(gcDelta: real, tempDelta: real, fates: seq<Fate>) returns (aliveCount: nat)
      requires Valid()
      requires |fates| == |organisms|
      requires forall i :: 0 <= i < |fates| ==> FateFits(StateOf(organisms[i]), fates[i])
      modifies this, environment, organisms, Dnas()
      ensures Valid()
      ensures organisms == old(organisms)
      ensures environment.generation == old(environment.generation) + 1
      ensures environment.idealGcContent == Clamp(0.3, 0.7, old(environment.idealGcContent) + gcDelta)
      ensures environment.temperature == Clamp(25.0, 45.0, old(environment.temperature) + tempDelta)
      ensures mutationsAvailable == 3
      ensures aliveCount == |AliveOf(organisms)|
      ensures running == (old(running) && aliveCount != 0)
      ensures forall i :: 0 <= i < |organisms| ==>
                StateOf(organisms[i]) ==
                Lived(old(StateOf(organisms[i])), fates[i], environment.idealGcContent, environment.temperature)
    {
      environment.ChangeConditions(gcDelta, tempDelta);
      aliveCount := LiveAndFinish(fates);
    }

    /** A generation in the environment as it now is: every organism meets its fate and
        the budget and the running flag are settled. */
    method LiveAndFinish(fates: seq<Fate>) returns (aliveCount: nat)
      requires Valid()
      requires |fates| == |organisms|
      requires forall i :: 0 <= i < |fates| ==> FateFits(StateOf(organisms[i]), fates[i])
      modifies this, organisms, Dnas()
      ensures Valid()
      ensures organisms == old(organisms) && unchanged(environment)
      ensures mutationsAvailable == 3
      ensures aliveCount == |AliveOf(organisms)|
      ensures running == (old(running) && aliveCount != 0)
      ensures forall i :: 0 <= i < |organisms| ==>
                StateOf(organisms[i]) ==
                Lived(old(StateOf(organisms[i])), fates[i], environment.idealGcContent, environment.temperature)
    {
      aliveCount := LiveThroughAll(fates);
      FinishGeneration(aliveCount);
    }

    /** After the loop: the budget is refilled and the game stops once nothing survived. */
    method FinishGeneration(aliveCount: nat)
      requires Valid()
      modifies this
      ensures Valid()
      ensures organisms == old(organisms) && mutationsAvailable == 3
      ensures unchanged(organisms) && unchanged(Dnas())
      ensures running == (old(running) && aliveCount != 0)
    {
      mutationsAvailable := 3;
      if aliveCount == 0 {
        running := false;
      }
    }

    /** The first i organisms have lived through the generation, the others are as they
        were (`before`). */
    ghost predicate Progress(i: int, before: seq<OrganismState>, fates: seq<Fate>)
      reads this, organisms, Dnas(), environment
    {
      && |before| == |organisms| == |fates| && 0 <= i <= |organisms|
      && (forall j :: 0 <= j < |organisms| ==> FateFits(before[j], fates[j]))
      && forall j :: 0 <= j < |organisms| ==>
           StateOf(organisms[j]) ==
           if j < i then Lived(before[j], fates[j], environment.idealGcContent, environment.temperature)
           else before[j]
    }

    /** The loop body for the organism at index i. */
    method LiveAt(i: int, ghost before: seq<OrganismState>, fates: seq<Fate>) returns (counted: bool)
      requires Valid() && 0 <= i < |organisms| && Progress(i, before, fates)
      modifies organisms[i], organisms[i].dna
      ensures Valid() && Progress(i + 1, before, fates)
      ensures counted == organisms[i].alive
    {
      var org := organisms[i];
      assert forall j :: 0 <= j < |organisms| && j != i ==> organisms[j] != org && organisms[j].dna != org.dna;
      counted := LiveGeneration(org, fates[i]);
    }

    /** The loop over all organisms of a generation, in the current environment. */
    method LiveThroughAll(fates: seq<Fate>) returns (aliveCount: nat)
      requires Valid()
      requires |fates| == |organisms|
      requires forall i :: 0 <= i < |fates| ==> FateFits(StateOf(organisms[i]), fates[i])
      modifies organisms, Dnas()
      ensures Valid()
      ensures aliveCount == |AliveOf(organisms)|
      ensures forall i :: 0 <= i < |organisms| ==>
                StateOf(organisms[i]) ==
                Lived(old(StateOf(organisms[i])), fates[i], environment.idealGcContent, environment.temperature)
    {
      aliveCount := 0;
      var n := |organisms|;
      ghost var before := StatesOf(organisms);
      ghost var flags: seq<bool> := [];
      for i := 0 to n
        invariant Valid() && Progress(i, before, fates)
        invariant |flags| == i && aliveCount == CountTrue(flags)
        invariant forall j :: 0 <= j < i ==> flags[j] == organisms[j].alive
      {
        var counted := LiveAt(i, before, fates);
        if counted {
          aliveCount := aliveCount + 1;
        }
        CountTrueSnoc(flags, counted);
        flags := flags + [counted];
      }
      AliveOfCountsFlags(organisms, flags);
    }
  }
}
