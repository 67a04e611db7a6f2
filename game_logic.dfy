/** Stat engine, combo matcher and damage model of the evolution game. */
module GameLogic {
  import opened Types

  /** Stat units each base adds to the axis it maps to. */
  const BaseIncrement: int := 12

  /** The fixed combo catalog, in display order: four single-axis doubles, two
      cross-axis pairs and three triplets. */
  const Combos: seq<DnaCombo> := [
    DnaCombo("热能核心", [A, A], "大幅提升耐热性", OrganismStats(25, 0, 0, 0), "text-red-400"),
    DnaCombo("极寒晶格", [T, T], "大幅提升耐寒性", OrganismStats(0, 25, 0, 0), "text-cyan-400"),
    DnaCombo("酸性屏障", [C, C], "大幅提升抗毒性", OrganismStats(0, 0, 25, 0), "text-lime-400"),
    DnaCombo("泰坦装甲", [G, G], "大幅提升物理防御", OrganismStats(0, 0, 0, 25), "text-orange-400"),
    DnaCombo("温控循环", [A, T], "平衡耐热与耐寒", OrganismStats(15, 15, 0, 0), "text-purple-400"),
    DnaCombo("硬化薄膜", [C, G], "平衡抗毒与防御", OrganismStats(0, 0, 15, 15), "text-yellow-400"),
    DnaCombo("太阳之心", [A, A, A], "极致耐热", OrganismStats(50, 0, 0, 0), "text-red-500"),
    DnaCombo("绝对零度", [T, T, T], "极致耐寒", OrganismStats(0, 50, 0, 0), "text-cyan-500"),
    DnaCombo("生化反应堆", [G, C, G], "利用毒素强化防御", OrganismStats(0, 0, 30, 30), "text-emerald-400")
  ]

  // ---------------------------------------------------------------------------
  // Stat vectors

  datatype Axis = Heat | Cold | Toxin | Physical

  /** The permanent base-to-axis mapping. */
  function AxisOf(b: Base): Axis {
    match b
    case A => Heat
    case T => Cold
    case C => Toxin
    case G => Physical
  }

  function Get(s: OrganismStats, a: Axis): int {
    match a
    case Heat => s.heatRes
    case Cold => s.coldRes
    case Toxin => s.toxinRes
    case Physical => s.physicalStr
  }

  const Zero: OrganismStats := OrganismStats(0, 0, 0, 0)

  function Plus(x: OrganismStats, y: OrganismStats): OrganismStats {
    OrganismStats(x.heatRes + y.heatRes, x.coldRes + y.coldRes,
                  x.toxinRes + y.toxinRes, x.physicalStr + y.physicalStr)
  }

  function Scale(x: OrganismStats, k: int): OrganismStats {
    OrganismStats(x.heatRes * k, x.coldRes * k, x.toxinRes * k, x.physicalStr * k)
  }

  /** Componentwise x >= y. */
  predicate AtLeast(x: OrganismStats, y: OrganismStats) {
    x.heatRes >= y.heatRes && x.coldRes >= y.coldRes &&
    x.toxinRes >= y.toxinRes && x.physicalStr >= y.physicalStr
  }

  predicate NonNegative(x: OrganismStats) {
    AtLeast(x, Zero)
  }

  // ---------------------------------------------------------------------------
  // Base-only totals

  /** How many times `b` occurs in `dna`. */
  function Count(dna: seq<Base>, b: Base): nat {
    if dna == [] then 0 else (if dna[0] == b then 1 else 0) + Count(dna[1..], b)
  }

  /** The linear part of the stats: 12 per base on the axis that base maps to. */
  function BaseStats(dna: seq<Base>): OrganismStats {
    OrganismStats(BaseIncrement * Count(dna, A), BaseIncrement * Count(dna, T),
                  BaseIncrement * Count(dna, C), BaseIncrement * Count(dna, G))
  }

  lemma {:induction false} CountSnoc(dna: seq<Base>, x: Base, b: Base)
    ensures Count(dna + [x], b) == Count(dna, b) + (if x == b then 1 else 0)
  {
    if dna == [] {
      assert dna + [x] == [x];
      assert [x][1..] == [];
    } else {
      assert (dna + [x])[1..] == dna[1..] + [x];
      CountSnoc(dna[1..], x, b);
    }
  }

  /** Appending one base adds exactly 12 to its own axis and nothing to the other three. */
  lemma BaseStatsSnoc(dna: seq<Base>, b: Base, a: Axis)
    ensures Get(BaseStats(dna + [b]), a) == Get(BaseStats(dna), a) + (if a == AxisOf(b) then BaseIncrement else 0)
  {
    CountSnoc(dna, b, A);
    CountSnoc(dna, b, T);
    CountSnoc(dna, b, C);
    CountSnoc(dna, b, G);
  }

  /** Every base contributes 12 to exactly one axis, so the four base totals sum to 12 per base. */
  lemma {:induction false} BaseStatsTotal(dna: seq<Base>)
    ensures BaseStats(dna).heatRes + BaseStats(dna).coldRes + BaseStats(dna).toxinRes
            + BaseStats(dna).physicalStr == BaseIncrement * |dna|
  {
    if dna != [] {
      BaseStatsTotal(dna[1..]);
    }
  }

  // ---------------------------------------------------------------------------
  // Combo matching

  /** Non-overlapping, left-to-right occurrences of `pattern` in `s`: a match is
      consumed whole and scanning resumes right after it. */
  function Occurrences(s: seq<Base>, pattern: seq<Base>): nat
    requires pattern != []
    decreases |s|
  {
    if pattern <= s then 1 + Occurrences(s[|pattern|..], pattern)
    else if s == [] then 0
    else Occurrences(s[1..], pattern)
  }

  /** The pieces that splitting `s` on the separator yields (the semantics of a
      string split on a non-empty literal separator). */
  function Split(s: seq<Base>, sep: seq<Base>): (pieces: seq<seq<Base>>)
    requires sep != []
    ensures |pieces| >= 1
    decreases |s|
  {
    if sep <= s then [[]] + Split(s[|sep|..], sep)
    else if s == [] then [[]]
    else
      var rest := Split(s[1..], sep);
      [[s[0]] + rest[0]] + rest[1..]
  }

  /** Re-joining pieces with the separator between them. */
  function Join(pieces: seq<seq<Base>>, sep: seq<Base>): seq<Base> {
    if pieces == [] then []
    else if |pieces| == 1 then pieces[0]
    else pieces[0] + sep + Join(pieces[1..], sep)
  }

  lemma JoinConsHead(x: Base, pieces: seq<seq<Base>>, sep: seq<Base>)
    requires pieces != []
    ensures Join([[x] + pieces[0]] + pieces[1..], sep) == [x] + Join(pieces, sep)
  {
    var p := [[x] + pieces[0]] + pieces[1..];
    if |pieces| > 1 {
      assert p[1..] == pieces[1..];
    }
  }

  /** Splitting yields one more piece than there are occurrences. */
  lemma {:induction false} SplitCountsOccurrences(s: seq<Base>, sep: seq<Base>)
    requires sep != []
    ensures |Split(s, sep)| == Occurrences(s, sep) + 1
    decreases |s|
  {
    if sep <= s {
      var rest := s[|sep|..];
      SplitCountsOccurrences(rest, sep);
      assert |Split(s, sep)| == 1 + |Split(rest, sep)|;
      assert Occurrences(s, sep) == 1 + Occurrences(rest, sep);
    } else if s != [] {
      var tail := Split(s[1..], sep);
      SplitCountsOccurrences(s[1..], sep);
      assert Split(s, sep) == [[s[0]] + tail[0]] + tail[1..];
      assert Occurrences(s, sep) == Occurrences(s[1..], sep);
    }
  }

  /** Joining the pieces back with the separator gives the original sequence. */
  lemma {:induction false} SplitJoinsBack(s: seq<Base>, sep: seq<Base>)
    requires sep != []
    ensures Join(Split(s, sep), sep) == s
    decreases |s|
  {
    if sep <= s {
      SplitJoinsBack(s[|sep|..], sep);
      JoinsBackAtSeparator(s, sep);
    } else if s != [] {
      SplitJoinsBack(s[1..], sep);
      JoinsBackPastHead(s, sep);
    }
  }

  /** The step of `SplitJoinsBack` when `s` starts with the separator. */
  lemma JoinsBackAtSeparator(s: seq<Base>, sep: seq<Base>)
    requires sep != [] && sep <= s
    requires Join(Split(s[|sep|..], sep), sep) == s[|sep|..]
    ensures Join(Split(s, sep), sep) == s
  {
    var rest := s[|sep|..];
    var tail := Split(rest, sep);
    assert Split(s, sep) == [[]] + tail;
    JoinConsEmpty(tail, sep);
    assert s == sep + rest;
  }

  /** The step of `SplitJoinsBack` when `s` does not start with the separator. */
  lemma JoinsBackPastHead(s: seq<Base>, sep: seq<Base>)
    requires sep != [] && !(sep <= s) && s != []
    requires Join(Split(s[1..], sep), sep) == s[1..]
    ensures Join(Split(s, sep), sep) == s
  {
    var tail := Split(s[1..], sep);
    assert Split(s, sep) == [[s[0]] + tail[0]] + tail[1..];
    JoinConsHead(s[0], tail, sep);
    assert s == [s[0]] + s[1..];
  }

  lemma JoinConsEmpty(pieces: seq<seq<Base>>, sep: seq<Base>)
    requires pieces != []
    ensures Join([[]] + pieces, sep) == sep + Join(pieces, sep)
  {
    var p := [[]] + pieces;
    assert p[0] == [] && p[1..] == pieces;
  }

  /** `pattern` occurs in `s` starting at index i. */
  predicate MatchesAt(s: seq<Base>, pattern: seq<Base>, i: int) {
    0 <= i <= |s| - |pattern| && s[i..i + |pattern|] == pattern
  }

  /** Substring containment. */
  predicate Contains(s: seq<Base>, pattern: seq<Base>) {
    exists i :: 0 <= i <= |s| - |pattern| && MatchesAt(s, pattern, i)
  }

  /** A combo is present exactly when it is counted at least once. */
  lemma {:induction false} OccurrencesPositiveIffContains(s: seq<Base>, pattern: seq<Base>)
    requires pattern != []
    ensures Occurrences(s, pattern) > 0 <==> Contains(s, pattern)
    decreases |s|
  {
    var n := |pattern|;
    if pattern <= s {
      assert s[0..n] == pattern;
      assert MatchesAt(s, pattern, 0);
    } else if s == [] {
    } else {
      OccurrencesPositiveIffContains(s[1..], pattern);
      assert Occurrences(s, pattern) == Occurrences(s[1..], pattern);
      ContainsInTail(s, pattern);
    }
  }

  /** Without a match at the front, `s` contains the pattern exactly when its tail does. */
  lemma ContainsInTail(s: seq<Base>, pattern: seq<Base>)
    requires s != [] && !(pattern <= s)
    ensures Contains(s, pattern) <==> Contains(s[1..], pattern)
  {
    var n := |pattern|;
    if Contains(s[1..], pattern) {
      var i :| 0 <= i <= |s[1..]| - n && MatchesAt(s[1..], pattern, i);
      assert s[1..][i..i + n] == pattern;
      assert s[i + 1..i + 1 + n] == s[1..][i..i + n];
      assert MatchesAt(s, pattern, i + 1);
    }
    if Contains(s, pattern) {
      var i :| 0 <= i <= |s| - n && MatchesAt(s, pattern, i);
      assert s[i..i + n] == pattern;
      assert i != 0;
      assert s[1..][i - 1..i - 1 + n] == s[i..i + n];
      assert MatchesAt(s[1..], pattern, i - 1);
    }
  }

  /** Matches never overlap: they fit side by side inside the sequence. */
  lemma {:induction false} OccurrencesFit(s: seq<Base>, pattern: seq<Base>)
    requires pattern != []
    ensures Occurrences(s, pattern) * |pattern| <= |s|
    decreases |s|
  {
    if pattern <= s {
      var rest := s[|pattern|..];
      OccurrencesFit(rest, pattern);
      assert Occurrences(s, pattern) == 1 + Occurrences(rest, pattern);
      MulStep(Occurrences(rest, pattern), |pattern|, |s|);
    } else if s != [] {
      OccurrencesFit(s[1..], pattern);
      assert Occurrences(s, pattern) == Occurrences(s[1..], pattern);
    }
  }

  lemma MulStep(o: nat, n: nat, m: nat)
    requires n <= m && o * n <= m - n
    ensures (1 + o) * n <= m
  {
    assert (1 + o) * n == n + o * n;
  }

  /** "AAA" holds "AA" once (the overlapping second match is not counted);
      "AAAA" holds it twice. */
  lemma OccurrencesExamples()
    ensures Occurrences([A, A, A], [A, A]) == 1
    ensures Occurrences([A, A, A, A], [A, A]) == 2
    ensures Occurrences([], [A, A]) == 0
  {
    assert [A, A, A][2..] == [A];
    assert [A, A, A, A][2..] == [A, A];
    assert [A, A][2..] == [];
  }

  /** Every catalog entry has a non-empty pattern. */
  predicate WellFormed(cs: seq<DnaCombo>) {
    forall k :: 0 <= k < |cs| ==> cs[k].sequence != []
  }

  lemma CombosWellFormed()
    ensures WellFormed(Combos)
  {
  }

  function ComboBonus(combo: DnaCombo, dna: seq<Base>): OrganismStats
    requires combo.sequence != []
  {
    Scale(combo.effect, Occurrences(dna, combo.sequence))
  }

  /** The sum of the bonuses of the first n entries of `cs`, each matched
      independently against the whole sequence. */
  function ComboTotal(cs: seq<DnaCombo>, n: nat, dna: seq<Base>): OrganismStats
    requires WellFormed(cs) && n <= |cs|
  {
    if n == 0 then Zero
    else Plus(ComboTotal(cs, n - 1, dna), ComboBonus(cs[n - 1], dna))
  }

  /** The bonus of the whole catalog-like list. */
  function ComboStats(cs: seq<DnaCombo>, dna: seq<Base>): OrganismStats
    requires WellFormed(cs)
  {
    ComboTotal(cs, |cs|, dna)
  }

  /** The organism's stats: base totals plus every catalog bonus times its count. */
  function StatsOf(dna: seq<Base>): OrganismStats {
    Plus(BaseStats(dna), ComboStats(Combos, dna))
  }

  // ---------------------------------------------------------------------------
  // The stat engine as the source runs it: a mutable record bumped in two loops.

  lemma PlusAssoc(x: OrganismStats, y: OrganismStats, z: OrganismStats)
    ensures Plus(Plus(x, y), z) == Plus(x, Plus(y, z))
  {
  }

  /** A skipped bump (no occurrence, or no effect on that axis) adds the same as the bump. */
  lemma GuardedAdd(x: int, e: int, k: nat)
    ensures (if k > 0 && e != 0 then x + e * k else x) == x + e * k
  {
    if k == 0 {
      assert e * k == 0;
    } else if e == 0 {
      assert e * k == 0;
    }
  }

  /** One base's switch case: bump the stat of the axis the base maps to. */
  method ApplyBase(stats: OrganismStats, base: Base) returns (next: OrganismStats)
    ensures forall a :: Get(next, a) == Get(stats, a) + (if a == AxisOf(base) then BaseIncrement else 0)
  {
    match base
    case A => next := stats.(heatRes := stats.heatRes + BaseIncrement);
    case T => next := stats.(coldRes := stats.coldRes + BaseIncrement);
    case C => next := stats.(toxinRes := stats.toxinRes + BaseIncrement);
    case G => next := stats.(physicalStr := stats.physicalStr + BaseIncrement);
  }

  /** One combo's bonus: count the occurrences by splitting, then add effect x count
      on every axis the effect names. */
  method ApplyCombo(stats: OrganismStats, combo: DnaCombo, dna: seq<Base>) returns (next: OrganismStats)
    requires combo.sequence != []
    ensures next == Plus(stats, ComboBonus(combo, dna))
  {
    SplitCountsOccurrences(dna, combo.sequence);
    var count := |Split(dna, combo.sequence)| - 1;
    next := stats;
    if count > 0 {
      if combo.effect.heatRes != 0 {
        next := next.(heatRes := next.heatRes + combo.effect.heatRes * count);
      }
      if combo.effect.coldRes != 0 {
        next := next.(coldRes := next.coldRes + combo.effect.coldRes * count);
      }
      if combo.effect.toxinRes != 0 {
        next := next.(toxinRes := next.toxinRes + combo.effect.toxinRes * count);
      }
      if combo.effect.physicalStr != 0 {
        next := next.(physicalStr := next.physicalStr + combo.effect.physicalStr * count);
      }
    }
    GuardedAdd(stats.heatRes, combo.effect.heatRes, count);
    GuardedAdd(stats.coldRes, combo.effect.coldRes, count);
    GuardedAdd(stats.toxinRes, combo.effect.toxinRes, count);
    GuardedAdd(stats.physicalStr, combo.effect.physicalStr, count);
  }

  /** The stat engine as the source runs it: a record bumped once per base, then
      once per catalog entry. */
  method CalculateStats(dna: seq<Base>) returns (stats: OrganismStats)
    ensures stats == StatsOf(dna)
  {
    stats := OrganismStats(0, 0, 0, 0);
    for i := 0 to |dna|
      invariant stats == BaseStats(dna[..i])
    {
      assert dna[..i + 1] == dna[..i] + [dna[i]];
      BaseStatsSnoc(dna[..i], dna[i], Heat);
      BaseStatsSnoc(dna[..i], dna[i], Cold);
      BaseStatsSnoc(dna[..i], dna[i], Toxin);
      BaseStatsSnoc(dna[..i], dna[i], Physical);
      stats := ApplyBase(stats, dna[i]);
      assert Get(stats, Heat) == Get(BaseStats(dna[..i + 1]), Heat);
      assert Get(stats, Cold) == Get(BaseStats(dna[..i + 1]), Cold);
      assert Get(stats, Toxin) == Get(BaseStats(dna[..i + 1]), Toxin);
      assert Get(stats, Physical) == Get(BaseStats(dna[..i + 1]), Physical);
    }
    assert dna[..|dna|] == dna;
    CombosWellFormed();
    for j := 0 to |Combos|
      invariant stats == Plus(BaseStats(dna), ComboTotal(Combos, j, dna))
    {
      PlusAssoc(BaseStats(dna), ComboTotal(Combos, j, dna), ComboBonus(Combos[j], dna));
      stats := ApplyCombo(stats, Combos[j], dna);
    }
  }

  // ---------------------------------------------------------------------------
  // Stat properties

  lemma {:induction false} ComboTotalOfEmpty(cs: seq<DnaCombo>, n: nat)
    requires WellFormed(cs) && n <= |cs|
    ensures ComboTotal(cs, n, []) == Zero
  {
    if n > 0 {
      ComboTotalOfEmpty(cs, n - 1);
    }
  }

  /** The empty sequence has all-zero stats. */
  lemma StatsOfEmpty()
    ensures StatsOf([]) == Zero
  {
    CombosWellFormed();
    ComboTotalOfEmpty(Combos, |Combos|);
    assert BaseStats([]) == Zero;
  }

  predicate NonNegativeEffects(cs: seq<DnaCombo>) {
    forall c :: c in cs ==> NonNegative(c.effect)
  }

  lemma {:induction false} ComboTotalNonNegative(cs: seq<DnaCombo>, n: nat, dna: seq<Base>)
    requires WellFormed(cs) && n <= |cs| && NonNegativeEffects(cs)
    ensures NonNegative(ComboTotal(cs, n, dna))
  {
    if n > 0 {
      ComboTotalNonNegative(cs, n - 1, dna);
      var last := cs[n - 1];
      assert last in cs;
      var k := Occurrences(dna, last.sequence);
      assert last.effect.heatRes * k >= 0;
      assert last.effect.coldRes * k >= 0;
      assert last.effect.toxinRes * k >= 0;
      assert last.effect.physicalStr * k >= 0;
    }
  }

  /** Combo bonuses only add: every stat is at least its base-only total, and no stat is negative. */
  lemma StatsAtLeastBase(dna: seq<Base>)
    ensures AtLeast(StatsOf(dna), BaseStats(dna))
    ensures NonNegative(StatsOf(dna))
  {
    CombosWellFormed();
    ComboTotalNonNegative(Combos, |Combos|, dna);
  }

  lemma CatalogEntries()
    ensures |Combos| == 9
    ensures Combos[0].sequence == [A, A] && Combos[0].effect == OrganismStats(25, 0, 0, 0)
    ensures Combos[1].sequence == [T, T] && Combos[1].effect == OrganismStats(0, 25, 0, 0)
    ensures Combos[2].sequence == [C, C] && Combos[2].effect == OrganismStats(0, 0, 25, 0)
    ensures Combos[3].sequence == [G, G] && Combos[3].effect == OrganismStats(0, 0, 0, 25)
    ensures Combos[4].sequence == [A, T] && Combos[4].effect == OrganismStats(15, 15, 0, 0)
    ensures Combos[5].sequence == [C, G] && Combos[5].effect == OrganismStats(0, 0, 15, 15)
    ensures Combos[6].sequence == [A, A, A] && Combos[6].effect == OrganismStats(50, 0, 0, 0)
    ensures Combos[7].sequence == [T, T, T] && Combos[7].effect == OrganismStats(0, 50, 0, 0)
    ensures Combos[8].sequence == [G, C, G] && Combos[8].effect == OrganismStats(0, 0, 30, 30)
  {
  }

  /** The catalog's bonus written out axis by axis. */
  lemma CatalogBonusByAxis(dna: seq<Base>)
    ensures ComboStats(Combos, dna) == OrganismStats(
      25 * Occurrences(dna, [A, A]) + 15 * Occurrences(dna, [A, T]) + 50 * Occurrences(dna, [A, A, A]),
      25 * Occurrences(dna, [T, T]) + 15 * Occurrences(dna, [A, T]) + 50 * Occurrences(dna, [T, T, T]),
      25 * Occurrences(dna, [C, C]) + 15 * Occurrences(dna, [C, G]) + 30 * Occurrences(dna, [G, C, G]),
      25 * Occurrences(dna, [G, G]) + 15 * Occurrences(dna, [C, G]) + 30 * Occurrences(dna, [G, C, G]))
  {
    CatalogEntries();
    CombosWellFormed();
    NineEntryBonus(Combos, dna);
  }

  /** Adding the four single-axis doubles' bonuses to a running total. */
  lemma AddDoubles(x: OrganismStats, c0: DnaCombo, c1: DnaCombo, c2: DnaCombo, c3: DnaCombo, dna: seq<Base>)
    requires c0.sequence == [A, A] && c0.effect == OrganismStats(25, 0, 0, 0)
    requires c1.sequence == [T, T] && c1.effect == OrganismStats(0, 25, 0, 0)
    requires c2.sequence == [C, C] && c2.effect == OrganismStats(0, 0, 25, 0)
    requires c3.sequence == [G, G] && c3.effect == OrganismStats(0, 0, 0, 25)
    ensures Plus(Plus(Plus(Plus(x, ComboBonus(c0, dna)), ComboBonus(c1, dna)), ComboBonus(c2, dna)), ComboBonus(c3, dna)) ==
      Plus(x, OrganismStats(25 * Occurrences(dna, [A, A]), 25 * Occurrences(dna, [T, T]),
                            25 * Occurrences(dna, [C, C]), 25 * Occurrences(dna, [G, G])))
  {
  }

  /** Adding the two cross-axis pairs' bonuses to a running total. */
  lemma AddPairs(x: OrganismStats, c4: DnaCombo, c5: DnaCombo, dna: seq<Base>)
    requires c4.sequence == [A, T] && c4.effect == OrganismStats(15, 15, 0, 0)
    requires c5.sequence == [C, G] && c5.effect == OrganismStats(0, 0, 15, 15)
    ensures Plus(Plus(x, ComboBonus(c4, dna)), ComboBonus(c5, dna)) ==
      Plus(x, OrganismStats(15 * Occurrences(dna, [A, T]), 15 * Occurrences(dna, [A, T]),
                            15 * Occurrences(dna, [C, G]), 15 * Occurrences(dna, [C, G])))
  {
  }

  /** Adding the three triplets' bonuses to a running total. */
  lemma AddTriplets(x: OrganismStats, c6: DnaCombo, c7: DnaCombo, c8: DnaCombo, dna: seq<Base>)
    requires c6.sequence == [A, A, A] && c6.effect == OrganismStats(50, 0, 0, 0)
    requires c7.sequence == [T, T, T] && c7.effect == OrganismStats(0, 50, 0, 0)
    requires c8.sequence == [G, C, G] && c8.effect == OrganismStats(0, 0, 30, 30)
    ensures Plus(Plus(Plus(x, ComboBonus(c6, dna)), ComboBonus(c7, dna)), ComboBonus(c8, dna)) ==
      Plus(x, OrganismStats(50 * Occurrences(dna, [A, A, A]), 50 * Occurrences(dna, [T, T, T]),
                            30 * Occurrences(dna, [G, C, G]), 30 * Occurrences(dna, [G, C, G])))
  {
  }

  /** The running total after the four doubles. */
  lemma DoublesPrefix(cs: seq<DnaCombo>, dna: seq<Base>)
    requires |cs| == 9 && WellFormed(cs)
    requires cs[0].sequence == [A, A] && cs[0].effect == OrganismStats(25, 0, 0, 0)
    requires cs[1].sequence == [T, T] && cs[1].effect == OrganismStats(0, 25, 0, 0)
    requires cs[2].sequence == [C, C] && cs[2].effect == OrganismStats(0, 0, 25, 0)
    requires cs[3].sequence == [G, G] && cs[3].effect == OrganismStats(0, 0, 0, 25)
    ensures ComboTotal(cs, 4, dna) == OrganismStats(25 * Occurrences(dna, [A, A]), 25 * Occurrences(dna, [T, T]),
                                                      25 * Occurrences(dna, [C, C]), 25 * Occurrences(dna, [G, G]))
  {
    assert ComboTotal(cs, 0, dna) == Zero;
    assert ComboTotal(cs, 1, dna) == Plus(ComboTotal(cs, 0, dna), ComboBonus(cs[0], dna));
    assert ComboTotal(cs, 2, dna) == Plus(ComboTotal(cs, 1, dna), ComboBonus(cs[1], dna));
    assert ComboTotal(cs, 3, dna) == Plus(ComboTotal(cs, 2, dna), ComboBonus(cs[2], dna));
    assert ComboTotal(cs, 4, dna) == Plus(ComboTotal(cs, 3, dna), ComboBonus(cs[3], dna));
    AddDoubles(Zero, cs[0], cs[1], cs[2], cs[3], dna);
  }

  /** The running total after the doubles and the two pairs. */
  lemma PairsPrefix(cs: seq<DnaCombo>, dna: seq<Base>)
    requires |cs| == 9 && WellFormed(cs)
    requires ComboTotal(cs, 4, dna) == OrganismStats(25 * Occurrences(dna, [A, A]), 25 * Occurrences(dna, [T, T]),
                                                     25 * Occurrences(dna, [C, C]), 25 * Occurrences(dna, [G, G]))
    requires cs[4].sequence == [A, T] && cs[4].effect == OrganismStats(15, 15, 0, 0)
    requires cs[5].sequence == [C, G] && cs[5].effect == OrganismStats(0, 0, 15, 15)
    ensures ComboTotal(cs, 6, dna) == OrganismStats(
      25 * Occurrences(dna, [A, A]) + 15 * Occurrences(dna, [A, T]),
      25 * Occurrences(dna, [T, T]) + 15 * Occurrences(dna, [A, T]),
      25 * Occurrences(dna, [C, C]) + 15 * Occurrences(dna, [C, G]),
      25 * Occurrences(dna, [G, G]) + 15 * Occurrences(dna, [C, G]))
  {
    assert ComboTotal(cs, 5, dna) == Plus(ComboTotal(cs, 4, dna), ComboBonus(cs[4], dna));
    assert ComboTotal(cs, 6, dna) == Plus(ComboTotal(cs, 5, dna), ComboBonus(cs[5], dna));
    AddPairs(ComboTotal(cs, 4, dna), cs[4], cs[5], dna);
  }

  /** The bonus of any nine-entry list shaped like the catalog, stated without the literal. */
  lemma NineEntryBonus(cs: seq<DnaCombo>, dna: seq<Base>)
    requires |cs| == 9 && WellFormed(cs)
    requires cs[0].sequence == [A, A] && cs[0].effect == OrganismStats(25, 0, 0, 0)
    requires cs[1].sequence == [T, T] && cs[1].effect == OrganismStats(0, 25, 0, 0)
    requires cs[2].sequence == [C, C] && cs[2].effect == OrganismStats(0, 0, 25, 0)
    requires cs[3].sequence == [G, G] && cs[3].effect == OrganismStats(0, 0, 0, 25)
    requires cs[4].sequence == [A, T] && cs[4].effect == OrganismStats(15, 15, 0, 0)
    requires cs[5].sequence == [C, G] && cs[5].effect == OrganismStats(0, 0, 15, 15)
    requires cs[6].sequence == [A, A, A] && cs[6].effect == OrganismStats(50, 0, 0, 0)
    requires cs[7].sequence == [T, T, T] && cs[7].effect == OrganismStats(0, 50, 0, 0)
    requires cs[8].sequence == [G, C, G] && cs[8].effect == OrganismStats(0, 0, 30, 30)
    ensures ComboStats(cs, dna) == OrganismStats(
      25 * Occurrences(dna, [A, A]) + 15 * Occurrences(dna, [A, T]) + 50 * Occurrences(dna, [A, A, A]),
      25 * Occurrences(dna, [T, T]) + 15 * Occurrences(dna, [A, T]) + 50 * Occurrences(dna, [T, T, T]),
      25 * Occurrences(dna, [C, C]) + 15 * Occurrences(dna, [C, G]) + 30 * Occurrences(dna, [G, C, G]),
      25 * Occurrences(dna, [G, G]) + 15 * Occurrences(dna, [C, G]) + 30 * Occurrences(dna, [G, C, G]))
  {
    DoublesPrefix(cs, dna);
    PairsPrefix(cs, dna);
    TripletsSuffix(cs, dna);
  }

  /** The total once the three triplets are added to the first six entries' total. */
  lemma TripletsSuffix(cs: seq<DnaCombo>, dna: seq<Base>)
    requires |cs| == 9 && WellFormed(cs)
    requires ComboTotal(cs, 6, dna) == OrganismStats(
      25 * Occurrences(dna, [A, A]) + 15 * Occurrences(dna, [A, T]),
      25 * Occurrences(dna, [T, T]) + 15 * Occurrences(dna, [A, T]),
      25 * Occurrences(dna, [C, C]) + 15 * Occurrences(dna, [C, G]),
      25 * Occurrences(dna, [G, G]) + 15 * Occurrences(dna, [C, G]))
    requires cs[6].sequence == [A, A, A] && cs[6].effect == OrganismStats(50, 0, 0, 0)
    requires cs[7].sequence == [T, T, T] && cs[7].effect == OrganismStats(0, 50, 0, 0)
    requires cs[8].sequence == [G, C, G] && cs[8].effect == OrganismStats(0, 0, 30, 30)
    ensures ComboTotal(cs, 9, dna) == OrganismStats(
      25 * Occurrences(dna, [A, A]) + 15 * Occurrences(dna, [A, T]) + 50 * Occurrences(dna, [A, A, A]),
      25 * Occurrences(dna, [T, T]) + 15 * Occurrences(dna, [A, T]) + 50 * Occurrences(dna, [T, T, T]),
      25 * Occurrences(dna, [C, C]) + 15 * Occurrences(dna, [C, G]) + 30 * Occurrences(dna, [G, C, G]),
      25 * Occurrences(dna, [G, G]) + 15 * Occurrences(dna, [C, G]) + 30 * Occurrences(dna, [G, C, G]))
  {
    assert ComboTotal(cs, 7, dna) == Plus(ComboTotal(cs, 6, dna), ComboBonus(cs[6], dna));
    assert ComboTotal(cs, 8, dna) == Plus(ComboTotal(cs, 7, dna), ComboBonus(cs[7], dna));
    assert ComboTotal(cs, 9, dna) == Plus(ComboTotal(cs, 8, dna), ComboBonus(cs[8], dna));
    AddTriplets(ComboTotal(cs, 6, dna), cs[6], cs[7], cs[8], dna);
  }

  /** The stats of a sequence from its base totals and its nine pattern counts. */
  lemma StatsFromCounts(dna: seq<Base>, base: OrganismStats, aa: int, tt: int, cc: int, gg: int,
                        at: int, cg: int, aaa: int, ttt: int, gcg: int)
    requires BaseStats(dna) == base
    requires Occurrences(dna, [A, A]) == aa && Occurrences(dna, [T, T]) == tt
    requires Occurrences(dna, [C, C]) == cc && Occurrences(dna, [G, G]) == gg
    requires Occurrences(dna, [A, T]) == at && Occurrences(dna, [C, G]) == cg
    requires Occurrences(dna, [A, A, A]) == aaa && Occurrences(dna, [T, T, T]) == ttt
    requires Occurrences(dna, [G, C, G]) == gcg
    ensures StatsOf(dna) == OrganismStats(
      base.heatRes + 25 * aa + 15 * at + 50 * aaa, base.coldRes + 25 * tt + 15 * at + 50 * ttt,
      base.toxinRes + 25 * cc + 15 * cg + 30 * gcg, base.physicalStr + 25 * gg + 15 * cg + 30 * gcg)
  {
    CatalogBonusByAxis(dna);
  }

  /** "AAA" earns 3 x 12 heat, the "AA" bonus once and the "AAA" bonus once. */
  lemma StatsOfTriple()
    ensures StatsOf([A, A, A]) == OrganismStats(111, 0, 0, 0)
  {
    TripleCounts();
    CatalogBonusByAxis([A, A, A]);
  }

  /** A pattern holding a base that `s` lacks never occurs in `s`. */
  lemma {:induction false} OccurrencesAbsent(s: seq<Base>, pattern: seq<Base>, b: Base)
    requires pattern != [] && b in pattern && b !in s
    ensures Occurrences(s, pattern) == 0
    decreases |s|
  {
    if !(pattern <= s) && s != [] {
      assert forall x :: x in s[1..] ==> x in s;
      OccurrencesAbsent(s[1..], pattern, b);
    }
  }

  lemma TripleCounts()
    ensures Occurrences([A, A, A], [A, A]) == 1 && Occurrences([A, A, A], [A, A, A]) == 1
    ensures Occurrences([A, A, A], [T, T]) == 0 && Occurrences([A, A, A], [C, C]) == 0
    ensures Occurrences([A, A, A], [G, G]) == 0 && Occurrences([A, A, A], [A, T]) == 0
    ensures Occurrences([A, A, A], [C, G]) == 0 && Occurrences([A, A, A], [T, T, T]) == 0
    ensures Occurrences([A, A, A], [G, C, G]) == 0
  {
    OccurrencesExamples();
    assert [A, A, A][3..] == [];
    OccurrencesAbsent([A, A, A], [T, T], T);
    OccurrencesAbsent([A, A, A], [C, C], C);
    OccurrencesAbsent([A, A, A], [G, G], G);
    OccurrencesAbsent([A, A, A], [A, T], T);
    OccurrencesAbsent([A, A, A], [C, G], C);
    OccurrencesAbsent([A, A, A], [T, T, T], T);
    OccurrencesAbsent([A, A, A], [G, C, G], C);
  }

  // ---------------------------------------------------------------------------
  // Active combos

  function FilterPresent(cs: seq<DnaCombo>, dna: seq<Base>): (r: seq<DnaCombo>)
    ensures forall c :: c in r <==> c in cs && Contains(dna, c.sequence)
    ensures IsSubsequence(r, cs)
  {
    if cs == [] then []
    else
      var rest := FilterPresent(cs[1..], dna);
      if Contains(dna, cs[0].sequence) then [cs[0]] + rest else rest
  }

  /** The catalog entries that occur in the sequence, in catalog order. */
  function FindActiveCombos(dna: seq<Base>): (r: seq<DnaCombo>)
    ensures forall c :: c in r <==> c in Combos && Occurrences(dna, c.sequence) > 0
    ensures IsSubsequence(r, Combos)
  {
    var r := FilterPresent(Combos, dna);
    forall c | c in Combos
      ensures Occurrences(dna, c.sequence) > 0 <==> Contains(dna, c.sequence)
    {
      OccurrencesPositiveIffContains(dna, c.sequence);
    }
    r
  }

  // ---------------------------------------------------------------------------
  // Damage model

  function Max(x: real, y: real): real {
    if x >= y then x else y
  }

  /** The least integer not below x. */
  function Ceil(x: real): int {
    -((-x).Floor)
  }

  /** Heat applies only above temperature 50. */
  function HeatDamage(stats: OrganismStats, env: Environment): (d: real)
    ensures d >= 0.0
  {
    if env.temperature > 50.0 then Max(0.0, env.temperature - stats.heatRes as real) * 1.2 else 0.0
  }

  /** Cold applies at temperature 50 and below; the cold threat is 100 - temperature. */
  function ColdDamage(stats: OrganismStats, env: Environment): (d: real)
    ensures d >= 0.0
  {
    if env.temperature <= 50.0 then Max(0.0, (100.0 - env.temperature) - stats.coldRes as real) * 1.2 else 0.0
  }

  function ToxinDamage(stats: OrganismStats, env: Environment): (d: real)
    ensures d >= 0.0
  {
    if env.toxicity > 0.0 then Max(0.0, env.toxicity - stats.toxinRes as real) * 1.0 else 0.0
  }

  /** Radiation and scarcity collapse into one physical threat through max. */
  function PhysicalDamage(stats: OrganismStats, env: Environment): (d: real)
    ensures d >= 0.0
  {
    Max(0.0, Max(env.radiation, env.resourceScarcity) - stats.physicalStr as real) * 1.0
  }

  function RawDamage(stats: OrganismStats, env: Environment): (d: real)
    ensures d >= 0.0
  {
    HeatDamage(stats, env) + ColdDamage(stats, env) + ToxinDamage(stats, env) + PhysicalDamage(stats, env)
  }

  /** The predicted damage: the least integer not below the sum of the four clamped contributions. */
  function PredictedDamage(stats: OrganismStats, env: Environment): (d: int)
    ensures d >= 0
    ensures d as real >= RawDamage(stats, env) > (d - 1) as real
  {
    Ceil(RawDamage(stats, env))
  }

  /** The damage prediction as the source accumulates it, one contribution at a time. */
  method CalculateDamagePrediction(stats: OrganismStats, env: Environment) returns (damage: int)
    ensures damage == PredictedDamage(stats, env)
  {
    var acc: real := 0.0;
    if env.temperature > 50.0 {
      var heatThreat := env.temperature;
      var diff := Max(0.0, heatThreat - stats.heatRes as real);
      acc := acc + diff * 1.2;
    }
    if env.temperature <= 50.0 {
      var coldThreat := 100.0 - env.temperature;
      var diff := Max(0.0, coldThreat - stats.coldRes as real);
      acc := acc + diff * 1.2;
    }
    if env.toxicity > 0.0 {
      var diff := Max(0.0, env.toxicity - stats.toxinRes as real);
      acc := acc + diff * 1.0;
    }
    var physicalThreat := Max(env.radiation, env.resourceScarcity);
    var diff := Max(0.0, physicalThreat - stats.physicalStr as real);
    acc := acc + diff * 1.0;
    damage := Ceil(acc);
  }

  /** Exactly one temperature axis is charged: heat above 50, cold at 50 and below. */
  lemma OneTemperatureAxis(stats: OrganismStats, env: Environment)
    ensures HeatDamage(stats, env) == 0.0 || ColdDamage(stats, env) == 0.0
    ensures env.temperature == 50.0 ==>
              HeatDamage(stats, env) == 0.0 &&
              ColdDamage(stats, env) == Max(0.0, 50.0 - stats.coldRes as real) * 1.2
  {
  }

  lemma CeilMonotone(x: real, y: real)
    requires x <= y
    ensures Ceil(x) <= Ceil(y)
  {
    assert (-y).Floor <= (-x).Floor;
  }

  /** Raising any resistance never raises the predicted damage. */
  lemma DamageMonotone(weaker: OrganismStats, stronger: OrganismStats, env: Environment)
    requires AtLeast(stronger, weaker)
    ensures PredictedDamage(stronger, env) <= PredictedDamage(weaker, env)
  {
    assert HeatDamage(stronger, env) <= HeatDamage(weaker, env);
    assert ColdDamage(stronger, env) <= ColdDamage(weaker, env);
    assert ToxinDamage(stronger, env) <= ToxinDamage(weaker, env);
    assert PhysicalDamage(stronger, env) <= PhysicalDamage(weaker, env);
    CeilMonotone(RawDamage(stronger, env), RawDamage(weaker, env));
  }

  /** No resistance against temperature 100 costs ceil(100 x 1.2) = 120; 100 heat resistance absorbs it all. */
  lemma DamageExamples()
    ensures PredictedDamage(Zero, Environment("", "", 100.0, 0.0, 0.0, 0.0, "")) == 120
    ensures PredictedDamage(OrganismStats(100, 0, 0, 0), Environment("", "", 100.0, 0.0, 0.0, 0.0, "")) == 0
  {
  }

  /** The heat-adapted template "AAAG" with its two default slots. Each pattern is
      matched against the whole string, so "AA" counts twice and "AAA" once. */
  lemma HeatTemplateExample()
    ensures StatsOf([A, A, A, G, A, A]) == OrganismStats(160, 0, 0, 12)
    ensures PredictedDamage(StatsOf([A, A, A, G, A, A]), Environment("", "", 80.0, 0.0, 0.0, 0.0, "")) == 0
  {
    TemplateStats();
    assert PredictedDamage(OrganismStats(160, 0, 0, 12), Environment("", "", 80.0, 0.0, 0.0, 0.0, "")) == 0;
  }

  lemma TemplateStats()
    ensures StatsOf([A, A, A, G, A, A]) == OrganismStats(160, 0, 0, 12)
  {
    TemplateCounts();
    TemplateBase();
    StatsFromCounts([A, A, A, G, A, A], OrganismStats(60, 0, 0, 12), 2, 0, 0, 0, 0, 0, 1, 0, 0);
  }

  lemma TemplateBase()
    ensures BaseStats([A, A, A, G, A, A]) == OrganismStats(60, 0, 0, 12)
  {
    var s := [A, A, A, G, A, A];
    assert s[1..] == [A, A, G, A, A] && s[1..][1..] == [A, G, A, A];
    assert [A, G, A, A][1..] == [G, A, A] && [G, A, A][1..] == [A, A];
    assert [A, A][1..] == [A] && [A][1..] == [];
  }

  lemma TemplateCounts()
    ensures Occurrences([A, A, A, G, A, A], [A, A]) == 2 && Occurrences([A, A, A, G, A, A], [A, A, A]) == 1
    ensures Occurrences([A, A, A, G, A, A], [T, T]) == 0 && Occurrences([A, A, A, G, A, A], [C, C]) == 0
    ensures Occurrences([A, A, A, G, A, A], [G, G]) == 0 && Occurrences([A, A, A, G, A, A], [A, T]) == 0
    ensures Occurrences([A, A, A, G, A, A], [C, G]) == 0 && Occurrences([A, A, A, G, A, A], [T, T, T]) == 0
    ensures Occurrences([A, A, A, G, A, A], [G, C, G]) == 0
  {
    var s := [A, A, A, G, A, A];
    OccurrencesAbsent(s, [T, T], T);
    OccurrencesAbsent(s, [C, C], C);
    OccurrencesAbsent(s, [A, T], T);
    OccurrencesAbsent(s, [C, G], C);
    OccurrencesAbsent(s, [T, T, T], T);
    OccurrencesAbsent(s, [G, C, G], C);
    TemplatePairCount();
    TemplateTripletCount();
    TemplateNoGG();
  }

  lemma TemplatePairCount()
    ensures Occurrences([A, A, A, G, A, A], [A, A]) == 2
  {
    assert [A, A][2..] == [];
    assert Occurrences([A, A], [A, A]) == 1;
    assert [G, A, A][1..] == [A, A];
    assert Occurrences([G, A, A], [A, A]) == 1;
    assert [A, G, A, A][1..] == [G, A, A];
    assert [A, G, A, A][1] != [A, A][1];
    assert Occurrences([A, G, A, A], [A, A]) == 1;
    assert [A, A, A, G, A, A][2..] == [A, G, A, A];
  }

  lemma TemplateTripletCount()
    ensures Occurrences([A, A, A, G, A, A], [A, A, A]) == 1
  {
    assert [A][1..] == [];
    assert Occurrences([A], [A, A, A]) == 0;
    assert [A, A][1..] == [A];
    assert Occurrences([A, A], [A, A, A]) == 0;
    assert [G, A, A][1..] == [A, A];
    assert [G, A, A][0] != [A, A, A][0];
    assert Occurrences([G, A, A], [A, A, A]) == 0;
    assert [A, A, A, G, A, A][3..] == [G, A, A];
  }

  lemma TemplateNoGG()
    ensures Occurrences([A, A, A, G, A, A], [G, G]) == 0
  {
    assert [A, A, A, G, A, A][1..] == [A, A, G, A, A];
    assert [A, A, G, A, A][1..] == [A, G, A, A];
    assert [A, G, A, A][1..] == [G, A, A];
    assert [G, A, A][1..] == [A, A];
    OccurrencesAbsent([A, A], [G, G], G);
  }
}
