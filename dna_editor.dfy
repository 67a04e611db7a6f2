/** The gene editor's mutation policy: which slots may change, how many historical
    slots may differ from the round-start sequence, and what one click does. */
module DnaEditor {
  import opened Types
  import opened GameLogic

  // ---------------------------------------------------------------------------
  // Slots and the mutation count

  /** Historical ("old") slots are all but the trailing `newSlotsCount` slots. */
  predicate IsOldSlot(sequence: seq<Base>, newSlotsCount: int, index: int) {
    index < |sequence| - newSlotsCount
  }

  /** Slot `idx` is an old slot whose base differs from the round-start sequence.
      A slot past the end of the round-start sequence has no base there, so it differs. */
  predicate Mutated(sequence: seq<Base>, initial: seq<Base>, newSlotsCount: int, idx: int)
    requires 0 <= idx < |sequence|
  {
    IsOldSlot(sequence, newSlotsCount, idx) && (idx >= |initial| || sequence[idx] != initial[idx])
  }

  /** The running count of the reduce over the first k slots. */
  function MutationsBelow(sequence: seq<Base>, initial: seq<Base>, newSlotsCount: int, k: nat): nat
    requires k <= |sequence|
  {
    if k == 0 then 0
    else MutationsBelow(sequence, initial, newSlotsCount, k - 1) +
         (if Mutated(sequence, initial, newSlotsCount, k - 1) then 1 else 0)
  }

  /** How many old slots currently differ from the round-start sequence. */
  function MutationCount(sequence: seq<Base>, initial: seq<Base>, newSlotsCount: int): nat {
    MutationsBelow(sequence, initial, newSlotsCount, |sequence|)
  }

  /** The mutated slots as a set: the independent definition of what is counted. */
  ghost function MutatedSlots(sequence: seq<Base>, initial: seq<Base>, newSlotsCount: int, k: nat): set<int>
    requires k <= |sequence|
  {
    set idx | 0 <= idx < k && Mutated(sequence, initial, newSlotsCount, idx)
  }

  /** The count is exactly the number of old slots that differ from the round-start sequence. */
  lemma {:induction false} MutationsBelowIsSize(sequence: seq<Base>, initial: seq<Base>, newSlotsCount: int, k: nat)
    requires k <= |sequence|
    ensures MutationsBelow(sequence, initial, newSlotsCount, k) == |MutatedSlots(sequence, initial, newSlotsCount, k)|
  {
    if k > 0 {
      MutationsBelowIsSize(sequence, initial, newSlotsCount, k - 1);
      var below := MutatedSlots(sequence, initial, newSlotsCount, k - 1);
      if Mutated(sequence, initial, newSlotsCount, k - 1) {
        assert MutatedSlots(sequence, initial, newSlotsCount, k) == below + {k - 1};
      } else {
        assert MutatedSlots(sequence, initial, newSlotsCount, k) == below;
      }
    }
  }

  lemma MutationCountIsSize(sequence: seq<Base>, initial: seq<Base>, newSlotsCount: int)
    ensures MutationCount(sequence, initial, newSlotsCount) ==
            |set idx | 0 <= idx < |sequence| && Mutated(sequence, initial, newSlotsCount, idx)|
  {
    MutationsBelowIsSize(sequence, initial, newSlotsCount, |sequence|);
  }

  /** A sequence equal to its round-start sequence has no mutations. */
  lemma {:induction false} NoMutationsBelow(sequence: seq<Base>, newSlotsCount: int, k: nat)
    requires k <= |sequence|
    ensures MutationsBelow(sequence, sequence, newSlotsCount, k) == 0
  {
    if k > 0 {
      NoMutationsBelow(sequence, newSlotsCount, k - 1);
    }
  }

  lemma NoMutationsAtRoundStart(sequence: seq<Base>, newSlotsCount: int)
    ensures MutationCount(sequence, sequence, newSlotsCount) == 0
  {
    NoMutationsBelow(sequence, newSlotsCount, |sequence|);
  }

  /** Replacing the base in slot i changes the count only through slot i. */
  lemma {:induction false} MutationsBelowUpdate(sequence: seq<Base>, initial: seq<Base>, newSlotsCount: int,
                                                i: nat, b: Base, k: nat)
    requires i < |sequence| && k <= |sequence|
    ensures var after := sequence[i := b];
      MutationsBelow(after, initial, newSlotsCount, k) +
        (if i < k && Mutated(sequence, initial, newSlotsCount, i) then 1 else 0) ==
      MutationsBelow(sequence, initial, newSlotsCount, k) +
        (if i < k && Mutated(after, initial, newSlotsCount, i) then 1 else 0)
  {
    if k > 0 {
      MutationsBelowUpdate(sequence, initial, newSlotsCount, i, b, k - 1);
      if k - 1 != i {
        assert sequence[i := b][k - 1] == sequence[k - 1];
      }
    }
  }

  /** A new edit of an old slot is allowed only while no old slot is mutated yet. */
  predicate CanMutateOld(mutationCount: int) {
    mutationCount < 1
  }

  // ---------------------------------------------------------------------------
  // Cycling bases

  /** Every edit advances the slot along A -> T -> C -> G -> A. */
  function CycleBase(current: Base): (next: Base)
    ensures next != current
  {
    match current
    case A => T
    case T => C
    case C => G
    case G => A
  }

  /** Four clicks bring a slot back to where it started, passing every other base on the way. */
  lemma CycleBaseOrbit(b: Base)
    ensures CycleBase(CycleBase(CycleBase(CycleBase(b)))) == b
    ensures {b, CycleBase(b), CycleBase(CycleBase(b)), CycleBase(CycleBase(CycleBase(b)))} == {A, T, C, G}
  {
  }

  // ---------------------------------------------------------------------------
  // One click

  /** What a click asks for: nothing, a change of one slot, or the limit rejection notice. */
  datatype ClickOutcome = Ignored | Edit(index: nat, base: Base) | LimitReached

  /** The click handler; the change it asks for is carried out by the round state
      machine, and the rejection notice changes nothing. */
  function HandleSlotClick(locked: bool, sequence: seq<Base>, initial: seq<Base>, newSlotsCount: int,
                           index: nat): (r: ClickOutcome)
    requires index < |sequence|
    ensures r == Ignored <==> locked
    ensures r.Edit? ==> r.index == index && r.base == CycleBase(sequence[index])
    ensures r == LimitReached ==>
              !locked && !Mutated(sequence, initial, newSlotsCount, index) &&
              IsOldSlot(sequence, newSlotsCount, index)
  {
    if locked then Ignored
    else if !IsOldSlot(sequence, newSlotsCount, index) then Edit(index, CycleBase(sequence[index]))
    else
      var isCurrentlyChanged := index >= |initial| || sequence[index] != initial[index];
      if isCurrentlyChanged then Edit(index, CycleBase(sequence[index]))
      else if CanMutateOld(MutationCount(sequence, initial, newSlotsCount)) then Edit(index, CycleBase(sequence[index]))
      else LimitReached
  }

  /** The sequence once the requested change, if any, is carried out. */
  function Applied(sequence: seq<Base>, outcome: ClickOutcome): (after: seq<Base>)
    requires outcome.Edit? ==> outcome.index < |sequence|
    ensures |after| == |sequence|
    ensures forall j :: 0 <= j < |sequence| && !(outcome.Edit? && j == outcome.index) ==> after[j] == sequence[j]
  {
    if outcome.Edit? then sequence[outcome.index := outcome.base] else sequence
  }

  /** When the editor is locked, no click changes anything. */
  lemma LockedClickIgnored(sequence: seq<Base>, initial: seq<Base>, newSlotsCount: int, index: nat)
    requires index < |sequence|
    ensures HandleSlotClick(true, sequence, initial, newSlotsCount, index) == Ignored
  {
  }

  /** Clicking a new slot always advances it. */
  lemma NewSlotClickAdvances(sequence: seq<Base>, initial: seq<Base>, newSlotsCount: int, index: nat)
    requires index < |sequence| && !IsOldSlot(sequence, newSlotsCount, index)
    ensures HandleSlotClick(false, sequence, initial, newSlotsCount, index) == Edit(index, CycleBase(sequence[index]))
  {
  }

  /** Clicking an old slot that is already mutated always advances it, even back to its
      round-start base. */
  lemma MutatedSlotClickAdvances(sequence: seq<Base>, initial: seq<Base>, newSlotsCount: int, index: nat)
    requires index < |sequence| && Mutated(sequence, initial, newSlotsCount, index)
    ensures HandleSlotClick(false, sequence, initial, newSlotsCount, index) == Edit(index, CycleBase(sequence[index]))
  {
  }

  /** While no old slot differs from the round-start sequence, clicking an unmutated old
      slot advances it: the one change to an old slot is allowed. */
  lemma FreshOldSlotClickAdvances(sequence: seq<Base>, initial: seq<Base>, newSlotsCount: int, index: nat)
    requires index < |sequence| && IsOldSlot(sequence, newSlotsCount, index)
    requires MutationCount(sequence, initial, newSlotsCount) == 0
    ensures HandleSlotClick(false, sequence, initial, newSlotsCount, index) == Edit(index, CycleBase(sequence[index]))
  {
  }

  /** An unlocked click is rejected exactly when it targets an unmutated old slot while
      some old slot is already mutated. */
  lemma ClickRejectedIff(sequence: seq<Base>, initial: seq<Base>, newSlotsCount: int, index: nat)
    requires index < |sequence|
    ensures HandleSlotClick(false, sequence, initial, newSlotsCount, index) == LimitReached <==>
            (IsOldSlot(sequence, newSlotsCount, index) && !Mutated(sequence, initial, newSlotsCount, index) &&
             MutationCount(sequence, initial, newSlotsCount) >= 1)
  {
  }

  /** Whatever is clicked, at most one old slot differs from the round-start sequence
      afterwards if at most one did before. */
  lemma ClickKeepsBudget(locked: bool, sequence: seq<Base>, initial: seq<Base>, newSlotsCount: int, index: nat)
    requires index < |sequence|
    requires MutationCount(sequence, initial, newSlotsCount) <= 1
    ensures MutationCount(Applied(sequence, HandleSlotClick(locked, sequence, initial, newSlotsCount, index)),
                          initial, newSlotsCount) <= 1
  {
    var outcome := HandleSlotClick(locked, sequence, initial, newSlotsCount, index);
    if outcome.Edit? {
      var after := sequence[index := outcome.base];
      MutationsBelowUpdate(sequence, initial, newSlotsCount, index, outcome.base, |sequence|);
      if !IsOldSlot(sequence, newSlotsCount, index) {
        assert !Mutated(after, initial, newSlotsCount, index);
      }
    }
  }

  /** The balanced template with no new slots: the first edit of an old slot is allowed,
      a second old slot is refused, and the mutated slot keeps cycling. */
  lemma BalancedTemplateClicks()
    ensures HandleSlotClick(false, [A, T, C, G], [A, T, C, G], 0, 0) == Edit(0, T)
    ensures HandleSlotClick(false, [T, T, C, G], [A, T, C, G], 0, 1) == LimitReached
    ensures HandleSlotClick(false, [T, T, C, G], [A, T, C, G], 0, 0) == Edit(0, C)
  {
    NoMutationsAtRoundStart([A, T, C, G], 0);
    assert MutationCount([T, T, C, G], [A, T, C, G], 0) >= 1 by {
      assert MutationsBelow([T, T, C, G], [A, T, C, G], 0, 1) == 1;
      assert MutationsBelow([T, T, C, G], [A, T, C, G], 0, 4) >= MutationsBelow([T, T, C, G], [A, T, C, G], 0, 1);
    }
  }

  // ---------------------------------------------------------------------------
  // The displayed damage range

  /** The range shown beside the prediction: 90% rounded down to 110% rounded up. */
  function DamageRange(predicted: int): (range: (int, int))
    ensures range.0 as real <= predicted as real * 0.9 < range.0 as real + 1.0
    ensures range.1 as real - 1.0 < predicted as real * 1.1 <= range.1 as real
  {
    ((predicted as real * 0.9).Floor, Ceil(predicted as real * 1.1))
  }

  /** For a non-negative prediction the range brackets the prediction and starts at 0 or above. */
  lemma DamageRangeBrackets(predicted: int)
    requires predicted >= 0
    ensures 0 <= DamageRange(predicted).0 <= predicted <= DamageRange(predicted).1
  {
  }
}
