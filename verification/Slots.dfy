/** Slots that are filled one at a time, and how often they hold each value. */
module Slots {
  import opened Words

  /** How many of the slots before `n` hold `x`. */
  function Holding<T(==)>(slots: seq<Option<T>>, n: nat, x: T): nat
    requires n <= |slots|
  {
    if n == 0 then 0 else Holding(slots, n - 1, x) + if slots[n - 1] == Some(x) then 1 else 0
  }

  /** Together the slots hold exactly these values. */
  ghost predicate HoldExactly<T(!new)>(slots: seq<Option<T>>, values: multiset<T>) {
    forall x :: Holding(slots, |slots|, x) == values[x]
  }

  lemma {:induction false} OtherSlots<T>(slots: seq<Option<T>>, i: nat, slot: Option<T>, n: nat, x: T)
    requires n <= i < |slots|
    ensures Holding(slots[i := slot], n, x) == Holding(slots, n, x)
  {
    if n > 0 {
      OtherSlots(slots, i, slot, n - 1, x);
    }
  }

  /** Filling an empty slot adds exactly what is put there. */
  lemma {:induction false} FillSlot<T>(slots: seq<Option<T>>, i: nat, value: T, n: nat, x: T)
    requires i < n <= |slots| && slots[i].None?
    ensures Holding(slots[i := Some(value)], n, x) == Holding(slots, n, x) + if x == value then 1 else 0
  {
    if i < n - 1 {
      FillSlot(slots, i, value, n - 1, x);
    } else {
      OtherSlots(slots, i, Some(value), i, x);
    }
  }

  lemma FilledHoldExactly<T(!new)>(slots: seq<Option<T>>, values: multiset<T>, i: nat, value: T)
    requires HoldExactly(slots, values) && i < |slots| && slots[i].None?
    ensures HoldExactly(slots[i := Some(value)], values + multiset{value})
  {
    var next := slots[i := Some(value)];
    forall x ensures Holding(next, |next|, x) == (values + multiset{value})[x] {
      FillSlot(slots, i, value, |slots|, x);
    }
  }

  lemma {:induction false} SlotIsHeld<T>(slots: seq<Option<T>>, i: nat, n: nat)
    requires i < n <= |slots| && slots[i].Some?
    ensures Holding(slots, n, slots[i].value) > 0
  {
    if i < n - 1 {
      SlotIsHeld(slots, i, n - 1);
    }
  }

  lemma {:induction false} HeldBySlot<T>(slots: seq<Option<T>>, n: nat, x: T) returns (i: nat)
    requires n <= |slots| && Holding(slots, n, x) > 0
    ensures i < n && slots[i] == Some(x)
  {
    if slots[n - 1] == Some(x) {
      i := n - 1;
    } else {
      i := HeldBySlot(slots, n - 1, x);
    }
  }

  lemma {:induction false} FullSlotsHold<T>(slots: seq<Option<T>>, values: seq<T>, n: nat, x: T)
    requires n <= |slots| == |values| && forall i: nat :: i < |slots| ==> slots[i] == Some(values[i])
    ensures Holding(slots, n, x) == multiset(values[..n])[x]
  {
    if n > 0 {
      FullSlotsHold(slots, values, n - 1, x);
      TakeOneMore(values, n - 1);
    }
  }

  lemma TakeOneMore<T>(s: seq<T>, n: nat)
    requires n < |s|
    ensures multiset(s[..n + 1]) == multiset(s[..n]) + multiset{s[n]}
  {
    assert s[..n + 1] == s[..n] + [s[n]];
  }

  /** Full slots hold exactly one set of values. */
  lemma FullSlotsHoldExactly<T(!new)>(slots: seq<Option<T>>, values: seq<T>, held: multiset<T>)
    requires |slots| == |values| && forall i: nat :: i < |slots| ==> slots[i] == Some(values[i])
    requires HoldExactly(slots, held)
    ensures held == multiset(values)
  {
    assert values[..|slots|] == values;
    forall x ensures held[x] == multiset(values)[x] {
      FullSlotsHold(slots, values, |slots|, x);
    }
  }

  lemma {:induction false} EmptySlotsHold<T>(slots: seq<Option<T>>, n: nat, x: T)
    requires n <= |slots| && forall i: nat :: i < |slots| ==> slots[i].None?
    ensures Holding(slots, n, x) == 0
  {
    if n > 0 {
      EmptySlotsHold(slots, n - 1, x);
    }
  }

  lemma EmptySlotsHoldExactly<T(!new)>(slots: seq<Option<T>>)
    requires forall i: nat :: i < |slots| ==> slots[i].None?
    ensures HoldExactly(slots, multiset{})
  {
    forall x ensures Holding(slots, |slots|, x) == multiset{}[x] {
      EmptySlotsHold(slots, |slots|, x);
    }
  }
}
