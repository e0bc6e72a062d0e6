/** `SemanticAncestorRetriever` of `cogni_core/search.py`: a ring of the last
    `capacity` lineage entries, against the unbounded lineage log.

    Latent states, keys and the cosine ranking of the candidates are left out:
    what is modelled is which ancestors become candidates, and in which order. */
module AncestorRing {

  /** A log holds the parent of every handle ever given out, or -1. */
  ghost predicate Lineage(log: seq<int>) {
    forall h :: 0 <= h < |log| ==> -1 <= log[h] < h
  }

  /** The chain of proper ancestors, nearest first. */
  ghost function Ancestors(log: seq<int>, handle: int): (chain: seq<int>)
    requires Lineage(log) && -1 <= handle < |log|
    decreases handle
  {
    if handle < 0 || log[handle] < 0 then [] else [log[handle]] + Ancestors(log, log[handle])
  }

  /** The ring still holds the handle. */
  ghost predicate Resident(total: int, capacity: int, handle: int) {
    0 <= handle && total - capacity <= handle < total
  }

  ghost function Kept(chain: seq<int>, total: int, capacity: int): seq<int> {
    if chain == [] then []
    else if Resident(total, capacity, chain[0]) then [chain[0]] + Kept(chain[1..], total, capacity)
    else Kept(chain[1..], total, capacity)
  }

  /** The candidates that a walk must find: every proper ancestor that is still
      resident, nearest first. */
  ghost function Candidates(log: seq<int>, capacity: int, handle: int): seq<int>
    requires Lineage(log) && -1 <= handle < |log|
  {
    Kept(Ancestors(log, handle), |log|, capacity)
  }

  /** Going up `n` times from a handle. */
  ghost function Up(log: seq<int>, handle: int, n: nat): int
    requires Lineage(log) && -1 <= handle < |log|
    decreases n
  {
    if n == 0 || handle < 0 then handle else Up(log, log[handle], n - 1)
  }

  /** The chain is exactly what going up reaches. */
  lemma {:induction false} AncestorsAreReached(log: seq<int>, handle: int, n: nat)
    requires Lineage(log) && -1 <= handle < |log|
    ensures n < |Ancestors(log, handle)| ==> Ancestors(log, handle)[n] == Up(log, handle, n + 1) >= 0
    ensures n >= |Ancestors(log, handle)| ==> Up(log, handle, n + 1) == -1
    decreases n
  {
    if handle >= 0 && log[handle] >= 0 && n > 0 {
      AncestorsAreReached(log, log[handle], n - 1);
    }
  }

  /** Handles fall along the chain. */
  lemma {:induction false} AncestorsFall(log: seq<int>, handle: int)
    requires Lineage(log) && -1 <= handle < |log|
    ensures forall i :: 0 <= i < |Ancestors(log, handle)| ==> 0 <= Ancestors(log, handle)[i] < handle
    ensures forall i, j :: 0 <= i < j < |Ancestors(log, handle)| ==> Ancestors(log, handle)[i] > Ancestors(log, handle)[j]
    decreases handle
  {
    if handle >= 0 && log[handle] >= 0 {
      AncestorsFall(log, log[handle]);
    }
  }

  lemma {:induction false} NoneKept(chain: seq<int>, total: int, capacity: int)
    requires forall i :: 0 <= i < |chain| ==> !Resident(total, capacity, chain[i])
    ensures Kept(chain, total, capacity) == []
  {
    if chain != [] {
      assert forall i :: 0 <= i < |chain[1..]| ==> chain[1..][i] == chain[i + 1];
      NoneKept(chain[1..], total, capacity);
    }
  }

  /** The candidates start with the parent, if it is resident; if it is not, no
      older ancestor is resident either. */
  lemma CandidatesStep(log: seq<int>, capacity: int, handle: int)
    requires Lineage(log) && 0 <= handle < |log|
    ensures Candidates(log, capacity, handle) ==
      if Resident(|log|, capacity, log[handle]) then [log[handle]] + Candidates(log, capacity, log[handle]) else []
  {
    if log[handle] >= 0 {
      var chain := Ancestors(log, handle);
      assert chain[0] == log[handle] && chain[1..] == Ancestors(log, log[handle]);
      AncestorsFall(log, handle);
      if !Resident(|log|, capacity, log[handle]) {
        assert forall i :: 0 <= i < |chain| ==> chain[i] <= chain[0];
        NoneKept(chain, |log|, capacity);
      }
    }
  }

  /** The candidates are a prefix of the chain, and exactly its resident members:
      the walk loses nothing by stopping at the first recycled ancestor. */
  lemma {:induction false} CandidatesArePrefix(log: seq<int>, capacity: int, handle: int)
    requires Lineage(log) && -1 <= handle < |log|
    ensures Candidates(log, capacity, handle) <= Ancestors(log, handle)
    ensures forall a :: a in Candidates(log, capacity, handle) <==> a in Ancestors(log, handle) && Resident(|log|, capacity, a)
    decreases handle
  {
    if handle >= 0 && log[handle] >= 0 {
      CandidatesStep(log, capacity, handle);
      CandidatesArePrefix(log, capacity, log[handle]);
      var chain := Ancestors(log, handle);
      AncestorsFall(log, handle);
      if !Resident(|log|, capacity, log[handle]) {
        forall a | a in chain ensures !Resident(|log|, capacity, a) {
          var i :| 0 <= i < |chain| && chain[i] == a;
          assert chain[i] <= chain[0] == log[handle];
        }
      }
    }
  }

  /** No repeats, and always room: a resident descendant leaves fewer than
      `capacity` resident ancestors. */
  lemma CandidatesFit(log: seq<int>, capacity: int, handle: int)
    requires Lineage(log) && capacity > 0 && Resident(|log|, capacity, handle)
    ensures |Candidates(log, capacity, handle)| < capacity
    ensures forall i, j :: 0 <= i < j < |Candidates(log, capacity, handle)| ==>
      Candidates(log, capacity, handle)[i] > Candidates(log, capacity, handle)[j]
  {
    var found := Candidates(log, capacity, handle);
    CandidatesArePrefix(log, capacity, handle);
    AncestorsFall(log, handle);
    assert forall i :: 0 <= i < |found| ==> found[i] in found && found[i] == Ancestors(log, handle)[i];
    FallingFits(found, |log| - capacity, handle);
  }

  lemma {:induction false} FallingFits(s: seq<int>, low: int, high: int)
    requires forall i :: 0 <= i < |s| ==> low <= s[i] < high
    requires forall i, j :: 0 <= i < j < |s| ==> s[i] > s[j]
    requires low <= high
    ensures |s| <= high - low
  {
    if s != [] {
      assert forall i :: 0 <= i < |s[1..]| ==> s[1..][i] == s[i + 1];
      FallingFits(s[1..], low, s[0]);
    }
  }

  lemma WholeTurns(k: int, capacity: int)
    requires capacity > 0
    ensures k >= 1 ==> k * capacity >= capacity
    ensures k <= -1 ==> k * capacity <= -capacity
  {
    if k >= 1 { assert (k - 1) * capacity >= 0; }
    if k <= -1 { assert (-1 - k) * capacity >= 0; }
  }

  lemma Between(a: int, b: int, capacity: int)
    requires capacity > 0
    ensures b - a == (b / capacity - a / capacity) * capacity + b % capacity - a % capacity
  {
    var p, q := a / capacity, b / capacity;
    assert a == p * capacity + a % capacity;
    assert b == q * capacity + b % capacity;
    Distributes(q, p, capacity);
  }

  lemma Distributes(q: int, p: int, c: int)
    ensures (q - p) * c == q * c - p * c
  {
  }

  /** Two handles that share a slot are a whole turn of the ring apart. */
  lemma SameSlot(a: int, b: int, capacity: int)
    requires 0 <= a < b && capacity > 0 && a % capacity == b % capacity
    ensures b - a >= capacity
  {
    Between(a, b, capacity);
    WholeTurns(b / capacity - a / capacity, capacity);
  }

  lemma TurnKeepsSlot(a: int, capacity: int)
    requires capacity > 0 && a >= capacity
    ensures (a - capacity) % capacity == a % capacity
  {
    var k := a / capacity - (a - capacity) / capacity;
    Between(a - capacity, a, capacity);
    Distributes(k, 1, capacity);
    WholeTurns(k - 1, capacity);
  }

  datatype Added = Handle(handle: nat) | Rejected

  lemma LineageGrows(log: seq<int>, parent: int)
    requires Lineage(log) && -1 <= parent < |log|
    ensures Lineage(log + [parent])
  {
  }

  class SemanticAncestorRetriever {
    const capacity: nat
    const handles: array<int>
    const parents: array<int>
    const stateIndices: array<int>
    const candidateSlots: array<int>
    const candidateValid: array<bool>
    var nextHandle: nat
    var size: nat
    /** Parent and state row of every handle ever given out. */
    ghost var log: seq<int>
    ghost var rows: seq<int>

    ghost predicate Shape() {
      && capacity > 0
      && handles.Length == parents.Length == stateIndices.Length == capacity
      && candidateSlots.Length == candidateValid.Length == capacity
      && handles != parents && handles != stateIndices && parents != stateIndices
      && candidateSlots != handles && candidateSlots != parents && candidateSlots != stateIndices
    }

    /** Every resident handle sits in its slot with its parent and its row, and a
        slot holds nothing else. */
    ghost predicate Valid()
      reads this, handles, parents, stateIndices
    {
      && Shape()
      && Lineage(log) && |rows| == |log| == nextHandle
      && size == (if nextHandle < capacity then nextHandle else capacity)
      && (forall h :: Resident(nextHandle, capacity, h) ==>
            handles[h % capacity] == h && parents[h % capacity] == log[h] && stateIndices[h % capacity] == rows[h])
      && (forall s :: 0 <= s < capacity ==>
            handles[s] == -1 || (Resident(nextHandle, capacity, handles[s]) && handles[s] % capacity == s))
    }

    constructor (capacity: nat)
      requires capacity > 0
      ensures Valid() && this.capacity == capacity && log == [] && rows == []
      ensures fresh(handles) && fresh(parents) && fresh(stateIndices) && fresh(candidateSlots) && fresh(candidateValid)
    {
      this.capacity := capacity;
      handles, parents, stateIndices := new int[capacity](_ => -1), new int[capacity](_ => -1), new int[capacity](_ => -1);
      candidateSlots, candidateValid := new int[capacity](_ => 0), new bool[capacity](_ => false);
      nextHandle, size, log, rows := 0, 0, [], [];
    }

    /** `_slot_for_handle`: a recycled or unknown handle has no slot. */
    method SlotForHandle(handle: int) returns (slot: int)
      requires Valid()
      ensures if Resident(nextHandle, capacity, handle) then slot == handle % capacity && handles[slot] == handle else slot == -1
      ensures -1 <= slot < capacity
    {
      if handle < 0 { return -1; }
      slot := handle % capacity;
      if handles[slot] != handle { slot := -1; }
    }

    /** `add`, with the state row that the shared bank holds. */
    method Add(parent: int, row: int) returns (added: Added)
      requires Valid()
      modifies this, handles, parents, stateIndices
      ensures Valid()
      ensures added == if -1 <= parent < old(nextHandle) then Handle(old(nextHandle)) else Rejected
      ensures added.Handle? ==> log == old(log) + [parent] && rows == old(rows) + [row]
      ensures added.Rejected? ==> log == old(log) && rows == old(rows)
    {
      if parent < -1 || parent >= nextHandle { return Rejected; }
      var handle := nextHandle;
      var slot := handle % capacity;
      forall h | Resident(handle, capacity, h) && h > handle - capacity ensures h % capacity != slot {
        if h % capacity == slot { SameSlot(h, handle, capacity); }
      }
      if handle >= capacity { TurnKeepsSlot(handle, capacity); }
      LineageGrows(log, parent);
      hide Lineage;
      stateIndices[slot] := row;
      handles[slot] := handle;
      parents[slot] := parent;
      nextHandle := nextHandle + 1;
      if size + 1 <= capacity { size := size + 1; }
      log, rows := log + [parent], rows + [row];
      added := Handle(handle);
      forall h | Resident(nextHandle, capacity, h)
        ensures handles[h % capacity] == h && parents[h % capacity] == log[h] && stateIndices[h % capacity] == rows[h]
      {
        if h != handle {
          assert Resident(handle, capacity, h) && h > handle - capacity;
          assert h % capacity != slot;
        }
      }
      forall s | 0 <= s < capacity
        ensures handles[s] == -1 || (Resident(nextHandle, capacity, handles[s]) && handles[s] % capacity == s)
      {
        if s != slot && handles[s] != -1 {
          assert Resident(handle, capacity, handles[s]) && handles[s] % capacity == s;
          assert handles[s] != handle - capacity;
        }
      }
    }

    method ClearCandidates()
      requires Shape()
      modifies candidateSlots, candidateValid
      ensures forall k :: 0 <= k < capacity ==> candidateSlots[k] == 0 && !candidateValid[k]
    {
      for i := 0 to capacity
        invariant forall k :: 0 <= k < i ==> candidateSlots[k] == 0 && !candidateValid[k]
      {
        candidateSlots[i], candidateValid[i] := 0, false;
      }
    }

    /** The chain walk of `retrieve`: fills the candidate workspace with the slots
        of the resident ancestors of a resident descendant, nearest first. */
    method Walk(descendant: int) returns (count: nat)
      requires Valid() && descendant < nextHandle
      modifies candidateSlots, candidateValid
      ensures Valid() && count <= capacity
      ensures !Resident(nextHandle, capacity, descendant) ==> count == 0
      ensures Resident(nextHandle, capacity, descendant) ==>
        && count == |Candidates(log, capacity, descendant)|
        && forall i :: 0 <= i < capacity ==> candidateValid[i] == (i < count)
      ensures Resident(nextHandle, capacity, descendant) ==> Holds(Candidates(log, capacity, descendant), count)
    {
      count := 0;
      var slot := SlotForHandle(descendant);
      if slot < 0 { return; }
      ClearCandidates();
      var parent := parents[slot];
      ghost var at := descendant;
      ghost var all := Candidates(log, capacity, descendant);
      CandidatesFit(log, capacity, descendant);
      assert Holds(all, 0);
      hide Holds;
      var turn := 0;
      while turn < capacity
        invariant count == turn <= |all|
        invariant Resident(nextHandle, capacity, at) && parent == log[at]
        invariant all[turn..] == Candidates(log, capacity, at)
        invariant forall i :: 0 <= i < capacity ==> candidateValid[i] == (i < count)
        invariant Holds(all, count)
      {
        CandidatesStep(log, capacity, at);
        slot := SlotForHandle(parent);
        if slot < 0 { break; }
        assert all[turn] == parent && all[turn + 1..] == all[turn..][1..];
        Place(count, slot, all);
        count := count + 1;
        at := parent;
        parent := parents[slot];
        turn := turn + 1;
      }
    }

    /** The next candidate. */
    method Place(count: nat, slot: nat, ghost all: seq<int>)
      requires Shape() && count < capacity && slot < capacity && Holds(all, count) && count < |all|
      requires handles[slot] == all[count] && 0 <= all[count] < |rows| && stateIndices[slot] == rows[all[count]]
      requires forall i :: 0 <= i < capacity ==> candidateValid[i] == (i < count)
      modifies candidateSlots, candidateValid
      ensures Holds(all, count + 1) && forall i :: 0 <= i < capacity ==> candidateValid[i] == (i < count + 1)
    {
      candidateSlots[count] := slot;
      candidateValid[count] := true;
    }

    /** The first `count` candidates are these handles, each in a slot that
        still holds it together with its state row. */
    ghost predicate Holds(found: seq<int>, count: nat)
      requires Shape() && count <= capacity
      reads this, handles, stateIndices, candidateSlots
    {
      count <= |found|
      && forall i :: 0 <= i < count ==>
        && 0 <= candidateSlots[i] < capacity && handles[candidateSlots[i]] == found[i]
        && 0 <= found[i] < |rows| && stateIndices[candidateSlots[i]] == rows[found[i]]
    }

    /** `reset`: everything is forgotten, also the log. */
    method Reset()
      requires Valid()
      modifies this, handles, parents, stateIndices, candidateSlots, candidateValid
      ensures Valid() && log == [] && rows == []
    {
      for i := 0 to capacity
        modifies handles, parents, stateIndices, candidateSlots, candidateValid
        invariant forall k :: 0 <= k < i ==> handles[k] == -1
      {
        handles[i], parents[i], stateIndices[i] := -1, -1, -1;
        candidateSlots[i], candidateValid[i] := 0, false;
      }
      nextHandle, size, log, rows := 0, 0, [], [];
    }
  }
}
