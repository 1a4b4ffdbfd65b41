/** Open addressing with linear probing and backward-shift deletion, kept equal to a finite map. */
module FlatHashMapModel {
  import opened Bits
  import opened ProbeTable

  function Blanks<V>(n: nat, blank: V): seq<Slot<V>> {
    seq(n, _ => Slot(0, blank))
  }

  /** Smallest power of two at or above n. */
  method NextPow2(n: nat) returns (p: nat, ghost k: nat)
    ensures p == Pow2(k) && n <= p && (n >= 1 ==> p < 2 * n)
  {
    p, k := 1, 0;
    while p < n
      invariant p == Pow2(k) && (n >= 1 ==> p < 2 * n)
      decreases n - p
    {
      p, k := 2 * p, k + 1;
    }
  }

  class FlatHashMap<V(!new)> {
    /** Any mixing function will do. */
    const mix: nat -> nat
    /** The value an empty slot holds. */
    const blank: V
    var slots: seq<Slot<V>>
    var mask: nat
    var size: nat
    ghost var log: nat
    ghost var contents: map<nat, V>

    ghost predicate Shaped()
      reads this
    {
      |slots| == Pow2(log) && |slots| >= 16 && mask == |slots| - 1
    }

    /** The table is the map `contents`, and its load leaves a gap. */
    ghost predicate Valid()
      reads this
    {
      Shaped() && TableOk(mix, slots, contents) && size == |contents| && size * 10 < |slots| * 7
    }

    predicate NeedsGrow()
      reads this
    {
      (size + 1) * 10 >= (mask + 1) * 7
    }

    constructor (capacityHint: nat, mix: nat -> nat, blank: V)
      ensures Valid() && contents == map[] && |slots| >= capacityHint
    {
      this.mix, this.blank := mix, blank;
      new;
      var cap, k := NextPow2(if capacityHint < 16 then 16 else capacityHint);
      slots, mask, size, log, contents := Blanks(cap, blank), cap - 1, 0, k, map[];
      EmptyTable(mix, slots);
    }

    function SlotFor(key: nat): (i: nat)
      requires Shaped()
      reads this
      ensures i == Home(mix, |slots|, key) < |slots|
    {
      MaskIsMod(mix(key), log);
      And(mix(key), mask)
    }

    function Following(i: nat): (j: nat)
      requires Shaped() && i < |slots|
      reads this
      ensures j == Step(|slots|, i) < |slots|
    {
      StepIsMask(i, log);
      And(i + 1, mask)
    }

    /** The slot that holds the key, or else the gap where its probe ends. */
    method Probe(key: nat) returns (i: nat)
      requires Valid() && key != 0
      ensures Probed(mix, slots, key, i) && (slots[i].key == key || slots[i].key == 0)
    {
      ghost var e := Gap();
      i := SlotFor(key);
      while slots[i].key != key && slots[i].key != 0
        invariant Probed(mix, slots, key, i)
        invariant Dist(|slots|, Home(mix, |slots|, key), i) <= Dist(|slots|, Home(mix, |slots|, key), e)
        decreases |slots| - Dist(|slots|, Home(mix, |slots|, key), i)
      {
        ProbeOn(mix, slots, key, i, e);
        i := Following(i);
      }
    }

    lemma Gap() returns (e: nat)
      requires Valid()
      ensures e < |slots| && !Used(slots, e)
    {
      e := GapExists(mix, slots, contents);
    }

    /** Finds the stored value, or reports its absence. */
    method Find(key: nat) returns (found: bool, value: V)
      requires Valid() && key != 0
      ensures found <==> key in contents
      ensures found ==> value == contents[key]
    {
      var i := Probe(key);
      found, value := slots[i].key == key, slots[i].value;
      if !found {
        ProbeMiss(mix, slots, contents, key, i);
      } else {
        HitMeans(mix, slots, contents, i);
      }
    }

    /**
     * Inserts or overwrites. Growing re-inserts through this method: the measure shows that such an
     * insertion never grows again.
     */
    method InsertOrAssign(key: nat, value: V)
      requires Valid() && key != 0
      modifies this
      ensures Valid() && contents == old(contents)[key := value]
      ensures |slots| == if 10 * (|old(contents)| + 1) >= 7 * old(|slots|) then 2 * old(|slots|) else old(|slots|)
      decreases if NeedsGrow() then 2 else 0, 0
    {
      if NeedsGrow() {
        Grow();
      }
      var i := Probe(key);
      PutOk(mix, slots, contents, key, value, i);
      if slots[i].key == 0 {
        size := size + 1;
      }
      slots := slots[i := Slot(key, value)];
      contents := contents[key := value];
    }

    method Grow()
      requires Valid()
      modifies this
      ensures Valid() && contents == old(contents) && |slots| == 2 * old(|slots|)
      decreases 1, 1
    {
      var was := slots;
      ghost var all := contents;
      Reset((mask + 1) * 2);
      Refill(was, all);
    }

    method Refill(was: seq<Slot<V>>, ghost all: map<nat, V>)
      requires Valid() && contents == map[] && |slots| == 2 * |was|
      requires TableOk(mix, was, all) && |all| * 10 < |was| * 7
      modifies this
      ensures Valid() && contents == all && |slots| == old(|slots|)
      decreases 1, 0
    {
      var i := 0;
      while i < |was|
        invariant 0 <= i <= |was| && |slots| == old(|slots|) && Valid() && contents == Entries(was, i)
      {
        EntriesGrow(mix, was, all, i);
        if was[i].key != 0 {
          InsertOrAssign(was[i].key, was[i].value);
        }
        i := i + 1;
      }
      EntriesAll(mix, was, all);
    }

    method Reset(cap: nat)
      requires Shaped() && cap == 2 * |slots|
      modifies this
      ensures Valid() && contents == map[] && |slots| == cap
    {
      slots, mask, size := Blanks(cap, blank), cap - 1, 0;
      log, contents := log + 1, map[];
      EmptyTable(mix, slots);
    }

    /** Empties a slot, pulling later entries back so that no probe path is cut. */
    method EraseAtHole(at: nat)
      requires Valid() && Used(slots, at)
      modifies this
      ensures Valid() && contents == old(contents) - {old(slots)[at].key} && |slots| == old(|slots|)
    {
      ghost var e := Gap();
      ghost var rest := contents - {slots[at].key};
      ShiftStart(mix, slots, contents, at, e, blank);
      PullBack(at, rest, e);
      size := size - 1;
      contents := rest;
    }

    method PullBack(at: nat, ghost rest: map<nat, V>, ghost e: nat)
      requires Shaped() && Shifting(mix, slots, rest, at, at, e, blank)
      modifies this`slots
      ensures Shaped() && TableOk(mix, slots, rest) && |slots| == old(|slots|)
    {
      var hole, scan := at, at;
      while true
        invariant Shaped() && |slots| == old(|slots|) && Shifting(mix, slots, rest, hole, scan, e, blank)
        decreases Dist(|slots|, scan, e)
      {
        ShiftAhead(|slots|, hole, scan, e);
        ghost var was := scan;
        scan := Following(scan);
        if slots[scan].key == 0 {
          ShiftEnd(mix, slots, rest, hole, was, e, blank);
          break;
        }
        if Blocked(hole, scan, SlotFor(slots[scan].key)) {
          ShiftSkip(mix, slots, rest, hole, was, e, blank);
        } else {
          ShiftMove(mix, slots, rest, hole, was, e, blank);
          slots := slots[hole := slots[scan]];
          hole := scan;
        }
      }
      slots := slots[hole := Slot(0, blank)];
    }

    /** Removes a key and hands back what it held. */
    method Erase(key: nat) returns (found: bool, out: V)
      requires Valid() && key != 0
      modifies this
      ensures Valid() && contents == old(contents) - {key}
      ensures found <==> key in old(contents)
      ensures found ==> out == old(contents)[key]
    {
      var hole := Probe(key);
      found, out := slots[hole].key == key, slots[hole].value;
      if !found {
        ProbeMiss(mix, slots, contents, key, hole);
      } else {
        HitMeans(mix, slots, contents, hole);
        EraseAtHole(hole);
      }
    }

    method Clear()
      requires Valid()
      modifies this
      ensures Valid() && contents == map[] && |slots| == old(|slots|)
    {
      slots, size, contents := Blanks(|slots|, blank), 0, map[];
      EmptyTable(mix, slots);
    }
  }
}
