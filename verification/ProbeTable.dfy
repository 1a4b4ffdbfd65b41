/** Linear probing over a cyclic array of slots: what a well-formed table means. */
module ProbeTable {
  import opened Types

  datatype Slot<V> = Slot(key: nat, value: V)

  /** Key 0 marks an empty slot. */
  predicate Used<V(!new)>(s: seq<Slot<V>>, i: int) {
    0 <= i < |s| && s[i].key != 0
  }

  function Step(cap: nat, i: nat): nat {
    if i + 1 == cap then 0 else i + 1
  }

  /** Steps from a forward to b, around the end. */
  function Dist(cap: nat, a: int, b: int): int {
    if a <= b then b - a else b - a + cap
  }

  /** i lies on the probe path from a, strictly before j. */
  predicate Before(cap: nat, a: int, i: int, j: int) {
    Dist(cap, a, i) < Dist(cap, a, j)
  }

  /** A key's first slot. */
  function Home(mix: nat -> nat, cap: nat, key: nat): nat
    requires cap > 0
  {
    mix(key) % cap
  }

  /** No gap between a key's home and the slot that holds it. */
  ghost predicate PathsOk<V(!new)>(mix: nat -> nat, s: seq<Slot<V>>) {
    forall i, j {:trigger Used(s, i), Used(s, j)} ::
      Used(s, j) && 0 <= i < |s| && Before(|s|, Home(mix, |s|, s[j].key), i, j) ==> Used(s, i)
  }

  ghost predicate KeysOnce<V(!new)>(s: seq<Slot<V>>) {
    forall i, j :: Used(s, i) && Used(s, j) && s[i].key == s[j].key ==> i == j
  }

  /** The used slots are exactly the entries of m. */
  ghost predicate Holds<V(!new)>(s: seq<Slot<V>>, m: map<nat, V>) {
    && (forall i :: Used(s, i) ==> s[i].key in m && m[s[i].key] == s[i].value)
    && (forall k :: k in m ==> exists i :: Used(s, i) && s[i].key == k)
  }

  ghost predicate TableOk<V(!new)>(mix: nat -> nat, s: seq<Slot<V>>, m: map<nat, V>) {
    forall k: nat {:trigger Look(TableSeal, k)} :: Look(TableSeal, k) ==>
        |s| > 0 && PathsOk(mix, s) && KeysOnce(s) && Holds(s, m)
  }

  lemma TableMeans<V(!new)>(mix: nat -> nat, s: seq<Slot<V>>, m: map<nat, V>)
    requires TableOk(mix, s, m)
    ensures |s| > 0 && PathsOk(mix, s) && KeysOnce(s) && Holds(s, m)
  {
    assert Look(TableSeal, 0);
  }

  // ---- there is always a gap

  ghost function KeysUpTo<V(!new)>(s: seq<Slot<V>>, n: nat): set<nat>
    requires n <= |s|
  {
    set i | 0 <= i < n && Used(s, i) :: s[i].key
  }

  lemma OneKeyMore<V(!new)>(s: seq<Slot<V>>, n: nat)
    requires n < |s| && KeysOnce(s) && Used(s, n)
    ensures s[n].key !in KeysUpTo(s, n) && KeysUpTo(s, n + 1) == KeysUpTo(s, n) + {s[n].key}
  {
  }

  lemma {:induction false} DistinctKeys<V(!new)>(s: seq<Slot<V>>, n: nat)
    requires n <= |s| && KeysOnce(s) && forall i :: 0 <= i < n ==> Used(s, i)
    ensures |KeysUpTo(s, n)| == n
  {
    if n == 0 {
      assert KeysUpTo(s, 0) == {};
    } else {
      DistinctKeys(s, n - 1);
      OneKeyMore(s, n - 1);
    }
  }

  lemma Subset(a: set<nat>, b: set<nat>)
    requires a <= b
    ensures |a| <= |b|
  {
    assert b == a + (b - a);
  }

  /** Fewer entries than slots leaves an empty one. */
  lemma GapExists<V(!new)>(mix: nat -> nat, s: seq<Slot<V>>, m: map<nat, V>) returns (e: nat)
    requires TableOk(mix, s, m) && |m| < |s|
    ensures e < |s| && !Used(s, e)
  {
    TableMeans(mix, s, m);
    if forall i :: 0 <= i < |s| ==> Used(s, i) {
      DistinctKeys(s, |s|);
      Subset(KeysUpTo(s, |s|), m.Keys);
      assert false;
    } else {
      e :| 0 <= e < |s| && !Used(s, e);
    }
  }

  // ---- probing

  /** Every slot before i on the path of key is in use by some other key. */
  ghost predicate Probed<V(!new)>(mix: nat -> nat, s: seq<Slot<V>>, key: nat, i: int) {
    && 0 <= i < |s|
    && forall j {:trigger Used(s, j)} :: 0 <= j < |s| && Before(|s|, Home(mix, |s|, key), j, i) ==>
         Used(s, j) && s[j].key != key
  }

  lemma ProbeOn<V(!new)>(mix: nat -> nat, s: seq<Slot<V>>, key: nat, i: nat, e: nat)
    requires Probed(mix, s, key, i) && Used(s, i) && s[i].key != key && e < |s| && !Used(s, e)
    requires Dist(|s|, Home(mix, |s|, key), i) <= Dist(|s|, Home(mix, |s|, key), e)
    ensures var h, i' := Home(mix, |s|, key), Step(|s|, i);
            Probed(mix, s, key, i') && Dist(|s|, h, i') == Dist(|s|, h, i) + 1 <= Dist(|s|, h, e)
  {
    var h, i' := Home(mix, |s|, key), Step(|s|, i);
    assert Dist(|s|, h, i) != Dist(|s|, h, e);
    forall j | 0 <= j < |s| && Before(|s|, h, j, i') ensures Used(s, j) && s[j].key != key {
      assert j == i || Before(|s|, h, j, i);
    }
  }

  /** Stopping at a gap, the key is nowhere. */
  lemma ProbeMiss<V(!new)>(mix: nat -> nat, s: seq<Slot<V>>, m: map<nat, V>, key: nat, i: nat)
    requires TableOk(mix, s, m) && Probed(mix, s, key, i) && !Used(s, i)
    ensures key !in m
  {
    TableMeans(mix, s, m);
    forall j | Used(s, j) ensures s[j].key != key {
      assert !Before(|s|, Home(mix, |s|, s[j].key), i, j);
    }
  }

  // ---- inserting

  lemma PutOk<V(!new)>(mix: nat -> nat, s: seq<Slot<V>>, m: map<nat, V>, key: nat, value: V, i: nat)
    requires TableOk(mix, s, m) && key != 0 && Probed(mix, s, key, i) && (!Used(s, i) || s[i].key == key)
    ensures TableOk(mix, s[i := Slot(key, value)], m[key := value])
    ensures Used(s, i) <==> key in m
    ensures Used(s, i) ==> m[key] == s[i].value
  {
    TableMeans(mix, s, m);
    var s' := s[i := Slot(key, value)];
    if !Used(s, i) {
      ProbeMiss(mix, s, m, key, i);
    }
    assert forall j :: Used(s', j) <==> Used(s, j) || j == i;
    PutPaths(mix, s, key, value, i);
    PutHolds(s, m, key, value, i);
  }

  lemma PutPaths<V(!new)>(mix: nat -> nat, s: seq<Slot<V>>, key: nat, value: V, i: nat)
    requires PathsOk(mix, s) && key != 0 && Probed(mix, s, key, i)
    ensures PathsOk(mix, s[i := Slot(key, value)])
  {
    var s' := s[i := Slot(key, value)];
    forall a, j | Used(s', j) && 0 <= a < |s'| && Before(|s'|, Home(mix, |s'|, s'[j].key), a, j) ensures Used(s', a) {
      if a != i {
        assert Used(s, a) by {
          if j != i {
            assert Used(s, j);
          }
        }
      }
    }
  }

  lemma PutHolds<V(!new)>(s: seq<Slot<V>>, m: map<nat, V>, key: nat, value: V, i: nat)
    requires Holds(s, m) && KeysOnce(s) && i < |s| && key != 0 && (Used(s, i) ==> s[i].key == key)
             && (!Used(s, i) ==> key !in m)
    ensures Holds(s[i := Slot(key, value)], m[key := value]) && KeysOnce(s[i := Slot(key, value)])
  {
    var s', m' := s[i := Slot(key, value)], m[key := value];
    forall j, k | Used(s', j) && Used(s', k) && s'[j].key == s'[k].key ensures j == k {
      assert j == i || Used(s, j);
      assert k == i || Used(s, k);
    }
    forall j | Used(s', j) ensures s'[j].key in m' && m'[s'[j].key] == s'[j].value {
      assert j == i || Used(s, j);
    }
    forall k | k in m' ensures exists j :: Used(s', j) && s'[j].key == k {
      if k == key {
        assert Used(s', i);
      } else {
        var j :| Used(s, j) && s[j].key == k;
        assert Used(s', j);
      }
    }
  }

  // ---- backward-shift deletion

  /** With slot hole emptied, the only gaps on paths are hole itself, and only for entries past scan. */
  ghost predicate HoleOk<V(!new)>(mix: nat -> nat, s: seq<Slot<V>>, hole: nat, scan: nat) {
    && hole < |s| && scan < |s| && !Used(s, hole)
    && forall i, j {:trigger Used(s, i), Used(s, j)} ::
         Used(s, j) && 0 <= i < |s| && Before(|s|, Home(mix, |s|, s[j].key), i, j) && !Used(s, i) ==>
           i == hole && Dist(|s|, hole, j) > Dist(|s|, hole, scan)
  }

  ghost predicate Hollow<V(!new)>(mix: nat -> nat, s: seq<Slot<V>>, m: map<nat, V>, hole: nat, scan: nat) {
    forall k: nat {:trigger Look(TableSeal, k)} :: Look(TableSeal, k) ==>
        HoleOk(mix, s, hole, scan) && KeysOnce(s) && Holds(s, m)
  }

  lemma HollowMeans<V(!new)>(mix: nat -> nat, s: seq<Slot<V>>, m: map<nat, V>, hole: nat, scan: nat)
    requires Hollow(mix, s, m, hole, scan)
    ensures HoleOk(mix, s, hole, scan) && KeysOnce(s) && Holds(s, m)
  {
    assert Look(TableSeal, 0);
  }

  lemma HollowStart<V(!new)>(mix: nat -> nat, s: seq<Slot<V>>, m: map<nat, V>, hole: nat, blank: V)
    requires TableOk(mix, s, m) && Used(s, hole)
    ensures Hollow(mix, s[hole := Slot(0, blank)], m - {s[hole].key}, hole, hole)
  {
    TableMeans(mix, s, m);
    var s', m' := s[hole := Slot(0, blank)], m - {s[hole].key};
    assert forall j :: Used(s', j) <==> Used(s, j) && j != hole;
    forall k | k in m' ensures exists j :: Used(s', j) && s'[j].key == k {
      var j :| Used(s, j) && s[j].key == k;
      assert Used(s', j);
    }
  }

  /** The entry at scan may not fill the hole: its home lies cyclically in (hole, scan]. */
  predicate Blocked(hole: nat, scan: nat, ideal: nat) {
    if hole <= scan then hole < ideal <= scan else hole < ideal || ideal <= scan
  }

  lemma BlockedMeans(cap: nat, hole: nat, scan: nat, ideal: nat)
    requires hole < cap && scan < cap && ideal < cap && hole != scan
    ensures Blocked(hole, scan, ideal) <==> !Before(cap, ideal, hole, scan)
  {
  }

  /** A blocked entry stays; the scan has passed it. */
  lemma HollowSkip<V(!new)>(mix: nat -> nat, s: seq<Slot<V>>, m: map<nat, V>, hole: nat, scan: nat)
    requires Hollow(mix, s, m, hole, scan) && hole < |s| && scan < |s|
    requires var next := Step(|s|, scan);
             next != hole && Used(s, next) && Blocked(hole, next, Home(mix, |s|, s[next].key))
    ensures Hollow(mix, s, m, hole, Step(|s|, scan))
  {
    HollowMeans(mix, s, m, hole, scan);
    var next := Step(|s|, scan);
    BlockedMeans(|s|, hole, next, Home(mix, |s|, s[next].key));
    forall i, j | Used(s, j) && 0 <= i < |s| && Before(|s|, Home(mix, |s|, s[j].key), i, j) && !Used(s, i)
      ensures i == hole && Dist(|s|, hole, j) > Dist(|s|, hole, next)
    {
      assert Dist(|s|, hole, j) > Dist(|s|, hole, scan);
      if j == next {
        assert false;
      }
    }
  }

  /** Any other entry moves into the hole, and its old slot is the new hole. */
  lemma HollowMove<V(!new)>(mix: nat -> nat, s: seq<Slot<V>>, m: map<nat, V>, hole: nat, scan: nat, blank: V)
    requires Hollow(mix, s, m, hole, scan) && hole < |s| && scan < |s|
    requires var next := Step(|s|, scan);
             next != hole && Used(s, next) && !Blocked(hole, next, Home(mix, |s|, s[next].key))
    ensures var next := Step(|s|, scan); Hollow(mix, s[hole := s[next]][next := Slot(0, blank)], m, next, next)
  {
    HollowMeans(mix, s, m, hole, scan);
    var next := Step(|s|, scan);
    MovePaths(mix, s, hole, scan, blank);
    MoveHolds(s, m, hole, next, blank);
  }

  lemma MovePaths<V(!new)>(mix: nat -> nat, s: seq<Slot<V>>, hole: nat, scan: nat, blank: V)
    requires HoleOk(mix, s, hole, scan)
    requires var next := Step(|s|, scan);
             next != hole && Used(s, next) && !Blocked(hole, next, Home(mix, |s|, s[next].key))
    ensures var next := Step(|s|, scan); HoleOk(mix, s[hole := s[next]][next := Slot(0, blank)], next, next)
  {
    var next := Step(|s|, scan);
    var s' := s[hole := s[next]][next := Slot(0, blank)];
    var home := Home(mix, |s|, s[next].key);
    BlockedMeans(|s|, hole, next, home);
    forall i, j | Used(s', j) && 0 <= i < |s'| && Before(|s'|, Home(mix, |s'|, s'[j].key), i, j) && !Used(s', i)
      ensures i == next && Dist(|s'|, next, j) > 0
    {
      assert j != next;
      if i != next {
        assert i != hole && !Used(s, i);
        if j == hole {
          assert Before(|s|, home, i, next);
          assert false;
        } else {
          assert Used(s, j);
          assert false;
        }
      }
    }
  }

  lemma MoveHolds<V(!new)>(s: seq<Slot<V>>, m: map<nat, V>, hole: nat, next: nat, blank: V)
    requires hole < |s| && !Used(s, hole) && Used(s, next) && KeysOnce(s) && Holds(s, m)
    ensures var s' := s[hole := s[next]][next := Slot(0, blank)]; KeysOnce(s') && Holds(s', m)
  {
    var s' := s[hole := s[next]][next := Slot(0, blank)];
    forall i, j | Used(s', i) && Used(s', j) && s'[i].key == s'[j].key ensures i == j {
      assert Used(s, if i == hole then next else i);
      assert Used(s, if j == hole then next else j);
    }
    forall i | Used(s', i) ensures s'[i].key in m && m[s'[i].key] == s'[i].value {
      assert Used(s, if i == hole then next else i);
    }
    forall k | k in m ensures exists i :: Used(s', i) && s'[i].key == k {
      var i :| Used(s, i) && s[i].key == k;
      assert Used(s', if i == next then hole else i);
    }
  }

  /** A gap after scan ends the shifting: no path crosses the hole any more. */
  lemma HollowEnd<V(!new)>(mix: nat -> nat, s: seq<Slot<V>>, m: map<nat, V>, hole: nat, scan: nat)
    requires Hollow(mix, s, m, hole, scan) && hole < |s| && scan < |s| && !Used(s, Step(|s|, scan))
             && Step(|s|, scan) != hole
    ensures TableOk(mix, s, m)
  {
    HollowMeans(mix, s, m, hole, scan);
    var next := Step(|s|, scan);
    forall i, j | Used(s, j) && 0 <= i < |s| && Before(|s|, Home(mix, |s|, s[j].key), i, j) ensures Used(s, i) {
      assert j != next;
      PathCrosses(|s|, Home(mix, |s|, s[j].key), hole, scan, j);
    }
  }

  /** A path through the hole to an entry past scan also runs through the slot after scan. */
  lemma PathCrosses(cap: nat, home: nat, hole: nat, scan: nat, j: nat)
    requires home < cap && hole < cap && scan < cap && j < cap && Step(cap, scan) != hole && j != Step(cap, scan)
    ensures Before(cap, home, hole, j) && Dist(cap, hole, j) > Dist(cap, hole, scan) ==>
              Before(cap, home, Step(cap, scan), j)
  {
  }

  lemma EmptyTable<V(!new)>(mix: nat -> nat, s: seq<Slot<V>>)
    requires |s| > 0 && forall i :: 0 <= i < |s| ==> s[i].key == 0
    ensures TableOk(mix, s, map[])
  {
  }

  /** A slot in use is an entry. */
  lemma HitMeans<V(!new)>(mix: nat -> nat, s: seq<Slot<V>>, m: map<nat, V>, i: nat)
    requires TableOk(mix, s, m) && Used(s, i)
    ensures s[i].key in m && m[s[i].key] == s[i].value
  {
    TableMeans(mix, s, m);
  }

  // ---- one step of the shifting loop

  /** Where the shifting stands: slots with a stale copy in hole, and a gap e still ahead. */
  ghost predicate Shifting<V(!new)>(mix: nat -> nat, s: seq<Slot<V>>, m: map<nat, V>, hole: nat, scan: nat, e: nat,
                                    blank: V) {
    && hole < |s| && scan < |s| && e < |s| && e != hole && !Used(s, e)
    && Dist(|s|, hole, scan) < Dist(|s|, hole, e)
    && Hollow(mix, s[hole := Slot(0, blank)], m, hole, scan)
  }

  lemma ShiftAhead(cap: nat, hole: nat, scan: nat, e: nat)
    requires hole < cap && scan < cap && e < cap && e != hole && Dist(cap, hole, scan) < Dist(cap, hole, e)
    ensures var next := Step(cap, scan);
            && next < cap && next != hole && (next != e ==> Dist(cap, hole, next) < Dist(cap, hole, e))
            && 0 <= Dist(cap, next, e) < Dist(cap, scan, e)
  {
  }

  lemma ShiftSkip<V(!new)>(mix: nat -> nat, s: seq<Slot<V>>, m: map<nat, V>, hole: nat, scan: nat, e: nat, blank: V)
    requires Shifting(mix, s, m, hole, scan, e, blank)
    requires var next := Step(|s|, scan); Used(s, next) && Blocked(hole, next, Home(mix, |s|, s[next].key))
    ensures Shifting(mix, s, m, hole, Step(|s|, scan), e, blank)
  {
    ShiftAhead(|s|, hole, scan, e);
    HollowSkip(mix, s[hole := Slot(0, blank)], m, hole, scan);
  }

  lemma ShiftMove<V(!new)>(mix: nat -> nat, s: seq<Slot<V>>, m: map<nat, V>, hole: nat, scan: nat, e: nat, blank: V)
    requires Shifting(mix, s, m, hole, scan, e, blank)
    requires var next := Step(|s|, scan); Used(s, next) && !Blocked(hole, next, Home(mix, |s|, s[next].key))
    ensures var next := Step(|s|, scan); Shifting(mix, s[hole := s[next]], m, next, next, e, blank)
  {
    var next, l := Step(|s|, scan), s[hole := Slot(0, blank)];
    ShiftAhead(|s|, hole, scan, e);
    HollowMove(mix, l, m, hole, scan, blank);
    assert s[hole := s[next]][next := Slot(0, blank)] == l[hole := l[next]][next := Slot(0, blank)];
  }

  lemma ShiftEnd<V(!new)>(mix: nat -> nat, s: seq<Slot<V>>, m: map<nat, V>, hole: nat, scan: nat, e: nat, blank: V)
    requires Shifting(mix, s, m, hole, scan, e, blank) && !Used(s, Step(|s|, scan))
    ensures TableOk(mix, s[hole := Slot(0, blank)], m)
  {
    ShiftAhead(|s|, hole, scan, e);
    HollowEnd(mix, s[hole := Slot(0, blank)], m, hole, scan);
  }

  lemma ShiftStart<V(!new)>(mix: nat -> nat, s: seq<Slot<V>>, m: map<nat, V>, hole: nat, e: nat, blank: V)
    requires TableOk(mix, s, m) && Used(s, hole) && e < |s| && !Used(s, e)
    ensures Shifting(mix, s, m - {s[hole].key}, hole, hole, e, blank)
    ensures |m - {s[hole].key}| == |m| - 1
  {
    HollowStart(mix, s, m, hole, blank);
    HitMeans(mix, s, m, hole);
    assert (m - {s[hole].key}).Keys == m.Keys - {s[hole].key};
  }

  // ---- re-inserting every entry

  /** The entries of the first n slots. */
  ghost function Entries<V(!new)>(s: seq<Slot<V>>, n: nat): map<nat, V>
    requires n <= |s|
  {
    if n == 0 then map[]
    else if s[n - 1].key == 0 then Entries(s, n - 1)
    else Entries(s, n - 1)[s[n - 1].key := s[n - 1].value]
  }

  lemma {:induction false} EntriesMeans<V(!new)>(s: seq<Slot<V>>, m: map<nat, V>, n: nat)
    requires n <= |s| && KeysOnce(s) && Holds(s, m)
    ensures forall k :: k in Entries(s, n) ==> k in m && m[k] == Entries(s, n)[k]
    ensures forall k :: k in Entries(s, n) <==> exists i :: 0 <= i < n && Used(s, i) && s[i].key == k
  {
    if n > 0 {
      EntriesMeans(s, m, n - 1);
      assert Used(s, n - 1) <==> s[n - 1].key != 0;
    }
  }

  /** Re-inserting slot i adds a new key, so the count stays below the whole. */
  lemma EntriesGrow<V(!new)>(mix: nat -> nat, s: seq<Slot<V>>, m: map<nat, V>, i: nat)
    requires i < |s| && TableOk(mix, s, m)
    ensures |Entries(s, i)| <= |m| && (s[i].key != 0 ==> |Entries(s, i)| < |m|)
  {
    TableMeans(mix, s, m);
    EntriesIn(s, m, i);
    if s[i].key != 0 {
      EntriesFresh(s, m, i);
      Proper(Entries(s, i).Keys, m.Keys, s[i].key);
    } else {
      Subset(Entries(s, i).Keys, m.Keys);
    }
  }

  lemma EntriesIn<V(!new)>(s: seq<Slot<V>>, m: map<nat, V>, i: nat)
    requires i < |s| && KeysOnce(s) && Holds(s, m)
    ensures Entries(s, i).Keys <= m.Keys
  {
    EntriesMeans(s, m, i);
  }

  lemma Proper(a: set<nat>, b: set<nat>, x: nat)
    requires a <= b && x in b && x !in a
    ensures |a| < |b|
  {
    Subset(a + {x}, b);
  }

  lemma EntriesFresh<V(!new)>(s: seq<Slot<V>>, m: map<nat, V>, i: nat)
    requires i < |s| && KeysOnce(s) && Holds(s, m) && s[i].key != 0
    ensures s[i].key in m && s[i].key !in Entries(s, i)
  {
    EntriesMeans(s, m, i);
    assert Used(s, i);
  }

  lemma EntriesAll<V(!new)>(mix: nat -> nat, s: seq<Slot<V>>, m: map<nat, V>)
    requires TableOk(mix, s, m)
    ensures Entries(s, |s|) == m
  {
    TableMeans(mix, s, m);
    EntriesMeans(s, m, |s|);
  }
}
