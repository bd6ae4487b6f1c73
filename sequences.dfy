/** Generic facts about sequences used by the rule-store proofs. */
module Sequences {

  /** No element occurs twice. */
  ghost predicate Distinct<T>(s: seq<T>) {
    forall i, j :: 0 <= i < j < |s| ==> s[i] != s[j]
  }

  /** A distinct sequence holds each value at most once. */
  lemma {:induction false} DistinctMultiplicity<T>(s: seq<T>, x: T)
    requires Distinct(s)
    ensures multiset(s)[x] <= 1
  {
    if s != [] {
      assert s == [s[0]] + s[1..];
      assert Distinct(s[1..]) by {
        forall i, j | 0 <= i < j < |s[1..]| ensures s[1..][i] != s[1..][j] {
          assert s[1..][i] == s[i + 1] && s[1..][j] == s[j + 1];
        }
      }
      DistinctMultiplicity(s[1..], x);
      if s[0] == x {
        assert x !in s[1..] by {
          forall k | 0 <= k < |s[1..]| ensures s[1..][k] != x {
            assert s[1..][k] == s[k + 1];
          }
        }
      }
    }
  }

  /** Two equal entries at different positions make the value occur twice. */
  lemma RepeatedEntry<T>(s: seq<T>, i: nat, j: nat)
    requires i < j < |s|
    ensures s[i] == s[j] ==> multiset(s)[s[i]] >= 2
  {
    var x := s[i];
    assert s == s[..i] + [x] + s[i + 1..j] + [s[j]] + s[j + 1..];
  }

  /** A sequence holding each value at most once is distinct. */
  lemma MultiplicityDistinct<T>(s: seq<T>)
    requires forall x :: multiset(s)[x] <= 1
    ensures Distinct(s)
  {
    forall i, j | 0 <= i < j < |s| ensures s[i] != s[j] {
      RepeatedEntry(s, i, j);
    }
  }

  /** Distinctness survives any permutation. */
  lemma DistinctPermutation<T>(a: seq<T>, b: seq<T>)
    requires multiset(a) == multiset(b)
    requires Distinct(a)
    ensures Distinct(b)
  {
    forall x ensures multiset(b)[x] <= 1 {
      DistinctMultiplicity(a, x);
    }
    MultiplicityDistinct(b);
  }

  // ----- offsets-based collection operations (IndexSet arguments) -----

  /** The elements s[i], lo <= i < hi, whose offset is in `offsets` exactly
      when `inSet`, in their original order. */
  function Select<T>(s: seq<T>, lo: nat, hi: nat, offsets: set<nat>, inSet: bool): (r: seq<T>)
    requires lo <= hi <= |s|
    ensures |r| <= hi - lo
    decreases hi - lo
  {
    if lo == hi then []
    else Select(s, lo, hi - 1, offsets, inSet) + (if (hi - 1 in offsets) == inSet then [s[hi - 1]] else [])
  }

  /** remove(atOffsets:). */
  function RemovedAt<T>(s: seq<T>, offsets: set<nat>): seq<T> {
    Select(s, 0, |s|, offsets, false)
  }

  /** move(fromOffsets:toOffset:): the elements at `offsets`, in their order,
      are placed where `destination` stood; the others keep their order
      around them. */
  function Moved<T>(s: seq<T>, offsets: set<nat>, destination: nat): seq<T>
    requires destination <= |s|
  {
    Select(s, 0, destination, offsets, false)
      + Select(s, 0, |s|, offsets, true)
      + Select(s, destination, |s|, offsets, false)
  }

  lemma {:induction false} SelectSplit<T>(s: seq<T>, lo: nat, mid: nat, hi: nat, offsets: set<nat>, inSet: bool)
    requires lo <= mid <= hi <= |s|
    ensures Select(s, lo, mid, offsets, inSet) + Select(s, mid, hi, offsets, inSet) == Select(s, lo, hi, offsets, inSet)
    decreases hi - mid
  {
    if mid < hi {
      SelectSplit(s, lo, mid, hi - 1, offsets, inSet);
    }
  }

  /** The elements of s whose offset, counted from base, is in `offsets`
      exactly when `inSet`, taken from the front. */
  function Pick<T>(s: seq<T>, offsets: set<nat>, base: nat, inSet: bool): seq<T> {
    if s == [] then []
    else (if (base in offsets) == inSet then [s[0]] else []) + Pick(s[1..], offsets, base + 1, inSet)
  }

  /** The two front selections together are a permutation of the whole. */
  lemma {:induction false} PickPartition<T>(s: seq<T>, offsets: set<nat>, base: nat)
    ensures multiset(Pick(s, offsets, base, false)) + multiset(Pick(s, offsets, base, true)) == multiset(s)
  {
    if s != [] {
      PickPartition(s[1..], offsets, base + 1);
      assert s == [s[0]] + s[1..];
    }
  }

  /** Extending the sequence at the end extends the selection at the end. */
  lemma {:induction false} PickSnoc<T>(s: seq<T>, x: T, offsets: set<nat>, base: nat, inSet: bool)
    ensures Pick(s + [x], offsets, base, inSet)
      == Pick(s, offsets, base, inSet) + (if (base + |s| in offsets) == inSet then [x] else [])
  {
    if s == [] {
      assert [] + [x] == [x];
    } else {
      var t := s + [x];
      assert t != [] && t[0] == s[0] && t[1..] == s[1..] + [x];
      PickSnoc(s[1..], x, offsets, base + 1, inSet);
      var head := if (base in offsets) == inSet then [s[0]] else [];
      var tail := if (base + |s| in offsets) == inSet then [x] else [];
      assert base + 1 + |s[1..]| == base + |s|;
      assert Pick(t, offsets, base, inSet) == head + Pick(t[1..], offsets, base + 1, inSet);
      assert Pick(s, offsets, base, inSet) == head + Pick(s[1..], offsets, base + 1, inSet);
      assert Pick(t[1..], offsets, base + 1, inSet) == Pick(s[1..], offsets, base + 1, inSet) + tail;
    }
  }

  /** The same selection counted from the end or from the front. */
  lemma {:induction false} SelectIsPick<T>(s: seq<T>, hi: nat, offsets: set<nat>, inSet: bool)
    requires hi <= |s|
    ensures Select(s, 0, hi, offsets, inSet) == Pick(s[..hi], offsets, 0, inSet)
  {
    if 0 < hi {
      SelectIsPick(s, hi - 1, offsets, inSet);
      assert s[..hi] == s[..hi - 1] + [s[hi - 1]];
      PickSnoc(s[..hi - 1], s[hi - 1], offsets, 0, inSet);
    }
  }

  /** The two selections of a prefix together are a permutation of it. */
  lemma SelectPartition<T>(s: seq<T>, hi: nat, offsets: set<nat>)
    requires hi <= |s|
    ensures multiset(Select(s, 0, hi, offsets, false)) + multiset(Select(s, 0, hi, offsets, true)) == multiset(s[..hi])
  {
    SelectIsPick(s, hi, offsets, false);
    SelectIsPick(s, hi, offsets, true);
    PickPartition(s[..hi], offsets, 0);
  }
  /** Exactly the elements at offsets with the wanted membership are selected. */
  lemma {:induction false} SelectMembers<T>(s: seq<T>, lo: nat, hi: nat, offsets: set<nat>, inSet: bool, x: T)
    requires lo <= hi <= |s|
    ensures x in Select(s, lo, hi, offsets, inSet) <==>
      exists i :: lo <= i < hi && (i in offsets) == inSet && s[i] == x
    decreases hi - lo
  {
    if lo < hi {
      SelectMembers(s, lo, hi - 1, offsets, inSet, x);
    }
  }

  /** Moving reorders the elements and loses none. */
  lemma MovedPermutes<T>(s: seq<T>, offsets: set<nat>, destination: nat)
    requires destination <= |s|
    ensures multiset(Moved(s, offsets, destination)) == multiset(s)
  {
    SelectSplit(s, 0, destination, |s|, offsets, false);
    SelectPartition(s, |s|, offsets);
    assert s[..|s|] == s;
  }

  /** The number of offsets in a range. */
  lemma {:induction false} SelectCount<T>(s: seq<T>, lo: nat, hi: nat, offsets: set<nat>)
    requires lo <= hi <= |s|
    ensures |Select(s, lo, hi, offsets, true)| == |set i | i in offsets && lo <= i < hi|
    ensures |Select(s, lo, hi, offsets, false)| == (hi - lo) - |set i | i in offsets && lo <= i < hi|
    decreases hi - lo
  {
    if lo < hi {
      SelectCount(s, lo, hi - 1, offsets);
      var below := set i | i in offsets && lo <= i < hi - 1;
      if hi - 1 in offsets {
        assert (set i | i in offsets && lo <= i < hi) == below + {hi - 1};
      } else {
        assert (set i | i in offsets && lo <= i < hi) == below;
      }
    } else {
      assert (set i | i in offsets && lo <= i < hi) == {};
    }
  }

  /** remove(atOffsets:) with in-range offsets shortens by their number and
      keeps exactly the elements at the other offsets. */
  lemma RemovedAtSpec<T>(s: seq<T>, offsets: set<nat>, x: T)
    requires forall i :: i in offsets ==> i < |s|
    ensures |RemovedAt(s, offsets)| == |s| - |offsets|
    ensures x in RemovedAt(s, offsets) <==> exists i :: 0 <= i < |s| && i !in offsets && s[i] == x
  {
    SelectCount(s, 0, |s|, offsets);
    assert (set i | i in offsets && 0 <= i < |s|) == offsets;
    SelectMembers(s, 0, |s|, offsets, false, x);
  }

  // ----- order-keeping removal -----

  /** r lists the entries of s at the strictly increasing positions f. */
  ghost predicate SubsequenceAt<T>(r: seq<T>, s: seq<T>, f: seq<nat>) {
    && |f| == |r|
    && (forall k :: 0 <= k < |f| ==> f[k] < |s| && r[k] == s[f[k]])
    && (forall k, l :: 0 <= k < l < |f| ==> f[k] < f[l])
  }

  /** Extending s by one element, and r by the same element when it is kept. */
  lemma SubsequenceSnoc<T>(r: seq<T>, s: seq<T>, f: seq<nat>, x: T, keep: bool)
    requires SubsequenceAt(r, s, f)
    ensures SubsequenceAt(r + (if keep then [x] else []), s + [x], f + (if keep then [|s|] else []))
  {
    var r', f' := r + (if keep then [x] else []), f + (if keep then [|s|] else []);
    forall k | 0 <= k < |f'| ensures f'[k] < |s + [x]| && r'[k] == (s + [x])[f'[k]] {
      if k < |f| {
        assert f'[k] == f[k] && r'[k] == r[k];
      }
    }
  }

  /** Select keeps exactly the positions in [lo, hi) whose membership in
      `offsets` is `inSet`, in increasing order. */
  lemma {:induction false} SelectPositions<T>(s: seq<T>, lo: nat, hi: nat, offsets: set<nat>, inSet: bool)
    returns (f: seq<nat>)
    requires lo <= hi <= |s|
    ensures SubsequenceAt(Select(s, lo, hi, offsets, inSet), s[..hi], f)
    ensures forall i :: i in f <==> lo <= i < hi && (i in offsets) == inSet
    decreases hi - lo
  {
    if lo == hi {
      f := [];
    } else {
      var g := SelectPositions(s, lo, hi - 1, offsets, inSet);
      var keep := (hi - 1 in offsets) == inSet;
      assert s[..hi] == s[..hi - 1] + [s[hi - 1]];
      SubsequenceSnoc(Select(s, lo, hi - 1, offsets, inSet), s[..hi - 1], g, s[hi - 1], keep);
      f := g + (if keep then [hi - 1] else []);
    }
  }

  /** remove(atOffsets:) keeps the entries at every other position, each
      once, in their original order. */
  lemma RemovedAtPositions<T>(s: seq<T>, offsets: set<nat>) returns (f: seq<nat>)
    ensures SubsequenceAt(RemovedAt(s, offsets), s, f)
    ensures forall i :: i in f <==> 0 <= i < |s| && i !in offsets
  {
    f := SelectPositions(s, 0, |s|, offsets, false);
    assert s[..|s|] == s;
  }
}
