/** The commit rule: sort the match indices of all peers and take the one in the middle. */
module Quorum {
  import opened Basics
  import opened Snapshots

  // ---------------------------------------------------------------- what the rule means

  /** How many slots have reached index `k`. */
  function Reached(m: map<nat, nat>, k: nat): nat { |Slots(m, k)| }

  function Slots(m: map<nat, nat>, k: nat): set<nat> {
    set f | f in m && m[f] >= k
  }

  /** Slots needed: all but the lower half. */
  function Needed(n: nat): nat { n - n / 2 }

  /** The highest index that enough slots have reached. */
  ghost predicate IsQuorumIndex(m: map<nat, nat>, q: nat) {
    && Reached(m, q) >= Needed(|m|)
    && forall k :: k > q ==> Reached(m, k) < Needed(|m|)
  }

  lemma ReachedFalls(m: map<nat, nat>, j: nat, k: nat)
    requires j <= k
    ensures Reached(m, k) <= Reached(m, j)
  {
    SubsetSize(Slots(m, k), Slots(m, j));
  }

  lemma QuorumIndexUnique(m: map<nat, nat>, p: nat, q: nat)
    requires IsQuorumIndex(m, p) && IsQuorumIndex(m, q)
    ensures p == q
  {
  }

  /** An index is at or below the rule's choice exactly when enough slots have reached it. */
  lemma QuorumIndexCovers(m: map<nat, nat>, q: nat, k: nat)
    requires IsQuorumIndex(m, q)
    ensures k <= q <==> Reached(m, k) >= Needed(|m|)
  {
    if k <= q { ReachedFalls(m, k, q); }
  }

  /**
   What a committed index is backed by: as the leader's own slot stays 0, that many followers,
   and with the leader itself a strict majority of the cluster.
   */
  lemma CommitHasMajority(m: map<nat, nat>, self: nat, q: nat)
    requires self in m && m[self] == 0 && q > 0 && Reached(m, q) >= Needed(|m|)
    ensures |Slots(m, q) - {self}| >= Needed(|m|)
    ensures 2 * |Slots(m, q) + {self}| > |m|
  {
    assert Slots(m, q) - {self} == Slots(m, q);
  }

  // ---------------------------------------------------------------- sorting

  predicate Sorted(s: seq<nat>) {
    forall i, j :: 0 <= i < j < |s| ==> s[i] <= s[j]
  }

  function CountFrom(s: seq<nat>, k: nat): nat {
    if s == [] then 0 else CountFrom(s[..|s| - 1], k) + if s[|s| - 1] >= k then 1 else 0
  }

  function InsertSorted(s: seq<nat>, x: nat): (r: seq<nat>)
    requires Sorted(s)
    ensures Sorted(r) && |r| == |s| + 1
    ensures forall i :: 0 <= i < |r| ==> r[i] <= x || (s != [] && r[i] <= s[|s| - 1])
  {
    if s == [] then [x]
    else if s[|s| - 1] <= x then s + [x]
    else
      InsertSorted(s[..|s| - 1], x) + [s[|s| - 1]]
  }

  /** `std::ranges::sort`. */
  function Sort(s: seq<nat>): (r: seq<nat>)
    ensures Sorted(r) && |r| == |s|
  {
    if s == [] then [] else InsertSorted(Sort(s[..|s| - 1]), s[|s| - 1])
  }

  lemma {:induction false} InsertCounts(s: seq<nat>, x: nat, k: nat)
    requires Sorted(s)
    ensures CountFrom(InsertSorted(s, x), k) == CountFrom(s, k) + if x >= k then 1 else 0
  {
    if s == [] {
      assert [x][..0] == [];
    } else if s[|s| - 1] <= x {
      assert (s + [x])[..|s|] == s;
    } else {
      var r := InsertSorted(s[..|s| - 1], x);
      InsertCounts(s[..|s| - 1], x, k);
      assert InsertSorted(s, x)[..|s|] == r;
    }
  }

  lemma {:induction false} SortCounts(s: seq<nat>, k: nat)
    ensures CountFrom(Sort(s), k) == CountFrom(s, k)
  {
    if s != [] {
      var before := s[..|s| - 1];
      SortCounts(before, k);
      InsertCounts(Sort(before), s[|s| - 1], k);
    }
  }

  lemma {:induction false} CountBelow(s: seq<nat>, p: nat, k: nat)
    requires p <= |s| && forall i :: 0 <= i < p ==> s[i] < k
    ensures CountFrom(s, k) <= |s| - p
  {
    if |s| > p {
      CountBelow(s[..|s| - 1], p, k);
    } else if s != [] {
      CountBelow(s[..|s| - 1], p - 1, k);
    }
  }

  lemma {:induction false} CountAbove(s: seq<nat>, p: nat, k: nat)
    requires p <= |s| && forall i :: p <= i < |s| ==> s[i] >= k
    ensures CountFrom(s, k) >= |s| - p
  {
    if |s| > p {
      CountAbove(s[..|s| - 1], p, k);
    }
  }

  lemma ReachedBound(m: map<nat, nat>, k: nat)
    ensures Reached(m, k) <= |m|
  {
    SubsetSize(Slots(m, k), m.Keys);
  }

  lemma ReachedWithout(m: map<nat, nat>, x: nat, k: nat)
    requires x in m
    ensures Reached(m, k) == Reached(m - {x}, k) + if m[x] >= k then 1 else 0
    ensures |m - {x}| == |m| - 1
  {
    var rest := m - {x};
    var all, some := Slots(m, k), Slots(rest, k);
    assert all == if m[x] >= k then some + {x} else some;
    assert rest.Keys == m.Keys - {x};
    assert |rest.Keys| == |m.Keys| - 1;
  }

  lemma {:induction false} ListedCounts(xs: seq<nat>, m: map<nat, nat>, ks: seq<nat>, k: nat)
    requires ListsBy(xs, m, ks)
    ensures CountFrom(xs, k) == Reached(m, k) && |xs| == |m|
  {
    if xs == [] {
      assert m == map[];
      ReachedBound(m, k);
    } else {
      hide Reached;
      ListingShrinks(xs, m, ks);
      var n := |xs| - 1;
      ListedCounts(xs[..n], m - {ks[n]}, ks[..n], k);
      ReachedWithout(m, ks[n], k);
    }
  }

  lemma MiddleCounts(xs: seq<nat>, m: map<nat, nat>, ks: seq<nat>, k: nat)
    requires ListsBy(xs, m, ks) && m != map[]
    ensures |xs| == |m| && |m| / 2 < |Sort(xs)|
    ensures k <= Sort(xs)[|m| / 2] <==> Reached(m, k) >= Needed(|m|)
  {
    hide Reached, ListsBy, Sort, CountFrom;
    ListedCounts(xs, m, ks, k);
    SortCounts(xs, k);
    assert |m.Keys| > 0;
    var s, p := Sort(xs), |m| / 2;
    if k <= s[p] {
      CountAbove(s, p, k);
    } else {
      CountBelow(s, p + 1, k);
    }
  }

  /** The element at n/2 of the sorted slots, in whatever order they were listed, is that highest index. */
  lemma MiddleIsQuorumIndex(xs: seq<nat>, m: map<nat, nat>, ks: seq<nat>)
    requires ListsBy(xs, m, ks) && m != map[]
    ensures |xs| == |m| && |m| / 2 < |Sort(xs)|
    ensures IsQuorumIndex(m, Sort(xs)[|m| / 2])
  {
    hide Reached, ListsBy, Sort;
    MiddleCounts(xs, m, ks, 0);
    var q := Sort(xs)[|m| / 2];
    MiddleCounts(xs, m, ks, q);
    forall k | k > q ensures Reached(m, k) < Needed(|m|) {
      MiddleCounts(xs, m, ks, k);
    }
  }

  lemma {:induction false} HasListing(m: map<nat, nat>) returns (xs: seq<nat>, ks: seq<nat>)
    ensures ListsBy(xs, m, ks)
    decreases |m|
  {
    if m == map[] {
      xs, ks := [], [];
    } else {
      var k :| k in m;
      var rest := m - {k};
      assert rest.Keys == m.Keys - {k};
      assert |rest.Keys| == |m.Keys| - 1;
      xs, ks := HasListing(rest);
      forall f | f in m ensures f in ks + [k] {
        if f == k { assert (ks + [k])[|ks|] == f; } else { assert f in rest; }
      }
      xs, ks := xs + [m[k]], ks + [k];
    }
  }

  ghost function QuorumIndex(m: map<nat, nat>): (q: nat)
    requires m != map[]
    ensures IsQuorumIndex(m, q)
  {
    assert exists q: nat :: IsQuorumIndex(m, q) by {
      var xs, ks := HasListing(m);
      MiddleIsQuorumIndex(xs, m, ks);
    }
    var q: nat :| IsQuorumIndex(m, q); q
  }
}
