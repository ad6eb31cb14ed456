/** Where the replicas of a block go. */
module Placement {
  import opened Namespace

  const REPLICA_NODE_SIZE := 2

  /** The node reached from position `start` after `i` times moving to the next one. */
  function Position(start: nat, i: nat, n: nat): (p: nat)
    requires start < n
    ensures p < n
  {
    if i == 0 then start else (Position(start, i - 1, n) + 1) % n
  }

  /** `count` nodes, cyclically consecutive from position `start`. */
  function Replicas(nodes: seq<nat>, start: nat, count: nat): (r: seq<nat>)
    requires start < |nodes|
    ensures |r| == count
    ensures forall i :: 0 <= i < count ==> r[i] == nodes[Position(start, i, |nodes|)]
  {
    seq(count, i requires 0 <= i < count => nodes[Position(start, i, |nodes|)])
  }

  /** A block as it is returned to the client: its ino set, its replicas appended. */
  function PlacedBlock(b: Block, ino: nat, nodes: seq<nat>, hash: (nat, nat) -> nat): Block
    requires |nodes| > 0
  {
    b.(ino := ino, nodes := b.nodes + Replicas(nodes, hash(ino, b.id) % |nodes|, REPLICA_NODE_SIZE))
  }

  /** The client gets its block back under the reserved ino, with replicas behind those it had. */
  predicate KeepsBlock(b: Block, placed: Block, ino: nat) {
    && placed.ino == ino && placed.id == b.id && placed.offset == b.offset && placed.size == b.size
    && |placed.nodes| == |b.nodes| + REPLICA_NODE_SIZE && placed.nodes[..|b.nodes|] == b.nodes
  }

  lemma PlacedKeepsBlock(b: Block, ino: nat, nodes: seq<nat>, hash: (nat, nat) -> nat)
    requires |nodes| > 0
    ensures KeepsBlock(b, PlacedBlock(b, ino, nodes, hash), ino)
  {
  }

  lemma SmallMod(x: nat, n: nat)
    requires x < n
    ensures x % n == x
  {
  }

  lemma SelfMod(n: nat)
    requires n > 0
    ensures n % n == 0
  {
  }

  /** One lap in closed form. */
  lemma {:induction false} FirstLap(start: nat, i: nat, n: nat)
    requires start < n && i <= n
    ensures Position(start, i, n) == if start + i < n then start + i else start + i - n
  {
    if i > 0 {
      FirstLap(start, i - 1, n);
      var p := Position(start, i - 1, n);
      if p + 1 < n { SmallMod(p + 1, n); } else { SelfMod(n); }
    }
  }

  /**
   For any starting node: the replicas of one block lie on distinct nodes exactly when there
   are at least as many nodes as replicas.
   */
  lemma ReplicasDistinctExactly(nodes: seq<nat>, start: nat, count: nat)
    requires start < |nodes|
    requires forall i, j :: 0 <= i < j < |nodes| ==> nodes[i] != nodes[j]
    ensures (forall i, j :: 0 <= i < j < count ==> Replicas(nodes, start, count)[i] != Replicas(nodes, start, count)[j])
       <==> count <= |nodes|
  {
    var n, r := |nodes|, Replicas(nodes, start, count);
    if count <= n {
      forall i, j | 0 <= i < j < count ensures r[i] != r[j] {
        FirstLap(start, i, n);
        FirstLap(start, j, n);
      }
    } else {
      FirstLap(start, n, n);
      assert r[0] == r[n];
    }
  }

  /**
   A block that arrives without replicas leaves with REPLICA_NODE_SIZE of them, for any hash:
   cyclically consecutive nodes, distinct exactly when there are enough nodes.
   */
  lemma BlockIsSpread(b: Block, ino: nat, nodes: seq<nat>, hash: (nat, nat) -> nat)
    requires b.nodes == [] && |nodes| > 0
    requires forall i, j :: 0 <= i < j < |nodes| ==> nodes[i] != nodes[j]
    ensures var n, r := |nodes|, PlacedBlock(b, ino, nodes, hash).nodes;
            && |r| == REPLICA_NODE_SIZE
            && (var start := hash(ino, b.id) % n;
                r[0] == nodes[start] && r[1] == nodes[if start + 1 < n then start + 1 else 0])
            && (r[0] != r[1] <==> REPLICA_NODE_SIZE <= n)
  {
    var n, start := |nodes|, hash(ino, b.id) % |nodes|;
    var r := Replicas(nodes, start, REPLICA_NODE_SIZE);
    assert PlacedBlock(b, ino, nodes, hash).nodes == r;
    FirstLap(start, 0, n);
    FirstLap(start, 1, n);
    assert r[0] == nodes[start] && r[1] == nodes[if start + 1 < n then start + 1 else 0];
  }
}
