/** Snapshots of the namespace: what loading one restores, and replay from a snapshot. */
module Snapshots {
  import opened Basics
  import opened Paths
  import opened Namespace
  import opened Listing

  datatype Snapshot = Snapshot(lastIncludedIndex: nat, lastIncludedTerm: nat,
                               inodes: seq<Inode>, entries: seq<DirEntry>)

  function InoKey(i: Inode): nat { i.ino }

  function PathKey(e: DirEntry): string { e.path }

  /** Emplacing the elements one after another, each under its own key. */
  function LoadBy<K, V>(xs: seq<V>, key: V -> K): map<K, V> {
    if xs == [] then map[]
    else Emplace(LoadBy(xs[..|xs| - 1], key), key(xs[|xs| - 1]), xs[|xs| - 1])
  }

  ghost function Load(snap: Snapshot): Space {
    var inodes, entries := LoadBy(snap.inodes, InoKey), LoadBy(snap.entries, PathKey);
    if inodes == map[] && entries == map[] then ROOT_SPACE
    else Space(inodes, entries, MaxIno(inodes) + 1)
  }

  /** `xs` are the values of `m` in the order `ks` visits its keys, each key once. */
  ghost predicate ListsBy<K(!new), V>(xs: seq<V>, m: map<K, V>, ks: seq<K>) {
    && |ks| == |xs|
    && (forall i, j :: 0 <= i < j < |ks| ==> ks[i] != ks[j])
    && (forall k :: k in m <==> k in ks)
    && (forall i :: 0 <= i < |ks| ==> ks[i] in m && xs[i] == m[ks[i]])
  }

  /** The snapshot holds both maps, each listed in some order: hash maps promise no other. */
  ghost predicate SnapshotOf(snap: Snapshot, s: Space) {
    && (exists ks :: ListsBy(snap.inodes, s.inodes, ks))
    && (exists ps :: ListsBy(snap.entries, s.entries, ps))
  }

  /** Without its last element a listing lists the map without that key. */
  lemma ListingShrinks<K(!new), V>(xs: seq<V>, m: map<K, V>, ks: seq<K>)
    requires ListsBy(xs, m, ks) && xs != []
    ensures var n := |xs| - 1;
            && ListsBy(xs[..n], m - {ks[n]}, ks[..n])
            && ks[n] in m && m[ks[n]] == xs[n]
  {
    var n := |xs| - 1;
    forall k | k in m && k != ks[n] ensures k in ks[..n] {
      var i :| 0 <= i < |ks| && ks[i] == k;
      assert ks[..n][i] == k;
    }
  }

  lemma {:induction false} LoadByRestores<K(!new), V>(xs: seq<V>, m: map<K, V>, ks: seq<K>, key: V -> K)
    requires ListsBy(xs, m, ks)
    requires forall k :: k in m ==> key(m[k]) == k
    ensures LoadBy(xs, key) == m
  {
    if xs == [] {
      assert m == map[];
    } else {
      var n := |xs| - 1;
      ListingShrinks(xs, m, ks);
      LoadByRestores(xs[..n], m - {ks[n]}, ks[..n], key);
      assert m == (m - {ks[n]})[ks[n] := xs[n]];
    }
  }

  lemma ListedLoads<K(!new), V>(xs: seq<V>, m: map<K, V>, key: V -> K)
    requires exists ks :: ListsBy(xs, m, ks)
    requires forall k :: k in m ==> key(m[k]) == k
    ensures LoadBy(xs, key) == m
  {
    var ks :| ListsBy(xs, m, ks);
    LoadByRestores(xs, m, ks, key);
  }

  /** Both maps are filed under the keys their values carry, and the root is present. */
  ghost predicate Keyed(s: Space) {
    && (forall k :: k in s.inodes ==> InoKey(s.inodes[k]) == k)
    && (forall p :: p in s.entries ==> PathKey(s.entries[p]) == p)
    && ROOT in s.entries
  }

  lemma SoundIsKeyed(s: Space)
    requires Sound(s)
    ensures Keyed(s)
  {
  }

  /** Whatever order the hash maps were listed in, loading restores both and recomputes `nextIno`. */
  lemma LoadOfSnapshot(s: Space, snap: Snapshot)
    requires Keyed(s) && SnapshotOf(snap, s)
    ensures Load(snap) == Reload(s)
  {
    SnapshotRestoresMaps(s, snap);
    LoadOfMaps(s, snap);
  }

  lemma SnapshotRestoresMaps(s: Space, snap: Snapshot)
    requires Keyed(s) && SnapshotOf(snap, s)
    ensures LoadBy(snap.inodes, InoKey) == s.inodes && LoadBy(snap.entries, PathKey) == s.entries
  {
    ListedLoads(snap.inodes, s.inodes, InoKey);
    ListedLoads(snap.entries, s.entries, PathKey);
  }

  lemma LoadOfMaps(s: Space, snap: Snapshot)
    requires LoadBy(snap.inodes, InoKey) == s.inodes && LoadBy(snap.entries, PathKey) == s.entries
    requires ROOT in s.entries
    ensures Load(snap) == Reload(s)
  {
  }

  /** An empty snapshot restores a new namespace: an empty root directory. */
  lemma LoadOfNothing(index: nat, term: nat)
    ensures Load(Snapshot(index, term, [], [])) ==
            Space(map[0 := Inode(0, true, 4096, 0, 0, 2, [], [])], map["/" := DirEntry(0, "/", "/", true, 0, 0, 0)], 1)
  {
  }

  /** A snapshot restores the node exactly when the last ino handed out is in use. */
  lemma SnapshotIsLosslessExactly(s: Space, snap: Snapshot)
    requires Keyed(s) && SnapshotOf(snap, s)
    ensures Load(snap) == s <==> s.nextIno == MaxIno(s.inodes) + 1
  {
    LoadOfSnapshot(s, snap);
  }

  // ---------------------------------------------------------------- replay from a snapshot

  predicate NoUploads(cmds: seq<Command>) {
    forall i :: 0 <= i < |cmds| ==> !cmds[i].Upload?
  }

  function Events(cmds: seq<Command>, clock: nat -> nat): seq<Event> {
    seq(|cmds|, i requires 0 <= i < |cmds| => Execute(cmds[i], clock(i + 1)))
  }

  lemma {:induction false} ReplayIsRun(cmds: seq<Command>, clock: nat -> nat)
    ensures Replay(cmds, clock) == AfterEvents(Events(cmds, clock))
  {
    if cmds != [] {
      var evs := Events(cmds, clock);
      assert evs[..|evs| - 1] == Events(cmds[..|cmds| - 1], clock);
      ReplayIsRun(cmds[..|cmds| - 1], clock);
    }
  }

  ghost predicate TopInoUsed(s: Space) {
    s.nextIno > 0 && IsMaxIno(s.inodes, s.nextIno - 1)
  }

  lemma InsertKeepsTopIno(s: Space, t: Space, e: DirEntry)
    requires TopInoUsed(s) && (forall k :: k in s.inodes ==> s.inodes[k].ino == k)
    requires e.isDir && Insertable(s, e, s.nextIno + 1) && Inserted(s, t, e, s.nextIno + 1)
    ensures TopInoUsed(t)
  {
    assert forall k :: k in s.inodes ==> k == s.inodes[k].ino < s.nextIno;
    assert t.inodes[s.nextIno].ino == s.nextIno;
  }

  lemma ApplyKeepsTopIno(s: Space, c: Command, now: nat)
    requires Sound(s) && TopInoUsed(s) && !c.Upload?
    ensures TopInoUsed(Apply(s, c, now))
  {
    if Accepted(s, c) {
      AcceptedInserts(s, c, now);
      var e := NewEntry(s, c, now);
      InsertInserts(s, e, BlocksOf(c), s.nextIno + 1);
      InsertKeepsTopIno(s, Apply(s, c, now), e);
    }
  }

  lemma {:induction false} MkdirReplayUsesTopIno(cmds: seq<Command>, clock: nat -> nat)
    requires NoUploads(cmds)
    ensures Keyed(Replay(cmds, clock)) && TopInoUsed(Replay(cmds, clock))
  {
    ReplayIsSound(cmds, clock);
    SoundIsKeyed(Replay(cmds, clock));
    if cmds == [] {
      assert IsMaxIno(ROOT_SPACE.inodes, 0);
    } else {
      var before := cmds[..|cmds| - 1];
      MkdirReplayUsesTopIno(before, clock);
      ReplayIsSound(before, clock);
      ApplyKeepsTopIno(Replay(before, clock), cmds[|cmds| - 1], clock(|cmds|));
    }
  }

  lemma ReplayIsSound(cmds: seq<Command>, clock: nat -> nat)
    ensures Sound(Replay(cmds, clock))
  {
    ReplayIsRun(cmds, clock);
    RunIsListed(Events(cmds, clock));
  }

  lemma LosslessWhenTopInoUsed(s: Space, snap: Snapshot)
    requires Keyed(s) && TopInoUsed(s) && SnapshotOf(snap, s)
    ensures Load(snap) == s
  {
    MaxInoUnique(s.inodes, s.nextIno - 1, MaxIno(s.inodes));
    SnapshotIsLosslessExactly(s, snap);
  }

  lemma MkdirSnapshotIsLossless(cmds: seq<Command>, clock: nat -> nat, snap: Snapshot)
    requires NoUploads(cmds) && SnapshotOf(snap, Replay(cmds, clock))
    ensures Load(snap) == Replay(cmds, clock)
  {
    MkdirReplayUsesTopIno(cmds, clock);
    LosslessWhenTopInoUsed(Replay(cmds, clock), snap);
  }

  /**
   Snapshot plus suffix equals full replay: for every log, every cut before which nothing was
   uploaded and every snapshot taken there, loading it and applying the rest is the whole replay.
   */
  lemma SnapshotPlusSuffix(cmds: seq<Command>, k: nat, clock: nat -> nat, snap: Snapshot)
    requires k <= |cmds| && NoUploads(cmds[..k])
    requires SnapshotOf(snap, Replay(cmds[..k], clock))
    ensures Load(snap) == Replay(cmds[..k], clock)
    ensures ApplyAll(Load(snap), cmds[k..], clock, k) == Replay(cmds, clock)
  {
    hide SnapshotOf, Load, NoUploads, ApplyAll;
    MkdirSnapshotIsLossless(cmds[..k], clock, snap);
    assert cmds[..k] + cmds[k..] == cmds;
    ApplyAllSplits(ROOT_SPACE, cmds[..k], cmds[k..], clock, 0);
  }
}
