/**
 The state machine object. Each method updates the fields step by step as the program does and
 is proved against the functions of `Namespace`, `Snapshots`, `Answers` and `Placement`.
 */
module StateMachines {
  import Listing
  import opened Basics
  import opened Paths
  import opened Namespace
  import opened Snapshots
  import opened Placement
  import opened Answers

  method LargestIno(inodes: map<nat, Inode>) returns (m: nat)
    ensures IsMaxIno(inodes, m)
  {
    m := 0;
    var rest := inodes.Keys;
    while rest != {}
      invariant rest <= inodes.Keys
      invariant forall k :: k in inodes && k !in rest ==> inodes[k].ino <= m
      invariant m == 0 || exists k :: k in inodes && inodes[k].ino == m
      decreases rest
    {
      var k :| k in rest;
      if m < inodes[k].ino {
        m := inodes[k].ino;
      }
      rest := rest - {k};
    }
  }

  /** Lists the values of a map in whatever order its keys come. */
  method ValuesOf<K(==, !new), V>(m: map<K, V>) returns (xs: seq<V>, ghost ks: seq<K>)
    ensures ListsBy(xs, m, ks)
  {
    xs, ks := [], [];
    var rest := m.Keys;
    while rest != {}
      invariant rest <= m.Keys && |ks| == |xs|
      invariant forall k :: k in m <==> k in rest || k in ks
      invariant forall i :: 0 <= i < |ks| ==> ks[i] in m && ks[i] !in rest && xs[i] == m[ks[i]]
      invariant forall i, j :: 0 <= i < j < |ks| ==> ks[i] != ks[j]
      decreases rest
    {
      var k :| k in rest;
      xs, ks := xs + [m[k]], ks + [k];
      rest := rest - {k};
    }
  }

  method EmplaceAll<K(==), V>(xs: seq<V>, key: V -> K) returns (m: map<K, V>)
    ensures m == LoadBy(xs, key)
  {
    m := map[];
    for i := 0 to |xs|
      invariant m == LoadBy(xs[..i], key)
    {
      assert xs[..i + 1][..i] == xs[..i];
      if key(xs[i]) !in m {
        m := m[key(xs[i]) := xs[i]];
      }
    }
    assert xs[..|xs|] == xs;
  }

  method SumSizes(blocks: seq<Block>) returns (size: nat)
    ensures size == TotalSize(blocks)
  {
    size := 0;
    for i := 0 to |blocks|
      invariant size == TotalSize(blocks[..i])
    {
      assert blocks[..i + 1][..i] == blocks[..i];
      size := (size + blocks[i].size) % TWO_64;
    }
    assert blocks[..|blocks|] == blocks;
  }

  /** The loop that walks the data nodes of one block. */
  method WalkReplicas(nodes: seq<nat>, start: nat) returns (r: seq<nat>)
    requires start < |nodes|
    ensures r == Replicas(nodes, start, REPLICA_NODE_SIZE)
  {
    r := [];
    var node := start;
    for i := 0 to REPLICA_NODE_SIZE
      invariant |r| == i && node == Position(start, i, |nodes|)
      invariant forall j :: 0 <= j < i ==> r[j] == nodes[Position(start, j, |nodes|)]
    {
      r := r + [nodes[node]];
      node := (node + 1) % |nodes|;
    }
  }

  class StateMachine {
    var inodes: map<nat, Inode>
    var entries: map<string, DirEntry>
    var nextIno: nat
    var pending: map<nat, Pending>
    var resumed: seq<Resumption>
    const dataNodes: seq<nat>

    ghost function Value(): Space
      reads this
    {
      Space(inodes, entries, nextIno)
    }

    ghost function Front(): Desk
      reads this
    {
      Desk(pending, resumed)
    }

    constructor (nodes: seq<nat>)
      ensures Value() == ROOT_SPACE && Front() == Desk(map[], []) && dataNodes == nodes
    {
      dataNodes := nodes;
      inodes := map[0 := ROOT_INODE];
      entries := map[ROOT := ROOT_ENTRY];
      nextIno := 0;
      pending, resumed := map[], [];
      new;
      var m := LargestIno(inodes);
      nextIno := m + 1;
    }

    // -------------------------------------------------------------- snapshots

    /** Both maps, each in some order; the caller has set the index and term of the snapshot. */
    method TakeSnapshot(header: Snapshot) returns (snap: Snapshot)
      requires header.inodes == [] && header.entries == []
      ensures SnapshotOf(snap, Value())
      ensures snap.lastIncludedIndex == header.lastIncludedIndex && snap.lastIncludedTerm == header.lastIncludedTerm
    {
      var xs, ks := ValuesOf(inodes);
      var ys, ps := ValuesOf(entries);
      snap := header.(inodes := xs, entries := ys);
    }

    method LoadSnapshot(snap: Snapshot)
      modifies this`inodes, this`entries, this`nextIno
      ensures Value() == Load(snap)
    {
      inodes := EmplaceAll(snap.inodes, InoKey);
      entries := EmplaceAll(snap.entries, PathKey);
      if inodes == map[] && entries == map[] {
        inodes := map[0 := ROOT_INODE];
        entries := map[ROOT := ROOT_ENTRY];
      }
      var m := LargestIno(inodes);
      nextIno := m + 1;
      MaxInoUnique(inodes, m, MaxIno(inodes));
    }

    // -------------------------------------------------------------- commands, with a response

    method MakeDir(r: MkdirRequest) returns (outcome: Outcome)
      modifies this`inodes, this`entries, this`nextIno
      ensures outcome == MkdirOutcome(old(Value()), r)
      ensures Value() == Apply(old(Value()), Mkdir(r), 0)
    {
      if r.parentPath !in entries {
        return Rejected(ParentMissing);
      }
      var parentIno := entries[r.parentPath].ino;
      if parentIno !in inodes {
        return Rejected(ParentInodeMissing);
      }
      var parentInode := inodes[parentIno];
      if !parentInode.isDir {
        return Rejected(ParentNotDir);
      }
      if r.name == "" || '/' in r.name {
        return Rejected(IllegalName);
      }
      var path := if r.parentPath == "/" then r.parentPath + r.name else r.parentPath + "/" + r.name;
      if path in entries {
        return Rejected(AlreadyExists);
      }
      var newIno := nextIno;
      nextIno := nextIno + 1;
      var entry := DirEntry(newIno, r.name, path, true, 4096, r.timestamp, r.timestamp);
      inodes := inodes[parentIno := parentInode.(children := parentInode.children + [entry])];
      if newIno !in inodes {
        inodes := inodes[newIno := Inode(newIno, true, 4096, r.timestamp, r.timestamp, 2, [], [])];
      }
      entries := entries[path := entry];
      return Ok;
    }

    method UploadFile(r: UploadRequest, now: nat) returns (outcome: Outcome)
      modifies this`inodes, this`entries
      ensures outcome == UploadOutcome(old(Value()), r)
      ensures Value() == Apply(old(Value()), Upload(r), now)
    {
      if r.ino in inodes || r.path in entries {
        return Rejected(AlreadyExists);
      }
      var size := SumSizes(r.blocks);
      var newInode := Inode(r.ino, false, size, now, now, 1, r.blocks, []);
      var pos := LastSlash(r.path);
      if pos == -1 {
        return Rejected(NoSlash);
      }
      var name := r.path[pos + 1..];
      var parentPath := if pos == 0 then "/" else r.path[..pos];
      if parentPath !in entries {
        return Rejected(ParentMissing);
      }
      var parentIno := entries[parentPath].ino;
      if parentIno !in inodes {
        return Rejected(ParentInodeMissing);
      }
      var parentInode := inodes[parentIno];
      if !parentInode.isDir {
        return Rejected(ParentNotDir);
      }
      if name == "" || '/' in name {
        return Rejected(IllegalName);
      }
      var entry := DirEntry(r.ino, name, r.path, false, size, now, now);
      inodes := inodes[parentIno := parentInode.(children := parentInode.children + [entry])];
      if r.ino !in inodes {
        inodes := inodes[r.ino := newInode];
      }
      entries := entries[r.path := entry];
      return Ok;
    }

    // -------------------------------------------------------------- commands, follower copies

    method MakeDirNoResponse(r: MkdirRequest)
      modifies this`inodes, this`entries, this`nextIno
      ensures Value() == Apply(old(Value()), Mkdir(r), 0)
    {
      if r.parentPath !in entries || entries[r.parentPath].ino !in inodes {
        return;
      }
      var parentIno := entries[r.parentPath].ino;
      if !inodes[parentIno].isDir || !LegalName(r.name) {
        return;
      }
      var path := Join(r.parentPath, r.name);
      if path in entries {
        return;
      }
      var entry := MkdirEntry(r, nextIno);
      inodes := Emplace(inodes[parentIno := inodes[parentIno].(children := inodes[parentIno].children + [entry])],
                        nextIno, NewInode(entry, []));
      entries := entries[path := entry];
      nextIno := nextIno + 1;
    }

    method UploadFileNoResponse(r: UploadRequest, now: nat)
      modifies this`inodes, this`entries
      ensures Value() == Apply(old(Value()), Upload(r), now)
    {
      if r.ino in inodes || r.path in entries || LastSlash(r.path) == -1 {
        return;
      }
      var size := SumSizes(r.blocks);
      var parentPath := Parent(r.path);
      if parentPath !in entries || entries[parentPath].ino !in inodes {
        return;
      }
      var parentIno := entries[parentPath].ino;
      if !inodes[parentIno].isDir || !LegalName(Name(r.path)) {
        return;
      }
      var entry := DirEntry(r.ino, Name(r.path), r.path, false, size, now, now);
      inodes := Emplace(inodes[parentIno := inodes[parentIno].(children := inodes[parentIno].children + [entry])],
                        r.ino, NewInode(entry, r.blocks));
      entries := entries[r.path := entry];
    }

    // -------------------------------------------------------------- applying a log entry

    method ApplyEntry(index: nat, c: Command, now: nat)
      modifies this
      ensures Value() == Apply(old(Value()), c, now)
      ensures Front() == Settle(old(Front()), index, AnswerTo(old(Value()), c))
      ensures Listing.Sound(old(Value())) && index in old(pending) && old(pending)[index].handle.Some? && old(pending)[index].answer.None? ==>
                && |resumed| == |old(resumed)| + 1 && resumed[..|old(resumed)|] == old(resumed)
                && resumed[|old(resumed)|].handle == old(pending)[index].handle.value
                && Told(resumed[|old(resumed)|].answer, c, old(Value()), Value())
    {
      if Listing.Sound(Value()) && index in pending && pending[index].handle.Some? && pending[index].answer.None? {
        SettleTells(Front(), index, c, Value(), now);
      }
      hide Told, Listing.Sound, Apply;
      if index !in pending {
        pending := pending[index := Pending(None, None)];
      }
      match c {
        case Mkdir(r) =>
          var outcome := MakeDir(r);
          pending := pending[index := pending[index].(answer := Some(outcome))];
        case Upload(r) =>
          var outcome := UploadFile(r, now);
          pending := pending[index := pending[index].(answer := Some(outcome))];
        case Unknown =>
      }
      if pending[index].handle.Some? {
        resumed := resumed + [Resumption(pending[index].handle.value, pending[index].answer)];
      }
    }

    method ApplyEntryNoResponse(c: Command, now: nat)
      modifies this`inodes, this`entries, this`nextIno
      ensures Value() == Apply(old(Value()), c, now)
    {
      match c {
        case Mkdir(r) => MakeDirNoResponse(r);
        case Upload(r) => UploadFileNoResponse(r, now);
        case Unknown =>
      }
    }

    method AppendRequest(index: nat, handle: nat)
      modifies this`pending
      ensures Front() == File(old(Front()), index, handle)
    {
      if index !in pending {
        pending := pending[index := Pending(Some(handle), None)];
      }
    }

    // -------------------------------------------------------------- reads and reservations

    method ListDir(path: string) returns (l: LsResult)
      ensures l == Ls(Value(), path)
    {
      if path !in entries {
        return NoSuchPath;
      }
      if !entries[path].isDir {
        return NotADirectory;
      }
      var ino := entries[path].ino;
      if ino !in inodes {
        return NoInode;
      }
      return Children(inodes[ino].children);
    }

    method PrepareDownload(path: string) returns (d: DownloadResult)
      ensures d == Download(Value(), path)
    {
      if path !in entries {
        return NoSuchFile;
      }
      var ino := entries[path].ino;
      if ino !in inodes {
        return FileInodeMissing;
      }
      return BlocksFound(inodes[ino].blocks);
    }

    /** Reserves an ino and places every block; placing one without data nodes would take a modulus by zero. */
    method PrepareUpload(remotePath: string, blocks: seq<Block>, hash: (nat, nat) -> nat)
      returns (placed: Option<seq<Block>>)
      requires |dataNodes| > 0 || blocks == [] || remotePath in entries
      modifies this`nextIno
      ensures Value() == Prepare(old(Value()), remotePath)
      ensures placed.None? <==> remotePath in old(entries)
      ensures placed.Some? ==> |placed.value| == |blocks|
      ensures placed.Some? ==> forall i :: 0 <= i < |blocks| ==>
                placed.value[i] == PlacedBlock(blocks[i], old(nextIno), dataNodes, hash)
      ensures placed.Some? ==> forall i :: 0 <= i < |blocks| ==> KeepsBlock(blocks[i], placed.value[i], old(nextIno))
    {
      if remotePath in entries {
        return None;
      }
      var ino := nextIno;
      nextIno := nextIno + 1;
      var out: seq<Block> := [];
      for i := 0 to |blocks|
        invariant |out| == i && nextIno == ino + 1
        invariant forall j :: 0 <= j < i ==> out[j] == PlacedBlock(blocks[j], ino, dataNodes, hash)
      {
        var b := blocks[i];
        var r := WalkReplicas(dataNodes, hash(ino, b.id) % |dataNodes|);
        out := out + [b.(ino := ino, nodes := b.nodes + r)];
      }
      return Some(out);
    }
  }
}
