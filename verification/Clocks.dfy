/**
 Two nodes apply the same log but read their own clocks when they apply an upload. Erasing
 what an upload stamps makes the clock invisible, and a log without uploads never reads it.
 */
module Clocks {
  import opened Basics
  import opened Paths
  import opened Namespace
  import opened Snapshots

  function EraseEntry(e: DirEntry): DirEntry {
    if e.isDir then e else e.(ctime := 0, mtime := 0)
  }

  function EraseAll(es: seq<DirEntry>): seq<DirEntry> {
    seq(|es|, i requires 0 <= i < |es| => EraseEntry(es[i]))
  }

  function EraseInode(i: Inode): Inode {
    var j := i.(children := EraseAll(i.children));
    if i.isDir then j else j.(ctime := 0, mtime := 0)
  }

  function EraseInodes(m: map<nat, Inode>): map<nat, Inode> {
    map k | k in m :: EraseInode(m[k])
  }

  function EraseEntries(m: map<string, DirEntry>): map<string, DirEntry> {
    map p | p in m :: EraseEntry(m[p])
  }

  /** The namespace without the time stamps of files, inside listings too. */
  function Erase(s: Space): Space {
    Space(EraseInodes(s.inodes), EraseEntries(s.entries), s.nextIno)
  }

  lemma EraseInodeMaps(m: map<nat, Inode>, k: nat, i: Inode)
    ensures EraseInodes(m[k := i]) == EraseInodes(m)[k := EraseInode(i)]
    ensures EraseInodes(Emplace(m, k, i)) == Emplace(EraseInodes(m), k, EraseInode(i))
  {
  }

  lemma EraseChild(i: Inode, e: DirEntry)
    ensures EraseInode(i.(children := i.children + [e])) ==
            EraseInode(i).(children := EraseInode(i).children + [EraseEntry(e)])
  {
    assert EraseAll(i.children + [e]) == EraseAll(i.children) + [EraseEntry(e)];
  }

  lemma EraseInsert(s: Space, parent: string, e: DirEntry, blocks: seq<Block>, nextIno: nat)
    requires parent in s.entries && s.entries[parent].ino in s.inodes
    ensures parent in Erase(s).entries && Erase(s).entries[parent].ino in Erase(s).inodes
    ensures Erase(Insert(s, parent, e, blocks, nextIno)) == Insert(Erase(s), parent, EraseEntry(e), blocks, nextIno)
  {
    var pino := s.entries[parent].ino;
    var grown := s.inodes[pino].(children := s.inodes[pino].children + [e]);
    EraseChild(s.inodes[pino], e);
    EraseInodeMaps(s.inodes, pino, grown);
    assert EraseAll([]) == [];
    EraseInodeMaps(s.inodes[pino := grown], e.ino, NewInode(e, blocks));
    assert EraseEntries(Emplace(s.entries, e.path, e)) == Emplace(EraseEntries(s.entries), e.path, EraseEntry(e));
  }

  /** Erasing commutes with applying: what a command does never depends on earlier stamps. */
  lemma EraseApply(s: Space, c: Command, now: nat)
    ensures Erase(Apply(s, c, now)) == Apply(Erase(s), c, 0)
  {
    var f := Erase(s);
    assert Accepted(s, c) == Accepted(f, c);
    if Accepted(s, c) {
      var parent := if c.Mkdir? then c.mkdir.parentPath else Parent(c.upload.path);
      var next := if c.Mkdir? then s.nextIno + 1 else s.nextIno;
      EraseInsert(s, parent, NewEntry(s, c, now), if c.Mkdir? then [] else c.upload.blocks, next);
    }
  }

  /** A clock that always shows zero. */
  function NoClock(index: nat): nat { 0 }

  lemma {:induction false} EraseApplyAll(s: Space, cmds: seq<Command>, clock: nat -> nat, start: nat)
    ensures Erase(ApplyAll(s, cmds, clock, start)) == ApplyAll(Erase(s), cmds, NoClock, start)
  {
    if cmds != [] {
      var before := cmds[..|cmds| - 1];
      EraseApplyAll(s, before, clock, start);
      EraseApply(ApplyAll(s, before, clock, start), cmds[|cmds| - 1], clock(start + |cmds|));
    }
  }

  lemma {:induction false} MkdirsReadNoClock(s: Space, cmds: seq<Command>, clock: nat -> nat, start: nat)
    requires NoUploads(cmds)
    ensures ApplyAll(s, cmds, clock, start) == ApplyAll(s, cmds, NoClock, start)
  {
    if cmds != [] {
      MkdirsReadNoClock(s, cmds[..|cmds| - 1], clock, start);
    }
  }

  /** One log, two clocks: equal namespaces up to the stamps of uploaded files. */
  lemma ReplicasDifferOnlyInStamps(cmds: seq<Command>, a: nat -> nat, b: nat -> nat)
    ensures Erase(Replay(cmds, a)) == Erase(Replay(cmds, b))
    ensures NoUploads(cmds) ==> Replay(cmds, a) == Replay(cmds, b)
  {
    EraseApplyAll(ROOT_SPACE, cmds, a, 0);
    EraseApplyAll(ROOT_SPACE, cmds, b, 0);
    if NoUploads(cmds) {
      MkdirsReadNoClock(ROOT_SPACE, cmds, a, 0);
      MkdirsReadNoClock(ROOT_SPACE, cmds, b, 0);
    }
  }
}
