/**
 The replicated namespace as a value: an inode map, a flat map from paths to directory
 entries, and the children listed inside each directory inode. The functions here are the
 specification that `StateMachine` refines.
 */
module Namespace {
  import opened Basics
  import opened Paths

  const TWO_64 := 0x1_0000_0000_0000_0000

  datatype Block = Block(id: nat, ino: nat, offset: nat, size: nat, nodes: seq<nat>)

  datatype DirEntry = DirEntry(ino: nat, name: string, path: string, isDir: bool,
                               size: nat, ctime: nat, mtime: nat)

  datatype Inode = Inode(ino: nat, isDir: bool, size: nat, ctime: nat, mtime: nat, nlink: nat,
                         blocks: seq<Block>, children: seq<DirEntry>)

  datatype Space = Space(inodes: map<nat, Inode>, entries: map<string, DirEntry>, nextIno: nat)

  datatype MkdirRequest = MkdirRequest(parentPath: string, name: string, timestamp: nat)
  datatype UploadRequest = UploadRequest(ino: nat, path: string, blocks: seq<Block>)

  /** A decoded log command; `Unknown` is a payload that does not parse or names no operation. */
  datatype Command = Mkdir(mkdir: MkdirRequest) | Upload(upload: UploadRequest) | Unknown

  datatype Reason = AlreadyExists | NoSlash | ParentMissing | ParentInodeMissing | ParentNotDir | IllegalName

  /** What the client is told: kOk, or kInvalidArgument with the message of one check. */
  datatype Outcome = Ok | Rejected(reason: Reason)

  const ROOT_INODE := Inode(0, true, 4096, 0, 0, 2, [], [])
  const ROOT_ENTRY := DirEntry(0, ROOT, ROOT, true, 0, 0, 0)
  const ROOT_SPACE := Space(map[0 := ROOT_INODE], map[ROOT := ROOT_ENTRY], 1)

  function TotalSize(blocks: seq<Block>): (n: nat)
    ensures n < TWO_64
  {
    if blocks == [] then 0
    else (TotalSize(blocks[..|blocks| - 1]) + blocks[|blocks| - 1].size) % TWO_64
  }

  // ---------------------------------------------------------------- mkdir and upload

  /** The checks on a parent directory, shared by both operations, in the order they are made. */
  function CheckParent(s: Space, parent: string, name: string): Outcome {
    if parent !in s.entries then Rejected(ParentMissing)
    else if s.entries[parent].ino !in s.inodes then Rejected(ParentInodeMissing)
    else if !s.inodes[s.entries[parent].ino].isDir then Rejected(ParentNotDir)
    else if !LegalName(name) then Rejected(IllegalName)
    else Ok
  }

  function MkdirOutcome(s: Space, r: MkdirRequest): Outcome {
    var c := CheckParent(s, r.parentPath, r.name);
    if c.Ok? && Join(r.parentPath, r.name) in s.entries then Rejected(AlreadyExists) else c
  }

  function UploadOutcome(s: Space, r: UploadRequest): Outcome {
    if r.ino in s.inodes || r.path in s.entries then Rejected(AlreadyExists)
    else if LastSlash(r.path) < 0 then Rejected(NoSlash)
    else CheckParent(s, Parent(r.path), Name(r.path))
  }

  function MkdirEntry(r: MkdirRequest, ino: nat): DirEntry {
    DirEntry(ino, r.name, Join(r.parentPath, r.name), true, 4096, r.timestamp, r.timestamp)
  }

  function UploadEntry(r: UploadRequest, now: nat): DirEntry {
    DirEntry(r.ino, Name(r.path), r.path, false, TotalSize(r.blocks), now, now)
  }

  function NewInode(e: DirEntry, blocks: seq<Block>): Inode {
    Inode(e.ino, e.isDir, e.size, e.ctime, e.mtime, if e.isDir then 2 else 1, blocks, [])
  }

  /** Lists `e` under its parent, then emplaces its inode and its path. */
  function Insert(s: Space, parent: string, e: DirEntry, blocks: seq<Block>, nextIno: nat): Space
    requires parent in s.entries && s.entries[parent].ino in s.inodes
  {
    var pino := s.entries[parent].ino;
    var parentInode := s.inodes[pino];
    Space(Emplace(s.inodes[pino := parentInode.(children := parentInode.children + [e])], e.ino, NewInode(e, blocks)),
          Emplace(s.entries, e.path, e),
          nextIno)
  }

  function OutcomeOf(s: Space, c: Command): Outcome
    requires !c.Unknown?
  {
    if c.Mkdir? then MkdirOutcome(s, c.mkdir) else UploadOutcome(s, c.upload)
  }

  predicate Accepted(s: Space, c: Command) {
    !c.Unknown? && OutcomeOf(s, c).Ok?
  }

  /** The directory entry an accepted command creates. */
  function NewEntry(s: Space, c: Command, now: nat): DirEntry
    requires Accepted(s, c)
  {
    if c.Mkdir? then MkdirEntry(c.mkdir, s.nextIno) else UploadEntry(c.upload, now)
  }

  /** Applying one committed command; `now` is the local clock that only uploads read. */
  function Apply(s: Space, c: Command, now: nat): Space {
    if !Accepted(s, c) then s
    else if c.Mkdir? then Insert(s, c.mkdir.parentPath, NewEntry(s, c, now), [], s.nextIno + 1)
    else Insert(s, Parent(c.upload.path), NewEntry(s, c, now), c.upload.blocks, s.nextIno)
  }

  // ---------------------------------------------------------------- ls

  datatype LsResult = Children(children: seq<DirEntry>) | NoSuchPath | NotADirectory | NoInode

  function Ls(s: Space, path: string): LsResult {
    if path !in s.entries then NoSuchPath
    else if !s.entries[path].isDir then NotADirectory
    else if s.entries[path].ino !in s.inodes then NoInode
    else Children(s.inodes[s.entries[path].ino].children)
  }

  // ---------------------------------------------------------------- ino reservation

  datatype DownloadResult = BlocksFound(blocks: seq<Block>) | NoSuchFile | FileInodeMissing

  /** Where the blocks of a file lie, for a client about to fetch them. */
  function Download(s: Space, path: string): DownloadResult {
    if path !in s.entries then NoSuchFile
    else if s.entries[path].ino !in s.inodes then FileInodeMissing
    else BlocksFound(s.inodes[s.entries[path].ino].blocks)
  }

  function Prepare(s: Space, remotePath: string): Space {
    if remotePath in s.entries then s else s.(nextIno := s.nextIno + 1)
  }

  // ---------------------------------------------------------------- reloading a snapshot

  ghost predicate IsMaxIno(inodes: map<nat, Inode>, m: nat) {
    && (forall k :: k in inodes ==> inodes[k].ino <= m)
    && (m == 0 || exists k :: k in inodes && inodes[k].ino == m)
  }

  lemma {:induction false} MaxInoExists(inodes: map<nat, Inode>)
    ensures exists m: nat :: IsMaxIno(inodes, m)
    decreases |inodes|
  {
    if inodes == map[] {
      assert IsMaxIno(inodes, 0);
    } else {
      var k :| k in inodes;
      var rest := inodes - {k};
      assert rest.Keys == inodes.Keys - {k};
      assert |rest.Keys| == |inodes.Keys| - 1;
      MaxInoExists(rest);
      var m: nat :| IsMaxIno(rest, m);
      var m' := if m <= inodes[k].ino then inodes[k].ino else m;
      forall x | x in inodes ensures inodes[x].ino <= m' {
        if x != k { assert x in rest && rest[x] == inodes[x]; }
      }
      if m' != 0 && m' != inodes[k].ino {
        var y :| y in rest && rest[y].ino == m;
        assert y in inodes && inodes[y].ino == m';
      }
      assert IsMaxIno(inodes, m');
    }
  }

  ghost function MaxIno(inodes: map<nat, Inode>): (m: nat)
    ensures IsMaxIno(inodes, m)
  {
    MaxInoExists(inodes);
    var m: nat :| IsMaxIno(inodes, m); m
  }

  lemma MaxInoUnique(inodes: map<nat, Inode>, a: nat, b: nat)
    requires IsMaxIno(inodes, a) && IsMaxIno(inodes, b)
    ensures a == b
  {
  }

  /** Taking a snapshot and loading it: the maps come back, `nextIno` is recomputed. */
  ghost function Reload(s: Space): Space {
    s.(nextIno := MaxIno(s.inodes) + 1)
  }

  // ---------------------------------------------------------------- runs

  /** Everything that can happen to one node's namespace. */
  datatype Event = Execute(command: Command, now: nat) | Reserve(remotePath: string) | SnapshotReload

  ghost function AfterEvent(s: Space, ev: Event): Space {
    match ev
    case Execute(c, now) => Apply(s, c, now)
    case Reserve(p) => Prepare(s, p)
    case SnapshotReload => Reload(s)
  }

  ghost function AfterEvents(evs: seq<Event>): Space {
    if evs == [] then ROOT_SPACE else AfterEvent(AfterEvents(evs[..|evs| - 1]), evs[|evs| - 1])
  }

  /** The entry an event adds to the namespace, as a sequence of length 0 or 1. */
  function Created(s: Space, ev: Event): seq<DirEntry> {
    if ev.Execute? && Accepted(s, ev.command) then [NewEntry(s, ev.command, ev.now)] else []
  }

  /** Every entry the run created, oldest first. */
  ghost function Trace(evs: seq<Event>): seq<DirEntry> {
    if evs == [] then []
    else Trace(evs[..|evs| - 1]) + Created(AfterEvents(evs[..|evs| - 1]), evs[|evs| - 1])
  }

  /** Applying `cmds`, whose first one has log index `start + 1`; `clock` is what each index reads. */
  function ApplyAll(s: Space, cmds: seq<Command>, clock: nat -> nat, start: nat): Space {
    if cmds == [] then s
    else Apply(ApplyAll(s, cmds[..|cmds| - 1], clock, start), cmds[|cmds| - 1], clock(start + |cmds|))
  }

  /** Replaying a log from the root. */
  function Replay(cmds: seq<Command>, clock: nat -> nat): Space {
    ApplyAll(ROOT_SPACE, cmds, clock, 0)
  }

  lemma ApplyAllAppend(s: Space, cmds: seq<Command>, c: Command, clock: nat -> nat, start: nat)
    ensures ApplyAll(s, cmds + [c], clock, start) ==
            Apply(ApplyAll(s, cmds, clock, start), c, clock(start + |cmds| + 1))
  {
    hide Apply;
    assert (cmds + [c])[..|cmds|] == cmds;
  }

  lemma {:induction false} ApplyAllSplits(s: Space, a: seq<Command>, b: seq<Command>, clock: nat -> nat, start: nat)
    ensures ApplyAll(s, a + b, clock, start) == ApplyAll(ApplyAll(s, a, clock, start), b, clock, start + |a|)
  {
    if b == [] {
      assert a + b == a;
    } else {
      assert (a + b)[..|a + b| - 1] == a + b[..|b| - 1];
      ApplyAllSplits(s, a, b[..|b| - 1], clock, start);
    }
  }
}
