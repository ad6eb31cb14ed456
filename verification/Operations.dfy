/**
 What clients of the namespace can rely on, after every run: when each operation succeeds, what it then
 leaves behind, and with which answer it refuses. All of it is stated on the stored paths and inodes.
 */
module Operations {
  import opened Paths
  import opened Namespace
  import opened Listing
  import opened Integrity
  import opened Placement

  function ChildPath(p: string, n: string): string { if p == "/" then "/" + n else p + "/" + n }

  // ---------------------------------------------------------------- why an operation refuses

  /** What is wrong with a parent or a name. */
  ghost predicate Unfit(s: Space, parent: string, name: string, reason: Reason) {
    match reason
    case ParentMissing => parent !in s.entries
    case ParentInodeMissing => parent in s.entries && s.entries[parent].ino !in s.inodes
    case ParentNotDir =>
      parent in s.entries && s.entries[parent].ino in s.inodes && !s.inodes[s.entries[parent].ino].isDir
    case IllegalName =>
      && parent in s.entries && s.entries[parent].ino in s.inodes && s.inodes[s.entries[parent].ino].isDir
      && (name == "" || '/' in name)
    case _ => false
  }

  ghost predicate MkdirRefused(s: Space, r: MkdirRequest, reason: Reason) {
    if reason.AlreadyExists?
    then
      && r.parentPath in s.entries && s.entries[r.parentPath].ino in s.inodes && s.inodes[s.entries[r.parentPath].ino].isDir
      && r.name != "" && '/' !in r.name && ChildPath(r.parentPath, r.name) in s.entries
    else Unfit(s, r.parentPath, r.name, reason)
  }

  predicate Taken(s: Space, r: UploadRequest) { r.ino in s.inodes || r.path in s.entries }

  /** The part before the last slash names the parent; before the first it is the root. */
  ghost predicate UploadRefused(s: Space, r: UploadRequest, reason: Reason) {
    match reason
    case AlreadyExists => Taken(s, r)
    case NoSlash => !Taken(s, r) && '/' !in r.path
    case _ =>
      !Taken(s, r) && exists d, n :: Splits(r.path, d, n) && Unfit(s, if d == "" then "/" else d, n, reason)
  }

  predicate Splits(path: string, d: string, n: string) { path == d + "/" + n && '/' !in n }

  ghost predicate Refused(s: Space, c: Command, reason: Reason) {
    match c
    case Mkdir(r) => MkdirRefused(s, r, reason)
    case Upload(r) => UploadRefused(s, r, reason)
    case Unknown => false
  }

  lemma MkdirAnswersExactly(s: Space, r: MkdirRequest, reason: Reason)
    ensures MkdirOutcome(s, r) == Rejected(reason) <==> MkdirRefused(s, r, reason)
    ensures MkdirOutcome(s, r).Ok? ==> !MkdirRefused(s, r, reason)
  {
  }

  lemma SplitIsUnique(path: string, d: string, n: string)
    requires Splits(path, d, n)
    ensures LastSlash(path) == |d| && Parent(path) == (if d == "" then "/" else d) && Name(path) == n && '/' in path
  {
    assert path[|d|] == '/';
    assert forall i :: |d| < i < |path| ==> path[i] == n[i - |d| - 1];
    LastSlashUnique(path, |d|);
  }

  lemma SplitExists(path: string)
    requires '/' in path
    ensures Splits(path, path[..LastSlash(path)], Name(path))
  {
    var k := LastSlash(path);
    assert k >= 0;
    assert path == path[..k] + [path[k]] + path[k + 1..];
  }

  lemma CheckAnswersExactly(s: Space, parent: string, name: string, reason: Reason)
    ensures CheckParent(s, parent, name) == Rejected(reason) <==> Unfit(s, parent, name, reason)
    ensures CheckParent(s, parent, name).Ok? ==> !Unfit(s, parent, name, reason)
  {
  }

  lemma UploadAnswersExactly(s: Space, r: UploadRequest, reason: Reason)
    ensures UploadOutcome(s, r) == Rejected(reason) <==> UploadRefused(s, r, reason)
    ensures UploadOutcome(s, r).Ok? ==> !UploadRefused(s, r, reason)
  {
    hide Unfit, CheckParent, Splits, Parent, Name;
    if '/' in r.path {
      var d, n := r.path[..LastSlash(r.path)], Name(r.path);
      SplitExists(r.path);
      SplitIsUnique(r.path, d, n);
      forall x, y | Splits(r.path, x, y) ensures x == d && y == n {
        SplitIsUnique(r.path, x, y);
        UniqueParts(r.path, x, y, d, n);
      }
      CheckAnswersExactly(s, Parent(r.path), n, reason);
      NoSuchReason(s, Parent(r.path), n);
    } else {
      assert LastSlash(r.path) < 0;
      forall x, y ensures !Splits(r.path, x, y) {
        NoSplit(r.path, x, y);
      }
    }
  }

  lemma UniqueParts(path: string, d: string, n: string, d': string, n': string)
    requires Splits(path, d, n) && Splits(path, d', n')
    ensures d == d' && n == n'
  {
    SplitIsUnique(path, d, n);
    SplitIsUnique(path, d', n');
    assert d == path[..|d|] && d' == path[..|d'|];
  }

  lemma NoSplit(path: string, d: string, n: string)
    requires '/' !in path
    ensures !Splits(path, d, n)
  {
    assert (d + "/" + n)[|d|] == '/';
  }

  lemma NoSuchReason(s: Space, parent: string, name: string)
    ensures CheckParent(s, parent, name) != Rejected(AlreadyExists) && CheckParent(s, parent, name) != Rejected(NoSlash)
  {
  }

  /**
   An operation is refused with a reason exactly when that reason holds of the stored paths and inodes,
   and succeeds exactly when none does.
   */
  lemma AnswersExactly(s: Space, c: Command)
    requires !c.Unknown?
    ensures forall reason :: OutcomeOf(s, c) == Rejected(reason) <==> Refused(s, c, reason)
    ensures OutcomeOf(s, c).Ok? <==> forall reason :: !Refused(s, c, reason)
  {
    forall reason
      ensures OutcomeOf(s, c) == Rejected(reason) <==> Refused(s, c, reason)
      ensures OutcomeOf(s, c).Ok? ==> !Refused(s, c, reason)
    {
      if c.Mkdir? { MkdirAnswersExactly(s, c.mkdir, reason); } else { UploadAnswersExactly(s, c.upload, reason); }
    }
    hide Refused;
    if OutcomeOf(s, c).Rejected? {
      assert Refused(s, c, OutcomeOf(s, c).reason);
    }
  }

  // ---------------------------------------------------------------- what a success leaves behind

  /** `e` is listed last under `p`, has its inode if the ino was free, and nothing else has changed. */
  ghost predicate AddedUnder(s: Space, t: Space, p: string, e: DirEntry, blocks: seq<Block>, nextIno: nat) {
    && p in s.entries && s.entries[p].ino in s.inodes && s.entries[p].ino in t.inodes
    && e.path !in s.entries && t.entries == s.entries[e.path := e] && t.nextIno == nextIno
    && t.inodes.Keys == s.inodes.Keys + {e.ino}
    && (forall k :: k in s.inodes && k != s.entries[p].ino ==> t.inodes[k] == s.inodes[k])
    && t.inodes[s.entries[p].ino] == s.inodes[s.entries[p].ino].(children := s.inodes[s.entries[p].ino].children + [e])
    && (e.ino !in s.inodes ==>
          t.inodes[e.ino] == Inode(e.ino, e.isDir, e.size, e.ctime, e.mtime, if e.isDir then 2 else 1, blocks, []))
  }

  lemma InsertAdds(s: Space, p: string, e: DirEntry, blocks: seq<Block>, nextIno: nat)
    requires p in s.entries && s.entries[p].ino in s.inodes && e.path !in s.entries && e.ino != s.entries[p].ino
    ensures AddedUnder(s, Insert(s, p, e, blocks, nextIno), p, e, blocks, nextIno)
  {
  }

  /** `ls` answers with a listing, and the inode behind the path is a directory's. */
  predicate ListedDir(s: Space, p: string) {
    p in s.entries && s.entries[p].ino in s.inodes && s.inodes[s.entries[p].ino].isDir && Ls(s, p).Children?
  }

  lemma RealDirIsListed(s: Space, p: string)
    requires Sound(s)
    ensures RealDir(s, p) <==> ListedDir(s, p)
    ensures RealDir(s, p) ==> Ls(s, p) == Children(s.inodes[s.entries[p].ino].children)
  {
  }

  /**
   mkdir, after every run: it succeeds exactly under a listed directory, with a nonempty name without
   a slash whose path is not stored. Then the directory lists one entry more, with that name and path,
   4096 bytes and the request's stamp, the new directory lists nothing, and all else is as it was.
   */
  lemma MkdirSucceedsExactly(evs: seq<Event>, p: string, n: string, stamp: nat, now: nat)
    ensures var s := AfterEvents(evs);
            var t, path := Apply(s, Mkdir(MkdirRequest(p, n, stamp)), now), ChildPath(p, n);
            && (MkdirOutcome(s, MkdirRequest(p, n, stamp)).Ok? <==>
                  ListedDir(s, p) && n != "" && '/' !in n && path !in s.entries)
            && (MkdirOutcome(s, MkdirRequest(p, n, stamp)).Ok? ==>
                  var e := DirEntry(s.nextIno, n, path, true, 4096, stamp, stamp);
                  && ListedDir(s, p) && Ls(t, p) == Children(Ls(s, p).children + [e]) && Ls(t, path) == Children([])
                  && AddedUnder(s, t, p, e, [], s.nextIno + 1))
            && (!MkdirOutcome(s, MkdirRequest(p, n, stamp)).Ok? ==> t == s)
  {
    RunIsListed(evs);
    MkdirInSoundSpace(AfterEvents(evs), p, n, stamp, now);
  }

  lemma MkdirInSoundSpace(s: Space, p: string, n: string, stamp: nat, now: nat)
    requires Sound(s)
    ensures var t, path := Apply(s, Mkdir(MkdirRequest(p, n, stamp)), now), ChildPath(p, n);
            && (MkdirOutcome(s, MkdirRequest(p, n, stamp)).Ok? <==>
                  ListedDir(s, p) && n != "" && '/' !in n && path !in s.entries)
            && (MkdirOutcome(s, MkdirRequest(p, n, stamp)).Ok? ==>
                  var e := DirEntry(s.nextIno, n, path, true, 4096, stamp, stamp);
                  && ListedDir(s, p) && Ls(t, p) == Children(Ls(s, p).children + [e]) && Ls(t, path) == Children([])
                  && AddedUnder(s, t, p, e, [], s.nextIno + 1))
            && (!MkdirOutcome(s, MkdirRequest(p, n, stamp)).Ok? ==> t == s)
  {
    RealDirIsListed(s, p);
    var r, path := MkdirRequest(p, n, stamp), ChildPath(p, n);
    assert MkdirOutcome(s, r).Ok? <==> RealDir(s, p) && n != "" && '/' !in n && path !in s.entries;
    if MkdirOutcome(s, r).Ok? {
      var e := DirEntry(s.nextIno, n, path, true, 4096, stamp, stamp);
      NextInoIsNoDir(s, p);
      InsertAdds(s, p, e, [], s.nextIno + 1);
      var t := Apply(s, Mkdir(r), now);
      assert t == Insert(s, p, e, [], s.nextIno + 1);
      hide Sound, Insert, Apply, MkdirOutcome;
      assert t.entries[p] == s.entries[p] && t.entries[path] == e;
    }
  }

  /** The next ino is no directory's, and if it is a file's that lists nothing. */
  lemma NextInoIsNoDir(s: Space, p: string)
    requires Sound(s) && RealDir(s, p)
    ensures s.entries[p].ino != s.nextIno && s.entries[p].isDir
    ensures s.nextIno in s.inodes ==> s.inodes[s.nextIno].children == []
  {
  }

  /**
   Upload, after every run, to a path with something before its last slash or nothing: it succeeds
   exactly when neither ino nor path is taken, the parent is a listed directory and the name is not
   empty. Then the parent lists one entry more, a file of the blocks' total size stamped by the local
   clock, the inode holds exactly the request's blocks, and all else is as it was.
   */
  lemma UploadSucceedsExactly(evs: seq<Event>, ino: nat, d: string, n: string, blocks: seq<Block>, now: nat)
    requires '/' !in n
    ensures var s, path, p := AfterEvents(evs), d + "/" + n, if d == "" then "/" else d;
            var r := UploadRequest(ino, path, blocks);
            var t := Apply(s, Upload(r), now);
            && (UploadOutcome(s, r).Ok? <==> ino !in s.inodes && path !in s.entries && ListedDir(s, p) && n != "")
            && (UploadOutcome(s, r).Ok? ==>
                  var e := DirEntry(ino, n, path, false, TotalSize(blocks), now, now);
                  && ListedDir(s, p) && Ls(t, p) == Children(Ls(s, p).children + [e]) && Ls(t, path) == NotADirectory
                  && Download(t, path) == BlocksFound(blocks)
                  && ino !in s.inodes && AddedUnder(s, t, p, e, blocks, s.nextIno))
            && (!UploadOutcome(s, r).Ok? ==> t == s)
  {
    RunIsListed(evs);
    UploadInSoundSpace(AfterEvents(evs), ino, d, n, blocks, now);
  }

  lemma UploadInSoundSpace(s: Space, ino: nat, d: string, n: string, blocks: seq<Block>, now: nat)
    requires Sound(s) && '/' !in n
    ensures var path, p := d + "/" + n, if d == "" then "/" else d;
            var r := UploadRequest(ino, path, blocks);
            var t := Apply(s, Upload(r), now);
            && (UploadOutcome(s, r).Ok? <==> ino !in s.inodes && path !in s.entries && ListedDir(s, p) && n != "")
            && (UploadOutcome(s, r).Ok? ==>
                  var e := DirEntry(ino, n, path, false, TotalSize(blocks), now, now);
                  && ListedDir(s, p) && Ls(t, p) == Children(Ls(s, p).children + [e]) && Ls(t, path) == NotADirectory
                  && Download(t, path) == BlocksFound(blocks)
                  && ino !in s.inodes && AddedUnder(s, t, p, e, blocks, s.nextIno))
            && (!UploadOutcome(s, r).Ok? ==> t == s)
  {
    var path, p := d + "/" + n, if d == "" then "/" else d;
    var r := UploadRequest(ino, path, blocks);
    SplitIsUnique(path, d, n);
    RealDirIsListed(s, p);
    assert UploadOutcome(s, r).Ok? <==> ino !in s.inodes && path !in s.entries && RealDir(s, p) && n != "";
    if UploadOutcome(s, r).Ok? {
      var e := DirEntry(ino, n, path, false, TotalSize(blocks), now, now);
      NextInoIsNoDir(s, p);
      InsertAdds(s, p, e, blocks, s.nextIno);
      var t := Apply(s, Upload(r), now);
      assert t == Insert(s, p, e, blocks, s.nextIno);
      hide Sound, Insert, Apply, UploadOutcome;
      assert t.entries[p] == s.entries[p] && t.entries[path] == e;
    }
  }

  /** `ls`, after every run: no such path, a file, or a listing, exactly when the path map says so. */
  lemma LsAnswersExactly(evs: seq<Event>, p: string)
    ensures var s := AfterEvents(evs);
            && (Ls(s, p) == NoSuchPath <==> p !in s.entries)
            && (Ls(s, p) == NotADirectory <==> p in s.entries && !s.entries[p].isDir)
            && (Ls(s, p).Children? <==> p in s.entries && s.entries[p].isDir)
  {
    RunIsListed(evs);
  }

  /** A new namespace: an empty root directory, whose ino is 0, and 1 the next. */
  lemma StartsWithEmptyRoot()
    ensures AfterEvents([]) ==
            Space(map[0 := Inode(0, true, 4096, 0, 0, 2, [], [])], map["/" := DirEntry(0, "/", "/", true, 0, 0, 0)], 1)
    ensures Ls(AfterEvents([]), "/") == Children([])
  {
  }

  // ---------------------------------------------------------------- sizes

  /** What determines the sum of block sizes: nothing, one block, and two sequences behind each other. */
  lemma {:induction false} TotalSizeAdds(a: seq<Block>, b: seq<Block>)
    ensures TotalSize(a + b) == (TotalSize(a) + TotalSize(b)) % TWO_64
  {
    if b == [] {
      assert a + b == a;
    } else {
      assert (a + b)[..|a + b| - 1] == a + b[..|b| - 1];
      TotalSizeAdds(a, b[..|b| - 1]);
      SumsWrapAlike(TotalSize(a), TotalSize(b[..|b| - 1]), b[|b| - 1].size);
    }
  }

  lemma TotalSizeOfFew(b: Block)
    ensures TotalSize([]) == 0 && TotalSize([b]) == b.size % TWO_64
  {
    assert [b][..0] == [];
  }

  lemma SumsWrapAlike(x: nat, y: nat, z: nat)
    ensures ((x + y) % TWO_64 + z) % TWO_64 == (x + (y + z) % TWO_64) % TWO_64
  {
  }

  // ---------------------------------------------------------------- files keep what was uploaded

  /** Event `k` of the run was an accepted upload of `r`. */
  ghost predicate UploadedAt(evs: seq<Event>, k: nat, r: UploadRequest) {
    k < |evs| && evs[k].Execute? && evs[k].command == Upload(r) && UploadOutcome(AfterEvents(evs[..k]), r).Ok?
  }

  /** The path leads to an inode that holds the request's blocks and their size, stamped alike. */
  ghost predicate HoldsFile(s: Space, r: UploadRequest, now: nat) {
    && r.path in s.entries && s.entries[r.path] == DirEntry(r.ino, Name(r.path), r.path, false, TotalSize(r.blocks), now, now)
    && r.ino in s.inodes && s.inodes[r.ino] == Inode(r.ino, false, TotalSize(r.blocks), now, now, 1, r.blocks, [])
  }

  lemma EventKeepsFile(s: Space, ev: Event, r: UploadRequest, now: nat)
    requires Sound(s) && HoldsFile(s, r, now)
    ensures HoldsFile(AfterEvent(s, ev), r, now)
  {
    if ev.Execute? && Accepted(s, ev.command) {
      AcceptedInserts(s, ev.command, ev.now);
      var e := NewEntry(s, ev.command, ev.now);
      InsertInserts(s, e, BlocksOf(ev.command), NextInoAfter(s, ev.command));
      hide Apply, Insert, Accepted, Separate;
    }
  }

  lemma UploadCreatesFile(s: Space, r: UploadRequest, now: nat)
    requires Sound(s) && UploadOutcome(s, r).Ok?
    ensures HoldsFile(Apply(s, Upload(r), now), r, now)
  {
    var e := UploadEntry(r, now);
    InsertAdds(s, Parent(r.path), e, r.blocks, s.nextIno);
    hide Sound, Insert;
  }

  /**
   A file keeps what was uploaded: over every run, whatever commands, reservations and reloads follow
   and whatever inos clients choose, the path of an accepted upload leads to an inode that holds exactly
   its blocks and their size, so a client about to download is told exactly those.
   */
  lemma {:induction false} UploadedFileStays(evs: seq<Event>, k: nat, r: UploadRequest)
    requires UploadedAt(evs, k, r)
    ensures HoldsFile(AfterEvents(evs), r, evs[k].now)
    ensures Download(AfterEvents(evs), r.path) == BlocksFound(r.blocks)
  {
    hide Consistent, Sound, Apply, UploadOutcome, HoldsFile, Download;
    var before, ev := evs[..|evs| - 1], evs[|evs| - 1];
    SpaceIsSound(before);
    assert evs[..k] == before[..k];
    if k == |evs| - 1 {
      UploadCreatesFile(AfterEvents(before), r, ev.now);
    } else {
      UploadedFileStays(before, k, r);
      EventKeepsFile(AfterEvents(before), ev, r, evs[k].now);
    }
    HeldIsFound(AfterEvents(evs), r, evs[k].now);
  }

  lemma SpaceIsSound(evs: seq<Event>)
    ensures Sound(AfterEvents(evs))
  {
    RunIsListed(evs);
    hide Sound;
  }

  lemma HeldIsFound(s: Space, r: UploadRequest, now: nat)
    requires HoldsFile(s, r, now)
    ensures Download(s, r.path) == BlocksFound(r.blocks)
  {
  }

  /** And every stored file was uploaded so. */
  lemma {:induction false} EveryFileWasUploaded(evs: seq<Event>, p: string)
    requires p in AfterEvents(evs).entries && !AfterEvents(evs).entries[p].isDir
    ensures exists k: nat, r :: UploadedAt(evs, k, r) && r.path == p
  {
    if evs != [] {
      var before, ev := evs[..|evs| - 1], evs[|evs| - 1];
      var s := AfterEvents(before);
      if p in s.entries {
        OldEntryStays(s, ev, p);
        EveryFileWasUploaded(before, p);
        var k: nat, r :| UploadedAt(before, k, r) && r.path == p;
        assert evs[..k] == before[..k];
        assert UploadedAt(evs, k, r);
      } else {
        NewFileIsUpload(s, ev, p);
        assert UploadedAt(evs, |evs| - 1, ev.command.upload);
      }
    }
  }

  lemma OldEntryStays(s: Space, ev: Event, p: string)
    requires p in s.entries
    ensures p in AfterEvent(s, ev).entries && AfterEvent(s, ev).entries[p] == s.entries[p]
  {
  }

  lemma NewFileIsUpload(s: Space, ev: Event, p: string)
    requires p !in s.entries && p in AfterEvent(s, ev).entries && !AfterEvent(s, ev).entries[p].isDir
    ensures ev.Execute? && ev.command.Upload? && ev.command.upload.path == p && UploadOutcome(s, ev.command.upload).Ok?
  {
  }

  // ---------------------------------------------------------------- reservations as clients read them

  /** The answer to a reservation. */
  function Reservation(s: Space, remotePath: string, blocks: seq<Block>, nodes: seq<nat>, hash: (nat, nat) -> nat): (placed: seq<Block>)
    requires |nodes| > 0
  {
    if remotePath in s.entries then [] else seq(|blocks|, i requires 0 <= i < |blocks| => PlacedBlock(blocks[i], s.nextIno, nodes, hash))
  }

  /** Every block a client reads carries the ino that was handed out to it, and is otherwise its own. */
  lemma ReadIsHandedOut(s: Space, remotePath: string, blocks: seq<Block>, nodes: seq<nat>, hash: (nat, nat) -> nat, i: nat)
    requires |nodes| > 0 && i < |Reservation(s, remotePath, blocks, nodes, hash)|
    ensures i < |blocks| && var b := Reservation(s, remotePath, blocks, nodes, hash)[i];
            KeepsBlock(blocks[i], b, b.ino) && HandedOut(s, Reserve(remotePath)) == [b.ino]
  {
    PlacedKeepsBlock(blocks[i], s.nextIno, nodes, hash);
  }

  /** Event `k` of the run was a reservation, and `ino` is what its blocks carry. */
  ghost predicate ReadAt(evs: seq<Event>, k: nat, ino: nat) {
    k < |evs| && evs[k].Reserve? && HandedOut(AfterEvents(evs[..k]), evs[k]) == [ino]
  }

  /** Inos read at different places of a run are at different places of what was handed out. */
  lemma {:induction false} ReadIsAmongHandedOut(evs: seq<Event>, k: nat, ino: nat)
    requires ReadAt(evs, k, ino)
    ensures var before := |AllHandedOut(evs[..k])|;
            before < |AllHandedOut(evs[..k + 1])| <= |AllHandedOut(evs)| && AllHandedOut(evs)[before] == ino
  {
    hide HandedOut;
    var last := |evs| - 1;
    assert evs[..k] == evs[..k + 1][..k];
    if k == last {
      assert evs[..k + 1] == evs;
    } else {
      var front := evs[..last];
      assert front[..k] == evs[..k] && front[..k + 1] == evs[..k + 1] && front[k] == evs[k];
      ReadIsAmongHandedOut(front, k, ino);
    }
  }

  lemma {:induction false} HandedOutGrows(evs: seq<Event>, j: nat)
    requires j <= |evs|
    ensures |AllHandedOut(evs[..j])| <= |AllHandedOut(evs)|
  {
    hide HandedOut;
    if j == |evs| {
      assert evs[..j] == evs;
    } else {
      HandedOutGrows(evs[..|evs| - 1], j);
      assert evs[..|evs| - 1][..j] == evs[..j];
    }
  }

  /**
   Over every run in which nothing is handed out after an uncovered reload, no two reservations give
   their clients the same ino, and unless the last reload was uncovered every ino a client has read is
   below the next ino of the node, which is what an upload needs.
   */
  lemma ReadInosAreDistinct(evs: seq<Event>, j: nat, k: nat, x: nat, y: nat)
    requires Steady(evs) && ReadAt(evs, j, x) && ReadAt(evs, k, y) && j < k
    ensures x < y
    ensures !Shaken(evs) ==> y < AfterEvents(evs).nextIno
  {
    InosIncreaseExactly(evs);
    hide Steady, Shaken, AllHandedOut;
    ReadIsAmongHandedOut(evs, j, x);
    ReadIsAmongHandedOut(evs, k, y);
    HandedOutGrows(evs[..k], j + 1);
    assert evs[..k][..j + 1] == evs[..j + 1];
  }
}
