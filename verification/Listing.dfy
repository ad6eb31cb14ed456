/**
 `ls` agrees with the path map after every run, whatever inos clients choose: the listing
 kept inside a directory inode is the creation trace filtered by parent.
 */
module Listing {
  import opened Paths
  import opened Namespace

  /** The path leads to an inode that really is a directory. */
  predicate RealDir(s: Space, p: string) {
    p in s.entries && s.entries[p].ino in s.inodes && s.inodes[s.entries[p].ino].isDir
  }

  predicate Placed(s: Space, p: string) {
    LastSlash(p) >= 0 && LegalName(Name(p)) && RealDir(s, Parent(p))
  }

  /** Every stored path other than the root was split into a legal name under a real directory. */
  ghost predicate Rooted(s: Space) {
    && RealDir(s, ROOT)
    && s.entries[ROOT] == ROOT_ENTRY
    && (forall p :: p in s.entries ==> s.entries[p].path == p && s.entries[p].ino in s.inodes)
    && (forall p {:trigger Placed(s, p)} :: p in s.entries && p != ROOT ==> Placed(s, p))
  }

  /** What keeps two directories from sharing a listing, even after inos collide. */
  ghost predicate Separate(s: Space) {
    && (forall k :: k in s.inodes ==> s.inodes[k].ino == k)
    && (forall k :: k in s.inodes && s.inodes[k].isDir ==> k < s.nextIno)
    && (forall k :: k in s.inodes && !s.inodes[k].isDir ==> s.inodes[k].children == [])
    && (forall p :: p in s.entries && s.entries[p].isDir ==> s.entries[p].ino < s.nextIno)
    && (forall p :: p in s.entries && s.entries[p].ino in s.inodes && !s.entries[p].isDir ==>
          !s.inodes[s.entries[p].ino].isDir)
    && (forall p, q :: (p in s.entries && q in s.entries && s.entries[p].isDir && s.entries[q].isDir &&
                        s.entries[p].ino == s.entries[q].ino) ==> p == q)
  }

  /** The path map is the root plus the trace, and no path was created twice. */
  ghost predicate Traced(s: Space, tr: seq<DirEntry>) {
    && (forall i :: 0 <= i < |tr| ==> tr[i].path != ROOT && tr[i].path in s.entries && s.entries[tr[i].path] == tr[i])
    && (forall i, j :: 0 <= i < j < |tr| ==> tr[i].path != tr[j].path)
    && (forall p :: p in s.entries && p != ROOT ==> s.entries[p] in tr)
  }

  function ChildrenOf(tr: seq<DirEntry>, p: string): (c: seq<DirEntry>) {
    if tr == [] then []
    else
      var last := tr[|tr| - 1];
      ChildrenOf(tr[..|tr| - 1], p) + if Parent(last.path) == p then [last] else []
  }

  ghost predicate Listed(s: Space, tr: seq<DirEntry>) {
    forall p :: RealDir(s, p) ==> s.inodes[s.entries[p].ino].children == ChildrenOf(tr, p)
  }

  ghost predicate Sound(s: Space) { Rooted(s) && Separate(s) }

  // ---------------------------------------------------------------- one insertion

  ghost predicate Insertable(s: Space, e: DirEntry, nextIno: nat) {
    && e.path !in s.entries && Placed(s, e.path)
    && if e.isDir then e.ino == s.nextIno && nextIno == s.nextIno + 1
       else e.ino !in s.inodes && nextIno == s.nextIno
  }

  function BlocksOf(c: Command): seq<Block> {
    if c.Upload? then c.upload.blocks else []
  }

  function NextInoAfter(s: Space, c: Command): nat {
    if c.Mkdir? then s.nextIno + 1 else s.nextIno
  }

  /** Both operations, once accepted, insert one entry below its split parent. */
  lemma AcceptedInserts(s: Space, c: Command, now: nat)
    requires Rooted(s) && Accepted(s, c)
    ensures var e := NewEntry(s, c, now);
            && Insertable(s, e, NextInoAfter(s, c))
            && Apply(s, c, now) == Insert(s, Parent(e.path), e, BlocksOf(c), NextInoAfter(s, c))
  {
    if c.Mkdir? {
      assert Placed(s, "") ==> LastSlash("") >= 0;
      SplitOfJoin(c.mkdir.parentPath, c.mkdir.name);
    }
  }

  /** The effect of `Insert`, key by key. */
  ghost predicate Inserted(s: Space, t: Space, e: DirEntry, nextIno: nat)
    requires Parent(e.path) in s.entries
  {
    && t.nextIno == nextIno
    && t.entries == s.entries[e.path := e]
    && t.inodes.Keys == s.inodes.Keys + {e.ino}
    && (forall k :: k in s.inodes && k != s.entries[Parent(e.path)].ino ==> t.inodes[k] == s.inodes[k])
    && (forall k :: k in s.inodes && k == s.entries[Parent(e.path)].ino ==>
          t.inodes[k] == s.inodes[k].(children := s.inodes[k].children + [e]))
    && (e.ino !in s.inodes ==>
          t.inodes[e.ino].ino == e.ino && t.inodes[e.ino].isDir == e.isDir && t.inodes[e.ino].children == [])
  }

  lemma InsertInserts(s: Space, e: DirEntry, blocks: seq<Block>, nextIno: nat)
    requires Insertable(s, e, nextIno)
    ensures Inserted(s, Insert(s, Parent(e.path), e, blocks, nextIno), e, nextIno)
  {
  }

  lemma InsertKeepsRealDirs(s: Space, t: Space, e: DirEntry, nextIno: nat)
    requires Insertable(s, e, nextIno) && Inserted(s, t, e, nextIno)
    requires forall p :: p in s.entries ==> s.entries[p].ino in s.inodes
    ensures forall p :: p in s.entries ==> RealDir(s, p) == RealDir(t, p)
  {
  }

  lemma InsertKeepsRooted(s: Space, t: Space, e: DirEntry, nextIno: nat)
    requires Rooted(s) && Insertable(s, e, nextIno) && Inserted(s, t, e, nextIno)
    ensures Rooted(t)
  {
    InsertKeepsRealDirs(s, t, e, nextIno);
    forall p | p in t.entries && p != ROOT ensures Placed(t, p) {
      assert Placed(s, p);
      assert Parent(p) in s.entries;
    }
  }

  lemma InsertKeepsSeparate(s: Space, t: Space, e: DirEntry, nextIno: nat)
    requires Sound(s) && Insertable(s, e, nextIno) && Inserted(s, t, e, nextIno)
    ensures Separate(t)
  {
    forall k | k in t.inodes
      ensures t.inodes[k].ino == k
      ensures t.inodes[k].isDir ==> k < t.nextIno
      ensures !t.inodes[k].isDir ==> t.inodes[k].children == []
    {
      assert k in s.inodes || k == e.ino;
    }
    forall p | p in t.entries && !t.entries[p].isDir ensures !t.inodes[t.entries[p].ino].isDir {
      assert p == e.path || p in s.entries;
    }
  }

  lemma InsertKeepsTraced(s: Space, t: Space, tr: seq<DirEntry>, e: DirEntry, nextIno: nat)
    requires Rooted(s) && Insertable(s, e, nextIno) && Traced(s, tr) && Inserted(s, t, e, nextIno)
    ensures Traced(t, tr + [e])
  {
    forall p | p in t.entries && p != ROOT ensures t.entries[p] in tr + [e] {
      assert (tr + [e])[|tr|] == e;
      assert p != e.path ==> s.entries[p] in tr;
    }
  }

  lemma InsertKeepsListed(s: Space, t: Space, tr: seq<DirEntry>, e: DirEntry, nextIno: nat)
    requires Sound(s) && Insertable(s, e, nextIno) && Traced(s, tr) && Listed(s, tr)
    requires Inserted(s, t, e, nextIno)
    ensures Listed(t, tr + [e])
  {
    forall p | RealDir(t, p) ensures t.inodes[t.entries[p].ino].children == ChildrenOf(tr + [e], p) {
      ListedAt(s, t, tr, e, nextIno, p);
    }
  }

  lemma ListedAt(s: Space, t: Space, tr: seq<DirEntry>, e: DirEntry, nextIno: nat, p: string)
    requires Sound(s) && Insertable(s, e, nextIno) && Traced(s, tr) && Listed(s, tr)
    requires Inserted(s, t, e, nextIno) && RealDir(t, p)
    ensures t.inodes[t.entries[p].ino].children == ChildrenOf(tr + [e], p)
  {
    ChildrenAppend(tr, e, p);
    if p == e.path {
      NewIsListed(s, t, e, nextIno);
      NoChildrenBelow(s, tr, p);
    } else {
      OldIsListed(s, t, e, nextIno, p);
      hide Sound, Inserted, Insertable, Traced, ChildrenOf;
      assert s.inodes[s.entries[p].ino].children == ChildrenOf(tr, p);
    }
  }

  lemma ChildrenAppend(tr: seq<DirEntry>, e: DirEntry, p: string)
    ensures ChildrenOf(tr + [e], p) == ChildrenOf(tr, p) + if Parent(e.path) == p then [e] else []
  {
    hide Parent;
    assert (tr + [e])[..|tr|] == tr;
  }

  /** A new directory starts without children, and nothing was created below it before. */
  lemma NewIsListed(s: Space, t: Space, e: DirEntry, nextIno: nat)
    requires Sound(s) && Insertable(s, e, nextIno) && Inserted(s, t, e, nextIno) && RealDir(t, e.path)
    ensures !RealDir(s, e.path) && Parent(e.path) != e.path && t.inodes[t.entries[e.path].ino].children == []
  {
    hide Parent, LegalName, Name, LastSlash;
    assert RealDir(s, Parent(e.path));
  }

  /** A directory that was there gains the entry exactly when it is the parent. */
  lemma OldIsListed(s: Space, t: Space, e: DirEntry, nextIno: nat, p: string)
    requires Sound(s) && Insertable(s, e, nextIno) && Inserted(s, t, e, nextIno) && RealDir(t, p) && p != e.path
    ensures RealDir(s, p)
    ensures t.inodes[t.entries[p].ino].children ==
            s.inodes[s.entries[p].ino].children + if Parent(e.path) == p then [e] else []
  {
    hide Parent, LegalName, Name, LastSlash;
    assert RealDir(s, Parent(e.path)) && p in s.entries && t.entries[p] == s.entries[p];
    assert RealDir(s, p);
    assert p == Parent(e.path) <==> s.entries[p].ino == s.entries[Parent(e.path)].ino;
  }

  lemma {:induction false} NoChildrenBelow(s: Space, tr: seq<DirEntry>, p: string)
    requires Rooted(s) && !RealDir(s, p)
    requires forall i :: 0 <= i < |tr| ==> tr[i].path != ROOT && tr[i].path in s.entries
    ensures ChildrenOf(tr, p) == []
  {
    if tr != [] {
      NoChildrenBelow(s, tr[..|tr| - 1], p);
      assert Placed(s, tr[|tr| - 1].path);
    }
  }

  // ---------------------------------------------------------------- runs

  ghost predicate Consistent(s: Space, tr: seq<DirEntry>) {
    Sound(s) && Traced(s, tr) && Listed(s, tr)
  }

  lemma ApplyIsListed(s: Space, tr: seq<DirEntry>, c: Command, now: nat)
    requires Consistent(s, tr) && Accepted(s, c)
    ensures Consistent(Apply(s, c, now), tr + [NewEntry(s, c, now)])
  {
    AcceptedInserts(s, c, now);
    var e, n, t := NewEntry(s, c, now), NextInoAfter(s, c), Apply(s, c, now);
    InsertInserts(s, e, BlocksOf(c), n);
    InsertKeepsRooted(s, t, e, n);
    InsertKeepsSeparate(s, t, e, n);
    InsertKeepsTraced(s, t, tr, e, n);
    InsertKeepsListed(s, t, tr, e, n);
  }

  /** Moving `nextIno` alone keeps the space sound, as long as it stays above the inodes. */
  lemma NewNextInoKeepsSound(s: Space, t: Space)
    requires Sound(s) && t == s.(nextIno := t.nextIno)
    requires s.nextIno <= t.nextIno || t.nextIno == MaxIno(s.inodes) + 1
    ensures Sound(t)
  {
    assert forall p :: RealDir(t, p) == RealDir(s, p);
    forall p | p in t.entries && p != ROOT ensures Placed(t, p) {
      assert Placed(s, p);
    }
    forall k | k in s.inodes && s.inodes[k].isDir ensures k < t.nextIno {
      assert s.inodes[k].ino == k;
    }
    forall p | p in t.entries && t.entries[p].isDir ensures t.entries[p].ino < t.nextIno {
      assert s.inodes[s.entries[p].ino].ino == s.entries[p].ino;
    }
  }

  lemma NewNextInoIsListed(s: Space, tr: seq<DirEntry>, t: Space)
    requires Consistent(s, tr) && t == s.(nextIno := t.nextIno)
    requires s.nextIno <= t.nextIno || t.nextIno == MaxIno(s.inodes) + 1
    ensures Consistent(t, tr)
  {
    NewNextInoKeepsSound(s, t);
    assert forall p :: RealDir(t, p) == RealDir(s, p);
  }

  lemma RootIsListed()
    ensures Consistent(ROOT_SPACE, [])
  {
  }

  /** Every event keeps the three views in agreement. */
  lemma NextIsListed(s: Space, tr: seq<DirEntry>, ev: Event)
    requires Consistent(s, tr)
    ensures Consistent(AfterEvent(s, ev), tr + Created(s, ev))
  {
    if ev.Execute? && Accepted(s, ev.command) {
      ApplyIsListed(s, tr, ev.command, ev.now);
    } else {
      assert tr + Created(s, ev) == tr;
      NewNextInoIsListed(s, tr, AfterEvent(s, ev));
    }
  }

  lemma {:induction false} RunIsListed(evs: seq<Event>)
    ensures Consistent(AfterEvents(evs), Trace(evs))
  {
    if evs == [] {
      RootIsListed();
    } else {
      var before, ev := evs[..|evs| - 1], evs[|evs| - 1];
      RunIsListed(before);
      NextIsListed(AfterEvents(before), Trace(before), ev);
    }
  }

  /**
   After any run of commands, reservations and snapshot reloads, with any inos and any clock:
   `ls` of a directory entry returns exactly the entries created with that split parent,
   oldest first, and every one of them is what the path map holds.
   */
  lemma LsAgreesWithPaths(evs: seq<Event>, p: string)
    requires p in AfterEvents(evs).entries && AfterEvents(evs).entries[p].isDir
    ensures Ls(AfterEvents(evs), p) == Children(ChildrenOf(Trace(evs), p))
    ensures forall e :: e in ChildrenOf(Trace(evs), p) <==>
              e.path in AfterEvents(evs).entries && e.path != ROOT && AfterEvents(evs).entries[e.path] == e && Parent(e.path) == p
    ensures forall i, j :: 0 <= i < j < |ChildrenOf(Trace(evs), p)| ==>
              ChildrenOf(Trace(evs), p)[i].path != ChildrenOf(Trace(evs), p)[j].path
  {
    RunIsListed(evs);
    var s, tr := AfterEvents(evs), Trace(evs);
    if !RealDir(s, p) {
      NoChildrenBelow(s, tr, p);
    }
    ChildrenAreTheFilter(tr, p);
  }

  lemma {:induction false} ChildrenAreTheFilter(tr: seq<DirEntry>, p: string)
    requires forall i, j :: 0 <= i < j < |tr| ==> tr[i].path != tr[j].path
    ensures forall e :: e in ChildrenOf(tr, p) <==> e in tr && Parent(e.path) == p
    ensures forall i, j :: 0 <= i < j < |ChildrenOf(tr, p)| ==> ChildrenOf(tr, p)[i].path != ChildrenOf(tr, p)[j].path
  {
    if tr != [] {
      var before, last := tr[..|tr| - 1], tr[|tr| - 1];
      ChildrenAreTheFilter(before, p);
      var c := ChildrenOf(before, p);
      assert forall e :: e in tr <==> e in before || e == last;
      forall i, j | 0 <= i < j < |ChildrenOf(tr, p)|
        ensures ChildrenOf(tr, p)[i].path != ChildrenOf(tr, p)[j].path
      {
        assert c[i] in c;
        if j == |c| {
          assert c[i] in before;
        }
      }
    }
  }
}
