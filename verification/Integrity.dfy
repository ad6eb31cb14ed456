/**
 Integrity of the namespace: when every accepted upload uses a reserved ino, paths and inodes
 are in bijection, the two `is_dir` flags agree and every path climbs to the root.
 */
module Integrity {
  import opened Basics
  import opened Paths
  import opened Namespace
  import opened Listing

  ghost predicate Integral(s: Space) {
    Sound(s) && Flags(s) && OneToOne(s) && Onto(s)
  }

  ghost predicate Flags(s: Space) {
    && (forall k :: k in s.inodes ==> k < s.nextIno)
    && (forall p :: p in s.entries ==>
          s.entries[p].ino in s.inodes && s.inodes[s.entries[p].ino].isDir == s.entries[p].isDir)
  }

  ghost predicate OneToOne(s: Space) {
    forall p, q :: p in s.entries && q in s.entries && s.entries[p].ino == s.entries[q].ino ==> p == q
  }

  ghost predicate Onto(s: Space) {
    forall k :: k in s.inodes ==> exists p :: p in s.entries && s.entries[p].ino == k
  }

  /** The only demand on clients: an upload that is accepted names an ino already handed out. */
  predicate Fresh(s: Space, ev: Event) {
    ev.Execute? && ev.command.Upload? && Accepted(s, ev.command) ==> ev.command.upload.ino < s.nextIno
  }

  ghost predicate FreshRun(evs: seq<Event>) {
    evs != [] ==> FreshRun(evs[..|evs| - 1]) && Fresh(AfterEvents(evs[..|evs| - 1]), evs[|evs| - 1])
  }

  lemma InsertKeepsFlags(s: Space, t: Space, e: DirEntry, nextIno: nat)
    requires Flags(s) && OneToOne(s)
    requires Insertable(s, e, nextIno) && Inserted(s, t, e, nextIno) && e.ino < nextIno
    ensures Flags(t) && OneToOne(t)
  {
    assert e.ino !in s.inodes;
  }

  lemma InsertKeepsOnto(s: Space, t: Space, e: DirEntry, nextIno: nat)
    requires Onto(s) && Insertable(s, e, nextIno) && Inserted(s, t, e, nextIno)
    ensures Onto(t)
  {
    forall k | k in t.inodes ensures exists p :: p in t.entries && t.entries[p].ino == k {
      if k == e.ino {
        assert t.entries[e.path].ino == k;
      } else {
        var p :| p in s.entries && s.entries[p].ino == k;
        assert t.entries[p].ino == k;
      }
    }
  }

  /** An accepted command keeps integrity exactly when it is a mkdir or its ino was handed out. */
  lemma ApplyKeepsIntegralExactly(s: Space, c: Command, now: nat)
    requires Integral(s) && Accepted(s, c)
    ensures Integral(Apply(s, c, now)) <==> c.Mkdir? || c.upload.ino < s.nextIno
  {
    AcceptedInserts(s, c, now);
    var e, n, t := NewEntry(s, c, now), NextInoAfter(s, c), Apply(s, c, now);
    InsertInserts(s, e, BlocksOf(c), n);
    InsertKeepsRooted(s, t, e, n);
    InsertKeepsSeparate(s, t, e, n);
    if e.ino < n {
      InsertKeepsFlags(s, t, e, n);
      InsertKeepsOnto(s, t, e, n);
    } else {
      assert e.ino in t.inodes;
    }
  }

  lemma NewNextInoKeepsIntegral(s: Space, t: Space)
    requires Integral(s) && t == s.(nextIno := t.nextIno)
    requires s.nextIno <= t.nextIno || t.nextIno == MaxIno(s.inodes) + 1
    ensures Integral(t)
  {
    NewNextInoKeepsSound(s, t);
    NewNextInoKeepsFlags(s, t);
  }

  lemma NewNextInoKeepsFlags(s: Space, t: Space)
    requires Flags(s) && t == s.(nextIno := t.nextIno)
    requires forall k :: k in s.inodes ==> s.inodes[k].ino == k
    requires s.nextIno <= t.nextIno || t.nextIno == MaxIno(s.inodes) + 1
    ensures Flags(t)
  {
    forall k | k in s.inodes ensures k < t.nextIno {
      assert s.inodes[k].ino == k;
    }
  }

  lemma {:induction false} FreshRunIsIntegral(evs: seq<Event>)
    requires FreshRun(evs)
    ensures Integral(AfterEvents(evs))
  {
    if evs == [] {
      RootIsListed();
    } else {
      var before, ev := evs[..|evs| - 1], evs[|evs| - 1];
      FreshRunIsIntegral(before);
      if ev.Execute? && Accepted(AfterEvents(before), ev.command) {
        ApplyKeepsIntegralExactly(AfterEvents(before), ev.command, ev.now);
      } else {
        NewNextInoKeepsIntegral(AfterEvents(before), AfterEvents(evs));
      }
    }
  }

  // ---------------------------------------------------------------- runs of commands alone

  predicate CommandsOnly(evs: seq<Event>) {
    forall i :: 0 <= i < |evs| ==> evs[i].Execute?
  }

  /** An entry at or above the next ino, or two paths with one ino: damage that commands do not repair. */
  ghost predicate Damaged(s: Space) {
    || (exists p :: p in s.entries && s.entries[p].ino >= s.nextIno)
    || (exists p, q :: p in s.entries && q in s.entries && p != q && s.entries[p].ino == s.entries[q].ino)
  }

  lemma DamagedIsNotIntegral(s: Space)
    requires Damaged(s)
    ensures !Integral(s)
  {
    hide Sound, Onto;
  }

  lemma AppliedEntries(s: Space, c: Command, now: nat)
    requires Sound(s)
    ensures if Accepted(s, c)
            then NewEntry(s, c, now).path !in s.entries
                 && Apply(s, c, now).entries == s.entries[NewEntry(s, c, now).path := NewEntry(s, c, now)]
            else Apply(s, c, now) == s
    ensures Apply(s, c, now).nextIno == if Accepted(s, c) && c.Mkdir? then s.nextIno + 1 else s.nextIno
  {
  }

  lemma DamageStays(s: Space, c: Command, now: nat)
    requires Sound(s) && Damaged(s)
    ensures Damaged(Apply(s, c, now))
  {
    hide Sound, Apply, Accepted;
    AppliedEntries(s, c, now);
    if Accepted(s, c) {
      var t, e := Apply(s, c, now), NewEntry(s, c, now);
      if p, q :| p in s.entries && q in s.entries && p != q && s.entries[p].ino == s.entries[q].ino {
        assert t.entries[p].ino == t.entries[q].ino;
      } else {
        var p :| p in s.entries && s.entries[p].ino >= s.nextIno;
        assert t.entries[p].ino == s.entries[p].ino && t.entries[e.path] == e;
      }
    }
  }

  /** An accepted upload with an ino the node has not reached does the damage. */
  lemma EarlyInoDamages(s: Space, c: Command, now: nat)
    requires Sound(s) && Accepted(s, c) && c.Upload? && c.upload.ino >= s.nextIno
    ensures Damaged(Apply(s, c, now))
  {
    hide Sound, Accepted, Apply;
    AppliedEntries(s, c, now);
    var e := NewEntry(s, c, now);
    assert Apply(s, c, now).entries[e.path].ino == c.upload.ino;
  }

  /**
   A node that only applies commands, as every follower does, has an integral namespace exactly when
   every accepted upload used an ino below its own next ino. A reservation on the leader does not move
   that one.
   */
  lemma {:induction false} CommandsAreIntegralExactly(evs: seq<Event>)
    requires CommandsOnly(evs)
    ensures Integral(AfterEvents(evs)) <==> FreshRun(evs)
    ensures !FreshRun(evs) ==> Damaged(AfterEvents(evs))
  {
    if FreshRun(evs) {
      FreshRunIsIntegral(evs);
    } else {
      var before, ev := evs[..|evs| - 1], evs[|evs| - 1];
      CommandsAreIntegralExactly(before);
      RunIsListed(before);
      hide Integral, Damaged, Sound;
      var s := AfterEvents(before);
      if FreshRun(before) {
        EarlyInoDamages(s, ev.command, ev.now);
      } else {
        DamageStays(s, ev.command, ev.now);
      }
      DamagedIsNotIntegral(AfterEvents(evs));
    }
  }

  /** The path climbs to the root through stored directories, getting shorter at each step. */
  predicate Climbs(s: Space, p: string)
    decreases |p|
  {
    p in s.entries && (p == ROOT ||
      (&& LastSlash(p) >= 0
       && |Parent(p)| < |p|
       && Parent(p) in s.entries && s.entries[Parent(p)].isDir
       && Climbs(s, Parent(p))))
  }

  lemma {:induction false} EveryPathClimbs(s: Space, p: string)
    requires Integral(s) && p in s.entries
    ensures Climbs(s, p)
    decreases |p|
  {
    if p != ROOT {
      assert Placed(s, p);
      ParentIsShorter(p);
      EveryPathClimbs(s, Parent(p));
    }
  }

  /** After every run with reserved inos: a bijection from paths to inodes, and a rooted tree. */
  lemma NamespaceIntegrity(evs: seq<Event>)
    requires FreshRun(evs)
    ensures Integral(AfterEvents(evs))
    ensures |AfterEvents(evs).entries| == |AfterEvents(evs).inodes|
    ensures forall p :: p in AfterEvents(evs).entries ==> Climbs(AfterEvents(evs), p)
  {
    FreshRunIsIntegral(evs);
    var s := AfterEvents(evs);
    forall p | p in s.entries ensures Climbs(s, p) {
      EveryPathClimbs(s, p);
    }
    BijectionCounts(s);
  }

  lemma BijectionCounts(s: Space)
    requires Flags(s) && OneToOne(s) && Onto(s)
    ensures |s.entries| == |s.inodes|
  {
    var inoOf := map p | p in s.entries :: s.entries[p].ino;
    InjectiveMapSize(inoOf);
    assert inoOf.Keys == s.entries.Keys;
    assert inoOf.Values == s.inodes.Keys by {
      forall k | k in s.inodes ensures k in inoOf.Values {
        var p :| p in s.entries && s.entries[p].ino == k;
        assert inoOf[p] == k;
      }
    }
  }

  /**
   kOk is answered exactly when one path is gained; otherwise nothing at all changes. An inode
   comes with it exactly when the command is an upload or the next ino is still free.
   */
  lemma OkExactlyWhenGained(s: Space, c: Command, now: nat)
    requires Sound(s)
    ensures Accepted(s, c) <==> Apply(s, c, now) != s
    ensures Accepted(s, c) ==>
              var e, t := NewEntry(s, c, now), Apply(s, c, now);
              && e.path !in s.entries && t.entries == s.entries[e.path := e] && |t.entries| == |s.entries| + 1
              && t.inodes.Keys == s.inodes.Keys + {e.ino}
              && (|t.inodes| == |s.inodes| + 1 <==> c.Upload? || s.nextIno !in s.inodes)
  {
    if Accepted(s, c) {
      AcceptedInserts(s, c, now);
      var e, t := NewEntry(s, c, now), Apply(s, c, now);
      InsertInserts(s, e, BlocksOf(c), NextInoAfter(s, c));
      GainedSizes(s, t, e, NextInoAfter(s, c));
    }
  }

  lemma GainedSizes(s: Space, t: Space, e: DirEntry, nextIno: nat)
    requires Insertable(s, e, nextIno) && Inserted(s, t, e, nextIno)
    ensures |t.entries| == |s.entries| + 1
    ensures |t.inodes| == |s.inodes| + 1 <==> e.ino !in s.inodes
  {
    assert t.entries.Keys == s.entries.Keys + {e.path};
    assert |t.inodes.Keys| == |s.inodes.Keys + {e.ino}|;
    assert e.ino in s.inodes ==> s.inodes.Keys + {e.ino} == s.inodes.Keys;
  }

  function UploadThenMkdir(a: nat, b: nat, stamp: nat): seq<Event> {
    [Execute(Upload(UploadRequest(1, "/f", [])), a), Execute(Mkdir(MkdirRequest("/", "d", stamp)), b)]
  }

  /** The mkdir succeeded, but its entry leads to the inode of a file, under which nothing can be created. */
  ghost predicate DirectoryOnFile(s: Space) {
    && "/d" in s.entries && "/f" in s.entries && s.entries["/d"].isDir
    && s.entries["/d"].ino == s.entries["/f"].ino == 1
    && 1 in s.inodes && !s.inodes[1].isDir
    && forall now: nat :: MkdirOutcome(s, MkdirRequest("/d", "x", now)) == Rejected(ParentNotDir)
  }

  /**
   An upload with an ino the node has not handed out itself makes the next mkdir answer kOk and yet
   leave a directory entry on the file's inode. The ino may well have been reserved, on the leader.
   */
  lemma UnreservedInoBreaksMkdir(a: nat, b: nat, stamp: nat)
    ensures DirectoryOnFile(AfterEvents(UploadThenMkdir(a, b, stamp)))
  {
    var evs := UploadThenMkdir(a, b, stamp);
    var up, mk := evs[0], evs[1];
    assert evs[..1] == [up] && [up][..0] == [];
    LastSlashUnique("/f", 0);
    assert AfterEvents([]) == ROOT_SPACE;
    assert Name("/f") == "f";
    var s1 := AfterEvents([up]);
    assert s1 == Apply(ROOT_SPACE, up.command, a);
    assert UploadOutcome(ROOT_SPACE, up.command.upload).Ok?;
    assert s1.nextIno == 1 && 1 in s1.inodes && !s1.inodes[1].isDir;
    assert s1.entries.Keys == {ROOT, "/f"};
    assert Join("/", "d") == "/d";
    assert MkdirOutcome(s1, mk.command.mkdir).Ok?;
  }

  // ---------------------------------------------------------------- inos handed out

  /** The ino an event hands out: to a client reserving one, or to a new directory. */
  function HandedOut(s: Space, ev: Event): seq<nat> {
    match ev
    case Execute(c, _) => if c.Mkdir? && Accepted(s, c) then [s.nextIno] else []
    case Reserve(p) => if p in s.entries then [] else [s.nextIno]
    case SnapshotReload => []
  }

  ghost function AllHandedOut(evs: seq<Event>): seq<nat> {
    if evs == [] then []
    else AllHandedOut(evs[..|evs| - 1]) + HandedOut(AfterEvents(evs[..|evs| - 1]), evs[|evs| - 1])
  }

  predicate Increasing(s: seq<nat>) {
    forall i, j :: 0 <= i < j < |s| ==> s[i] < s[j]
  }

  /** Every ino handed out so far is at most the largest one in use. */
  ghost predicate Covered(evs: seq<Event>) {
    forall i :: 0 <= i < |AllHandedOut(evs)| ==> AllHandedOut(evs)[i] <= MaxIno(AfterEvents(evs).inodes)
  }

  /** The last reload happened while some ino handed out lay above all those in use. */
  ghost predicate Shaken(evs: seq<Event>) {
    evs != [] && if evs[|evs| - 1].SnapshotReload? then !Covered(evs[..|evs| - 1]) else Shaken(evs[..|evs| - 1])
  }

  /** Nothing is handed out after such a reload. */
  ghost predicate Steady(evs: seq<Event>) {
    evs != [] ==>
      && Steady(evs[..|evs| - 1])
      && (HandedOut(AfterEvents(evs[..|evs| - 1]), evs[|evs| - 1]) != [] ==> !Shaken(evs[..|evs| - 1]))
  }

  /** The next ino lies above everything handed out, unless the last reload lowered it. */
  ghost predicate Fresher(all: seq<nat>, next: nat, shaken: bool) {
    if shaken then exists i :: 0 <= i < |all| && all[i] >= next
    else forall i :: 0 <= i < |all| ==> all[i] < next
  }

  lemma DrawNext(all: seq<nat>, next: nat, shaken: bool)
    requires Fresher(all, next, shaken)
    ensures Increasing(all + [next]) <==> Increasing(all) && !shaken
    ensures !shaken ==> Fresher(all + [next], next + 1, false)
  {
    var more := all + [next];
    assert forall i :: 0 <= i < |all| ==> more[i] == all[i];
    assert more[|all|] == next;
  }

  lemma ReloadIsFresher(evs: seq<Event>)
    ensures Fresher(AllHandedOut(evs), MaxIno(AfterEvents(evs).inodes) + 1, !Covered(evs))
  {
  }

  lemma EventMovesNextIno(s: Space, ev: Event)
    ensures ev.SnapshotReload? ==> HandedOut(s, ev) == [] && AfterEvent(s, ev).nextIno == MaxIno(s.inodes) + 1
    ensures !ev.SnapshotReload? ==>
              || (HandedOut(s, ev) == [] && AfterEvent(s, ev).nextIno == s.nextIno)
              || (HandedOut(s, ev) == [s.nextIno] && AfterEvent(s, ev).nextIno == s.nextIno + 1)
  {
  }

  /**
   Reservations and directories draw strictly increasing, hence distinct, inos exactly when nothing
   is handed out after a reload that happened while an ino was handed out above all those in use.
   */
  lemma {:induction false} InosIncreaseExactly(evs: seq<Event>)
    ensures Increasing(AllHandedOut(evs)) <==> Steady(evs)
    ensures Steady(evs) ==> Fresher(AllHandedOut(evs), AfterEvents(evs).nextIno, Shaken(evs))
  {
    hide AfterEvent, HandedOut, Covered, Increasing, Fresher;
    if evs == [] {
      NothingHandedOut();
    } else {
      var before, ev := evs[..|evs| - 1], evs[|evs| - 1];
      var s, all := AfterEvents(before), AllHandedOut(before);
      InosIncreaseExactly(before);
      EventMovesNextIno(s, ev);
      if ev.SnapshotReload? {
        assert AllHandedOut(evs) == all;
        ReloadIsFresher(before);
      } else if HandedOut(s, ev) == [] {
        assert AllHandedOut(evs) == all;
      } else if Steady(before) {
        DrawNext(all, s.nextIno, Shaken(before));
      } else {
        LongerIsNoBetter(all, [s.nextIno]);
      }
    }
  }

  lemma NothingHandedOut()
    ensures Increasing([]) && Fresher([], ROOT_SPACE.nextIno, false)
  {
  }

  lemma LongerIsNoBetter(a: seq<nat>, b: seq<nat>)
    ensures Increasing(a + b) ==> Increasing(a)
  {
    assert forall i :: 0 <= i < |a| ==> (a + b)[i] == a[i];
  }

  // ---------------------------------------------------------------- no ino twice

  predicate Distinct(s: seq<nat>) {
    forall i, j :: 0 <= i < j < |s| ==> s[i] != s[j]
  }

  lemma MaxInoGrows(s: Space, ev: Event)
    ensures MaxIno(s.inodes) <= MaxIno(AfterEvent(s, ev).inodes)
  {
    var t := AfterEvent(s, ev);
    assert forall k :: k in s.inodes ==> k in t.inodes && t.inodes[k].ino == s.inodes[k].ino;
    hide AfterEvent;
    if MaxIno(s.inodes) != 0 {
      var k :| k in s.inodes && s.inodes[k].ino == MaxIno(s.inodes);
    }
  }

  /** Above the inos in use, everything up to any ino handed out was handed out too. */
  ghost predicate Dense(all: seq<nat>, top: nat, next: nat) {
    && (forall x: nat :: top < x < next ==> x in all)
    && (forall i, x: nat :: 0 <= i < |all| && top < x <= all[i] ==> x in all)
  }

  lemma DenseAfterDraw(all: seq<nat>, top: nat, next: nat, top': nat)
    requires Dense(all, top, next) && top <= top'
    ensures Dense(all + [next], top', next + 1)
  {
    var more := all + [next];
    assert forall x :: x in all ==> x in more;
    assert more[|all|] == next;
  }

  lemma DenseAfterUse(all: seq<nat>, top: nat, next: nat, top': nat)
    requires Dense(all, top, next) && top <= top'
    ensures Dense(all, top', next)
  {
  }

  lemma DenseAfterReload(all: seq<nat>, top: nat, next: nat)
    requires Dense(all, top, next)
    ensures Dense(all, top, top + 1)
    ensures (exists i :: 0 <= i < |all| && all[i] > top) ==> top + 1 in all
  {
  }

  /** After an uncovered reload the next ino is one that was handed out before. */
  lemma {:induction false} SteadyIsDense(evs: seq<Event>)
    requires Steady(evs)
    ensures var all, s := AllHandedOut(evs), AfterEvents(evs);
            Dense(all, MaxIno(s.inodes), s.nextIno) && (Shaken(evs) ==> s.nextIno in all)
  {
    hide AfterEvent, HandedOut, Dense, Covered;
    if evs == [] {
      NothingIsDense();
    } else {
      var before, ev := evs[..|evs| - 1], evs[|evs| - 1];
      var s, all, top := AfterEvents(before), AllHandedOut(before), MaxIno(AfterEvents(before).inodes);
      SteadyIsDense(before);
      EventMovesNextIno(s, ev);
      MaxInoGrows(s, ev);
      if ev.SnapshotReload? {
        assert AllHandedOut(evs) == all;
        DenseAfterReload(all, top, s.nextIno);
        ReloadKeepsInodes(s);
        UncoveredMeans(before);
      } else if HandedOut(s, ev) == [] {
        assert AllHandedOut(evs) == all;
        DenseAfterUse(all, top, s.nextIno, MaxIno(AfterEvents(evs).inodes));
      } else {
        DenseAfterDraw(all, top, s.nextIno, MaxIno(AfterEvents(evs).inodes));
      }
    }
  }

  lemma NothingIsDense()
    ensures Dense([], MaxIno(ROOT_SPACE.inodes), ROOT_SPACE.nextIno)
  {
  }

  lemma ReloadKeepsInodes(s: Space)
    ensures AfterEvent(s, SnapshotReload).inodes == s.inodes
  {
  }

  lemma UncoveredMeans(evs: seq<Event>)
    ensures !Covered(evs) ==> exists i :: 0 <= i < |AllHandedOut(evs)| && AllHandedOut(evs)[i] > MaxIno(AfterEvents(evs).inodes)
  {
  }

  /** No ino is handed out twice under exactly the same condition. */
  lemma {:induction false} InosDistinctExactly(evs: seq<Event>)
    ensures Distinct(AllHandedOut(evs)) <==> Steady(evs)
  {
    if Steady(evs) {
      InosIncreaseExactly(evs);
      hide Steady, AllHandedOut;
    } else {
      var before, ev := evs[..|evs| - 1], evs[|evs| - 1];
      InosDistinctExactly(before);
      EventMovesNextIno(AfterEvents(before), ev);
      if Steady(before) {
        SteadyIsDense(before);
        hide AfterEvent, HandedOut, Dense;
        DrawnAgain(AllHandedOut(before), AfterEvents(before).nextIno);
      } else {
        LongerIsNotDistinct(AllHandedOut(before), HandedOut(AfterEvents(before), ev));
      }
    }
  }

  lemma DrawnAgain(all: seq<nat>, next: nat)
    requires next in all
    ensures !Distinct(all + [next])
  {
    var i :| 0 <= i < |all| && all[i] == next;
    assert (all + [next])[i] == (all + [next])[|all|];
  }

  lemma LongerIsNotDistinct(a: seq<nat>, b: seq<nat>)
    ensures Distinct(a + b) ==> Distinct(a)
  {
    assert forall i :: 0 <= i < |a| ==> (a + b)[i] == a[i];
  }

  /** Without a reload, and with reloads only when everything handed out is covered, inos increase. */
  lemma {:induction false} InosIncrease(evs: seq<Event>)
    requires forall k :: 0 <= k < |evs| && evs[k].SnapshotReload? ==> Covered(evs[..k])
    ensures Increasing(AllHandedOut(evs)) && !Shaken(evs) && Steady(evs) && AfterEvents(evs).nextIno > 0
    ensures forall i :: 0 <= i < |AllHandedOut(evs)| ==> 0 < AllHandedOut(evs)[i] < AfterEvents(evs).nextIno
  {
    InosIncreaseExactly(evs);
    if evs != [] {
      var before := evs[..|evs| - 1];
      assert forall k :: 0 <= k < |before| ==> before[..k] == evs[..k];
      InosIncrease(before);
      EventMovesNextIno(AfterEvents(before), evs[|evs| - 1]);
      hide AfterEvent, HandedOut;
    }
  }

  /**
   One reload and one reservation after a run that hands out increasing inos: they still increase
   exactly when everything handed out was covered at the reload.
   */
  lemma ReloadRepeatsExactly(evs: seq<Event>, p: string)
    requires Steady(evs) && p !in AfterEvents(evs).entries
    ensures Increasing(AllHandedOut(evs + [SnapshotReload, Reserve(p)])) <==> Covered(evs)
  {
    hide AfterEvent, HandedOut;
    var one, two := evs + [SnapshotReload], evs + [SnapshotReload, Reserve(p)];
    assert one[..|evs|] == evs && two[..|one|] == one;
    EventMovesNextIno(AfterEvents(evs), SnapshotReload);
    ReloadKeepsPaths(AfterEvents(evs));
    ReservationHandsOut(AfterEvents(one), p);
    InosIncreaseExactly(two);
  }

  lemma ReloadKeepsPaths(s: Space)
    ensures AfterEvent(s, SnapshotReload).entries == s.entries
  {
  }

  lemma ReservationHandsOut(s: Space, p: string)
    requires p !in s.entries
    ensures HandedOut(s, Reserve(p)) == [s.nextIno]
  {
  }

  /** A reload forgets an ino reserved but not yet used: the next client is handed the same one. */
  lemma ReloadRepeatsAnIno()
    ensures AllHandedOut([Reserve("/a"), SnapshotReload, Reserve("/b")]) == [1, 1]
  {
    var a, b, c := [Reserve("/a")], [Reserve("/a"), SnapshotReload], [Reserve("/a"), SnapshotReload, Reserve("/b")];
    assert a[..0] == [] && b[..1] == a && c[..2] == b;
    assert IsMaxIno(ROOT_SPACE.inodes, 0);
    MaxInoUnique(ROOT_SPACE.inodes, 0, MaxIno(ROOT_SPACE.inodes));
    assert AfterEvents(a) == ROOT_SPACE.(nextIno := 2);
    assert AfterEvents(b) == ROOT_SPACE;
    assert AllHandedOut(a) == [1];
  }
}
