/**
 `prepare_upload_file` hands out an ino on the leader only. A node that has reserved and a node
 that has only applied the same commands keep equal maps exactly until a directory is created
 after a reservation; from then on one path leads to two different inos for ever.
 */
module Reservations {
  import opened Namespace
  import opened Snapshots
  import opened Clocks

  /** What a node did to its namespace, from any state on. */
  ghost function Perform(s: Space, evs: seq<Event>): Space {
    if evs == [] then s else AfterEvent(Perform(s, evs[..|evs| - 1]), evs[|evs| - 1])
  }

  predicate NoReloads(evs: seq<Event>) {
    forall i :: 0 <= i < |evs| ==> !evs[i].SnapshotReload?
  }

  /** The commands among the events, which every node applies. */
  function CommandsOf(evs: seq<Event>): seq<Command> {
    if evs == [] then []
    else CommandsOf(evs[..|evs| - 1]) + if evs[|evs| - 1].Execute? then [evs[|evs| - 1].command] else []
  }

  predicate Reserves(s: Space, ev: Event) { ev.Reserve? && ev.remotePath !in s.entries }

  predicate MakesDir(s: Space, ev: Event) { ev.Execute? && ev.command.Mkdir? && Accepted(s, ev.command) }

  /** Some reservation was accepted. */
  ghost predicate Reserved(s: Space, evs: seq<Event>) {
    evs != [] && (Reserved(s, evs[..|evs| - 1]) || Reserves(Perform(s, evs[..|evs| - 1]), evs[|evs| - 1]))
  }

  /** Some mkdir was accepted after a reservation was. */
  ghost predicate MkdirAfterReserve(s: Space, evs: seq<Event>) {
    evs != [] && (MkdirAfterReserve(s, evs[..|evs| - 1]) ||
                  (Reserved(s, evs[..|evs| - 1]) && MakesDir(Perform(s, evs[..|evs| - 1]), evs[|evs| - 1])))
  }

  /** Equal paths and inodes, up to the stamps of files. */
  predicate MapsAgree(s: Space, t: Space) {
    EraseInodes(s.inodes) == EraseInodes(t.inodes) && EraseEntries(s.entries) == EraseEntries(t.entries)
  }

  predicate SameMaps(s: Space, t: Space) { s.inodes == t.inodes && s.entries == t.entries }

  /** One path, two inos. */
  predicate SplitAt(s: Space, t: Space, p: string) {
    p in s.entries && p in t.entries && s.entries[p].ino != t.entries[p].ino
  }

  lemma SplitDisagrees(s: Space, t: Space, p: string)
    requires SplitAt(s, t, p)
    ensures !MapsAgree(s, t)
  {
    assert EraseEntries(s.entries)[p].ino == s.entries[p].ino;
    assert EraseEntries(t.entries)[p].ino == t.entries[p].ino;
  }

  /** No command moves or removes a path. */
  lemma PathsStay(s: Space, c: Command, now: nat, p: string)
    requires p in s.entries
    ensures p in Apply(s, c, now).entries && Apply(s, c, now).entries[p] == s.entries[p]
  {
  }

  lemma SameMapsApply(s: Space, t: Space, c: Command, a: nat, b: nat)
    requires SameMaps(s, t) && (c.Upload? ==> a == b)
    ensures Accepted(s, c) == Accepted(t, c)
    ensures c.Mkdir? && Accepted(s, c) ==> Apply(s, c, a).nextIno == s.nextIno + 1 && Apply(t, c, b).nextIno == t.nextIno + 1
    ensures !(c.Mkdir? && Accepted(s, c)) ==> Apply(s, c, a).nextIno == s.nextIno && Apply(t, c, b).nextIno == t.nextIno
    ensures s.nextIno == t.nextIno || !(c.Mkdir? && Accepted(s, c)) ==> SameMaps(Apply(s, c, a), Apply(t, c, b))
  {
  }

  lemma AgreeingMapsApply(s: Space, t: Space, c: Command, a: nat, b: nat)
    requires MapsAgree(s, t)
    ensures Accepted(s, c) == Accepted(t, c)
    ensures c.Mkdir? && Accepted(s, c) ==> Apply(s, c, a).nextIno == s.nextIno + 1 && Apply(t, c, b).nextIno == t.nextIno + 1
    ensures !(c.Mkdir? && Accepted(s, c)) ==> Apply(s, c, a).nextIno == s.nextIno && Apply(t, c, b).nextIno == t.nextIno
    ensures s.nextIno == t.nextIno || !(c.Mkdir? && Accepted(s, c)) ==> MapsAgree(Apply(s, c, a), Apply(t, c, b))
  {
    EraseAccepts(s, c);
    EraseAccepts(t, c);
    EraseApply(s, c, a);
    EraseApply(t, c, b);
    hide Apply, EraseInodes, EraseEntries, Accepted;
    SameMapsApply(Erase(s), Erase(t), c, 0, 0);
  }

  lemma EraseAccepts(s: Space, c: Command)
    ensures Accepted(Erase(s), c) == Accepted(s, c)
  {
  }

  /** A mkdir applied with two different next inos. */
  lemma MkdirSplits(s: Space, t: Space, c: Command, a: nat, b: nat)
    requires c.Mkdir? && Accepted(s, c) && Accepted(t, c) && s.nextIno != t.nextIno
    ensures SplitAt(Apply(s, c, a), Apply(t, c, b), MkdirEntry(c.mkdir, 0).path)
  {
  }

  /** How a node that reserves stands to one that only applies the commands. */
  ghost predicate Standing(s: Space, evs: seq<Event>, r: Space, t: Space) {
    if MkdirAfterReserve(s, evs) then exists p :: SplitAt(r, t, p)
    else
      && MapsAgree(r, t)
      && (if Reserved(s, evs) then r.nextIno > t.nextIno else r.nextIno == t.nextIno)
  }

  lemma StandingAfter(s: Space, evs: seq<Event>, r: Space, t: Space, ev: Event, b: nat)
    requires r == Perform(s, evs) && Standing(s, evs, r, t) && !ev.SnapshotReload?
    ensures Standing(s, evs + [ev], AfterEvent(r, ev), if ev.Execute? then Apply(t, ev.command, b) else t)
  {
    hide Standing, Apply, Reload, Prepare;
    OneMoreEvent(s, evs, ev);
    if ev.Reserve? {
      ReserveStands(s, evs, r, t, ev.remotePath);
    } else if MkdirAfterReserve(s, evs) {
      SplitStands(s, evs, r, t, ev.command, ev.now, b);
    } else {
      CommandStands(s, evs, r, t, ev.command, ev.now, b);
    }
  }

  /** Whether the node has reserved, and whether it has split, after one more event. */
  lemma OneMoreEvent(s: Space, evs: seq<Event>, ev: Event)
    ensures Reserved(s, evs + [ev]) <==> Reserved(s, evs) || Reserves(Perform(s, evs), ev)
    ensures MkdirAfterReserve(s, evs + [ev]) <==>
            MkdirAfterReserve(s, evs) || (Reserved(s, evs) && MakesDir(Perform(s, evs), ev))
  {
    hide MakesDir, Reserves, AfterEvent;
    var all := evs + [ev];
    assert all[..|all| - 1] == evs && all[|all| - 1] == ev;
  }

  /** Once split, always split. */
  lemma SplitStands(s: Space, evs: seq<Event>, r: Space, t: Space, c: Command, now: nat, b: nat)
    requires Standing(s, evs, r, t) && MkdirAfterReserve(s, evs) && MkdirAfterReserve(s, evs + [Execute(c, now)])
    ensures Standing(s, evs + [Execute(c, now)], Apply(r, c, now), Apply(t, c, b))
  {
    hide Apply, MapsAgree;
    var p :| SplitAt(r, t, p);
    PathsStay(r, c, now, p);
    PathsStay(t, c, b, p);
    assert SplitAt(Apply(r, c, now), Apply(t, c, b), p);
  }

  lemma CommandStands(s: Space, evs: seq<Event>, r: Space, t: Space, c: Command, now: nat, b: nat)
    requires r == Perform(s, evs) && Standing(s, evs, r, t) && !MkdirAfterReserve(s, evs)
    requires Reserved(s, evs + [Execute(c, now)]) <==> Reserved(s, evs)
    requires MkdirAfterReserve(s, evs + [Execute(c, now)]) <==> Reserved(s, evs) && MakesDir(r, Execute(c, now))
    ensures Standing(s, evs + [Execute(c, now)], Apply(r, c, now), Apply(t, c, b))
  {
    hide Apply, MapsAgree, Accepted, Perform, Reserved, MkdirAfterReserve, SplitAt;
    AgreeingMapsApply(r, t, c, now, b);
    if Reserved(s, evs) && c.Mkdir? && Accepted(r, c) {
      MkdirSplits(r, t, c, now, b);
    }
  }

  lemma ReserveStands(s: Space, evs: seq<Event>, r: Space, t: Space, p: string)
    requires r == Perform(s, evs) && Standing(s, evs, r, t)
    requires Reserved(s, evs + [Reserve(p)]) <==> Reserved(s, evs) || p !in r.entries
    requires MkdirAfterReserve(s, evs + [Reserve(p)]) <==> MkdirAfterReserve(s, evs)
    ensures Standing(s, evs + [Reserve(p)], AfterEvent(r, Reserve(p)), t)
  {
    hide MapsAgree, Perform, Reserved, MkdirAfterReserve;
    PrepareKeepsMaps(r, p);
    SameMapsAgree(r, Prepare(r, p), t);
    if MkdirAfterReserve(s, evs) {
      var q :| SplitAt(r, t, q);
      assert SplitAt(AfterEvent(r, Reserve(p)), t, q);
    }
  }

  lemma PrepareKeepsMaps(s: Space, p: string)
    ensures SameMaps(s, Prepare(s, p))
    ensures Prepare(s, p).nextIno == if p in s.entries then s.nextIno else s.nextIno + 1
  {
  }

  lemma SameMapsAgree(s: Space, s': Space, t: Space)
    requires SameMaps(s, s')
    ensures MapsAgree(s, t) == MapsAgree(s', t)
  {
  }

  lemma {:induction false} RunStands(s: Space, t: Space, evs: seq<Event>, clock: nat -> nat, start: nat)
    requires MapsAgree(s, t) && s.nextIno == t.nextIno && NoReloads(evs)
    ensures Standing(s, evs, Perform(s, evs), ApplyAll(t, CommandsOf(evs), clock, start))
  {
    hide MapsAgree, Standing;
    if evs == [] {
      NothingHappened(s, t);
    } else {
      var before, ev := evs[..|evs| - 1], evs[|evs| - 1];
      assert evs == before + [ev];
      RunStands(s, t, before, clock, start);
      var cmds := CommandsOf(before);
      hide Apply;
      StandingAfter(s, before, Perform(s, before), ApplyAll(t, cmds, clock, start), ev, clock(start + |cmds| + 1));
      if ev.Execute? {
        ApplyAllAppend(t, cmds, ev.command, clock, start);
      } else {
        assert CommandsOf(evs) == cmds;
      }
    }
  }

  lemma NothingHappened(s: Space, t: Space)
    requires MapsAgree(s, t) && s.nextIno == t.nextIno
    ensures Standing(s, [], s, t)
  {
  }

  /**
   From agreeing states, a node that applies commands and reserves inos in any order, and one that
   only applies the same commands, end with equal paths and inodes (up to the stamps of files)
   exactly when no directory was created after a reservation. Otherwise some path leads to two
   different inos. As long as they agree, the next inos differ exactly when something was reserved.
   */
  lemma ReservationSplitsReplicas(s: Space, t: Space, evs: seq<Event>, clock: nat -> nat, start: nat)
    requires MapsAgree(s, t) && s.nextIno == t.nextIno && NoReloads(evs)
    ensures var r, u := Perform(s, evs), ApplyAll(t, CommandsOf(evs), clock, start);
            && (MapsAgree(r, u) <==> !MkdirAfterReserve(s, evs))
            && (MkdirAfterReserve(s, evs) ==> exists p :: SplitAt(r, u, p))
            && (!MkdirAfterReserve(s, evs) ==> (r.nextIno == u.nextIno <==> !Reserved(s, evs)))
  {
    hide MapsAgree, Perform, ApplyAll;
    RunStands(s, t, evs, clock, start);
    var r, u := Perform(s, evs), ApplyAll(t, CommandsOf(evs), clock, start);
    if MkdirAfterReserve(s, evs) {
      var p :| SplitAt(r, u, p);
      SplitDisagrees(r, u, p);
    }
  }

  /** Without uploads nothing is stamped by a clock, and agreeing maps are equal maps. */
  lemma {:induction false} PlainRunStands(s: Space, t: Space, evs: seq<Event>, clock: nat -> nat, start: nat)
    requires SameMaps(s, t) && s.nextIno == t.nextIno && NoReloads(evs) && NoUploads(CommandsOf(evs))
    requires !MkdirAfterReserve(s, evs)
    ensures SameMaps(Perform(s, evs), ApplyAll(t, CommandsOf(evs), clock, start))
    ensures !Reserved(s, evs) ==> Perform(s, evs) == ApplyAll(t, CommandsOf(evs), clock, start)
  {
    if evs != [] {
      var before, ev := evs[..|evs| - 1], evs[|evs| - 1];
      var cmds := CommandsOf(before);
      assert NoUploads(cmds) by {
        assert forall i :: 0 <= i < |cmds| ==> cmds[i] == CommandsOf(evs)[i];
      }
      PlainRunStands(s, t, before, clock, start);
      var r, u := Perform(s, before), ApplyAll(t, cmds, clock, start);
      hide Apply, Accepted, NoUploads, MkdirAfterReserve;
      match ev
      case Execute(c, now) =>
        assert CommandsOf(evs)[|cmds|] == c;
        SameMapsApply(r, u, c, now, clock(start + |cmds| + 1));
        ApplyAllAppend(t, cmds, c, clock, start);
      case Reserve(p) =>
        PrepareKeepsMaps(r, p);
        assert CommandsOf(evs) == cmds;
    }
  }

  // ---------------------------------------------------------------- sequences of events

  lemma {:induction false} PerformSplits(s: Space, a: seq<Event>, b: seq<Event>)
    ensures Perform(s, a + b) == Perform(Perform(s, a), b)
    ensures CommandsOf(a + b) == CommandsOf(a) + CommandsOf(b)
  {
    hide AfterEvent;
    if b == [] {
      assert a + b == a;
    } else {
      assert (a + b)[..|a + b| - 1] == a + b[..|b| - 1];
      PerformSplits(s, a, b[..|b| - 1]);
    }
  }

  lemma {:induction false} NeverReserved(s: Space, evs: seq<Event>)
    requires forall i :: 0 <= i < |evs| ==> !evs[i].Reserve?
    ensures !Reserved(s, evs) && !MkdirAfterReserve(s, evs)
  {
    if evs != [] {
      NeverReserved(s, evs[..|evs| - 1]);
    }
  }

  lemma {:induction false} UnreservedIsUnsplit(s: Space, evs: seq<Event>)
    ensures MkdirAfterReserve(s, evs) ==> Reserved(s, evs)
  {
    if evs != [] {
      UnreservedIsUnsplit(s, evs[..|evs| - 1]);
    }
  }

  // ---------------------------------------------------------------- snapshots of any log

  /** Equal maps with different next inos, or one path with two inos: what no command repairs. */
  ghost predicate ForeverApart(s: Space, t: Space) {
    (SameMaps(s, t) && s.nextIno != t.nextIno) || exists p :: SplitAt(s, t, p)
  }

  lemma ApartStays(s: Space, t: Space, c: Command, now: nat)
    requires ForeverApart(s, t)
    ensures ForeverApart(Apply(s, c, now), Apply(t, c, now))
  {
    hide Apply, Accepted, SplitAt;
    if SameMaps(s, t) && s.nextIno != t.nextIno {
      SameMapsApply(s, t, c, now, now);
      if c.Mkdir? && Accepted(s, c) {
        MkdirSplits(s, t, c, now, now);
      }
    } else {
      var p :| SplitAt(s, t, p);
      SplitStays(s, t, c, now, p);
    }
  }

  lemma SplitStays(s: Space, t: Space, c: Command, now: nat, p: string)
    requires SplitAt(s, t, p)
    ensures SplitAt(Apply(s, c, now), Apply(t, c, now), p)
  {
    PathsStay(s, c, now, p);
    PathsStay(t, c, now, p);
    hide Apply;
  }

  lemma {:induction false} ApartThroughout(s: Space, t: Space, cmds: seq<Command>, clock: nat -> nat, start: nat)
    requires ForeverApart(s, t)
    ensures ForeverApart(ApplyAll(s, cmds, clock, start), ApplyAll(t, cmds, clock, start))
  {
    hide Apply, ForeverApart;
    if cmds != [] {
      var before := cmds[..|cmds| - 1];
      ApartThroughout(s, t, before, clock, start);
      ApartStays(ApplyAll(s, before, clock, start), ApplyAll(t, before, clock, start), cmds[|cmds| - 1], clock(start + |cmds|));
    }
  }

  lemma ApartDiffers(s: Space, t: Space)
    requires ForeverApart(s, t)
    ensures s != t
  {
  }

  /**
   Snapshot plus suffix equals full replay, for every log and every cut, exactly when the highest
   ino handed out before the cut was in use at the cut.
   */
  lemma SnapshotPlusSuffixExactly(cmds: seq<Command>, k: nat, clock: nat -> nat, snap: Snapshot)
    requires k <= |cmds| && SnapshotOf(snap, Replay(cmds[..k], clock))
    ensures var s := Replay(cmds[..k], clock);
            ApplyAll(Load(snap), cmds[k..], clock, k) == Replay(cmds, clock) <==> s.nextIno == MaxIno(s.inodes) + 1
  {
    hide SnapshotOf, Load, ApplyAll, ForeverApart;
    var s := Replay(cmds[..k], clock);
    ReplayIsSound(cmds[..k], clock);
    SoundIsKeyed(s);
    LoadOfSnapshot(s, snap);
    assert cmds[..k] + cmds[k..] == cmds;
    ApplyAllSplits(ROOT_SPACE, cmds[..k], cmds[k..], clock, 0);
    if s.nextIno != MaxIno(s.inodes) + 1 {
      ReloadIsApart(s);
      ApartThroughout(Reload(s), s, cmds[k..], clock, k);
      ApartDiffers(ApplyAll(Reload(s), cmds[k..], clock, k), ApplyAll(s, cmds[k..], clock, k));
    }
  }

  lemma ReloadIsApart(s: Space)
    requires s.nextIno != MaxIno(s.inodes) + 1
    ensures ForeverApart(Reload(s), s)
  {
  }
}
