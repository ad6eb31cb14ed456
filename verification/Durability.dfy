/**
 The nodes of an epoch with their stores: because the leader's bookkeeping is sound, every batch it
 sends is one that keeps a follower's store in step with its log, as far as it was saved before.
 */
module Durability {
  import opened Namespace
  import opened Logs
  import opened Persistence
  import opened Replication
  import opened Epoch

  /** Every node's store, and how much of its log is saved there below the first gap. */
  datatype Disks = Disks(stores: map<nat, Store>, saved: map<nat, nat>)

  /** The disks after a step: only a follower that accepts a request writes. */
  ghost function NextDisks(e: Epoch, d: Disks, st: Step): Disks {
    if !st.Handle? || !CanHandle(e, st.follower) || st.follower !in d.stores || st.follower !in d.saved then d
    else
      var f, log, req := st.follower, e.followers[st.follower].log, e.wire[st.follower].request;
      if !PrevMatches(log, req) then d
      else Disks(d.stores[f := StoreAfter(d.stores[f], log, 0, req.entries)],
                 d.saved[f := SavedAfter(log, 0, d.saved[f], req.entries)])
  }

  ghost function RunDisks(e: Epoch, d: Disks, steps: seq<Step>, clock: ClockOf): Disks {
    if steps == [] then d
    else
      var before := steps[..|steps| - 1];
      NextDisks(Run(e, before, clock), RunDisks(e, d, before, clock), steps[|steps| - 1])
  }

  ghost predicate BackedAt(e: Epoch, d: Disks, n: nat)
    requires n in Members(e)
  {
    n in d.stores && n in d.saved && Backed(d.stores[n], 0, Members(e)[n].log, d.saved[n])
  }

  ghost predicate AllBacked(e: Epoch, d: Disks) {
    forall n :: n in Members(e) ==> BackedAt(e, d, n)
  }

  /** What the leader knows of a follower makes its next batch start with news. */
  lemma TrackedBatchIsNews(l: seq<Entry>, commit: nat, f: Replica, next: nat, matched: nat, req: AppendRequest)
    requires Tracks(l, f, next, matched) && RequestFrom(l, commit, f.log, req, next) && PrevMatches(f.log, req)
    ensures FirstIsNews(f.log, next - 1, req.entries)
  {
  }

  /** A request from a leader whose books are true keeps the follower's store in step with its log. */
  lemma RequestKeepsBacked(l: seq<Entry>, commit: nat, f: Replica, next: nat, matched: nat, req: AppendRequest,
                           store: Store, saved: nat, clock: nat -> nat)
    requires Aligned(l, 0) && Tracks(l, f, next, matched) && RequestFrom(l, commit, f.log, req, next)
    requires Backed(store, 0, f.log, saved)
    ensures AllAbove(req.entries, 0)
    ensures var log := OnAppend(f, req, clock).replica.log;
            if PrevMatches(f.log, req)
            then Backed(StoreAfter(store, f.log, 0, req.entries), 0, log, SavedAfter(f.log, 0, saved, req.entries))
            else log == f.log
  {
    hide Backed, Merge, StoreAfter, SavedAfter, FirstIsNews, Tracks;
    EntriesAreAligned(l, commit, f.log, req, next);
    if PrevMatches(f.log, req) {
      TrackedBatchIsNews(l, commit, f, next, matched, req);
      BatchBacks(store, 0, f.log, saved, next - 1, req.entries);
    }
  }

  lemma HandleKeepsBacked(e: Epoch, d: Disks, f: nat, clock: ClockOf)
    requires Sound(e) && AllBacked(e, d) && f in e.followers && f in e.wire && e.wire[f].Asked?
    ensures AllBacked(Next(e, Handle(f), clock), NextDisks(e, d, Handle(f)))
  {
    hide Tracks, OnAppend, Backed, StoreAfter, SavedAfter, RequestFrom, Aligned, PrevMatches, AllBacked, Next;
    SoundShape(e);
    HandleEffect(e, f, clock);
    SoundAt(e, f);
    hide Sound;
    BackedHere(e, d, f);
    RequestKeepsBacked(e.leader.log, e.leader.commitIndex, e.followers[f], e.next[f], e.matched[f], e.wire[f].request,
                       d.stores[f], d.saved[f], Clock(clock, f));
    OneFollowerBacked(e, Next(e, Handle(f), clock), d, NextDisks(e, d, Handle(f)), f);
  }

  lemma BackedHere(e: Epoch, d: Disks, f: nat)
    requires AllBacked(e, d) && f in e.followers && e.self !in e.followers
    ensures f in d.stores && f in d.saved && Backed(d.stores[f], 0, e.followers[f].log, d.saved[f])
  {
    hide Backed;
    assert BackedAt(e, d, f);
  }

  lemma OneFollowerBacked(e: Epoch, e': Epoch, d: Disks, d': Disks, f: nat)
    requires AllBacked(e, d) && f in e.followers && e.self !in e.followers && f in d'.stores && f in d'.saved
    requires e'.self == e.self && e'.leader == e.leader && f in e'.followers && e'.followers == e.followers[f := e'.followers[f]]
    requires f in d.stores && f in d.saved && d'.stores == d.stores[f := d'.stores[f]] && d'.saved == d.saved[f := d'.saved[f]]
    requires Backed(d'.stores[f], 0, e'.followers[f].log, d'.saved[f])
    ensures AllBacked(e', d')
  {
    hide Backed;
    forall n | n in Members(e') ensures BackedAt(e', d', n) {
      assert n != f ==> BackedAt(e, d, n);
    }
  }

  lemma AppendKeepsBacked(e: Epoch, d: Disks, c: Command, clock: ClockOf)
    requires AllBacked(e, d)
    ensures AllBacked(Next(e, ClientAppend(c), clock), d)
  {
    hide Backed;
    var e' := Next(e, ClientAppend(c), clock);
    forall n | n in Members(e') ensures BackedAt(e', d, n) {
      assert BackedAt(e, d, n);
      if n == e.self {
        AppendStaysBacked(d.stores[n], 0, e.leader.log, d.saved[n], Entry(e.term, |e.leader.log| + 1, c));
      }
    }
  }

  /** A step that changes no log. */
  lemma SameLogsStayBacked(e: Epoch, e': Epoch, d: Disks)
    requires AllBacked(e, d) && Members(e').Keys == Members(e).Keys
    requires forall n :: n in Members(e) ==> Members(e')[n].log == Members(e)[n].log
    ensures AllBacked(e', d)
  {
    hide Backed;
    forall n | n in Members(e') ensures BackedAt(e', d, n) {
      assert BackedAt(e, d, n);
    }
  }

  /** A step that appends nothing and handles nothing changes no log and no disk. */
  lemma OtherStepsKeepLogs(e: Epoch, d: Disks, st: Step, clock: ClockOf)
    requires Sound(e) && !st.ClientAppend? && !(st.Handle? && CanHandle(e, st.follower))
    ensures var e' := Next(e, st, clock);
            && Members(e').Keys == Members(e).Keys && e'.followers.Keys == e.followers.Keys
            && (forall n :: n in Members(e) ==> Members(e')[n].log == Members(e)[n].log)
            && (forall n :: n in e.followers ==> e'.followers[n].log == e.followers[n].log)
            && NextDisks(e, d, st) == d
  {
    hide Next, Sound, NextDisks;
    FollowersAfter(e, d, st, clock);
    LeaderLogAfter(e, st, clock);
  }

  lemma FollowersAfter(e: Epoch, d: Disks, st: Step, clock: ClockOf)
    requires !(st.Handle? && CanHandle(e, st.follower))
    ensures Next(e, st, clock).followers == e.followers && Next(e, st, clock).self == e.self && NextDisks(e, d, st) == d
  {
    hide OnAppend, MakeRequest, OnReply;
    if st.Reply? && HasReply(e, st.follower) {
      ReplyKeepsLog(e.(wire := e.wire - {st.follower}), st.follower, e.wire[st.follower].reply, clock);
    }
  }

  lemma StepKeepsBacked(e: Epoch, d: Disks, st: Step, clock: ClockOf)
    requires Sound(e) && AllBacked(e, d)
    ensures AllBacked(Next(e, st, clock), NextDisks(e, d, st))
  {
    SoundShape(e);
    hide Sound, AllBacked, Next, NextDisks;
    if st.ClientAppend? {
      AppendKeepsBacked(e, d, st.command, clock);
      AppendWritesNothing(e, d, st.command);
    } else if st.Handle? && CanHandle(e, st.follower) {
      HandleKeepsBacked(e, d, st.follower, clock);
    } else {
      OtherStepsKeepLogs(e, d, st, clock);
      SameLogsStayBacked(e, Next(e, st, clock), d);
    }
  }

  lemma AppendWritesNothing(e: Epoch, d: Disks, c: Command)
    ensures NextDisks(e, d, ClientAppend(c)) == d
  {
  }

  /**
   At every point of every epoch run each node, the leader included, reads back after a restart its
   log up to the first gap in its store.
   */
  lemma EpochIsBacked(e: Epoch, d: Disks, steps: seq<Step>, clock: ClockOf, n: nat, es: seq<Entry>)
    requires Starts(e) && AllHarmless(e, steps, clock) && AllBacked(e, d) && n in Members(e)
    ensures var r, d' := Run(e, steps, clock), RunDisks(e, d, steps, clock);
            && n in Members(r) && BackedAt(r, d', n) && d'.saved[n] <= |Members(r)[n].log|
            && (Scanned(d'.stores[n], 0, es) <==> es == Members(r)[n].log[..d'.saved[n]])
  {
    hide Backed, Run, RunDisks, AllHarmless;
    BackedAlongRun(e, d, steps, clock);
    StartShape(e);
    RunKeepsPeers(e, steps, clock);
    SelfStays(e, steps, clock);
    var r, d' := Run(e, steps, clock), RunDisks(e, d, steps, clock);
    assert BackedAt(r, d', n);
    SavedIsWithin(d'.stores[n], Members(r)[n].log, d'.saved[n]);
    BackedReadsBack(d'.stores[n], 0, Members(r)[n].log, d'.saved[n], es);
  }

  lemma SavedIsWithin(store: Store, log: seq<Entry>, saved: nat)
    requires Backed(store, 0, log, saved)
    ensures saved <= |log|
  {
  }

  lemma {:induction false} BackedAlongRun(e: Epoch, d: Disks, steps: seq<Step>, clock: ClockOf)
    requires Starts(e) && AllHarmless(e, steps, clock) && AllBacked(e, d)
    ensures AllBacked(Run(e, steps, clock), RunDisks(e, d, steps, clock))
  {
    hide Next, NextDisks, AllBacked, Starts, Sound, Harmless;
    if steps != [] {
      var before := steps[..|steps| - 1];
      BackedAlongRun(e, d, before, clock);
      RunIsSound(e, before, clock);
      StepKeepsBacked(Run(e, before, clock), RunDisks(e, d, before, clock), steps[|steps| - 1], clock);
    }
  }

  // ---------------------------------------------------------------- followers saved in full

  /** Nothing of the follower's log is missing from its store. */
  ghost predicate Whole(e: Epoch, d: Disks, f: nat) {
    f in e.followers && f in d.saved && d.saved[f] == |e.followers[f].log|
  }

  lemma StepKeepsWhole(e: Epoch, d: Disks, st: Step, f: nat, clock: ClockOf)
    requires Sound(e) && Whole(e, d, f) && f in d.stores
    ensures Whole(Next(e, st, clock), NextDisks(e, d, st), f) && f in NextDisks(e, d, st).stores
  {
    hide Sound, Next, StoreAfter, SavedAfter, OnAppend;
    if st.ClientAppend? {
      AppendWritesNothing(e, d, st.command);
      AppendKeepsFollowers(e, st.command, clock);
    } else if st.Handle? && CanHandle(e, st.follower) {
      HandledIs(e, st.follower, clock);
      if st.follower == f { MergedLength(e.followers[f], e.wire[f].request, Clock(clock, f)); }
    } else {
      OtherStepsKeepLogs(e, d, st, clock);
    }
  }

  lemma AppendKeepsFollowers(e: Epoch, c: Command, clock: ClockOf)
    ensures Next(e, ClientAppend(c), clock).followers == e.followers
  {
  }

  /** A log saved in full stays so: every batch starts at or below its end. */
  lemma MergedLength(f: Replica, req: AppendRequest, clock: nat -> nat)
    requires AllAbove(req.entries, 0)
    ensures var log := OnAppend(f, req, clock).replica.log;
            |log| == if PrevMatches(f.log, req) then SavedAfter(f.log, 0, |f.log|, req.entries) else |f.log|
  {
    hide Kept, ApplyAll;
  }

  lemma {:induction false} WholeAlongRun(e: Epoch, d: Disks, steps: seq<Step>, f: nat, clock: ClockOf)
    requires Starts(e) && AllHarmless(e, steps, clock) && Whole(e, d, f) && f in d.stores
    ensures Whole(Run(e, steps, clock), RunDisks(e, d, steps, clock), f) && f in RunDisks(e, d, steps, clock).stores
  {
    hide Next, NextDisks, Starts, Sound, Harmless, Whole;
    if steps != [] {
      var before := steps[..|steps| - 1];
      WholeAlongRun(e, d, before, f, clock);
      RunIsSound(e, before, clock);
      StepKeepsWhole(Run(e, before, clock), RunDisks(e, d, before, clock), steps[|steps| - 1], f, clock);
    }
  }

  /**
   A follower whose store mirrors its log when the epoch starts reads back exactly its log at every
   point of every run.
   */
  lemma EpochIsDurable(e: Epoch, d: Disks, steps: seq<Step>, f: nat, clock: ClockOf, es: seq<Entry>)
    requires Starts(e) && AllHarmless(e, steps, clock) && AllBacked(e, d)
    requires f in e.followers && f in d.stores && Mirrors(d.stores[f], 0, e.followers[f].log)
    requires f in d.saved && d.saved[f] == |e.followers[f].log|
    ensures var r, d' := Run(e, steps, clock), RunDisks(e, d, steps, clock);
            && f in r.followers && f in d'.stores && Mirrors(d'.stores[f], 0, r.followers[f].log)
            && (Scanned(d'.stores[f], 0, es) <==> es == r.followers[f].log)
  {
    hide Mirrors, Backed, Run, RunDisks, AllHarmless, AllBacked;
    StartShape(e);
    WholeAlongRun(e, d, steps, f, clock);
    EpochIsBacked(e, d, steps, clock, f, es);
    SelfStays(e, steps, clock);
    RunKeepsPeers(e, steps, clock);
    var r, d' := Run(e, steps, clock), RunDisks(e, d, steps, clock);
    assert Members(r)[f] == r.followers[f];
    MirrorsIsBacked(d'.stores[f], 0, r.followers[f].log);
    assert r.followers[f].log[..d'.saved[f]] == r.followers[f].log;
  }

  lemma StartShape(e: Epoch)
    requires Starts(e)
    ensures e.self !in e.followers && e.wire.Keys <= e.followers.Keys
  {
  }

  // ---------------------------------------------------------------- followers saved in part

  /** The follower accepts a batch that closes the gap in its store, or cuts its log below it. */
  ghost predicate Repairs(e: Epoch, d: Disks, st: Step, f: nat) {
    && st == Handle(f) && CanHandle(e, f) && f in d.saved && f in d.stores
    && PrevMatches(e.followers[f].log, e.wire[f].request) && e.wire[f].request.entries != []
    && Kept(e.followers[f].log, 0, e.wire[f].request.entries) <= d.saved[f]
  }

  ghost predicate Repaired(e: Epoch, d: Disks, steps: seq<Step>, clock: ClockOf, f: nat) {
    steps != [] &&
      var before := steps[..|steps| - 1];
      Repaired(e, d, before, clock, f) || Repairs(Run(e, before, clock), RunDisks(e, d, before, clock), steps[|steps| - 1], f)
  }

  lemma SavedStep(e: Epoch, d: Disks, st: Step, f: nat, clock: ClockOf)
    requires Sound(e) && f in e.followers && f in d.stores && f in d.saved
    ensures var e', d' := Next(e, st, clock), NextDisks(e, d, st);
            && f in e'.followers && f in d'.stores && f in d'.saved
            && d'.saved[f] == if Repairs(e, d, st, f) then |e'.followers[f].log| else d.saved[f]
  {
    hide Sound, Next, StoreAfter, OnAppend;
    if st.ClientAppend? {
      AppendWritesNothing(e, d, st.command);
      AppendKeepsFollowers(e, st.command, clock);
    } else if st.Handle? && CanHandle(e, st.follower) {
      HandledIs(e, st.follower, clock);
      if st.follower == f { RepairLength(e.followers[f], e.wire[f].request, d.saved[f], Clock(clock, f)); }
    } else {
      OtherStepsKeepLogs(e, d, st, clock);
    }
  }

  lemma RepairLength(f: Replica, req: AppendRequest, saved: nat, clock: nat -> nat)
    requires AllAbove(req.entries, 0)
    ensures var log := OnAppend(f, req, clock).replica.log;
            PrevMatches(f.log, req) && req.entries != [] ==> |log| == Kept(f.log, 0, req.entries) + |req.entries|
  {
    hide Kept;
  }

  /**
   A follower whose store holds only a part of its log, as an ex-leader's does that appended: over every
   run it reads back that part, up to the first entry it appended itself, until it accepts a batch that
   closes the gap or cuts below it, and from then on its whole log.
   */
  lemma {:induction false} SavedExactly(e: Epoch, d: Disks, steps: seq<Step>, clock: ClockOf, f: nat)
    requires Starts(e) && AllHarmless(e, steps, clock) && f in e.followers && f in d.stores && f in d.saved
    requires d.saved[f] <= |e.followers[f].log|
    ensures var r, d' := Run(e, steps, clock), RunDisks(e, d, steps, clock);
            && f in r.followers && f in d'.stores && f in d'.saved
            && d'.saved[f] == if Repaired(e, d, steps, clock, f) then |r.followers[f].log| else d.saved[f]
  {
    hide Next, NextDisks, Starts, Sound, Harmless, Repairs, Whole;
    if steps != [] {
      var before, st := steps[..|steps| - 1], steps[|steps| - 1];
      SavedExactly(e, d, before, clock, f);
      RunIsSound(e, before, clock);
      var mid, disks := Run(e, before, clock), RunDisks(e, d, before, clock);
      SavedStep(mid, disks, st, f, clock);
      if Repaired(e, d, before, clock, f) {
        WholeHere(mid, disks, f);
        StepKeepsWhole(mid, disks, st, f, clock);
        WholeHere(Next(mid, st, clock), NextDisks(mid, disks, st), f);
      }
    }
  }

  lemma WholeHere(e: Epoch, d: Disks, f: nat)
    ensures Whole(e, d, f) <==> f in e.followers && f in d.saved && d.saved[f] == |e.followers[f].log|
  {
  }

  // ---------------------------------------------------------------- the leader's own store

  predicate NoAppends(steps: seq<Step>) {
    forall i :: 0 <= i < |steps| ==> !steps[i].ClientAppend?
  }

  lemma {:induction false} LeaderLogGrows(e: Epoch, steps: seq<Step>, clock: ClockOf)
    ensures e.leader.log <= Run(e, steps, clock).leader.log
    ensures e.leader.log == Run(e, steps, clock).leader.log <==> NoAppends(steps)
  {
    if steps != [] {
      var before, st := steps[..|steps| - 1], steps[|steps| - 1];
      LeaderLogGrows(e, before, clock);
      LeaderLogAfter(Run(e, before, clock), st, clock);
      hide Next;
      assert NoAppends(steps) <==> NoAppends(before) && !st.ClientAppend?;
    }
  }

  lemma LeaderLogAfter(e: Epoch, st: Step, clock: ClockOf)
    ensures if st.ClientAppend? then e.leader.log < Next(e, st, clock).leader.log
            else e.leader.log == Next(e, st, clock).leader.log
  {
    hide OnAppend, MakeRequest, OnReply;
    if !st.ClientAppend? { StepKeepsLeaderLog(e, st, clock); }
  }

  /**
   The leader never saves what it appends: its store, which no step of the epoch touches, mirrors
   its log at the end of a run exactly when no client's request was appended, and a restart reads
   back the log the leader had when it was elected.
   */
  lemma LeaderAppendIsNotDurable(e: Epoch, store: Store, steps: seq<Step>, clock: ClockOf, es: seq<Entry>)
    requires Mirrors(store, 0, e.leader.log)
    ensures Mirrors(store, 0, Run(e, steps, clock).leader.log) <==> NoAppends(steps)
    ensures Scanned(store, 0, es) <==> es == e.leader.log
  {
    hide Run, NoAppends, Mirrors;
    LeaderLogGrows(e, steps, clock);
    MirrorReadsBack(store, 0, e.leader.log, es);
    var l := Run(e, steps, clock).leader.log;
    if Mirrors(store, 0, l) {
      MirrorReadsBack(store, 0, l, e.leader.log);
      MirrorReadsBack(store, 0, e.leader.log, e.leader.log);
    }
  }
}
