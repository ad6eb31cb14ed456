/**
 What each node did to its namespace, kept as a list of events beside the protocol: the entries
 it applied, and the inos it reserved while it was leader.
 */
module Accounts {
  import opened Basics
  import opened Namespace
  import opened Logs
  import opened Replication
  import opened Snapshots
  import opened Clocks
  import opened Reservations
  import opened Quorum
  import opened Epoch

  /** A namespace that held the first `from` entries, and everything done to it since. */
  datatype Account = Account(base: Space, from: nat, deeds: seq<Event>)

  function Open(r: Replica): Account { Account(r.space, r.lastApplied, []) }

  function Note(acc: Account, evs: seq<Event>): Account { acc.(deeds := acc.deeds + evs) }

  /** The space is the replay of the commands, stamps aside. */
  ghost predicate Represents(s: Space, cmds: seq<Command>) {
    && Erase(s) == Erase(Replay(cmds, NoClock))
    && (NoUploads(cmds) ==> s == Replay(cmds, NoClock))
  }

  /** The account explains the node: applying exactly the log's entries, in order, from a replayed base. */
  ghost predicate Explains(acc: Account, r: Replica, l: seq<Entry>) {
    && acc.from <= r.lastApplied <= |l|
    && r.space == Perform(acc.base, acc.deeds) && NoReloads(acc.deeds)
    && CommandsOf(acc.deeds) == Commands(l[acc.from..r.lastApplied])
    && Represents(acc.base, Commands(l[..acc.from]))
  }

  // ---------------------------------------------------------------- executing entries

  /** Applying the entries at indices a + 1 .. b of a log. */
  function Executions(log: seq<Entry>, a: nat, b: nat, clock: nat -> nat): seq<Event> {
    if a < b <= |log| then Executions(log, a, b - 1, clock) + [Execute(log[b - 1].command, clock(b))] else []
  }

  lemma {:induction false} ExecutionsExecute(log: seq<Entry>, a: nat, b: nat, clock: nat -> nat)
    ensures forall i :: 0 <= i < |Executions(log, a, b, clock)| ==> Executions(log, a, b, clock)[i].Execute?
    decreases b
  {
    if a < b <= |log| {
      ExecutionsExecute(log, a, b - 1, clock);
    }
  }

  lemma {:induction false} ExecutionsApply(s: Space, log: seq<Entry>, a: nat, b: nat, clock: nat -> nat)
    requires a <= b <= |log|
    ensures CommandsOf(Executions(log, a, b, clock)) == Commands(log[a..b])
    ensures Perform(s, Executions(log, a, b, clock)) == ApplyAll(s, Commands(log[a..b]), clock, a)
    decreases b
  {
    hide Executions, Commands, Apply, ApplyAll, Perform, CommandsOf;
    ExecutionsUnfold(s, log, a, b, clock);
    if a < b {
      var evs, cmds, c := Executions(log, a, b - 1, clock), Commands(log[a..b - 1]), log[b - 1].command;
      ExecutionsApply(s, log, a, b - 1, clock);
      OneMoreExecuted(s, evs, c, clock(b));
      ApplyAllAppend(s, cmds, c, clock, a);
    }
  }

  lemma ExecutionsUnfold(s: Space, log: seq<Entry>, a: nat, b: nat, clock: nat -> nat)
    requires a <= b
    ensures a < b <= |log| ==> Executions(log, a, b, clock) == Executions(log, a, b - 1, clock) + [Execute(log[b - 1].command, clock(b))]
    ensures a < b <= |log| ==> Commands(log[a..b]) == Commands(log[a..b - 1]) + [log[b - 1].command]
    ensures a == b ==> Executions(log, a, b, clock) == [] && (b <= |log| ==> Commands(log[a..b]) == [])
    ensures Perform(s, []) == s && CommandsOf([]) == [] && ApplyAll(s, [], clock, a) == s
  {
  }

  lemma OneMoreExecuted(s: Space, evs: seq<Event>, c: Command, now: nat)
    ensures Perform(s, evs + [Execute(c, now)]) == Apply(Perform(s, evs), c, now)
    ensures CommandsOf(evs + [Execute(c, now)]) == CommandsOf(evs) + [c]
  {
    hide Apply;
    var all := evs + [Execute(c, now)];
    assert all[..|all| - 1] == evs;
  }

  lemma CommandsSplit(l: seq<Entry>, a: nat, b: nat, c: nat)
    requires a <= b <= c <= |l|
    ensures Commands(l[a..c]) == Commands(l[a..b]) + Commands(l[b..c])
  {
  }

  lemma AdvanceIsExplained(acc: Account, r: Replica, l: seq<Entry>, commit: nat, clock: nat -> nat)
    requires Explains(acc, r, l) && commit <= |r.log| && commit <= |l| && r.log[..commit] == l[..commit]
    ensures var r' := Advance(r, commit, clock);
            Explains(Note(acc, Executions(r'.log, r.lastApplied, r'.lastApplied, clock)), r', l)
  {
    hide Represents, ApplyAll, Perform, CommandsOf, Executions, Commands;
    var a, r' := r.lastApplied, Advance(r, commit, clock);
    ExecutionsUnfold(r.space, r'.log, a, a, clock);
    assert Note(acc, []) == acc;
    if a < commit {
      var evs := Executions(r.log, a, commit, clock);
      SameMiddle(r.log, l, a, commit);
      ExecutionsApply(r.space, r.log, a, commit, clock);
      ExecutionsExecute(r.log, a, commit, clock);
      PerformSplits(acc.base, acc.deeds, evs);
      CommandsSplit(l, acc.from, a, commit);
    }
  }

  lemma SameMiddle(k: seq<Entry>, l: seq<Entry>, a: nat, b: nat)
    requires a <= b <= |k| && b <= |l| && k[..b] == l[..b]
    ensures k[a..b] == l[a..b]
  {
    assert k[a..b] == k[..b][a..] && l[a..b] == l[..b][a..];
  }

  /** Only the applied part of the log matters to an account. */
  lemma SamePrefixIsExplained(acc: Account, r: Replica, l: seq<Entry>, l': seq<Entry>)
    requires Explains(acc, r, l) && r.lastApplied <= |l'| && l'[..r.lastApplied] == l[..r.lastApplied]
    ensures Explains(acc, r, l')
  {
    hide Represents;
    var a := r.lastApplied;
    assert l'[..acc.from] == l'[..a][..acc.from] == l[..a][..acc.from] == l[..acc.from];
    assert l'[acc.from..a] == l'[..a][acc.from..] == l[..a][acc.from..] == l[acc.from..a];
  }

  lemma ReservationIsExplained(acc: Account, r: Replica, l: seq<Entry>, p: string)
    requires Explains(acc, r, l)
    ensures Explains(Note(acc, [Reserve(p)]), r.(space := Prepare(r.space, p)), l)
  {
    hide Represents;
    var evs := acc.deeds + [Reserve(p)];
    assert evs[..|evs| - 1] == acc.deeds;
  }

  // ---------------------------------------------------------------- steps of an epoch

  /** What a step makes node `n` do to its namespace. */
  ghost function Deeds(e: Epoch, st: Step, clock: ClockOf, n: nat): seq<Event> {
    if st.ReserveIno? then if n == e.self then [Reserve(st.remotePath)] else []
    else if n in Members(e) && n in Members(Next(e, st, clock)) then
      var r' := Members(Next(e, st, clock))[n];
      Executions(r'.log, Members(e)[n].lastApplied, r'.lastApplied, Clock(clock, n))
    else []
  }

  lemma FollowerIsExplained(acc: Account, l: seq<Entry>, commit: nat, f: Replica, next: nat, matched: nat, req: AppendRequest,
                            clock: nat -> nat)
    requires Aligned(l, 0) && Tracks(l, f, next, matched) && RequestFrom(l, commit, f.log, req, next)
    requires Explains(acc, f, l)
    ensures AllAbove(req.entries, 0)
    ensures var f' := OnAppend(f, req, clock).replica;
            Explains(Note(acc, Executions(f'.log, f.lastApplied, f'.lastApplied, clock)), f', l)
  {
    hide Merge, Tracks, RequestFrom, Explains, Executions, Advance, Aligned;
    EntriesAreAligned(l, commit, f.log, req, next);
    RequestEnds(l, commit, f.log, req, next);
    NothingIsNoted(acc, f.log, f.lastApplied, clock);
    if PrevMatches(f.log, req) {
      AcceptedRequest(l, commit, f, next, matched, req);
      var merged := f.(log := Merge(f.log, 0, req.entries));
      var top := Min(|merged.log|, req.leaderCommit);
      OnlyItsLogChanged(acc, f, merged.log, l);
      NothingIsNoted(acc, merged.log, f.lastApplied, clock);
      assert merged.log[..top] == l[..top];
      AdvanceIsExplained(acc, merged, l, top, clock);
    }
  }

  lemma RequestEnds(l: seq<Entry>, commit: nat, f: seq<Entry>, req: AppendRequest, next: nat)
    requires RequestFrom(l, commit, f, req, next)
    ensures 1 <= next && next - 1 + |req.entries| <= |l|
  {
  }

  lemma NothingIsNoted(acc: Account, log: seq<Entry>, a: nat, clock: nat -> nat)
    ensures Note(acc, Executions(log, a, a, clock)) == acc
  {
    assert acc.deeds + [] == acc.deeds;
  }

  /** The node and the leader's log as they were: nothing was done. */
  lemma UntouchedIsExplained(acc: Account, e: Epoch, st: Step, clock: ClockOf, n: nat)
    requires n in Members(e) && Explains(acc, Members(e)[n], e.leader.log) && !st.ReserveIno?
    requires n in Members(Next(e, st, clock)) && Members(Next(e, st, clock))[n] == Members(e)[n]
    requires Next(e, st, clock).leader.log == e.leader.log
    ensures Explains(Note(acc, Deeds(e, st, clock, n)), Members(e)[n], e.leader.log)
  {
    hide Explains, Next;
    assert Note(acc, []) == acc;
  }

  lemma HandleIsExplained(acc: Account, e: Epoch, f: nat, clock: ClockOf, n: nat)
    requires Sound(e) && f in e.followers && f in e.wire && e.wire[f].Asked?
    requires n in Members(e) && Explains(acc, Members(e)[n], e.leader.log)
    ensures var e' := Next(e, Handle(f), clock);
            n in Members(e') && Explains(Note(acc, Deeds(e, Handle(f), clock, n)), Members(e')[n], e'.leader.log)
  {
    hide Next, Explains, Tracks, OnAppend, RequestFrom, Aligned;
    SoundShape(e);
    HandleEffect(e, f, clock);
    SoundAt(e, f);
    hide Sound;
    if n == f {
      FollowerIsExplained(acc, e.leader.log, e.leader.commitIndex, e.followers[f], e.next[f], e.matched[f],
                          e.wire[f].request, Clock(clock, f));
    } else {
      UntouchedIsExplained(acc, e, Handle(f), clock, n);
    }
  }

  lemma ReplyIsExplained(acc: Account, e: Epoch, f: nat, clock: ClockOf, n: nat)
    requires Sound(e) && HasReply(e, f) && n in Members(e) && Explains(acc, Members(e)[n], e.leader.log)
    ensures var e' := Next(e, Reply(f), clock);
            n in Members(e') && Explains(Note(acc, Deeds(e, Reply(f), clock, n)), Members(e')[n], e'.leader.log)
  {
    hide Next, Explains, Sound, Advance, QuorumIndex;
    ReplyEffect(e, f, clock);
    ReplyIsSound(e, f, clock);
    var e' := Next(e, Reply(f), clock);
    if n == e.self && e'.leader != e.leader {
      LeaderIsExplained(acc, e.leader, QuorumIndex(e'.matched), Clock(clock, n));
    } else {
      UntouchedIsExplained(acc, e, Reply(f), clock, n);
    }
  }

  lemma LeaderIsExplained(acc: Account, r: Replica, q: nat, clock: nat -> nat)
    requires Explains(acc, r, r.log)
    ensures var r' := Advance(r, q, clock);
            Explains(Note(acc, Executions(r'.log, r.lastApplied, r'.lastApplied, clock)), r', r.log)
  {
    hide Explains;
    assert Note(acc, []) == acc;
    if q <= |r.log| {
      AdvanceIsExplained(acc, r, r.log, q, clock);
    } else {
      CommitAloneIsExplained(acc, r, q);
    }
  }

  lemma CommitAloneIsExplained(acc: Account, r: Replica, q: nat)
    requires Explains(acc, r, r.log)
    ensures Explains(acc, r.(commitIndex := q), r.log)
  {
  }

  lemma StepIsExplained(acc: Account, e: Epoch, st: Step, clock: ClockOf, n: nat)
    requires Sound(e) && n in Members(e) && Explains(acc, Members(e)[n], e.leader.log)
    ensures var e' := Next(e, st, clock);
            n in Members(e') && Explains(Note(acc, Deeds(e, st, clock, n)), Members(e')[n], e'.leader.log)
  {
    hide Explains, Sound, Deeds, Next;
    FlightsAreFollowers(e);
    if st.ClientAppend? {
      AppendIsExplained(acc, e, st.command, clock, n);
    } else if st.ReserveIno? {
      ReserveIsExplained(acc, e, st.remotePath, clock, n);
    } else if st.Handle? && CanHandle(e, st.follower) {
      HandleIsExplained(acc, e, st.follower, clock, n);
    } else if st.Reply? && HasReply(e, st.follower) {
      ReplyIsExplained(acc, e, st.follower, clock, n);
    } else {
      OnlyWireChanges(e, st, clock);
      UntouchedIsExplained(acc, e, st, clock, n);
    }
  }

  lemma AppendIsExplained(acc: Account, e: Epoch, c: Command, clock: ClockOf, n: nat)
    requires n in Members(e) && Explains(acc, Members(e)[n], e.leader.log)
    ensures var e' := Next(e, ClientAppend(c), clock);
            n in Members(e') && Explains(Note(acc, Deeds(e, ClientAppend(c), clock, n)), Members(e')[n], e'.leader.log)
  {
    hide Explains;
    assert Note(acc, []) == acc;
    var r, l' := Members(e)[n], e.leader.log + [Entry(e.term, |e.leader.log| + 1, c)];
    AppliedIsWithin(acc, r, e.leader.log);
    assert l'[..r.lastApplied] == e.leader.log[..r.lastApplied];
    SamePrefixIsExplained(acc, r, e.leader.log, l');
    OnlyItsLogChanged(acc, r, l', l');
  }

  lemma ReserveIsExplained(acc: Account, e: Epoch, p: string, clock: ClockOf, n: nat)
    requires n in Members(e) && Explains(acc, Members(e)[n], e.leader.log)
    ensures var e' := Next(e, ReserveIno(p), clock);
            n in Members(e') && Explains(Note(acc, Deeds(e, ReserveIno(p), clock, n)), Members(e')[n], e'.leader.log)
  {
    hide Explains;
    assert Note(acc, []) == acc;
    ReservationIsExplained(acc, Members(e)[n], e.leader.log, p);
  }

  lemma AppliedIsWithin(acc: Account, r: Replica, l: seq<Entry>)
    requires Explains(acc, r, l)
    ensures r.lastApplied <= |l|
  {
  }

  lemma OnlyItsLogChanged(acc: Account, r: Replica, log: seq<Entry>, l: seq<Entry>)
    requires Explains(acc, r, l)
    ensures Explains(acc, r.(log := log), l)
  {
  }

  // ---------------------------------------------------------------- what an account tells

  /** The part of a log that the node has applied. */
  function AppliedCommands(r: Replica, l: seq<Entry>): seq<Command>
    requires r.lastApplied <= |l|
  {
    Commands(l[..r.lastApplied])
  }

  lemma RepresentsAgrees(s: Space, cmds: seq<Command>)
    requires Represents(s, cmds)
    ensures MapsAgree(s, Replay(cmds, NoClock)) && s.nextIno == Replay(cmds, NoClock).nextIno
    ensures NoUploads(cmds) ==> s == Replay(cmds, NoClock)
  {
    hide Replay, NoUploads;
  }

  lemma UploadsSplit(a: seq<Command>, b: seq<Command>)
    requires NoUploads(a + b)
    ensures NoUploads(a) && NoUploads(b)
  {
    forall i | 0 <= i < |a| ensures !a[i].Upload? { assert (a + b)[i] == a[i]; }
    forall i | 0 <= i < |b| ensures !b[i].Upload? { assert (a + b)[|a| + i] == b[i]; }
  }

  /**
   A node's maps are those of the replayed log, up to the stamps of files, exactly when no
   directory was created on it after a reservation; they are equal to them when nothing was
   uploaded, and its next ino is the replay's exactly when it has not reserved either.
   */
  lemma AccountTells(acc: Account, r: Replica, l: seq<Entry>)
    requires Explains(acc, r, l)
    ensures var cmds, split := AppliedCommands(r, l), MkdirAfterReserve(acc.base, acc.deeds);
            var t := Replay(cmds, NoClock);
            && (MapsAgree(r.space, t) <==> !split)
            && (!split ==> (r.space.nextIno == t.nextIno <==> !Reserved(acc.base, acc.deeds)))
            && (!split && NoUploads(cmds) ==> SameMaps(r.space, t))
  {
    hide Perform, ApplyAll, MapsAgree, NoUploads, Commands;
    var first, more := Commands(l[..acc.from]), CommandsOf(acc.deeds);
    var t := Replay(first, NoClock);
    CommandsSplit(l, 0, acc.from, r.lastApplied);
    assert l[0..acc.from] == l[..acc.from] && l[0..r.lastApplied] == l[..r.lastApplied];
    assert AppliedCommands(r, l) == first + more;
    ApplyAllSplits(ROOT_SPACE, first, more, NoClock, 0);
    RepresentsAgrees(acc.base, first);
    ReservationSplitsReplicas(acc.base, t, acc.deeds, NoClock, |first|);
    if !MkdirAfterReserve(acc.base, acc.deeds) && NoUploads(first + more) {
      UploadsSplit(first, more);
      PlainRunStands(acc.base, t, acc.deeds, NoClock, |first|);
    }
  }

  /**
   Two nodes that have applied the same commands: their maps agree when both are unsplit, and
   disagree when exactly one is.
   */
  lemma AccountsCompare(a: Account, r: Replica, l: seq<Entry>, b: Account, s: Replica, k: seq<Entry>)
    requires Explains(a, r, l) && Explains(b, s, k) && AppliedCommands(r, l) == AppliedCommands(s, k)
    ensures var splitA, splitB := MkdirAfterReserve(a.base, a.deeds), MkdirAfterReserve(b.base, b.deeds);
            && (!splitA && !splitB ==> MapsAgree(r.space, s.space))
            && (splitA != splitB ==> !MapsAgree(r.space, s.space))
            && (!splitA && !splitB && NoUploads(AppliedCommands(r, l)) ==> SameMaps(r.space, s.space))
            && (!Reserved(a.base, a.deeds) && !Reserved(b.base, b.deeds) && !splitA && !splitB ==>
                  r.space.nextIno == s.space.nextIno)
  {
    hide Explains, Replay, NoUploads, Commands;
    AccountTells(a, r, l);
    AccountTells(b, s, k);
  }
}
