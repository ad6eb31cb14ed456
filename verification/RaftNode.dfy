/**
 One Raft node as the program runs it: handlers that update fields, the log, the store and the
 state machine in place. Each is proved against the function of `Ballots`, `Replication`, `Epoch`
 or `Answers` that the protocol theorems are about. The log base stays 0: the only caller that
 would move it, `apply_entry`, reads the snapshot after moving it away, so it is empty.
 */
module RaftNodes {
  import opened Basics
  import opened Namespace
  import opened Logs
  import opened Persistence
  import Ballots
  import opened Replication
  import opened Quorum
  import opened Snapshots
  import Epoch
  import Answers
  import Placement
  import opened StateMachines
  import opened SnapshotTransfer

  const SNAPSHOT_INTERVAL: nat := 10

  datatype VoteRequest = VoteRequest(term: nat, candidate: nat, lastIndex: nat, lastTerm: nat)

  /** Applying the next `k` entries, one after another. */
  function Applications(k: nat): (steps: seq<Answers.Step>)
    ensures |steps| == k
  {
    if k == 0 then [] else Applications(k - 1) + [Answers.ApplyOne]
  }

  /** `space`, which holds the first `start` entries, once the first `n` are applied to it. */
  ghost function AppliedTo(space: Space, log: seq<Entry>, start: nat, n: nat, clock: nat -> nat): Space {
    if start < n <= |log| then ApplyAll(space, Commands(log[start..n]), clock, start) else space
  }

  lemma NothingApplied(l: Answers.Leader, log: seq<Entry>, start: nat, clock: nat -> nat)
    ensures Answers.Run(l, Applications(0), clock) == l
    ensures AppliedTo(l.space, log, start, start, clock) == l.space
  {
  }

  /** One more entry applied, in the sequence and in the leader's run. */
  lemma OneMoreApplied(l: Answers.Leader, log: seq<Entry>, start: nat, n: nat, clock: nat -> nat)
    requires start <= n < |log|
    ensures AppliedTo(l.space, log, start, n + 1, clock) ==
            Apply(AppliedTo(l.space, log, start, n, clock), log[n].command, clock(n + 1))
    ensures Answers.Run(l, Applications(n + 1 - start), clock) ==
            Answers.Next(Answers.Run(l, Applications(n - start), clock), Answers.ApplyOne, clock)
  {
    hide Apply, Answers.Next;
    assert Commands(log[start..n + 1]) == Commands(log[start..n]) + [log[n].command];
    ApplyAllAppend(l.space, Commands(log[start..n]), log[n].command, clock, start);
    assert Applications(n + 1 - start)[..n - start] == Applications(n - start);
  }

  /** Applying up to `commit` is what the replication model calls advancing. */
  lemma AppliedIsAdvance(r: Replica, commit: nat, clock: nat -> nat)
    requires commit <= |r.log|
    ensures var n := if r.lastApplied < commit then commit else r.lastApplied;
            Advance(r, commit, clock) ==
            r.(commitIndex := commit, lastApplied := n, space := AppliedTo(r.space, r.log, r.lastApplied, n, clock))
  {
    hide ApplyAll;
  }

  class RaftNode {
    const id: nat
    const peers: set<nat>
    const log: RaftLog
    const disk: Persister
    const machine: StateMachine
    const snapshotter: Snapshotter

    var term: nat
    var votedFor: Option<nat>
    var votes: nat
    var role: Ballots.Role
    var leaderId: Option<nat>
    var commitIndex: nat
    var lastApplied: nat
    var nextIndex: map<nat, nat>
    var matchIndex: map<nat, nat>
    var snapshotData: Bytes
    var snapshotFile: Option<Snapshot>

    ghost predicate HasHardState()
      reads disk
    {
      HARD_STATE_KEY in disk.store && disk.store[HARD_STATE_KEY].HardRecord?
    }

    ghost predicate Valid()
      reads this, log, disk
    {
      && id in peers
      && log.lastIncludedIndex == 0 && log.lastIncludedTerm == 0
      && HasHardState()
    }

    ghost function Ballot(): Ballots.Ballot
      requires HasHardState()
      reads this, disk
    {
      Ballots.Ballot(term, votedFor, votes, role, disk.store[HARD_STATE_KEY].hard)
    }

    ghost function Replica(): Replica
      reads this, log, machine
    {
      Replication.Replica(log.entries, commitIndex, lastApplied, machine.Value())
    }

    /** The node as leader, seen by its clients. */
    ghost function Serving(): Answers.Leader
      reads this, log, machine
    {
      Answers.Leader(Commands(log.entries), lastApplied, machine.Value(), machine.Front())
    }

    /** The node as leader, seen by its followers. */
    ghost function Leading(): Epoch.Epoch
      reads this, log, machine
    {
      Epoch.Epoch(id, term, Replica(), nextIndex, matchIndex, map[], map[])
    }

    /** A start: the hard state and the entries come from the store. */
    constructor (id: nat, peers: set<nat>, store: Store, hard: HardState, entries: seq<Entry>, dataNodes: seq<nat>)
      requires id in peers
      requires HARD_STATE_KEY in store && store[HARD_STATE_KEY] == HardRecord(hard)
      requires Scanned(store, 0, entries)
      ensures Valid() && fresh(log) && fresh(disk) && fresh(machine) && fresh(snapshotter)
      ensures Ballot() == Ballots.Ballot(hard.term, hard.votedFor, 0, Ballots.FollowerRole, hard)
      ensures Replica() == Replication.Replica(entries, 0, 0, ROOT_SPACE)
    {
      this.id, this.peers := id, peers;
      log := new RaftLog(0, 0, entries);
      disk := new Persister(store);
      machine := new StateMachine(dataNodes);
      snapshotter := new Snapshotter();
      term, votedFor, votes, role, leaderId := hard.term, hard.votedFor, 0, Ballots.FollowerRole, None;
      commitIndex, lastApplied := 0, 0;
      nextIndex, matchIndex, snapshotData, snapshotFile := map[], map[], [], None;
    }

    /** How a leader starts: every peer's log is taken to be as long as its own, matching nowhere yet. */
    ghost predicate NothingConfirmed()
      reads this, log
    {
      forall p :: p in peers ==>
        p in nextIndex && p in matchIndex && nextIndex[p] == |log.entries| + 1 && matchIndex[p] == 0
    }

    // -------------------------------------------------------------- terms and votes

    method IncreaseTermTo(t: nat)
      requires Valid()
      modifies this`term, this`votedFor, this`votes, this`role, disk
      ensures Valid() && Ballot() == Ballots.IncreaseTermTo(old(Ballot()), t)
      ensures disk.store == old(disk.store)[HARD_STATE_KEY := HardRecord(HardState(t, None))]
    {
      votes := 0;
      votedFor := None;
      term := t;
      role := Ballots.FollowerRole;
      disk.SaveHardState(HardState(term, votedFor));
    }

    method BecomeLeader()
      requires Valid()
      modifies this`votedFor, this`votes, this`role, this`leaderId, this`nextIndex, this`matchIndex, disk,
               snapshotter`offsets
      ensures Valid() && Ballot() == Ballots.BecomeLeader(old(Ballot()))
      ensures leaderId == Some(id) && snapshotter.offsets == Zeroed(old(snapshotter.offsets))
      ensures nextIndex.Keys == old(nextIndex.Keys) + peers && matchIndex.Keys == old(matchIndex.Keys) + peers
      ensures NothingConfirmed()
    {
      votes := 0;
      votedFor := None;
      role := Ballots.LeaderRole;
      disk.SaveHardState(HardState(term, votedFor));
      leaderId := Some(id);
      ResetProgress();
      snapshotter.ResetOffsets();
    }

    method ResetProgress()
      requires Valid()
      modifies this`nextIndex, this`matchIndex
      ensures nextIndex.Keys == old(nextIndex.Keys) + peers && matchIndex.Keys == old(matchIndex.Keys) + peers
      ensures NothingConfirmed()
    {
      var rest := peers;
      while rest != {}
        invariant rest <= peers
        invariant nextIndex.Keys == old(nextIndex.Keys) + (peers - rest)
        invariant matchIndex.Keys == old(matchIndex.Keys) + (peers - rest)
        invariant forall p :: p in peers && p !in rest ==> nextIndex[p] == |log.entries| + 1 && matchIndex[p] == 0
        decreases rest
      {
        var p :| p in rest;
        nextIndex := nextIndex[p := log.LastLogIndex() + 1];
        matchIndex := matchIndex[p := 0];
        rest := rest - {p};
      }
    }

    /** The election loop once the timeout has passed; a leader does nothing. */
    method ElectionTimeout() returns (request: Option<VoteRequest>)
      requires Valid()
      modifies this`term, this`votedFor, this`votes, this`role, this`leaderId, this`nextIndex, this`matchIndex, disk,
               snapshotter`offsets
      ensures Valid()
      ensures Ballot() == if old(role).LeaderRole? then old(Ballot()) else Ballots.Timeout(old(Ballot()), id, |peers|)
      ensures if role.LeaderRole? && !old(role).LeaderRole? then NothingConfirmed()
              else nextIndex == old(nextIndex) && matchIndex == old(matchIndex)
      ensures request == if old(role).LeaderRole? then None
                         else Some(VoteRequest(old(term) + 1, id, log.LastLogIndex(), log.LastLogTerm()))
    {
      if role.LeaderRole? {
        return None;
      }
      votes := 0;
      term := term + 1;
      votedFor := Some(id);
      role := Ballots.CandidateRole;
      disk.SaveHardState(HardState(term, votedFor));
      request := Some(VoteRequest(term, id, log.LastLogIndex(), log.LastLogTerm()));
      CountVote();
    }

    /** One more vote; a candidate with more than half of them wins. */
    method CountVote()
      requires Valid()
      modifies this`votedFor, this`votes, this`role, this`leaderId, this`nextIndex, this`matchIndex, disk,
               snapshotter`offsets
      ensures Valid()
      ensures var b := old(Ballot()).(votes := old(votes) + 1);
              Ballot() == if b.votes > |peers| / 2 && b.role.CandidateRole? then Ballots.BecomeLeader(b) else b
      ensures if role.LeaderRole? && !old(role).LeaderRole? then NothingConfirmed()
              else nextIndex == old(nextIndex) && matchIndex == old(matchIndex)
    {
      hide Zeroed, NothingConfirmed;
      votes := votes + 1;
      if votes > |peers| / 2 && role.CandidateRole? {
        BecomeLeader();
      }
    }

    method HandleVoteRequest(r: VoteRequest) returns (replyTerm: nat, granted: bool)
      requires Valid()
      modifies this`term, this`votedFor, this`votes, this`role, disk
      ensures Valid()
      ensures var upToDate := Ballots.UpToDate(r.lastIndex, r.lastTerm, log.LastLogIndex(), log.LastLogTerm());
              Ballots.VoteResult(Ballot(), replyTerm, granted) ==
              Ballots.OnVoteRequest(old(Ballot()), r.term, r.candidate, upToDate)
    {
      if r.term < term {
        return term, false;
      }
      if r.term > term {
        IncreaseTermTo(r.term);
      }
      var upToDate := false;
      if r.lastIndex > log.LastLogIndex() ||
         (r.lastIndex == log.LastLogIndex() && r.lastTerm == log.LastLogTerm()) {
        upToDate := true;
      }
      var canVote := (votedFor.None? || votedFor.value == r.candidate) && upToDate;
      if canVote {
        votedFor := Some(r.candidate);
      }
      return term, canVote;
    }

    method HandleVoteResponse(replyTerm: nat, granted: bool)
      requires Valid()
      modifies this`term, this`votedFor, this`votes, this`role, this`leaderId, this`nextIndex, this`matchIndex, disk,
               snapshotter`offsets
      ensures Valid() && Ballot() == Ballots.OnVoteResponse(old(Ballot()), replyTerm, granted, |peers|)
      ensures if role.LeaderRole? && !old(role).LeaderRole? then NothingConfirmed()
              else nextIndex == old(nextIndex) && matchIndex == old(matchIndex)
    {
      if replyTerm < term {
        return;
      }
      if replyTerm > term {
        IncreaseTermTo(replyTerm);
        return;
      }
      if role.LeaderRole? {
        return;
      }
      if granted {
        CountVote();
      }
    }

    // -------------------------------------------------------------- applying

    /** Applies up to the commit index; the leader answers clients on the way, a follower does not. */
    method ApplyEntries(clock: nat -> nat)
      requires Valid() && commitIndex <= |log.entries|
      modifies this`lastApplied, this`snapshotFile, log`lastIncludedIndex, log`lastIncludedTerm, machine
      ensures Valid()
      ensures Replica() == Advance(old(Replica()), commitIndex, clock)
      ensures role.LeaderRole? ==>
                Serving() == Answers.Run(old(Serving()), Applications(lastApplied - old(lastApplied)), clock)
      ensures lastApplied >= old(lastApplied)
      ensures !role.LeaderRole? ==> machine.Front() == old(machine.Front())
    {
      hide Apply, AppliedTo, Advance, Answers.Run, Answers.Next, Applications;
      ghost var start, was := lastApplied, Serving();
      NothingApplied(was, log.entries, start, clock);
      AppliedIsAdvance(Replica(), commitIndex, clock);
      while lastApplied < commitIndex
        invariant Valid()
        invariant start <= lastApplied && (lastApplied <= commitIndex || lastApplied == start)
        invariant machine.Value() == AppliedTo(was.space, log.entries, start, lastApplied, clock)
        invariant role.LeaderRole? ==> Serving() == Answers.Run(was, Applications(lastApplied - start), clock)
        invariant !role.LeaderRole? ==> machine.Front() == old(machine.Front())
      {
        OneMoreApplied(was, log.entries, start, lastApplied, clock);
        ApplyNext(clock);
      }
    }

    /** One turn of that loop. */
    method ApplyNext(clock: nat -> nat)
      requires Valid() && lastApplied < |log.entries|
      modifies this`lastApplied, this`snapshotFile, log`lastIncludedIndex, log`lastIncludedTerm, machine
      ensures Valid() && lastApplied == old(lastApplied) + 1
      ensures machine.Value() == Apply(old(machine.Value()), log.entries[lastApplied - 1].command, clock(lastApplied))
      ensures role.LeaderRole? ==> Serving() == Answers.Next(old(Serving()), Answers.ApplyOne, clock)
      ensures !role.LeaderRole? ==> machine.Front() == old(machine.Front())
      ensures if lastApplied % 10 == 0 then SnapshotIsCurrent() else snapshotFile == old(snapshotFile)
    {
      hide Apply, Answers.AnswerTo, Answers.Settle, SnapshotOf;
      lastApplied := lastApplied + 1;
      var e := log.GetEntry(lastApplied);
      if role.LeaderRole? {
        machine.ApplyEntry(lastApplied, e.command, clock(lastApplied));
      } else {
        machine.ApplyEntryNoResponse(e.command, clock(lastApplied));
      }
      if lastApplied % SNAPSHOT_INTERVAL == 0 {
        SnapshotNow();
      }
    }

    /**
     Writes a snapshot of what is applied and hands it to the log. The log is given what is left
     after the snapshot was moved into the file, an empty one, so its base does not change.
     */
    method SnapshotNow()
      requires Valid() && 1 <= lastApplied <= |log.entries|
      modifies log`lastIncludedIndex, log`lastIncludedTerm, this`snapshotFile
      ensures Valid() && SnapshotIsCurrent()
    {
      var snapshot := machine.TakeSnapshot(Snapshot(lastApplied, log.GetTerm(lastApplied), [], []));
      snapshotFile := Some(snapshot);
      snapshot := Snapshot(0, 0, [], []);
      log.LoadSnapshot(snapshot.lastIncludedIndex, snapshot.lastIncludedTerm);
    }

    /** The file holds the namespace as it is, with the index and term of the last applied entry. */
    ghost predicate SnapshotIsCurrent()
      reads this, log, machine
    {
      && snapshotFile.Some? && SnapshotOf(snapshotFile.value, machine.Value())
      && 1 <= lastApplied <= |log.entries| && snapshotFile.value.lastIncludedIndex == lastApplied
      && snapshotFile.value.lastIncludedTerm == log.entries[lastApplied - 1].term
    }

    // -------------------------------------------------------------- replication, follower side

    /** Drops the first conflicting entry and everything above it, from disk and from memory. */
    method DropConflict(entries: seq<Entry>)
      requires Valid() && AllAbove(entries, 0)
      modifies log`entries, disk
      ensures Valid()
      ensures var was, kept := old(log.entries), Kept(old(log.entries), 0, entries);
              && log.entries == was[..kept]
              && disk.store == if kept < |was| then Deleted(old(disk.store), kept + 1, |was| + 1) else old(disk.store)
      ensures disk.store.Keys * {HARD_STATE_KEY} == {HARD_STATE_KEY} && disk.store[HARD_STATE_KEY] == old(disk.store)[HARD_STATE_KEY]
    {
      hide Deleted;
      var i := 0;
      while i < |entries|
        invariant 0 <= i <= |entries|
        invariant log.entries == old(log.entries) && disk.store == old(disk.store)
        invariant Kept(log.entries, 0, entries) == Kept(log.entries, 0, entries[i..])
      {
        var e := entries[i];
        assert entries[i..][0] == e && entries[i..][1..] == entries[i + 1..];
        if e.index > log.LastLogIndex() {
          assert log.entries[..|log.entries|] == log.entries;
          return;
        }
        if log.GetTerm(e.index) != e.term {
          HardStateSurvives(disk.store, e.index, log.LastLogIndex() + 1);
          disk.TruncateEntries(e.index, log.LastLogIndex());
          log.TruncateFrom(e.index);
          return;
        }
        i := i + 1;
      }
      assert log.entries[..|log.entries|] == log.entries;
    }

    /**
     `None` is the reply to a stale term. Otherwise the reply, the log, what was applied and the
     store are those of the replication model.
     */
    method HandleAppendEntries(leaderTerm: nat, leader: nat, req: AppendRequest, clock: nat -> nat)
      returns (replyTerm: nat, reply: Option<AppendReply>)
      requires Valid() && AllAbove(req.entries, 0)
      modifies this`term, this`votedFor, this`votes, this`role, this`leaderId, this`commitIndex, this`lastApplied,
               this`snapshotFile, log, disk, machine
      ensures Valid() && replyTerm == term
      ensures Ballot() == Ballots.OnTerm(old(Ballot()), leaderTerm)
      ensures reply.None? <==> leaderTerm < old(term)
      ensures reply.None? ==> Replica() == old(Replica())
      ensures reply.Some? ==> Handled(Replica(), reply.value) == OnAppend(old(Replica()), req, clock)
      ensures leaderId == if reply.Some? then Some(leader) else old(leaderId)
      ensures reply.Some? && reply.value.Refused? ==>
                disk.store == old(disk.store)[HARD_STATE_KEY := disk.store[HARD_STATE_KEY]]
      ensures reply.Some? && reply.value.Matched? ==>
                disk.store == StoreAfter(old(disk.store), old(log.entries), 0, req.entries)[HARD_STATE_KEY := disk.store[HARD_STATE_KEY]]
    {
      hide Apply, ApplyAll, Merge, StoreAfter, Answers.Run, Applications;
      if leaderTerm < term {
        return term, None;
      }
      if leaderTerm > term {
        IncreaseTermTo(leaderTerm);
      }
      leaderId := Some(leader);
      var logOk := false;
      if req.prevIndex <= log.LastLogIndex() && req.prevIndex >= log.lastIncludedIndex &&
         req.prevTerm == log.GetTerm(req.prevIndex) {
        logOk := true;
      }
      if !logOk {
        return term, Some(Refused(req.prevIndex));
      }
      AppendBatch(req.entries);
      StoreIgnoresHardState(old(disk.store), disk.store[HARD_STATE_KEY], old(log.entries), req.entries);
      FollowCommit(req.leaderCommit, clock);
      return term, Some(Matched(log.LastLogIndex()));
    }

    /** Raises the commit index to the leader's, as far as the log goes, and applies. */
    method FollowCommit(leaderCommit: nat, clock: nat -> nat)
      requires Valid()
      modifies this`commitIndex, this`lastApplied, this`snapshotFile, log`lastIncludedIndex, log`lastIncludedTerm, machine
      ensures Valid()
      ensures Replica() == if leaderCommit > old(commitIndex)
                           then Advance(old(Replica()), Min(|log.entries|, leaderCommit), clock) else old(Replica())
    {
      hide Apply, ApplyAll, Answers.Run, Applications;
      if leaderCommit > commitIndex {
        commitIndex := Min(log.LastLogIndex(), leaderCommit);
        ApplyEntries(clock);
      }
    }

    method AppendBatch(entries: seq<Entry>)
      requires Valid() && AllAbove(entries, 0)
      modifies log`entries, disk
      ensures Valid()
      ensures log.entries == Merge(old(log.entries), 0, entries)
      ensures disk.store == StoreAfter(old(disk.store), old(log.entries), 0, entries)
      ensures disk.store[HARD_STATE_KEY] == old(disk.store)[HARD_STATE_KEY]
    {
      if entries != [] {
        DropConflict(entries);
        HardStateStays(disk.store, entries);
        disk.SaveEntries(entries);
        log.AppendEntries(entries);
      }
    }

    // -------------------------------------------------------------- replication, leader side

    /** What the heartbeat loop builds for one member. */
    method BuildRequest(member: nat) returns (req: AppendRequest)
      requires Valid() && member in nextIndex && 1 <= nextIndex[member] <= log.LastLogIndex() + 1
      ensures req == MakeRequest(Replica(), nextIndex[member])
      ensures var next := nextIndex[member];
              && req.prevIndex == next - 1 && req.prevTerm == log.GetTerm(next - 1) && req.leaderCommit == commitIndex
              && req.entries == log.entries[next - 1..Min(next - 1 + 64, |log.entries|)]
    {
      var next, last := nextIndex[member], log.LastLogIndex();
      var entries: seq<Entry> := [];
      if next <= last {
        var batch := Min(MAX_APPEND_ENTRIES_SIZE, last - next + 1);
        entries := log.GetEntries(next, batch);
        assert entries == log.entries[next - 1..next - 1 + batch];
      }
      req := AppendRequest(next - 1, log.GetTerm(next - 1), entries, commitIndex);
    }

    /** One request per member other than this node. */
    method Heartbeat() returns (requests: map<nat, AppendRequest>)
      requires Valid()
      requires forall m :: m in nextIndex && m != id ==> 1 <= nextIndex[m] <= |log.entries| + 1
      ensures requests.Keys == if role.LeaderRole? then nextIndex.Keys - {id} else {}
      ensures forall m :: m in requests ==> requests[m] == MakeRequest(Replica(), nextIndex[m])
    {
      requests := map[];
      if !role.LeaderRole? {
        return;
      }
      var rest := nextIndex.Keys;
      while rest != {}
        invariant rest <= nextIndex.Keys && requests.Keys == nextIndex.Keys - rest - {id}
        invariant forall m :: m in requests ==> requests[m] == MakeRequest(Replica(), nextIndex[m])
        decreases rest
      {
        var m :| m in rest;
        if m != id {
          var req := BuildRequest(m);
          requests := requests[m := req];
        }
        rest := rest - {m};
      }
    }

    /** Collects the match indices in whatever order, sorts them and takes the one at n/2. */
    method CommitCandidate() returns (q: nat)
      requires matchIndex != map[]
      ensures IsQuorumIndex(matchIndex, q)
    {
      var idxs, ks := ValuesOf(matchIndex);
      MiddleIsQuorumIndex(idxs, matchIndex, ks);
      var sorted := Sort(idxs);
      q := sorted[|sorted| / 2];
    }

    method HandleAppendResponse(from: nat, replyTerm: nat, reply: AppendReply, clock: Epoch.ClockOf)
      requires Valid()
      requires reply.Matched? ==> reply.lastIndex <= |log.entries|
      requires forall f :: f in matchIndex ==> matchIndex[f] <= |log.entries|
      modifies this`term, this`votedFor, this`votes, this`role, this`commitIndex, this`lastApplied,
               this`snapshotFile, this`nextIndex, this`matchIndex, log`lastIncludedIndex, log`lastIncludedTerm, disk, machine
      ensures Valid()
      ensures Ballot() == if old(role).LeaderRole? then Ballots.OnTerm(old(Ballot()), replyTerm) else old(Ballot())
      ensures replyTerm == old(term) && old(role).LeaderRole? ==> Leading() == Epoch.OnReply(old(Leading()), from, reply, clock)
      ensures replyTerm != old(term) || !old(role).LeaderRole? ==>
                Replica() == old(Replica()) && nextIndex == old(nextIndex) && matchIndex == old(matchIndex)
    {
      hide Advance, IsQuorumIndex, Epoch.Clock;
      if replyTerm < term || !role.LeaderRole? {
        return;
      }
      if replyTerm > term {
        IncreaseTermTo(replyTerm);
        return;
      }
      match reply {
        case Refused(conflict) =>
          nextIndex := nextIndex[from := conflict];
        case Matched(last) =>
          matchIndex := matchIndex[from := last];
          nextIndex := nextIndex[from := last + 1];
          assert from in matchIndex;
          RaiseCommit(Epoch.Clock(clock, id));
      }
    }

    /** Commits and applies what enough slots have reached. */
    method RaiseCommit(clock: nat -> nat)
      requires Valid() && matchIndex != map[]
      requires forall f :: f in matchIndex ==> matchIndex[f] <= |log.entries|
      modifies this`commitIndex, this`lastApplied, this`snapshotFile, log`lastIncludedIndex, log`lastIncludedTerm, machine
      ensures Valid()
      ensures var q := QuorumIndex(matchIndex);
              Replica() == if q > old(commitIndex) then Advance(old(Replica()), q, clock) else old(Replica())
    {
      hide Apply, ApplyAll, IsQuorumIndex, Answers.Run, Applications;
      var q := CommitCandidate();
      QuorumIndexUnique(matchIndex, q, QuorumIndex(matchIndex));
      Epoch.QuorumIsReached(matchIndex, q, |log.entries|);
      if q > commitIndex {
        commitIndex := q;
        ApplyEntries(clock);
      }
    }

    // -------------------------------------------------------------- clients

    /** Stamps, appends and files a mkdir request; a node that is not leader refuses. */
    method RequestMkdir(r: MkdirRequest, handle: nat, now: nat) returns (accepted: bool)
      requires Valid()
      modifies log`entries, machine`pending
      ensures accepted == role.LeaderRole?
      ensures !accepted ==> Serving() == old(Serving()) && log.entries == old(log.entries)
      ensures accepted ==> log.entries == old(log.entries) + [Entry(term, |old(log.entries)| + 1, Mkdir(r.(timestamp := now)))]
      ensures accepted ==> forall clock :: Serving() == Answers.Next(old(Serving()), Answers.Request(handle, Mkdir(r.(timestamp := now))), clock)
      ensures accepted ==> forall clock :: Leading() == Epoch.Next(old(Leading()), Epoch.ClientAppend(Mkdir(r.(timestamp := now))), clock)
    {
      if !role.LeaderRole? {
        return false;
      }
      var index := log.LastLogIndex() + 1;
      var e := Entry(term, index, Mkdir(r.(timestamp := now)));
      log.AppendEntry(e);
      machine.AppendRequest(index, handle);
      assert Commands(log.entries) == Commands(old(log.entries)) + [e.command];
      return true;
    }

    /** The same for an upload, which is not stamped. */
    method RequestUpload(r: UploadRequest, handle: nat) returns (accepted: bool)
      requires Valid()
      modifies log`entries, machine`pending
      ensures accepted == role.LeaderRole?
      ensures !accepted ==> Serving() == old(Serving()) && log.entries == old(log.entries)
      ensures accepted ==> log.entries == old(log.entries) + [Entry(term, |old(log.entries)| + 1, Upload(r))]
      ensures accepted ==> forall clock :: Serving() == Answers.Next(old(Serving()), Answers.Request(handle, Upload(r)), clock)
      ensures accepted ==> forall clock :: Leading() == Epoch.Next(old(Leading()), Epoch.ClientAppend(Upload(r)), clock)
    {
      if !role.LeaderRole? {
        return false;
      }
      var index := log.LastLogIndex() + 1;
      var e := Entry(term, index, Upload(r));
      log.AppendEntry(e);
      machine.AppendRequest(index, handle);
      assert Commands(log.entries) == Commands(old(log.entries)) + [e.command];
      return true;
    }

    /** Reserves an ino and places the blocks, on the leader only and without a log entry. */
    method RequestPrepareUpload(remotePath: string, blocks: seq<Block>, hash: (nat, nat) -> nat)
      returns (accepted: bool, placed: Option<seq<Block>>)
      requires Valid()
      requires |machine.dataNodes| > 0 || blocks == [] || remotePath in machine.entries
      modifies machine`nextIno
      ensures accepted == role.LeaderRole?
      ensures !accepted ==> placed.None? && Leading() == old(Leading())
      ensures accepted ==> forall clock :: Leading() == Epoch.Next(old(Leading()), Epoch.ReserveIno(remotePath), clock)
      ensures accepted ==> (placed.None? <==> remotePath in old(machine.entries))
      ensures placed.Some? ==> |placed.value| == |blocks| && forall i :: 0 <= i < |blocks| ==>
                placed.value[i] == Placement.PlacedBlock(blocks[i], old(machine.nextIno), machine.dataNodes, hash)
                && Placement.KeepsBlock(blocks[i], placed.value[i], old(machine.nextIno))
    {
      if !role.LeaderRole? {
        return false, None;
      }
      placed := machine.PrepareUpload(remotePath, blocks, hash);
      return true, placed;
    }

    // -------------------------------------------------------------- snapshots from the leader

    /** Accumulates a chunk; a complete buffer is decoded and loaded, an unreadable one dropped. */
    method HandleInstallSnapshot(leaderTerm: nat, leader: nat, c: Chunk, decode: Bytes -> Option<Snapshot>)
      returns (replyTerm: nat)
      requires Valid()
      modifies this`term, this`votedFor, this`votes, this`role, this`leaderId, this`snapshotData,
               log`lastIncludedIndex, log`lastIncludedTerm, disk, machine
      ensures replyTerm == term && HasHardState() && Ballot() == Ballots.OnTerm(old(Ballot()), leaderTerm)
      ensures leaderId == if leaderTerm < old(term) then old(leaderId) else Some(leader)
      ensures leaderTerm < old(term) ==> snapshotData == old(snapshotData) && Replica() == old(Replica()) && Valid()
      ensures leaderTerm >= old(term) ==>
                var buffer := Receive(old(snapshotData), c);
                if !c.done then snapshotData == buffer && Replica() == old(Replica()) && Valid()
                else if decode(buffer).None? then snapshotData == [] && Replica() == old(Replica()) && Valid()
                else && snapshotData == buffer && Replica() == old(Replica()).(space := Load(decode(buffer).value))
                     && log.lastIncludedIndex == decode(buffer).value.lastIncludedIndex
                     && log.lastIncludedTerm == decode(buffer).value.lastIncludedTerm
    {
      if leaderTerm < term {
        return term;
      }
      if leaderTerm > term {
        IncreaseTermTo(leaderTerm);
      }
      leaderId := Some(leader);
      if c.offset == 0 {
        snapshotData := [];
      }
      snapshotData := snapshotData + c.data;
      if !c.done {
        return term;
      }
      var decoded := decode(snapshotData);
      if decoded.None? {
        snapshotData := [];
        return term;
      }
      log.LoadSnapshot(decoded.value.lastIncludedIndex, decoded.value.lastIncludedTerm);
      machine.LoadSnapshot(decoded.value);
      return term;
    }
  }

  // ---------------------------------------------------------------- the hard state key stays apart

  lemma {:induction false} HardStateSurvives(store: Store, lo: nat, hi: nat)
    ensures HARD_STATE_KEY in Deleted(store, lo, hi) <==> HARD_STATE_KEY in store
    ensures HARD_STATE_KEY in store ==> Deleted(store, lo, hi)[HARD_STATE_KEY] == store[HARD_STATE_KEY]
    decreases hi
  {
    if lo < hi {
      KeysDistinct(hi - 1, hi - 1);
      HardStateSurvives(store, lo, hi - 1);
    }
  }

  lemma {:induction false} HardStateStays(store: Store, es: seq<Entry>)
    ensures HARD_STATE_KEY in SavedAll(store, es) <==> HARD_STATE_KEY in store
    ensures HARD_STATE_KEY in store ==> SavedAll(store, es)[HARD_STATE_KEY] == store[HARD_STATE_KEY]
  {
    if es != [] {
      KeysDistinct(es[|es| - 1].index, 0);
      HardStateStays(store, es[..|es| - 1]);
    }
  }

  lemma {:induction false} DeletedIgnoresHardState(store: Store, h: Record, lo: nat, hi: nat)
    ensures Deleted(store[HARD_STATE_KEY := h], lo, hi) == Deleted(store, lo, hi)[HARD_STATE_KEY := h]
    decreases hi
  {
    if lo < hi {
      KeysDistinct(hi - 1, hi - 1);
      DeletedIgnoresHardState(store, h, lo, hi - 1);
    }
  }

  lemma {:induction false} SavedIgnoresHardState(store: Store, h: Record, es: seq<Entry>)
    ensures SavedAll(store[HARD_STATE_KEY := h], es) == SavedAll(store, es)[HARD_STATE_KEY := h]
  {
    if es != [] {
      KeysDistinct(es[|es| - 1].index, 0);
      SavedIgnoresHardState(store, h, es[..|es| - 1]);
    }
  }

  /** Saving the hard state and handling a batch do not interfere. */
  lemma StoreIgnoresHardState(store: Store, h: Record, log: seq<Entry>, entries: seq<Entry>)
    requires AllAbove(entries, 0)
    ensures StoreAfter(store[HARD_STATE_KEY := h], log, 0, entries) == StoreAfter(store, log, 0, entries)[HARD_STATE_KEY := h]
  {
    if entries != [] {
      var kept := Kept(log, 0, entries);
      DeletedIgnoresHardState(store, h, kept + 1, |log| + 1);
      SavedIgnoresHardState(if kept < |log| then Deleted(store, kept + 1, |log| + 1) else store, h, entries);
    }
  }
}
