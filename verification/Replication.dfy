/**
 Log replication between one leader and one follower: the request the leader builds, what the
 follower does with it, and why the leader's bookkeeping stays true. The log base is 0.
 */
module Replication {
  import opened Basics
  import opened Namespace
  import opened Logs

  const MAX_APPEND_ENTRIES_SIZE := 64

  /** The replicated part of a node. */
  datatype Replica = Replica(log: seq<Entry>, commitIndex: nat, lastApplied: nat, space: Space)

  datatype AppendRequest = AppendRequest(prevIndex: nat, prevTerm: nat, entries: seq<Entry>, leaderCommit: nat)

  /** A refusal carries `conflict_index`; a success carries the follower's whole last index. */
  datatype AppendReply = Refused(conflict: nat) | Matched(lastIndex: nat)

  datatype Handled = Handled(replica: Replica, reply: AppendReply)

  function TermAt(log: seq<Entry>, index: nat): nat
    requires index <= |log|
  {
    if index == 0 then 0 else log[index - 1].term
  }

  function Commands(log: seq<Entry>): (cmds: seq<Command>)
    ensures |cmds| == |log|
    ensures forall i :: 0 <= i < |log| ==> cmds[i] == log[i].command
  {
    seq(|log|, i requires 0 <= i < |log| => log[i].command)
  }

  /** What the heartbeat sends to a follower whose next index is `next`. */
  function MakeRequest(leader: Replica, next: nat): AppendRequest
    requires 1 <= next <= |leader.log| + 1
  {
    AppendRequest(next - 1, TermAt(leader.log, next - 1),
                  leader.log[next - 1..Min(next - 1 + MAX_APPEND_ENTRIES_SIZE, |leader.log|)],
                  leader.commitIndex)
  }

  /**
   Raising the commit index and applying up to it. An index beyond the log would stop the node
   at the assertion of `get_entry`; then nothing is applied.
   */
  function Advance(r: Replica, commit: nat, clock: nat -> nat): Replica {
    if commit <= r.lastApplied || commit > |r.log| then r.(commitIndex := commit)
    else r.(commitIndex := commit, lastApplied := commit,
            space := ApplyAll(r.space, Commands(r.log[r.lastApplied..commit]), clock, r.lastApplied))
  }

  predicate PrevMatches(log: seq<Entry>, req: AppendRequest) {
    req.prevIndex <= |log| && req.prevTerm == TermAt(log, req.prevIndex)
  }

  /** The follower's handler, once the term is settled. */
  function OnAppend(r: Replica, req: AppendRequest, clock: nat -> nat): Handled
    requires AllAbove(req.entries, 0)
  {
    if !PrevMatches(r.log, req) then Handled(r, Refused(req.prevIndex))
    else
      var merged := r.(log := Merge(r.log, 0, req.entries));
      var applied := if req.leaderCommit > r.commitIndex
                     then Advance(merged, Min(|merged.log|, req.leaderCommit), clock) else merged;
      Handled(applied, Matched(|applied.log|))
  }

  // ---------------------------------------------------------------- two logs

  /** Log matching: entries with equal index and term have equal prefixes. */
  ghost predicate LogMatching(f: seq<Entry>, l: seq<Entry>) {
    forall i :: 0 <= i < |f| && i < |l| && f[i].term == l[i].term ==> f[..i + 1] == l[..i + 1]
  }

  /** The follower has no entry at index `next`, or one that conflicts with the leader's. */
  predicate LacksOrConflicts(f: seq<Entry>, l: seq<Entry>, next: nat) {
    |f| < next || (0 < next <= |l| && f[next - 1].term != l[next - 1].term)
  }

  /** What the leader may rely on about a follower. */
  ghost predicate Tracks(l: seq<Entry>, f: Replica, next: nat, matched: nat) {
    && Aligned(f.log, 0) && |f.log| <= |l| && LogMatching(f.log, l)
    && matched < next <= |l| + 1 && LacksOrConflicts(f.log, l, next)
    && matched <= |f.log| && f.log[..matched] == l[..matched]
    && f.lastApplied == f.commitIndex <= |f.log| && f.log[..f.lastApplied] == l[..f.lastApplied]
  }

  lemma RequestIsAligned(leader: Replica, next: nat)
    requires Aligned(leader.log, 0) && 1 <= next <= |leader.log| + 1
    ensures Aligned(MakeRequest(leader, next).entries, next - 1)
    ensures AllAbove(MakeRequest(leader, next).entries, 0)
  {
  }

  lemma PrefixFromMatch(f: seq<Entry>, l: seq<Entry>, i: nat)
    requires LogMatching(f, l) && i <= |f| && i <= |l| && TermAt(f, i) == TermAt(l, i)
    ensures f[..i] == l[..i]
  {
    if i > 0 {
      assert f[i - 1].term == l[i - 1].term;
    }
  }

  /**
   The request was built at `next` from the leader's log, as it is now or as it was when shorter,
   with a commit index the leader has passed since; an empty one found the follower not longer.
   */
  ghost predicate RequestFrom(l: seq<Entry>, commit: nat, f: seq<Entry>, req: AppendRequest, next: nat) {
    && 1 <= next && next - 1 + |req.entries| <= |l| && |req.entries| <= MAX_APPEND_ENTRIES_SIZE
    && req.prevIndex == next - 1 && req.prevTerm == TermAt(l, next - 1)
    && req.entries == l[next - 1..next - 1 + |req.entries|]
    && req.leaderCommit <= commit
    && (req.entries == [] ==> |f| < next)
  }

  lemma BuiltRequestIsFrom(leader: Replica, f: Replica, next: nat, matched: nat)
    requires Tracks(leader.log, f, next, matched)
    ensures RequestFrom(leader.log, leader.commitIndex, f.log, MakeRequest(leader, next), next)
  {
  }

  lemma LaterLogKeepsRequest(l: seq<Entry>, commit: nat, l': seq<Entry>, commit': nat, f: seq<Entry>, req: AppendRequest, next: nat)
    requires RequestFrom(l, commit, f, req, next) && l <= l' && commit <= commit'
    ensures RequestFrom(l', commit', f, req, next)
  {
    assert l'[next - 1..next - 1 + |req.entries|] == l[next - 1..next - 1 + |req.entries|];
    assert TermAt(l', next - 1) == TermAt(l, next - 1);
  }

  lemma EntriesAreAligned(l: seq<Entry>, commit: nat, f: seq<Entry>, req: AppendRequest, next: nat)
    requires Aligned(l, 0) && RequestFrom(l, commit, f, req, next)
    ensures Aligned(req.entries, next - 1) && AllAbove(req.entries, 0)
  {
  }

  /** An accepted request makes the follower's log a prefix of the leader's, up to the batch's end. */
  lemma AcceptedRequest(l: seq<Entry>, commit: nat, f: Replica, next: nat, matched: nat, req: AppendRequest)
    requires Aligned(l, 0) && Tracks(l, f, next, matched) && RequestFrom(l, commit, f.log, req, next)
    requires PrevMatches(f.log, req)
    ensures AllAbove(req.entries, 0)
    ensures Merge(f.log, 0, req.entries) == l[..next - 1 + |req.entries|]
  {
    EntriesAreAligned(l, commit, f.log, req, next);
    PrefixFromMatch(f.log, l, next - 1);
    if req.entries == [] {
      assert f.log == f.log[..next - 1];
    } else {
      assert req.entries[0] == l[next - 1];
      MergeAlignedExactly(f.log, 0, next - 1, req.entries);
    }
  }

  /** The same for the request the leader builds now. */
  lemma AcceptedBatch(leader: Replica, f: Replica, next: nat, matched: nat)
    requires Aligned(leader.log, 0) && Tracks(leader.log, f, next, matched)
    requires PrevMatches(f.log, MakeRequest(leader, next))
    ensures AllAbove(MakeRequest(leader, next).entries, 0)
    ensures Merge(f.log, 0, MakeRequest(leader, next).entries) ==
            leader.log[..Min(next - 1 + MAX_APPEND_ENTRIES_SIZE, |leader.log|)]
  {
    BuiltRequestIsFrom(leader, f, next, matched);
    AcceptedRequest(leader.log, leader.commitIndex, f, next, matched, MakeRequest(leader, next));
  }

  /** A log that is a prefix of the leader's is tracked at its end. */
  lemma PrefixTracks(l: seq<Entry>, f: Replica)
    requires Aligned(l, 0) && f.log <= l
    requires f.lastApplied == f.commitIndex <= |f.log|
    ensures Tracks(l, f, |f.log| + 1, |f.log|)
  {
  }

  lemma AdvanceKeepsLog(r: Replica, commit: nat, clock: nat -> nat)
    requires r.lastApplied == r.commitIndex <= commit <= |r.log|
    ensures var r' := Advance(r, commit, clock); r'.log == r.log && r'.lastApplied == r'.commitIndex == commit
  {
  }

  /**
   One request handled, however much the leader's log has grown since it was built. Refused: nothing
   changed and the follower still lacks or conflicts one index lower. Matched: its log is the leader's
   up to the reported index, which is the end of the batch.
   */
  lemma RequestTracks(l: seq<Entry>, commit: nat, f: Replica, next: nat, matched: nat, req: AppendRequest, clock: nat -> nat)
    requires Aligned(l, 0) && Tracks(l, f, next, matched) && RequestFrom(l, commit, f.log, req, next)
    ensures AllAbove(req.entries, 0)
    ensures var h := OnAppend(f, req, clock);
            match h.reply
            case Refused(conflict) =>
              h.replica == f && conflict == next - 1 && Tracks(l, f, conflict, matched)
            case Matched(last) =>
              && last == next - 1 + |req.entries| && h.replica.log == l[..last]
              && Tracks(l, h.replica, last + 1, last)
              && h.replica.lastApplied <= Max(f.lastApplied, req.leaderCommit)
  {
    EntriesAreAligned(l, commit, f.log, req, next);
    if PrevMatches(f.log, req) {
      AcceptedRequest(l, commit, f, next, matched, req);
      assert |f.log[..f.lastApplied]| == f.lastApplied;
      AppliedStaysBelow(l, f, next, matched);
      var merged := f.(log := Merge(f.log, 0, req.entries));
      if req.leaderCommit > f.commitIndex {
        AdvanceKeepsLog(merged, Min(|merged.log|, req.leaderCommit), clock);
      }
      PrefixTracks(l, OnAppend(f, req, clock).replica);
    } else {
      RefusalTracks(l, f, next, matched, req);
    }
  }

  /** The same for a request handled as soon as it is built. */
  lemma RoundTracks(leader: Replica, f: Replica, next: nat, matched: nat, clock: nat -> nat)
    requires Aligned(leader.log, 0) && Tracks(leader.log, f, next, matched)
    ensures AllAbove(MakeRequest(leader, next).entries, 0)
    ensures var h := OnAppend(f, MakeRequest(leader, next), clock);
            match h.reply
            case Refused(conflict) =>
              h.replica == f && conflict == next - 1 && Tracks(leader.log, f, conflict, matched)
            case Matched(last) =>
              && h.replica.log == leader.log[..last]
              && last == Min(next - 1 + MAX_APPEND_ENTRIES_SIZE, |leader.log|)
              && Tracks(leader.log, h.replica, last + 1, last)
  {
    BuiltRequestIsFrom(leader, f, next, matched);
    RequestTracks(leader.log, leader.commitIndex, f, next, matched, MakeRequest(leader, next), clock);
    hide OnAppend, Tracks;
  }

  lemma AppliedStaysBelow(l: seq<Entry>, f: Replica, next: nat, matched: nat)
    requires Tracks(l, f, next, matched)
    ensures f.lastApplied <= next - 1
  {
    assert forall k :: 0 <= k < f.lastApplied ==> f.log[..f.lastApplied][k] == l[..f.lastApplied][k];
  }

  lemma RefusalTracks(l: seq<Entry>, f: Replica, next: nat, matched: nat, req: AppendRequest)
    requires Tracks(l, f, next, matched)
    requires req.prevIndex == next - 1 && req.prevTerm == TermAt(l, next - 1) && !PrevMatches(f.log, req)
    ensures Tracks(l, f, next - 1, matched)
  {
    assert forall k :: 0 <= k < matched ==> f.log[..matched][k] == l[..matched][k];
  }

  // ---------------------------------------------------------------- where atomic rounds matter

  /**
   A reply that never reaches the leader: the follower moved, `next` did not. The leader's
   bookkeeping survives exactly when the request was refused or carried no entries; otherwise
   the next request would append the same batch again.
   */
  lemma LostReplyExactly(leader: Replica, f: Replica, next: nat, matched: nat, clock: nat -> nat)
    requires Aligned(leader.log, 0) && Tracks(leader.log, f, next, matched)
    ensures AllAbove(MakeRequest(leader, next).entries, 0)
    ensures Tracks(leader.log, OnAppend(f, MakeRequest(leader, next), clock).replica, next, matched)
       <==> !PrevMatches(f.log, MakeRequest(leader, next)) || MakeRequest(leader, next).entries == []
  {
    var l, req := leader.log, MakeRequest(leader, next);
    RoundTracks(leader, f, next, matched, clock);
    var r := OnAppend(f, req, clock).replica;
    if PrevMatches(f.log, req) {
      if req.entries == [] {
        assert next == |l| + 1 && r.log == l;
        PrefixTracks(l, r);
        assert r.log[..matched] == l[..matched];
      } else {
        assert |r.log| >= next && r.log[next - 1] == l[next - 1];
      }
    }
  }

  /** The resend after such a loss: every entry of the batch stands twice in the follower's log. */
  lemma ResendDuplicates(leader: Replica, f: Replica, next: nat)
    requires Aligned(leader.log, 0) && 1 <= next <= |leader.log|
    requires f.log == leader.log[..Min(next - 1 + MAX_APPEND_ENTRIES_SIZE, |leader.log|)]
    ensures AllAbove(MakeRequest(leader, next).entries, 0)
    ensures PrevMatches(f.log, MakeRequest(leader, next))
    ensures Merge(f.log, 0, MakeRequest(leader, next).entries) == f.log + MakeRequest(leader, next).entries
  {
    var req := MakeRequest(leader, next);
    RequestIsAligned(leader, next);
    AllPresentKeepsAll(f.log, next - 1, req.entries);
  }

  lemma {:induction false} AllPresentKeepsAll(log: seq<Entry>, at: nat, entries: seq<Entry>)
    requires AllAbove(entries, 0) && Aligned(entries, at) && at + |entries| == |log|
    requires forall k :: 0 <= k < |entries| ==> log[at + k] == entries[k]
    ensures Kept(log, 0, entries) == |log|
    decreases |entries|
  {
    if entries != [] {
      AllPresentKeepsAll(log, at + 1, entries[1..]);
    }
  }

  /**
   What an accepted request reports: never less than the end of its batch, and exactly that when the
   follower lacked or conflicted at `next`. When the batch reaches the end of the leader's log this
   decides whether the match the leader records lies within its own log.
   */
  lemma ReportIsExactly(leader: Replica, f: Replica, next: nat, clock: nat -> nat)
    requires Aligned(leader.log, 0) && 1 <= next <= |leader.log| + 1
    requires PrevMatches(f.log, MakeRequest(leader, next))
    ensures AllAbove(MakeRequest(leader, next).entries, 0)
    ensures var req, end := MakeRequest(leader, next), Min(next - 1 + MAX_APPEND_ENTRIES_SIZE, |leader.log|);
            var reply := OnAppend(f, req, clock).reply;
            && reply == Matched(|Merge(f.log, 0, req.entries)|) && reply.lastIndex >= end
            && (reply.lastIndex == end <==> LacksOrConflicts(f.log, leader.log, next))
            && (end == |leader.log| ==> (reply.lastIndex <= |leader.log| <==> LacksOrConflicts(f.log, leader.log, next)))
  {
    var req := MakeRequest(leader, next);
    RequestIsAligned(leader, next);
    KeptBound(f.log, 0, next - 1, req.entries);
    MergedLogStays(f, req, clock);
    hide OnAppend;
    if req.entries != [] {
      assert req.entries[0] == leader.log[next - 1];
    }
  }

  lemma MergedLogStays(f: Replica, req: AppendRequest, clock: nat -> nat)
    requires AllAbove(req.entries, 0) && PrevMatches(f.log, req)
    ensures OnAppend(f, req, clock).reply == Matched(|Merge(f.log, 0, req.entries)|)
  {
    hide Merge, ApplyAll;
  }

  /**
   A follower longer than the leader that agrees with it answers a heartbeat with its whole
   last index, so the leader records a match beyond its own log.
   */
  lemma LongerFollowerOvershoots(leader: Replica, f: Replica, clock: nat -> nat)
    requires leader.log < f.log
    ensures AllAbove(MakeRequest(leader, |leader.log| + 1).entries, 0)
    ensures OnAppend(f, MakeRequest(leader, |leader.log| + 1), clock).reply == Matched(|f.log|)
    ensures |f.log| > |leader.log|
  {
    assert MakeRequest(leader, |leader.log| + 1).entries == [];
    assert |leader.log| > 0 ==> f.log[|leader.log| - 1] == leader.log[|leader.log| - 1];
    MergedLogStays(f, MakeRequest(leader, |leader.log| + 1), clock);
  }
}
