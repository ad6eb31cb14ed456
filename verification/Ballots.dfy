/**
 The voting half of one node: term, vote, role and the copy of term and vote on disk. Each
 function is what one handler does to it; `RaftNode` refines them.
 */
module Ballots {
  import opened Basics
  import opened Persistence

  datatype Role = LeaderRole | FollowerRole | CandidateRole

  /** `saved` is what `save_hard_state` wrote last. */
  datatype Ballot = Ballot(term: nat, votedFor: Option<nat>, votes: nat, role: Role, saved: HardState)

  function Save(b: Ballot): Ballot {
    b.(saved := HardState(b.term, b.votedFor))
  }

  function IncreaseTermTo(b: Ballot, term: nat): Ballot {
    Save(b.(term := term, votedFor := None, votes := 0, role := FollowerRole))
  }

  /** Winning clears the vote the winner gave itself, in memory and on disk. */
  function BecomeLeader(b: Ballot): Ballot {
    Save(b.(votedFor := None, votes := 0, role := LeaderRole))
  }

  /** The election timeout of a node that is not leader. */
  function Timeout(b: Ballot, self: nat, size: nat): Ballot {
    var c := Save(b.(term := b.term + 1, votedFor := Some(self), role := CandidateRole)).(votes := 1);
    if 1 > size / 2 then BecomeLeader(c) else c
  }

  /** The candidate's log counts as up to date when it is longer, or as long with the same last term. */
  predicate UpToDate(candidateIndex: nat, candidateTerm: nat, index: nat, term: nat) {
    candidateIndex > index || (candidateIndex == index && candidateTerm == term)
  }

  datatype VoteResult = VoteResult(ballot: Ballot, term: nat, granted: bool)

  /** A granted vote changes memory only; it is not saved. */
  function OnVoteRequest(b: Ballot, term: nat, candidate: nat, upToDate: bool): VoteResult {
    if term < b.term then VoteResult(b, b.term, false)
    else
      var c := if term > b.term then IncreaseTermTo(b, term) else b;
      var grant := (c.votedFor.None? || c.votedFor == Some(candidate)) && upToDate;
      VoteResult(if grant then c.(votedFor := Some(candidate)) else c, c.term, grant)
  }

  function OnVoteResponse(b: Ballot, term: nat, granted: bool, size: nat): Ballot {
    if term < b.term then b
    else if term > b.term then IncreaseTermTo(b, term)
    else if b.role.LeaderRole? || !granted then b
    else
      var c := b.(votes := b.votes + 1);
      if c.votes > size / 2 && c.role.CandidateRole? then BecomeLeader(c) else c
  }

  /** What a term seen in any append or snapshot message does. */
  function OnTerm(b: Ballot, term: nat): Ballot {
    if term > b.term then IncreaseTermTo(b, term) else b
  }

  /** A crash loses memory; a restart reads the disk. */
  function Restart(b: Ballot): Ballot {
    Ballot(b.saved.term, b.saved.votedFor, 0, FollowerRole, b.saved)
  }
}
