/**
 Elections with logs. A call carries the last index and term its candidate had when it timed out, the
 voter compares them with its own when it is asked, and logs may change at any time in between. Every
 vote comes with a paper that records both sides of the comparison.
 */
module Polls {
  import opened Basics
  import opened Ballots
  import opened Elections
  import opened Replication
  import E = Epoch
  import opened Electability

  /** The end of a log. */
  datatype Tail = Tail(index: nat, term: nat)

  /** What a vote was given on: the log the call told of, and the voter's own. */
  datatype Paper = Paper(candidate: Tail, voter: Tail)

  datatype Poll = Poll(cluster: Cluster, tails: map<nat, Tail>, carried: map<Call, Tail>, papers: map<Vote, Paper>)

  /** A step of the election, the flag of a vote request being computed; or a node's log changes. */
  datatype Act = Moves(step: Step) | LogChanges(node: nat, tail: Tail)

  function TailOf(p: Poll, n: nat): Tail { if n in p.tails then p.tails[n] else Tail(0, 0) }

  function CarriedBy(p: Poll, call: Call): Tail { if call in p.carried then p.carried[call] else TailOf(p, call.candidate) }

  /** The comparison, as it is computed at the voter. */
  function Resolved(p: Poll, st: Step): Step {
    if !st.Asked? then st
    else
      var c, v := CarriedBy(p, st.call), TailOf(p, st.call.voter);
      Asked(st.call, UpToDate(c.index, c.term, v.index, v.term))
  }

  function CallOf(v: Vote): Call { Call(v.candidate, v.voter, v.term) }

  function PollNext(p: Poll, act: Act): Poll {
    match act
    case LogChanges(n, t) => p.(tails := p.tails[n := t])
    case Moves(st) =>
      var c := Elections.Next(p.cluster, Resolved(p, st));
      Poll(c, p.tails,
           map k | k in c.calls :: CarriedBy(p, k),
           map v | v in c.votes :: if v in p.papers then p.papers[v] else Paper(CarriedBy(p, CallOf(v)), TailOf(p, v.voter)))
  }

  function PollRun(p: Poll, acts: seq<Act>): Poll {
    if acts == [] then p else PollNext(PollRun(p, acts[..|acts| - 1]), acts[|acts| - 1])
  }

  ghost predicate Opens(p: Poll) { Initial(p.cluster) && p.carried == map[] && p.papers == map[] }

  /** The candidate's log ends at a larger index, or at the same one with the same term. */
  predicate InOrder(paper: Paper) {
    || paper.candidate.index > paper.voter.index
    || (paper.candidate.index == paper.voter.index && paper.candidate.term == paper.voter.term)
  }

  // ---------------------------------------------------------------- one vote request

  /**
   A node grants a vote exactly when the term is not behind its own, the candidate's log is longer or
   ends alike, and it has not voted for another in that term. Either way it answers with its own term
   after the request, which is the higher of the two, and a grant is remembered, not saved.
   */
  lemma GrantsExactly(b: Ballot, term: nat, candidate: nat, c: Tail, v: Tail)
    ensures var r := OnVoteRequest(b, term, candidate, UpToDate(c.index, c.term, v.index, v.term));
            && (r.granted <==>
                  && term >= b.term
                  && (c.index > v.index || (c.index == v.index && c.term == v.term))
                  && (term > b.term || b.votedFor.None? || b.votedFor.value == candidate))
            && r.term == r.ballot.term == Max(b.term, term)
            && (term > b.term ==> r.ballot.role.FollowerRole? && r.ballot.saved == Persistence.HardState(term, None))
            && (term <= b.term ==> r.ballot == b.(votedFor := r.ballot.votedFor))
            && r.ballot.votedFor == if r.granted then Some(candidate) else if term > b.term then None else b.votedFor
  {
  }

  lemma GrantIsInOrder(b: Ballot, term: nat, candidate: nat, c: Tail, v: Tail)
    requires OnVoteRequest(b, term, candidate, UpToDate(c.index, c.term, v.index, v.term)).granted
    ensures InOrder(Paper(c, v))
  {
    GrantsExactly(b, term, candidate, c, v);
    hide OnVoteRequest;
  }

  /** What a step adds to the votes. */
  lemma NewVotes(p: Poll, st: Step, v: Vote)
    requires v in Elections.Next(p.cluster, Resolved(p, st)).votes && v !in p.cluster.votes && v.voter != v.candidate
    ensures InOrder(Paper(CarriedBy(p, CallOf(v)), TailOf(p, v.voter)))
  {
    hide OnVoteRequest, OnVoteResponse, Timeout, UpToDate;
    if st.Asked? && st.call in p.cluster.calls && st.call.voter in p.cluster.nodes {
      var c, w := CarriedBy(p, st.call), TailOf(p, st.call.voter);
      assert v == Vote(st.call.voter, st.call.term, st.call.candidate) && CallOf(v) == st.call;
      GrantIsInOrder(p.cluster.nodes[st.call.voter], st.call.term, st.call.candidate, c, w);
    }
  }

  ghost predicate AllInOrder(p: Poll) {
    && p.papers.Keys == p.cluster.votes
    && forall v :: v in p.papers && v.voter != v.candidate ==> InOrder(p.papers[v])
  }

  lemma NextInOrder(p: Poll, act: Act)
    requires AllInOrder(p)
    ensures AllInOrder(PollNext(p, act))
  {
    hide InOrder;
    if act.Moves? {
      VotesOnlyGrow(p.cluster, Resolved(p, act.step));
      var q := PollNext(p, act);
      hide Elections.Next;
      forall v | v in q.papers && v.voter != v.candidate ensures InOrder(q.papers[v]) {
        if v !in p.cluster.votes { NewVotes(p, act.step, v); }
      }
    }
  }

  /** A run with logs is a run without, of the same cluster. */
  function Resolution(p: Poll, acts: seq<Act>): seq<Step> {
    if acts == [] then []
    else
      var before, act := acts[..|acts| - 1], acts[|acts| - 1];
      Resolution(p, before) + if act.Moves? then [Resolved(PollRun(p, before), act.step)] else []
  }

  lemma {:induction false} ResolutionRuns(p: Poll, acts: seq<Act>)
    ensures PollRun(p, acts).cluster == Elections.Run(p.cluster, Resolution(p, acts))
  {
    hide Elections.Next, Resolved;
    if acts != [] {
      var before, act := acts[..|acts| - 1], acts[|acts| - 1];
      ResolutionRuns(p, before);
      if act.Moves? {
        RunAppend(p.cluster, Resolution(p, before), Resolved(PollRun(p, before), act.step));
      } else {
        assert Resolution(p, acts) == Resolution(p, before);
      }
    }
  }

  /**
   Votes rest on logs: over every run, with logs changing and nodes restarting at any time, every vote
   for another node was given to a candidate whose log, as the call told of it, ended at a larger index
   than the voter's at that moment, or at the same index with the same term.
   */
  lemma {:induction false} VotesRestOnLogs(p: Poll, acts: seq<Act>)
    requires Opens(p)
    ensures AllInOrder(PollRun(p, acts))
  {
    hide PollNext, AllInOrder;
    if acts == [] {
      OpensInOrder(p);
    } else {
      VotesRestOnLogs(p, acts[..|acts| - 1]);
      NextInOrder(PollRun(p, acts[..|acts| - 1]), acts[|acts| - 1]);
    }
  }

  lemma OpensInOrder(p: Poll)
    requires Opens(p)
    ensures AllInOrder(p)
  {
  }

  /** The voters of a candidate in a term whose papers are in order, and the candidate itself. */
  function Backers(p: Poll, n: nat, t: nat): set<nat> {
    set v | v in p.papers && v.term == t && v.candidate == n && (v.voter == n || InOrder(p.papers[v])) :: v.voter
  }

  /** Every win over every run is backed by a majority that found the winner's log long enough. */
  lemma WinnersAreBacked(p: Poll, acts: seq<Act>, w: Win)
    requires Opens(p) && w in PollRun(p, acts).cluster.leaders
    ensures |Backers(PollRun(p, acts), w.node, w.term)| > |p.cluster.nodes| / 2
  {
    hide PollRun, Resolution, Elections.Run, InOrder;
    ResolutionRuns(p, acts);
    RunIsOrderly(p.cluster, Resolution(p, acts));
    VotesRestOnLogs(p, acts);
    var q := PollRun(p, acts);
    hide History, Traffic;
    assert Backers(q, w.node, w.term) == Voters(q.cluster, w.node, w.term);
    assert |q.cluster.nodes.Keys| == |p.cluster.nodes.Keys|;
  }

  // ---------------------------------------------------------------- while logs stand still

  predicate LogsStandStill(acts: seq<Act>) { forall i :: 0 <= i < |acts| ==> acts[i].Moves? }

  /** Calls and papers tell of the logs as they are. */
  ghost predicate TellsOf(p: Poll, tails: map<nat, Tail>) {
    && p.tails == tails
    && (forall k :: k in p.carried ==> p.carried[k] == TailOf(p, k.candidate))
    && (forall v :: v in p.papers ==> p.papers[v] == Paper(TailOf(p, v.candidate), TailOf(p, v.voter)))
  }

  lemma {:induction false} StillLogsTell(p: Poll, acts: seq<Act>)
    requires Opens(p) && LogsStandStill(acts)
    ensures TellsOf(PollRun(p, acts), p.tails)
  {
    hide PollNext, Initial, TellsOf;
    if acts == [] {
      OpensTell(p);
    } else {
      StillLogsTell(p, acts[..|acts| - 1]);
      MoveTells(PollRun(p, acts[..|acts| - 1]), acts[|acts| - 1].step, p.tails);
    }
  }

  lemma OpensTell(p: Poll)
    requires Opens(p)
    ensures TellsOf(p, p.tails)
  {
  }

  lemma MoveTells(p: Poll, st: Step, tails: map<nat, Tail>)
    requires TellsOf(p, tails)
    ensures TellsOf(PollNext(p, Moves(st)), tails)
  {
    hide Elections.Next, Resolved;
  }

  /** The nodes of an epoch, seen as electors. */
  predicate SameEnds(p: Poll, e: E.Epoch) {
    && p.cluster.nodes.Keys == E.Members(e).Keys
    && forall n :: n in E.Members(e) ==>
         TailOf(p, n) == Tail(|E.Members(e)[n].log|, TermAt(E.Members(e)[n].log, |E.Members(e)[n].log|))
  }

  /**
   Every winner is electable: whoever wins an election among the nodes of an epoch, while their logs
   stand still, is one of whom a majority finds the log up to date.
   */
  lemma WinnersAreElectable(p: Poll, acts: seq<Act>, w: Win, e: E.Epoch)
    requires Opens(p) && LogsStandStill(acts) && SameEnds(p, e) && w in PollRun(p, acts).cluster.leaders
    ensures Electable(e, w.node)
  {
    hide PollRun, Resolution, Elections.Run, Backers, Supporters, TellsOf, InOrder;
    WinnersAreBacked(p, acts, w);
    StillLogsTell(p, acts);
    ResolutionRuns(p, acts);
    RunIsOrderly(p.cluster, Resolution(p, acts));
    VotesRestOnLogs(p, acts);
    var q := PollRun(p, acts);
    hide Traffic, Tallied, Initial;
    WinnerIsMember(q.cluster, w);
    BackersSupport(p, q, w, e);
    SubsetSize(Backers(q, w.node, w.term), Supporters(e, w.node));
    assert |p.cluster.nodes.Keys| == |E.Members(e).Keys|;
  }

  lemma WinnerIsMember(c: Cluster, w: Win)
    requires History(c) && w in c.leaders
    ensures w.node in c.nodes && forall v :: v in c.votes ==> v.voter in c.nodes
  {
  }

  lemma BackersSupport(p: Poll, q: Poll, w: Win, e: E.Epoch)
    requires SameEnds(p, e) && TellsOf(q, p.tails) && AllInOrder(q) && w.node in E.Members(e)
    requires forall v :: v in q.papers ==> v.voter in E.Members(e)
    ensures Backers(q, w.node, w.term) <= Supporters(e, w.node)
  {
    forall v | v in Backers(q, w.node, w.term) ensures v in Supporters(e, w.node) {
      assert Vote(v, w.term, w.node) in q.papers;
      assert TailOf(q, v) == TailOf(p, v) && TailOf(q, w.node) == TailOf(p, w.node);
    }
  }

  // ---------------------------------------------------------------- winning

  /** In a cluster of one, a timeout makes the node leader of the next term at once. */
  lemma LoneNodeLeads(c: Cluster, n: nat)
    requires c.nodes.Keys == {n} && !c.nodes[n].role.LeaderRole?
    ensures var d := Elections.Next(c, TimesOut(n));
            n in d.nodes && d.nodes[n].role.LeaderRole? && d.nodes[n].term == c.nodes[n].term + 1
            && Win(n, c.nodes[n].term + 1) in d.leaders
  {
    assert |c.nodes.Keys| == 1;
  }

  /** Otherwise it becomes candidate of the next term, with its own vote counted and saved. */
  lemma TimeoutStands(b: Ballot, self: nat, size: nat)
    requires size > 1
    ensures Timeout(b, self, size) ==
            Ballot(b.term + 1, Some(self), 1, CandidateRole, Persistence.HardState(b.term + 1, Some(self)))
  {
  }

  function Answers(rs: seq<Reply>): seq<Step> { seq(|rs|, i requires 0 <= i < |rs| => Answered(rs[i])) }

  /** Different granted replies to node `n` in term `t`, all under way. */
  ghost predicate GrantsFor(c: Cluster, n: nat, t: nat, rs: seq<Reply>) {
    && (forall i :: 0 <= i < |rs| ==> rs[i] in c.replies && rs[i].granted && rs[i].term == t && rs[i].call.candidate == n)
    && (forall i, j :: 0 <= i < j < |rs| ==> rs[i] != rs[j])
  }

  /** After some of the grants are processed: all counted, or already won. */
  ghost predicate CountedOrWon(d: Cluster, n: nat, t: nat, votes: nat, size: nat) {
    && n in d.nodes && |d.nodes| == size && d.nodes[n].term == t
    && if d.nodes[n].role.LeaderRole? then Win(n, t) in d.leaders
       else d.nodes[n].role.CandidateRole? && d.nodes[n].votes == votes && votes <= size / 2
  }

  lemma OneMoreGrant(d: Cluster, n: nat, t: nat, votes: nat, size: nat, r: Reply)
    requires CountedOrWon(d, n, t, votes, size) && r in d.replies && r.granted && r.term == t && r.call.candidate == n
    ensures CountedOrWon(Elections.Next(d, Answered(r)), n, t, votes + 1, size)
    ensures Elections.Next(d, Answered(r)).replies == d.replies - {r}
  {
    var e := Elections.Next(d, Answered(r));
    assert e.nodes.Keys == d.nodes.Keys;
    assert |e.nodes.Keys| == |d.nodes.Keys|;
  }

  lemma {:induction false} GrantsAreCounted(c: Cluster, n: nat, t: nat, rs: seq<Reply>)
    requires n in c.nodes && CountedOrWon(c, n, t, c.nodes[n].votes, |c.nodes|) && GrantsFor(c, n, t, rs)
    ensures CountedOrWon(Elections.Run(c, Answers(rs)), n, t, c.nodes[n].votes + |rs|, |c.nodes|)
    ensures forall r :: r in c.replies && r !in rs ==> r in Elections.Run(c, Answers(rs)).replies
  {
    hide Elections.Next, CountedOrWon;
    if rs != [] {
      var before, r := rs[..|rs| - 1], rs[|rs| - 1];
      GrantsAreCounted(c, n, t, before);
      assert Answers(rs) == Answers(before) + [Answered(r)];
      RunAppend(c, Answers(before), Answered(r));
      assert rs == before + [r] && r !in before;
      OneMoreGrant(Elections.Run(c, Answers(before)), n, t, c.nodes[n].votes + |before|, |c.nodes|, r);
    }
  }

  ghost predicate NoneOverdue(c: Cluster) {
    forall n :: n in c.nodes && c.nodes[n].role.CandidateRole? ==> c.nodes[n].votes <= |c.nodes| / 2
  }

  lemma NextNoneOverdue(c: Cluster, st: Step)
    requires NoneOverdue(c)
    ensures NoneOverdue(Elections.Next(c, st))
  {
    var d := Elections.Next(c, st);
    assert d.nodes.Keys == c.nodes.Keys;
    assert |d.nodes.Keys| == |c.nodes.Keys|;
  }

  /** No candidate ever sits on a majority: the vote that makes it one makes it leader. */
  lemma {:induction false} CandidatesLackMajority(c: Cluster, steps: seq<Step>)
    requires Initial(c)
    ensures NoneOverdue(Elections.Run(c, steps))
  {
    hide Elections.Next;
    if steps != [] {
      hide NoneOverdue;
      CandidatesLackMajority(c, steps[..|steps| - 1]);
      NextNoneOverdue(Elections.Run(c, steps[..|steps| - 1]), steps[|steps| - 1]);
    }
  }

  /** A candidate whose grants, with the votes it has, make a majority is leader once they are processed. */
  lemma MajorityWins(c: Cluster, n: nat, t: nat, rs: seq<Reply>)
    requires n in c.nodes && c.nodes[n].role.CandidateRole? && c.nodes[n].term == t && c.nodes[n].votes <= |c.nodes| / 2
    requires GrantsFor(c, n, t, rs) && c.nodes[n].votes + |rs| > |c.nodes| / 2
    ensures var d := Elections.Run(c, Answers(rs));
            n in d.nodes && d.nodes[n].role.LeaderRole? && d.nodes[n].term == t && Win(n, t) in d.leaders
  {
    hide Elections.Run;
    GrantsAreCounted(c, n, t, rs);
  }

  /** A message of a higher term makes any node a follower of that term, without a vote, and is saved. */
  lemma HigherTermStepsDown(b: Ballot, term: nat, granted: bool, size: nat)
    requires term > b.term
    ensures OnTerm(b, term) == OnVoteResponse(b, term, granted, size) ==
            Ballot(term, None, 0, FollowerRole, Persistence.HardState(term, None))
    ensures OnTerm(OnTerm(b, term), b.term) == OnTerm(b, term)
  {
  }

  /** A late or refusing answer changes nothing. */
  lemma OtherAnswersChangeNothing(b: Ballot, term: nat, granted: bool, size: nat)
    requires term < b.term || (term == b.term && (!granted || b.role.LeaderRole?))
    ensures OnVoteResponse(b, term, granted, size) == OnTerm(b, term) == b
  {
  }
}
