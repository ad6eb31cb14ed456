/**
 Elections over a whole cluster. Vote calls are messages that are delivered at most once, in
 any order, or lost; append and snapshot traffic may carry any term; nodes may restart.
 `votes` and `leaders` are history: every vote ever given and every term ever won.
 */
module Elections {
  import opened Basics
  import opened Persistence
  import opened Ballots

  /** A vote call is identified by who asks whom in which term. */
  datatype Call = Call(candidate: nat, voter: nat, term: nat)
  datatype Reply = Reply(call: Call, term: nat, granted: bool)
  datatype Vote = Vote(voter: nat, term: nat, candidate: nat)
  datatype Win = Win(node: nat, term: nat)

  datatype Cluster = Cluster(nodes: map<nat, Ballot>, calls: set<Call>, replies: set<Reply>,
                             votes: set<Vote>, leaders: set<Win>)

  datatype Step =
    | TimesOut(node: nat)
    | Asked(call: Call, upToDate: bool)
    | Answered(reply: Reply)
    | LoseCall(call: Call)
    | LoseReply(reply: Reply)
    | SeesTerm(node: nat, term: nat)
    | Restarts(node: nat)

  function Put(c: Cluster, n: nat, b: Ballot): Cluster {
    c.(nodes := c.nodes[n := b],
       leaders := if b.role.LeaderRole? then c.leaders + {Win(n, b.term)} else c.leaders)
  }

  function NewCalls(nodes: set<nat>, candidate: nat, term: nat): set<Call> {
    set v | v in nodes && v != candidate :: Call(candidate, v, term)
  }

  /** One step; a step that is not enabled changes nothing. */
  function Next(c: Cluster, st: Step): Cluster {
    match st
    case TimesOut(n) =>
      if n !in c.nodes || c.nodes[n].role.LeaderRole? then c
      else
        var b := Timeout(c.nodes[n], n, |c.nodes|);
        Put(c, n, b).(calls := c.calls + NewCalls(c.nodes.Keys, n, b.term),
                      votes := c.votes + {Vote(n, b.term, n)})
    case Asked(call, upToDate) =>
      if call !in c.calls || call.voter !in c.nodes then c
      else
        var r := OnVoteRequest(c.nodes[call.voter], call.term, call.candidate, upToDate);
        Put(c, call.voter, r.ballot).(calls := c.calls - {call},
                                      replies := c.replies + {Reply(call, r.term, r.granted)},
                                      votes := if r.granted then c.votes + {Vote(call.voter, call.term, call.candidate)} else c.votes)
    case Answered(r) =>
      if r !in c.replies || r.call.candidate !in c.nodes then c
      else Put(c, r.call.candidate, OnVoteResponse(c.nodes[r.call.candidate], r.term, r.granted, |c.nodes|))
             .(replies := c.replies - {r})
    case LoseCall(call) => c.(calls := c.calls - {call})
    case LoseReply(r) => c.(replies := c.replies - {r})
    case SeesTerm(n, term) => if n !in c.nodes then c else Put(c, n, OnTerm(c.nodes[n], term))
    case Restarts(n) => if n !in c.nodes then c else Put(c, n, Restart(c.nodes[n]))
  }

  function Run(c: Cluster, steps: seq<Step>): Cluster {
    if steps == [] then c else Next(Run(c, steps[..|steps| - 1]), steps[|steps| - 1])
  }

  /** A cluster before its first election; nodes may have any term, saved, and no vote. */
  ghost predicate Initial(c: Cluster) {
    && c.calls == {} && c.replies == {} && c.votes == {} && c.leaders == {}
    && forall n :: n in c.nodes ==>
         var b := c.nodes[n];
         b.role.FollowerRole? && b.votes == 0 && b.votedFor.None? && b.saved == HardState(b.term, None)
  }

  // ---------------------------------------------------------------- terms

  ghost predicate TermsSaved(c: Cluster) {
    forall n :: n in c.nodes ==> c.nodes[n].saved.term == c.nodes[n].term
  }

  lemma NextKeepsTerms(c: Cluster, st: Step)
    requires TermsSaved(c)
    ensures TermsSaved(Next(c, st)) && Next(c, st).nodes.Keys == c.nodes.Keys
    ensures forall n :: n in c.nodes ==> c.nodes[n].term <= Next(c, st).nodes[n].term
  {
  }

  /** Terms never go backwards, over any run with any restarts: the disk always has the term in memory. */
  lemma {:induction false} TermsNeverGoBack(c: Cluster, steps: seq<Step>)
    requires TermsSaved(c)
    ensures TermsSaved(Run(c, steps)) && Run(c, steps).nodes.Keys == c.nodes.Keys
    ensures forall n :: n in c.nodes ==> c.nodes[n].term <= Run(c, steps).nodes[n].term
  {
    if steps != [] {
      var before := steps[..|steps| - 1];
      TermsNeverGoBack(c, before);
      NextKeepsTerms(Run(c, before), steps[|steps| - 1]);
    }
  }

  // ---------------------------------------------------------------- bookkeeping of messages

  /** Votes and wins lie in the past of their node, wins come with the winner's own vote. */
  ghost predicate History(c: Cluster) {
    && TermsSaved(c)
    && (forall v :: v in c.votes ==> v.voter in c.nodes && v.term <= c.nodes[v.voter].term)
    && (forall v :: v in c.votes ==> v.candidate in c.nodes && v.term <= c.nodes[v.candidate].term)
    && (forall w :: w in c.leaders ==> w.node in c.nodes && w.term <= c.nodes[w.node].term)
    && (forall w :: w in c.leaders ==> Vote(w.node, w.term, w.node) in c.votes)
    && (forall n :: n in c.nodes && c.nodes[n].role.LeaderRole? ==> Win(n, c.nodes[n].term) in c.leaders)
    && (forall n :: n in c.nodes && c.nodes[n].role.CandidateRole? ==> Vote(n, c.nodes[n].term, n) in c.votes)
  }

  /** A call not yet answered has given no vote; a granted reply stands for a vote given. */
  ghost predicate Traffic(c: Cluster) {
    && (forall k :: k in c.calls ==> Known(c, k))
    && (forall k :: k in c.calls ==> Vote(k.voter, k.term, k.candidate) !in c.votes)
    && (forall r :: r in c.replies ==> Known(c, r.call) && r.call !in c.calls)
    && (forall r :: r in c.replies && r.granted ==>
          r.term == r.call.term && Vote(r.call.voter, r.call.term, r.call.candidate) in c.votes)
  }

  /** Calls go between two different nodes, in a term their candidate has reached. */
  ghost predicate Known(c: Cluster, k: Call) {
    && k.candidate in c.nodes && k.voter in c.nodes && k.voter != k.candidate
    && k.term <= c.nodes[k.candidate].term
  }

  /** Every step replaces at most one node's ballot and adds at most one vote: what keeps the history. */
  ghost predicate Lawful(c: Cluster, n: nat, b: Ballot, votes: set<Vote>) {
    && n in c.nodes && c.nodes[n].term <= b.term && b.saved.term == b.term
    && c.votes <= votes
    && (forall v :: v in votes && v !in c.votes ==> v.voter == n && v.term <= b.term)
    && (forall v :: v in votes && v !in c.votes ==>
          v.candidate in c.nodes && v.term <= if v.candidate == n then b.term else c.nodes[v.candidate].term)
    && (b.role.LeaderRole? || b.role.CandidateRole? ==> Vote(n, b.term, n) in votes)
  }

  lemma PutKeepsHistory(c: Cluster, n: nat, b: Ballot, votes: set<Vote>, d: Cluster)
    requires History(c) && Lawful(c, n, b, votes)
    requires d.nodes == c.nodes[n := b] && d.leaders == Put(c, n, b).leaders && d.votes == votes
    ensures History(d)
  {
  }

  lemma TimeoutIsLawful(c: Cluster, n: nat)
    requires History(c) && n in c.nodes && !c.nodes[n].role.LeaderRole?
    ensures var b := Timeout(c.nodes[n], n, |c.nodes|);
            Lawful(c, n, b, c.votes + {Vote(n, b.term, n)})
  {
  }

  lemma AskedIsLawful(c: Cluster, call: Call, upToDate: bool)
    requires History(c) && Traffic(c) && call in c.calls
    ensures var r := OnVoteRequest(c.nodes[call.voter], call.term, call.candidate, upToDate);
            && Lawful(c, call.voter, r.ballot, if r.granted then c.votes + {Vote(call.voter, call.term, call.candidate)} else c.votes)
            && (r.granted ==> r.term == call.term == r.ballot.term)
  {
    assert Known(c, call);
  }

  lemma AnsweredIsLawful(c: Cluster, r: Reply)
    requires History(c) && r in c.replies && r.call.candidate in c.nodes
    ensures Lawful(c, r.call.candidate,
                   OnVoteResponse(c.nodes[r.call.candidate], r.term, r.granted, |c.nodes|), c.votes)
  {
  }

  lemma NextKeepsHistory(c: Cluster, st: Step)
    requires History(c) && Traffic(c)
    ensures History(Next(c, st))
  {
    var d := Next(c, st);
    match st
    case TimesOut(n) =>
      if n in c.nodes && !c.nodes[n].role.LeaderRole? {
        TimeoutIsLawful(c, n);
        PutKeepsHistory(c, n, d.nodes[n], d.votes, d);
      }
    case Asked(call, upToDate) =>
      if call in c.calls {
        AskedIsLawful(c, call, upToDate);
        PutKeepsHistory(c, call.voter, d.nodes[call.voter], d.votes, d);
      }
    case Answered(r) =>
      if r in c.replies && r.call.candidate in c.nodes {
        AnsweredIsLawful(c, r);
        PutKeepsHistory(c, r.call.candidate, d.nodes[r.call.candidate], d.votes, d);
      }
    case SeesTerm(n, _) =>
      if n in c.nodes { PutKeepsHistory(c, n, d.nodes[n], d.votes, d); }
    case Restarts(n) =>
      if n in c.nodes { PutKeepsHistory(c, n, d.nodes[n], d.votes, d); }
    case _ =>
  }

  lemma NextKeepsTraffic(c: Cluster, st: Step)
    requires History(c) && Traffic(c)
    ensures Traffic(Next(c, st))
  {
    var d := Next(c, st);
    NextKeepsTerms(c, st);
    assert forall k :: Known(c, k) ==> Known(d, k);
    hide Traffic, History;
    match st
    case TimesOut(n) =>
      if n in c.nodes && !c.nodes[n].role.LeaderRole? {
        TimeoutKeepsTraffic(c, d, n);
      }
    case Asked(call, upToDate) =>
      if call in c.calls {
        AskedKeepsTraffic(c, d, call, upToDate);
      }
    case _ =>
      FewerKeepTraffic(c, d);
  }

  lemma AskedKeepsTraffic(c: Cluster, d: Cluster, call: Call, upToDate: bool)
    requires History(c) && Traffic(c) && call in c.calls && d == Next(c, Asked(call, upToDate))
    requires forall k :: Known(c, k) ==> Known(d, k)
    ensures Traffic(d)
  {
    AskedIsLawful(c, call, upToDate);
    hide History, Lawful, Known;
  }

  lemma FewerKeepTraffic(c: Cluster, d: Cluster)
    requires Traffic(c) && d.calls <= c.calls && d.replies <= c.replies && d.votes == c.votes
    requires forall k :: Known(c, k) ==> Known(d, k)
    ensures Traffic(d)
  {
    hide Known;
  }

  lemma TimeoutKeepsTraffic(c: Cluster, d: Cluster, n: nat)
    requires History(c) && Traffic(c) && n in c.nodes && !c.nodes[n].role.LeaderRole?
    requires d == Next(c, TimesOut(n))
    requires forall k :: Known(c, k) ==> Known(d, k)
    ensures Traffic(d)
  {
    var t := c.nodes[n].term + 1;
    assert d.nodes[n].term == t;
    forall k | k in d.calls && k !in c.calls ensures Known(d, k) && Vote(k.voter, k.term, k.candidate) !in d.votes {
      assert k.candidate == n && k.term == t && k.voter != n;
    }
    forall r | r in d.replies ensures r.call !in d.calls {
      assert Known(c, r.call);
    }
  }

  // ---------------------------------------------------------------- counting votes

  function Voters(c: Cluster, n: nat, t: nat): set<nat> {
    set v | v in c.votes && v.term == t && v.candidate == n :: v.voter
  }

  /** Votes whose granted reply is no longer under way: those the candidate can have counted. */
  function Counted(c: Cluster, n: nat, t: nat): set<nat> {
    set v | v in c.votes && v.term == t && v.candidate == n && Reply(Call(n, v.voter, t), t, true) !in c.replies :: v.voter
  }

  ghost predicate Tallied(c: Cluster) {
    && (forall n :: n in c.nodes && c.nodes[n].role.CandidateRole? ==> c.nodes[n].votes <= |Counted(c, n, c.nodes[n].term)|)
    && (forall w :: w in c.leaders ==> |Voters(c, w.node, w.term)| > |c.nodes| / 2)
  }

  /** The votes under way in `d` were not given in `c`, or were under way there too. */
  ghost predicate NoneRecalled(c: Cluster, d: Cluster) {
    && c.votes <= d.votes
    && forall r :: r in d.replies && r.granted && Vote(r.call.voter, r.call.term, r.call.candidate) in c.votes ==> r in c.replies
  }

  lemma CountsGrow(c: Cluster, d: Cluster, n: nat, t: nat)
    requires NoneRecalled(c, d)
    ensures |Counted(c, n, t)| <= |Counted(d, n, t)| <= |Voters(d, n, t)|
    ensures |Voters(c, n, t)| <= |Voters(d, n, t)|
  {
    forall x | x in Counted(c, n, t) ensures x in Counted(d, n, t) {
      assert Vote(x, t, n) in d.votes;
    }
    forall x | x in Counted(d, n, t) ensures x in Voters(d, n, t) {
      assert Vote(x, t, n) in d.votes;
    }
    forall x | x in Voters(c, n, t) ensures x in Voters(d, n, t) {
      assert Vote(x, t, n) in d.votes;
    }
    SubsetSize(Counted(c, n, t), Counted(d, n, t));
    SubsetSize(Counted(d, n, t), Voters(d, n, t));
    SubsetSize(Voters(c, n, t), Voters(d, n, t));
  }

  lemma CountGains(c: Cluster, d: Cluster, n: nat, t: nat, x: nat)
    requires NoneRecalled(c, d)
    requires x !in Counted(c, n, t) && x in Counted(d, n, t)
    ensures |Counted(d, n, t)| >= |Counted(c, n, t)| + 1
  {
    forall y | y in Counted(c, n, t) ensures y in Counted(d, n, t) {
      assert Vote(y, t, n) in d.votes;
    }
    SubsetSize(Counted(c, n, t) + {x}, Counted(d, n, t));
  }

  /** Only node `n` may change; the tally survives if its own count and its own win are covered. */
  lemma PutKeepsTally(c: Cluster, d: Cluster, n: nat)
    requires Tallied(c) && NoneRecalled(c, d) && n in c.nodes && n in d.nodes
    requires d.nodes == c.nodes[n := d.nodes[n]] && d.leaders == Put(c, n, d.nodes[n]).leaders
    requires d.nodes[n].role.CandidateRole? ==> d.nodes[n].votes <= |Counted(d, n, d.nodes[n].term)|
    requires d.nodes[n].role.LeaderRole? ==>
               Win(n, d.nodes[n].term) in c.leaders || |Voters(d, n, d.nodes[n].term)| > |c.nodes| / 2
    ensures Tallied(d)
  {
    assert d.nodes.Keys == c.nodes.Keys;
    assert |d.nodes| == |c.nodes|;
    forall m | m in d.nodes && d.nodes[m].role.CandidateRole? ensures d.nodes[m].votes <= |Counted(d, m, d.nodes[m].term)| {
      CountsGrow(c, d, m, d.nodes[m].term);
    }
    forall w | w in d.leaders ensures |Voters(d, w.node, w.term)| > |d.nodes| / 2 {
      CountsGrow(c, d, w.node, w.term);
    }
  }

  lemma TimeoutKeepsTally(c: Cluster, n: nat)
    requires History(c) && Traffic(c) && Tallied(c) && n in c.nodes && !c.nodes[n].role.LeaderRole?
    ensures Tallied(Next(c, TimesOut(n)))
  {
    var d := Next(c, TimesOut(n));
    var t := d.nodes[n].term;
    assert Vote(n, t, n) in d.votes;
    assert n in Counted(d, n, t) by {
      assert forall r :: r in c.replies ==> Known(c, r.call);
    }
    SubsetSize({n}, Counted(d, n, t));
    CountsGrow(c, d, n, t);
    PutKeepsTally(c, d, n);
  }

  lemma AskedKeepsTally(c: Cluster, call: Call, upToDate: bool)
    requires History(c) && Traffic(c) && Tallied(c) && call in c.calls
    ensures Tallied(Next(c, Asked(call, upToDate)))
  {
    var d, n := Next(c, Asked(call, upToDate)), call.voter;
    assert Known(c, call);
    assert NoneRecalled(c, d);
    CountsGrow(c, d, n, c.nodes[n].term);
    PutKeepsTally(c, d, n);
  }

  /** Taking a granted reply off the wire makes one more vote countable. */
  lemma ReplyCounts(c: Cluster, d: Cluster, r: Reply)
    requires Traffic(c) && r in c.replies && r.granted
    requires d.votes == c.votes && d.replies == c.replies - {r}
    ensures |Counted(d, r.call.candidate, r.term)| >= |Counted(c, r.call.candidate, r.term)| + 1
  {
    var n, t, x := r.call.candidate, r.term, r.call.voter;
    assert Vote(x, t, n) in c.votes;
    assert r == Reply(Call(n, x, t), t, true);
    assert x in Counted(d, n, t);
    CountGains(c, d, n, t, x);
  }

  lemma AnsweredKeepsTally(c: Cluster, r: Reply)
    requires Traffic(c) && History(c) && Tallied(c) && r in c.replies && r.call.candidate in c.nodes
    ensures Tallied(Next(c, Answered(r)))
  {
    var d, n := Next(c, Answered(r)), r.call.candidate;
    var b, b' := c.nodes[n], d.nodes[n];
    CountsGrow(c, d, n, b.term);
    if r.granted && r.term == b.term {
      ReplyCounts(c, d, r);
    }
    ResponseFacts(b, r.term, r.granted, |c.nodes|);
    TallyOfOne(c, d, n, if r.granted && r.term == b.term then 1 else 0);
  }

  /** A response never counts for more than one vote, and wins only by a majority. */
  lemma ResponseFacts(b: Ballot, term: nat, granted: bool, size: nat)
    ensures var b', gain := OnVoteResponse(b, term, granted, size), if granted && term == b.term then 1 else 0;
            && (b'.role.CandidateRole? ==> b.role.CandidateRole? && b'.term == b.term && b'.votes <= b.votes + gain)
            && (b'.role.LeaderRole? ==> b'.term == b.term && (b.role.LeaderRole? || (b.role.CandidateRole? && b.votes + gain > size / 2)))
  {
  }

  lemma TallyOfOne(c: Cluster, d: Cluster, n: nat, gain: nat)
    requires History(c) && Tallied(c) && NoneRecalled(c, d) && n in c.nodes && n in d.nodes
    requires d.nodes == c.nodes[n := d.nodes[n]] && d.leaders == Put(c, n, d.nodes[n]).leaders
    requires |Counted(d, n, c.nodes[n].term)| >= |Counted(c, n, c.nodes[n].term)| + gain
    requires var b, b' := c.nodes[n], d.nodes[n];
             && (b'.role.CandidateRole? ==> b.role.CandidateRole? && b'.term == b.term && b'.votes <= b.votes + gain)
             && (b'.role.LeaderRole? ==> b'.term == b.term && (b.role.LeaderRole? || (b.role.CandidateRole? && b.votes + gain > |c.nodes| / 2)))
    ensures Tallied(d)
  {
    CountsGrow(c, d, n, c.nodes[n].term);
    PutKeepsTally(c, d, n);
  }

  lemma NextKeepsTally(c: Cluster, st: Step)
    requires History(c) && Traffic(c) && Tallied(c)
    ensures Tallied(Next(c, st))
  {
    var d := Next(c, st);
    match st
    case TimesOut(n) =>
      if n in c.nodes && !c.nodes[n].role.LeaderRole? { TimeoutKeepsTally(c, n); }
    case Asked(call, upToDate) =>
      if call in c.calls && call.voter in c.nodes { AskedKeepsTally(c, call, upToDate); }
    case Answered(r) =>
      if r in c.replies && r.call.candidate in c.nodes { AnsweredKeepsTally(c, r); }
    case LoseReply(_) => LossKeepsTally(c, d);
    case LoseCall(_) => LossKeepsTally(c, d);
    case SeesTerm(n, term) =>
      if n in c.nodes { CountsGrow(c, d, n, c.nodes[n].term); PutKeepsTally(c, d, n); }
    case Restarts(n) =>
      if n in c.nodes { PutKeepsTally(c, d, n); }
  }

  lemma LossKeepsTally(c: Cluster, d: Cluster)
    requires Tallied(c) && d == c.(calls := d.calls, replies := d.replies) && d.replies <= c.replies
    ensures Tallied(d)
  {
    forall n | n in d.nodes && d.nodes[n].role.CandidateRole? ensures d.nodes[n].votes <= |Counted(d, n, d.nodes[n].term)| {
      CountsGrow(c, d, n, d.nodes[n].term);
    }
    forall w | w in d.leaders ensures |Voters(d, w.node, w.term)| > |d.nodes| / 2 {
      CountsGrow(c, d, w.node, w.term);
    }
  }

  ghost predicate Orderly(c: Cluster) { History(c) && Traffic(c) && Tallied(c) }

  /** Every run from an initial cluster keeps the books: a win is always backed by a majority of votes. */
  lemma {:induction false} RunIsOrderly(c: Cluster, steps: seq<Step>)
    requires Initial(c)
    ensures Orderly(Run(c, steps)) && Run(c, steps).nodes.Keys == c.nodes.Keys
  {
    if steps != [] {
      var before, st := steps[..|steps| - 1], steps[|steps| - 1];
      RunIsOrderly(c, before);
      NextKeepsHistory(Run(c, before), st);
      NextKeepsTraffic(Run(c, before), st);
      NextKeepsTally(Run(c, before), st);
      NextKeepsTerms(Run(c, before), st);
    }
  }

  // ---------------------------------------------------------------- election safety

  ghost predicate OneVotePerTerm(c: Cluster) {
    forall u, v :: u in c.votes && v in c.votes && u.voter == v.voter && u.term == v.term ==> u.candidate == v.candidate
  }

  ghost predicate OneLeaderPerTerm(c: Cluster) {
    forall u, v :: u in c.leaders && v in c.leaders && u.term == v.term ==> u.node == v.node
  }

  /** Two majorities of one cluster share a node. */
  lemma QuorumsMeet(all: set<nat>, a: set<nat>, b: set<nat>) returns (x: nat)
    requires a <= all && b <= all && |a| > |all| / 2 && |b| > |all| / 2
    ensures x in a && x in b
  {
    x := SetsMeet(all, a, b);
  }

  lemma MajoritiesGiveOneLeader(c: Cluster)
    requires Orderly(c) && OneVotePerTerm(c)
    ensures OneLeaderPerTerm(c)
  {
    forall u, v | u in c.leaders && v in c.leaders && u.term == v.term ensures u.node == v.node {
      var x := QuorumsMeet(c.nodes.Keys, Voters(c, u.node, u.term), Voters(c, v.node, v.term));
      assert Vote(x, u.term, u.node) in c.votes && Vote(x, u.term, v.node) in c.votes;
    }
  }

  predicate Grants(c: Cluster, st: Step) {
    && st.Asked? && st.call in c.calls && st.call.voter in c.nodes
    && OnVoteRequest(c.nodes[st.call.voter], st.call.term, st.call.candidate, st.upToDate).granted
  }

  /** The step is a node granting a vote in a term that it has won itself. */
  predicate GrantsInWonTerm(c: Cluster, st: Step) {
    Grants(c, st) && Win(st.call.voter, st.call.term) in c.leaders
  }

  /** The vote that a restart loses, because it never reached the disk. */
  function Forgets(c: Cluster, st: Step): set<Vote> {
    if st.Restarts? && st.node in c.nodes && c.nodes[st.node].votedFor.Some? &&
       c.nodes[st.node].saved.votedFor != c.nodes[st.node].votedFor
    then {Vote(st.node, c.nodes[st.node].term, c.nodes[st.node].votedFor.value)}
    else {}
  }

  /** Every vote lost by a restart of the run. */
  function Forgotten(c: Cluster, steps: seq<Step>): set<Vote> {
    if steps == [] then {}
    else Forgotten(c, steps[..|steps| - 1]) + Forgets(Run(c, steps[..|steps| - 1]), steps[|steps| - 1])
  }

  /** The step is a node granting a vote to one candidate in a term in which it has forgotten one for another. */
  ghost predicate GrantsAfterLoss(c: Cluster, lost: set<Vote>, st: Step) {
    Grants(c, st) && exists v :: v in lost && v.voter == st.call.voter && v.term == st.call.term && v.candidate != st.call.candidate
  }

  ghost predicate NoGrantInWonTerm(c: Cluster, steps: seq<Step>) {
    steps != [] ==> NoGrantInWonTerm(c, steps[..|steps| - 1]) && !GrantsInWonTerm(Run(c, steps[..|steps| - 1]), steps[|steps| - 1])
  }

  ghost predicate NoGrantAfterLoss(c: Cluster, steps: seq<Step>) {
    steps != [] ==>
      && NoGrantAfterLoss(c, steps[..|steps| - 1])
      && !GrantsAfterLoss(Run(c, steps[..|steps| - 1]), Forgotten(c, steps[..|steps| - 1]), steps[|steps| - 1])
  }

  /** A vote in the current term is remembered, unless winning that term erased it or a restart lost it. */
  ghost predicate Remembered(c: Cluster, lost: set<Vote>) {
    forall v :: v in c.votes && v.voter in c.nodes && v.term == c.nodes[v.voter].term ==>
      c.nodes[v.voter].votedFor == Some(v.candidate) || Win(v.voter, v.term) in c.leaders || v in lost
  }

  /** What node `n` remembers of its votes in its current term, which are all for one candidate. */
  ghost predicate RemembersOne(c: Cluster, lost: set<Vote>, n: nat)
    requires n in c.nodes
  {
    && (forall v :: v in c.votes && v.voter == n && v.term == c.nodes[n].term ==>
          c.nodes[n].votedFor == Some(v.candidate) || Win(n, v.term) in c.leaders || v in lost)
    && (forall u, v :: u in c.votes && v in c.votes && u.voter == v.voter == n && u.term == v.term == c.nodes[n].term ==>
          u.candidate == v.candidate)
  }

  lemma PutKeepsMemory(c: Cluster, d: Cluster, lost: set<Vote>, lost': set<Vote>, n: nat)
    requires Remembered(c, lost) && OneVotePerTerm(c) && lost <= lost'
    requires n in c.nodes && n in d.nodes && d.nodes == c.nodes[n := d.nodes[n]]
    requires c.leaders <= d.leaders && c.votes <= d.votes
    requires forall v :: v in d.votes && v !in c.votes ==> v.voter == n && v.term == d.nodes[n].term
    requires RemembersOne(d, lost', n)
    ensures Remembered(d, lost') && OneVotePerTerm(d)
  {
  }

  lemma AskedRemembers(c: Cluster, lost: set<Vote>, call: Call, upToDate: bool)
    requires History(c) && Traffic(c) && Remembered(c, lost) && OneVotePerTerm(c) && call in c.calls
    requires !GrantsInWonTerm(c, Asked(call, upToDate)) && !GrantsAfterLoss(c, lost, Asked(call, upToDate))
    ensures call.voter in c.nodes && RemembersOne(Next(c, Asked(call, upToDate)), lost, call.voter)
  {
    assert Known(c, call);
  }

  lemma TimeoutKeepsMemory(c: Cluster, lost: set<Vote>, n: nat)
    requires History(c) && Remembered(c, lost) && OneVotePerTerm(c) && n in c.nodes && !c.nodes[n].role.LeaderRole?
    ensures Remembered(Next(c, TimesOut(n)), lost) && OneVotePerTerm(Next(c, TimesOut(n)))
  {
    TimeoutRemembers(c, lost, n);
    hide History, Remembered, OneVotePerTerm, RemembersOne;
    PutKeepsMemory(c, Next(c, TimesOut(n)), lost, lost, n);
  }

  lemma TimeoutRemembers(c: Cluster, lost: set<Vote>, n: nat)
    requires History(c) && n in c.nodes && !c.nodes[n].role.LeaderRole?
    ensures RemembersOne(Next(c, TimesOut(n)), lost, n)
  {
  }

  lemma AskedKeepsMemory(c: Cluster, lost: set<Vote>, call: Call, upToDate: bool)
    requires History(c) && Traffic(c) && Remembered(c, lost) && OneVotePerTerm(c) && call in c.calls
    requires !GrantsInWonTerm(c, Asked(call, upToDate)) && !GrantsAfterLoss(c, lost, Asked(call, upToDate))
    ensures Remembered(Next(c, Asked(call, upToDate)), lost) && OneVotePerTerm(Next(c, Asked(call, upToDate)))
  {
    AskedRemembers(c, lost, call, upToDate);
    AskedIsLawful(c, call, upToDate);
    hide Remembered, OneVotePerTerm, RemembersOne, Traffic, GrantsAfterLoss;
    PutKeepsMemory(c, Next(c, Asked(call, upToDate)), lost, lost, call.voter);
  }

  /** A step that gives no vote: the node's ballot moves to a new term, keeps its vote, wins, or forgets. */
  lemma VotelessKeepsMemory(c: Cluster, d: Cluster, lost: set<Vote>, lost': set<Vote>, n: nat)
    requires History(c) && Remembered(c, lost) && OneVotePerTerm(c) && n in c.nodes && n in d.nodes && lost <= lost'
    requires d.nodes == c.nodes[n := d.nodes[n]] && d.votes == c.votes && c.leaders <= d.leaders
    requires || KeepsOrMoves(c.nodes[n], d.nodes[n])
             || (d.nodes[n].term == c.nodes[n].term &&
                 (c.nodes[n].votedFor.Some? ==> Vote(n, c.nodes[n].term, c.nodes[n].votedFor.value) in lost'))
    requires d.nodes[n].role.LeaderRole? ==> Win(n, d.nodes[n].term) in d.leaders
    ensures Remembered(d, lost') && OneVotePerTerm(d)
  {
    PutKeepsMemory(c, d, lost, lost', n);
  }

  /** What a voteless step other than a forgetting restart may do to a ballot. */
  predicate KeepsOrMoves(b: Ballot, b': Ballot) {
    b'.term > b.term || (b'.term == b.term && (b'.votedFor == b.votedFor || b'.role.LeaderRole?))
  }

  lemma VotelessSteps(b: Ballot, term: nat, granted: bool, size: nat)
    requires b.saved.term == b.term
    ensures KeepsOrMoves(b, OnVoteResponse(b, term, granted, size)) && KeepsOrMoves(b, OnTerm(b, term))
    ensures b.saved.votedFor == b.votedFor ==> KeepsOrMoves(b, Restart(b))
    ensures Restart(b).term == b.term
  {
  }

  lemma VotelessNextKeepsMemory(c: Cluster, lost: set<Vote>, st: Step)
    requires History(c) && Remembered(c, lost) && OneVotePerTerm(c)
    requires !st.TimesOut? && !st.Asked?
    ensures Remembered(Next(c, st), lost + Forgets(c, st)) && OneVotePerTerm(Next(c, st))
  {
    var d, lost' := Next(c, st), lost + Forgets(c, st);
    match st
    case Answered(r) =>
      if r in c.replies && r.call.candidate in c.nodes {
        VotelessSteps(c.nodes[r.call.candidate], r.term, r.granted, |c.nodes|);
        VotelessKeepsMemory(c, d, lost, lost', r.call.candidate);
      }
    case SeesTerm(n, t) =>
      if n in c.nodes { VotelessSteps(c.nodes[n], t, false, 0); VotelessKeepsMemory(c, d, lost, lost', n); }
    case Restarts(n) =>
      if n in c.nodes { VotelessSteps(c.nodes[n], 0, false, 0); VotelessKeepsMemory(c, d, lost, lost', n); }
    case _ =>
  }

  lemma NextKeepsMemory(c: Cluster, lost: set<Vote>, st: Step)
    requires History(c) && Traffic(c) && Remembered(c, lost) && OneVotePerTerm(c)
    requires !GrantsInWonTerm(c, st) && !GrantsAfterLoss(c, lost, st)
    ensures Remembered(Next(c, st), lost + Forgets(c, st)) && OneVotePerTerm(Next(c, st))
  {
    hide History, Traffic, Remembered, OneVotePerTerm, GrantsAfterLoss;
    match st
    case TimesOut(n) =>
      assert lost + Forgets(c, st) == lost;
      if n in c.nodes && !c.nodes[n].role.LeaderRole? { TimeoutKeepsMemory(c, lost, n); }
    case Asked(call, upToDate) =>
      assert lost + Forgets(c, st) == lost;
      if call in c.calls { AskedKeepsMemory(c, lost, call, upToDate); }
    case _ => VotelessNextKeepsMemory(c, lost, st);
  }

  /** What a node has voted, in memory or on disk, is a vote given. */
  ghost predicate Noted(c: Cluster) {
    forall n :: n in c.nodes ==> NotedBy(c.votes, n, c.nodes[n])
  }

  predicate NotedBy(votes: set<Vote>, n: nat, b: Ballot) {
    && (b.votedFor.Some? ==> Vote(n, b.term, b.votedFor.value) in votes)
    && (b.saved.votedFor.Some? ==> Vote(n, b.saved.term, b.saved.votedFor.value) in votes)
  }

  lemma PutKeepsNoted(c: Cluster, d: Cluster, n: nat)
    requires Noted(c) && n in d.nodes && d.nodes == c.nodes[n := d.nodes[n]] && c.votes <= d.votes
    requires NotedBy(d.votes, n, d.nodes[n])
    ensures Noted(d)
  {
    forall m | m in d.nodes ensures NotedBy(d.votes, m, d.nodes[m]) {
      assert m != n ==> NotedBy(c.votes, m, c.nodes[m]);
    }
  }

  lemma AskedIsNoted(votes: set<Vote>, n: nat, b: Ballot, term: nat, candidate: nat, upToDate: bool)
    requires NotedBy(votes, n, b)
    ensures var r := OnVoteRequest(b, term, candidate, upToDate);
            NotedBy(if r.granted then votes + {Vote(n, term, candidate)} else votes, n, r.ballot)
  {
  }

  lemma OthersAreNoted(votes: set<Vote>, n: nat, b: Ballot, term: nat, granted: bool, size: nat)
    requires NotedBy(votes, n, b)
    ensures NotedBy(votes, n, OnVoteResponse(b, term, granted, size)) && NotedBy(votes, n, OnTerm(b, term))
    ensures NotedBy(votes, n, Restart(b))
    ensures NotedBy(votes + {Vote(n, Timeout(b, n, size).term, n)}, n, Timeout(b, n, size))
  {
  }

  lemma NextKeepsNoted(c: Cluster, st: Step)
    requires Noted(c)
    ensures Noted(Next(c, st))
  {
    hide Noted, NotedBy, OnVoteRequest, OnVoteResponse, Timeout, OnTerm, Restart;
    var d := Next(c, st);
    match st
    case TimesOut(n) =>
      if n in c.nodes { NotedAt(c, n); OthersAreNoted(c.votes, n, c.nodes[n], 0, false, |c.nodes|); }
      if n in c.nodes && !c.nodes[n].role.LeaderRole? { PutKeepsNoted(c, d, n); }
    case Asked(k, upToDate) =>
      if k in c.calls && k.voter in c.nodes {
        NotedAt(c, k.voter);
        AskedIsNoted(c.votes, k.voter, c.nodes[k.voter], k.term, k.candidate, upToDate);
        PutKeepsNoted(c, d, k.voter);
      }
    case Answered(r) =>
      if r in c.replies && r.call.candidate in c.nodes {
        NotedAt(c, r.call.candidate);
        OthersAreNoted(c.votes, r.call.candidate, c.nodes[r.call.candidate], r.term, r.granted, |c.nodes|);
        PutKeepsNoted(c, d, r.call.candidate);
      }
    case SeesTerm(n, t) =>
      if n in c.nodes { NotedAt(c, n); OthersAreNoted(c.votes, n, c.nodes[n], t, false, 0); PutKeepsNoted(c, d, n); }
    case Restarts(n) =>
      if n in c.nodes { NotedAt(c, n); OthersAreNoted(c.votes, n, c.nodes[n], 0, false, 0); PutKeepsNoted(c, d, n); }
    case LoseCall(_) => SameIsNoted(c, d);
    case LoseReply(_) => SameIsNoted(c, d);
  }

  lemma NotedAt(c: Cluster, n: nat)
    requires Noted(c) && n in c.nodes
    ensures NotedBy(c.votes, n, c.nodes[n])
  {
  }

  lemma SameIsNoted(c: Cluster, d: Cluster)
    requires Noted(c) && d.nodes == c.nodes && d.votes == c.votes
    ensures Noted(d)
  {
  }

  lemma ForgottenWasGiven(c: Cluster, st: Step)
    requires Noted(c)
    ensures Forgets(c, st) <= c.votes
  {
    if Forgets(c, st) != {} {
      assert NotedBy(c.votes, st.node, c.nodes[st.node]);
    }
  }

  lemma GrantInWonTermSplitsTheVote(c: Cluster, st: Step)
    requires History(c) && Traffic(c) && GrantsInWonTerm(c, st)
    ensures !OneVotePerTerm(Next(c, st))
  {
    var d, k := Next(c, st), st.call;
    assert Known(c, k);
    assert Vote(k.voter, k.term, k.voter) in d.votes && Vote(k.voter, k.term, k.candidate) in d.votes;
  }

  lemma GrantAfterLossSplitsTheVote(c: Cluster, lost: set<Vote>, st: Step)
    requires lost <= c.votes && GrantsAfterLoss(c, lost, st)
    ensures !OneVotePerTerm(Next(c, st))
  {
    var d, k := Next(c, st), st.call;
    var v :| v in lost && v.voter == k.voter && v.term == k.term && v.candidate != k.candidate;
    assert v in d.votes && Vote(k.voter, k.term, k.candidate) in d.votes;
  }

  lemma VotesOnlyGrow(c: Cluster, st: Step)
    ensures c.votes <= Next(c, st).votes
  {
  }

  /** Forgotten votes were given, over every run. */
  lemma {:induction false} RunIsNoted(c: Cluster, steps: seq<Step>)
    requires Initial(c)
    ensures Noted(Run(c, steps)) && Forgotten(c, steps) <= Run(c, steps).votes
  {
    if steps != [] {
      var before, st := steps[..|steps| - 1], steps[|steps| - 1];
      RunIsNoted(c, before);
      RunIsOrderly(c, before);
      hide Initial, History, Traffic, Tallied, Noted, Next, Forgets;
      NextKeepsNoted(Run(c, before), st);
      ForgottenWasGiven(Run(c, before), st);
      VotesOnlyGrow(Run(c, before), st);
    }
  }

  /**
   In every run, with any restarts: every node votes at most once per term exactly when no node
   grants a vote in a term it has won, which the erased vote of `become_leader` allows, and no node
   grants one in a term in which a restart lost its vote for another, which the unsaved grant allows.
   */
  lemma {:induction false} OneVoteExactly(c: Cluster, steps: seq<Step>)
    requires Initial(c)
    ensures OneVotePerTerm(Run(c, steps)) <==> NoGrantInWonTerm(c, steps) && NoGrantAfterLoss(c, steps)
    ensures OneVotePerTerm(Run(c, steps)) ==> Remembered(Run(c, steps), Forgotten(c, steps))
  {
    if steps == [] {
      assert Run(c, steps).votes == {};
    } else {
      var before, st := steps[..|steps| - 1], steps[|steps| - 1];
      OneVoteExactly(c, before);
      RunIsOrderly(c, before);
      RunIsNoted(c, before);
      hide Initial, History, Traffic, Tallied, Noted, Next, Remembered, GrantsAfterLoss, GrantsInWonTerm, Forgets;
      var b, lost := Run(c, before), Forgotten(c, before);
      VotesOnlyGrow(b, st);
      if OneVotePerTerm(b) {
        if GrantsInWonTerm(b, st) {
          GrantInWonTermSplitsTheVote(b, st);
        } else if GrantsAfterLoss(b, lost, st) {
          GrantAfterLossSplitsTheVote(b, lost, st);
        } else {
          NextKeepsMemory(b, lost, st);
        }
      }
    }
  }

  /** Election safety: under that condition each term has at most one leader, over every run. */
  lemma ElectionSafety(c: Cluster, steps: seq<Step>)
    requires Initial(c) && NoGrantInWonTerm(c, steps) && NoGrantAfterLoss(c, steps)
    ensures OneLeaderPerTerm(Run(c, steps))
  {
    OneVoteExactly(c, steps);
    RunIsOrderly(c, steps);
    hide Run, NoGrantInWonTerm, NoGrantAfterLoss, Remembered;
    MajoritiesGiveOneLeader(Run(c, steps));
  }

  // ---------------------------------------------------------------- when the condition can be seen

  predicate NoRestarts(steps: seq<Step>) {
    forall i :: 0 <= i < |steps| ==> !steps[i].Restarts?
  }

  lemma NextKeepsLeading(c: Cluster, st: Step)
    requires History(c) && !st.Restarts?
    requires forall n :: n in c.nodes && Win(n, c.nodes[n].term) in c.leaders ==> c.nodes[n].role.LeaderRole?
    ensures forall n :: n in Next(c, st).nodes && Win(n, Next(c, st).nodes[n].term) in Next(c, st).leaders ==>
              Next(c, st).nodes[n].role.LeaderRole?
  {
  }

  /** Without restarts, "has won its term" is simply "is leader now", which the handler could test. */
  lemma {:induction false} WonTermMeansLeading(c: Cluster, steps: seq<Step>)
    requires Initial(c) && NoRestarts(steps)
    ensures forall n :: n in Run(c, steps).nodes ==>
              (Win(n, Run(c, steps).nodes[n].term) in Run(c, steps).leaders <==> Run(c, steps).nodes[n].role.LeaderRole?)
  {
    RunIsOrderly(c, steps);
    if steps != [] {
      var before := steps[..|steps| - 1];
      WonTermMeansLeading(c, before);
      RunIsOrderly(c, before);
      NextKeepsLeading(Run(c, before), steps[|steps| - 1]);
    }
  }

  // ---------------------------------------------------------------- two leaders in one term

  /** A node started for the first time. */
  const FRESH := Ballot(0, None, 0, FollowerRole, HardState(0, None))

  ghost predicate ThreeFresh(c: Cluster, x: nat, y: nat, z: nat) {
    && Initial(c) && x != y && y != z && z != x
    && c.nodes == map[x := FRESH, y := FRESH, z := FRESH]
  }

  /** A candidate, its call to one voter, and the voter's granted reply. */
  function Campaign(n: nat, v: nat, t: nat): seq<Step> {
    [TimesOut(n), Asked(Call(n, v, t), UpToDate(0, 0, 0, 0)), Answered(Reply(Call(n, v, t), t, true))]
  }

  lemma RunAppend(c: Cluster, steps: seq<Step>, st: Step)
    ensures Run(c, steps + [st]) == Next(Run(c, steps), st)
  {
    assert (steps + [st])[..|steps|] == steps;
  }

  lemma {:induction false} RunSplits(c: Cluster, a: seq<Step>, b: seq<Step>)
    ensures Run(c, a + b) == Run(Run(c, a), b)
  {
    if b == [] {
      assert a + b == a;
    } else {
      assert (a + b)[..|a + b| - 1] == a + b[..|b| - 1];
      RunSplits(c, a, b[..|b| - 1]);
    }
  }

  lemma RunThree(c: Cluster, x: Step, y: Step, z: Step)
    ensures Run(c, [x, y, z]) == Next(Next(Next(c, x), y), z)
  {
    RunAppend(c, [], x);
    RunAppend(c, [x], y);
    RunAppend(c, [x, y], z);
    assert [] + [x] == [x] && [x] + [y] == [x, y] && [x, y] + [z] == [x, y, z];
  }

  /** `d` is `c` after node `n` won the term after its own with the vote of `v`. */
  ghost predicate Elected(c: Cluster, d: Cluster, n: nat, v: nat) {
    && n in c.nodes && d.nodes.Keys == c.nodes.Keys && |d.nodes| == |c.nodes|
    && d.nodes[n] == Ballot(c.nodes[n].term + 1, None, 0, LeaderRole, HardState(c.nodes[n].term + 1, None))
    && (forall m :: m in c.nodes && m != n && m != v ==> d.nodes[m] == c.nodes[m])
    && c.leaders <= d.leaders && Win(n, c.nodes[n].term + 1) in d.leaders
    && (v in c.nodes && c.nodes[v].term <= c.nodes[n].term ==> d.nodes[v] == Granted(n, c.nodes[n].term + 1))
  }

  /** Among three nodes, `v` has no vote to keep it from electing `n`. */
  predicate CanElect(c: Cluster, n: nat, v: nat) {
    && |c.nodes| == 3 && n in c.nodes && v in c.nodes && n != v && !c.nodes[n].role.LeaderRole?
    && (c.nodes[v].term <= c.nodes[n].term || (c.nodes[v].term == c.nodes[n].term + 1 && c.nodes[v].votedFor.None?))
  }

  /** Between `c` and `d` only `n` and `v` may have changed, and no win was lost. */
  ghost predicate OthersKept(c: Cluster, d: Cluster, n: nat, v: nat) {
    && n in c.nodes && v in c.nodes && d.nodes.Keys == c.nodes.Keys && |d.nodes| == 3 && c.leaders <= d.leaders
    && (forall m :: m in c.nodes && m != n && m != v ==> d.nodes[m] == c.nodes[m])
  }

  /** A voter that came to term `t` by a call: its vote is in memory, not on disk. */
  function Granted(n: nat, t: nat): Ballot { Ballot(t, Some(n), 0, FollowerRole, HardState(t, None)) }

  function Standing(n: nat, t: nat): Ballot { Ballot(t, Some(n), 1, CandidateRole, HardState(t, Some(n))) }

  lemma CandidateAsks(c: Cluster, n: nat, v: nat, t: nat)
    requires CanElect(c, n, v) && t == c.nodes[n].term + 1
    ensures var d := Next(c, TimesOut(n));
            OthersKept(c, d, n, v) && d.nodes[n] == Standing(n, t) && d.nodes[v] == c.nodes[v] && Call(n, v, t) in d.calls
  {
    var d := Next(c, TimesOut(n));
    assert d.nodes.Keys == c.nodes.Keys && |d.nodes| == |d.nodes.Keys| == |c.nodes.Keys|;
  }

  lemma VoterGrants(c: Cluster, n: nat, v: nat, t: nat)
    requires n in c.nodes && v in c.nodes && n != v && |c.nodes| == 3 && c.nodes[n] == Standing(n, t)
    requires Call(n, v, t) in c.calls
    requires c.nodes[v].term < t || (c.nodes[v].term == t && c.nodes[v].votedFor.None?)
    ensures var d := Next(c, Asked(Call(n, v, t), UpToDate(0, 0, 0, 0)));
            && OthersKept(c, d, n, v) && d.nodes[n] == Standing(n, t) && Reply(Call(n, v, t), t, true) in d.replies
            && (c.nodes[v].term < t ==> d.nodes[v] == Granted(n, t))
  {
    var d := Next(c, Asked(Call(n, v, t), UpToDate(0, 0, 0, 0)));
    assert d.nodes.Keys == c.nodes.Keys && |d.nodes| == |d.nodes.Keys| == |c.nodes.Keys|;
  }

  lemma ReplyWins(c: Cluster, n: nat, v: nat, t: nat)
    requires n in c.nodes && v in c.nodes && n != v && |c.nodes| == 3 && c.nodes[n] == Standing(n, t)
    requires Reply(Call(n, v, t), t, true) in c.replies
    ensures var d := Next(c, Answered(Reply(Call(n, v, t), t, true)));
            && OthersKept(c, d, n, v) && Win(n, t) in d.leaders
            && d.nodes[n] == Ballot(t, None, 0, LeaderRole, HardState(t, None)) && d.nodes[v] == c.nodes[v]
  {
    var d := Next(c, Answered(Reply(Call(n, v, t), t, true)));
    assert d.nodes.Keys == c.nodes.Keys && |d.nodes| == |d.nodes.Keys| == |c.nodes.Keys|;
  }

  lemma CampaignWins(c: Cluster, n: nat, v: nat)
    requires CanElect(c, n, v)
    ensures Elected(c, Run(c, Campaign(n, v, c.nodes[n].term + 1)), n, v)
  {
    hide Next, Run;
    var t := c.nodes[n].term + 1;
    var s := Campaign(n, v, t);
    RunThree(c, s[0], s[1], s[2]);
    CandidateAsks(c, n, v, t);
    VoterGrants(Next(c, s[0]), n, v, t);
    ReplyWins(Next(Next(c, s[0]), s[1]), n, v, t);
  }

  lemma ElectedTwice(c: Cluster, d: Cluster, e: Cluster, x: nat, y: nat, z: nat)
    requires ThreeFresh(c, x, y, z) && Elected(c, d, x, y)
    ensures CanElect(c, x, y) && CanElect(d, z, x) && d.nodes[z] == FRESH
    ensures Elected(d, e, z, x) ==> Win(x, 1) in e.leaders && Win(z, 1) in e.leaders
  {
    ThreeNodes(c, x, y, z);
    hide Initial;
  }

  lemma ThreeNodes(c: Cluster, x: nat, y: nat, z: nat)
    requires ThreeFresh(c, x, y, z)
    ensures |c.nodes| == 3
  {
    hide Initial;
    assert c.nodes.Keys == {x, y, z} && |c.nodes| == |c.nodes.Keys|;
  }

  lemma FreshCanElect(c: Cluster, x: nat, y: nat, z: nat)
    requires ThreeFresh(c, x, y, z)
    ensures CanElect(c, x, y) && c.nodes[x] == FRESH
  {
    assert c.nodes.Keys == {x, y, z} && |c.nodes| == |c.nodes.Keys|;
  }

  /**
   Election safety fails without its condition: of any three fresh nodes the first wins term 1
   with the second's vote, then votes for the third in the same term, and no node restarts.
   */
  lemma TwoLeadersInOneTerm(c: Cluster, x: nat, y: nat, z: nat)
    requires ThreeFresh(c, x, y, z)
    ensures NoRestarts(Campaign(x, y, 1) + Campaign(z, x, 1))
    ensures Win(x, 1) in Run(c, Campaign(x, y, 1) + Campaign(z, x, 1)).leaders
    ensures Win(z, 1) in Run(c, Campaign(x, y, 1) + Campaign(z, x, 1)).leaders
  {
    hide Run;
    FreshCanElect(c, x, y, z);
    CampaignWins(c, x, y);
    var d := Run(c, Campaign(x, y, 1));
    RunSplits(c, Campaign(x, y, 1), Campaign(z, x, 1));
    var e := Run(d, Campaign(z, x, 1));
    ElectedTwice(c, d, e, x, y, z);
    CampaignWins(d, z, x);
  }

  lemma RestartForgets(c: Cluster, d: Cluster, x: nat, y: nat, z: nat)
    requires ThreeFresh(c, x, y, z) && Elected(c, d, x, y)
    ensures var e := Next(d, Restarts(y)); CanElect(e, z, y) && e.nodes[z] == FRESH && Win(x, 1) in e.leaders
  {
    ThreeNodes(c, x, y, z);
    hide Initial;
    var e := Next(d, Restarts(y));
    assert e.nodes.Keys == d.nodes.Keys && |e.nodes| == |e.nodes.Keys| == |d.nodes.Keys|;
  }

  /**
   It also fails when a restart loses a vote: the voter of the first winner restarts and votes for
   another in the same term.
   */
  lemma TwoLeadersAfterRestart(c: Cluster, x: nat, y: nat, z: nat)
    requires ThreeFresh(c, x, y, z)
    ensures var steps := Campaign(x, y, 1) + [Restarts(y)] + Campaign(z, y, 1);
            Win(x, 1) in Run(c, steps).leaders && Win(z, 1) in Run(c, steps).leaders
  {
    hide Run, Next, Campaign, CanElect;
    FreshCanElect(c, x, y, z);
    CampaignWins(c, x, y);
    var d := Run(c, Campaign(x, y, 1));
    RunAppend(c, Campaign(x, y, 1), Restarts(y));
    RestartForgets(c, d, x, y, z);
    CampaignWins(Next(d, Restarts(y)), z, y);
    RunSplits(c, Campaign(x, y, 1) + [Restarts(y)], Campaign(z, y, 1));
  }
}
