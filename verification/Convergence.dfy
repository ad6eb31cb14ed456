/**
 Progress in an epoch without client appends: how many rounds a follower needs, and that enough
 rounds with everyone make every node apply the leader's whole log.
 */
module Convergence {
  import opened Basics
  import opened Logs
  import opened Replication
  import opened Quorum
  import opened Reservations
  import opened Epoch
  import opened Agreement

  const B: nat := MAX_APPEND_ENTRIES_SIZE

  predicate Quiet(steps: seq<Step>) {
    forall i :: 0 <= i < |steps| ==> !steps[i].ClientAppend?
  }

  /** How often a reply of `f` was processed in a run. */
  ghost function Rounds(e: Epoch, steps: seq<Step>, clock: ClockOf, f: nat): nat {
    if steps == [] then 0
    else
      var before := steps[..|steps| - 1];
      Rounds(e, before, clock, f) + if steps[|steps| - 1] == Reply(f) && HasReply(Run(e, before, clock), f) then 1 else 0
  }

  /** One, if something is under way: it may have been sent before it could help. */
  function Extra(e: Epoch, f: nat): nat { if f in e.wire then 1 else 0 }

  function Max1(n: nat): nat { if n == 0 then 1 else n }

  // ---------------------------------------------------------------- the measure

  /**
   Rounds still needed until the leader has confirmed its whole log at a follower with log `f`:
   none if it has; otherwise the batches to send, plus one round per index to back off while the
   follower's end is not yet where `next` points.
   */
  function Cost(l: seq<Entry>, f: seq<Entry>, next: nat, matched: nat): nat
    requires |f| <= |l| && 1 <= next
  {
    if matched == |l| then 0
    else if |f| == next - 1 && f == l[..next - 1] then Max1(CeilDiv(|l| - |f|, B))
    else next - 1 + Max1(CeilDiv(|l|, B))
  }

  /** The request carries all that one built now would. */
  predicate Current(l: seq<Entry>, req: AppendRequest, next: nat) {
    1 <= next <= |l| + 1 && |req.entries| == Min(B, |l| - (next - 1))
  }

  /** The same, with what is under way: a success counts once it is processed, as does a refusal. */
  ghost function Potential(l: seq<Entry>, commit: nat, f: Replica, next: nat, matched: nat, flight: Option<Flight>): nat
    requires Follows(l, commit, f, next, matched, flight)
  {
    FollowsBounds(l, commit, f, next, matched, flight);
    match flight
    case None => Cost(l, f.log, next, matched)
    case Some(Asked(req)) => Cost(l, f.log, next, matched) + if Current(l, req, next) then 0 else 1
    case Some(Answered(Refused(_))) => Cost(l, f.log, next, matched)
    case Some(Answered(Matched(last))) => if matched == |l| then 0 else Cost(l, f.log, last + 1, last) + 1
  }

  lemma BatchCost(l: nat, at: nat)
    requires at <= l
    ensures at + B < l ==> CeilDiv(l - (at + B), B) == CeilDiv(l - at, B) - 1 && CeilDiv(l - (at + B), B) >= 1
  {
  }

  lemma CeilDivGrows(a: nat, b: nat)
    requires a <= b
    ensures CeilDiv(a, B) <= CeilDiv(b, B)
  {
  }

  /** What is left after the follower holds the leader's log up to `last`. */
  lemma PrefixCost(l: seq<Entry>, last: nat)
    requires last <= |l|
    ensures Cost(l, l[..last], last + 1, last) == if last == |l| then 0 else Max1(CeilDiv(|l| - last, B))
  {
  }

  /** A batch from `next` to `last`: strictly cheaper if it was a full one, and never dearer. */
  lemma BatchHelps(l: seq<Entry>, f: seq<Entry>, next: nat, matched: nat, last: nat)
    requires |f| <= |l| && 1 <= next <= last + 1 && last <= |l| && matched != |l|
    ensures Cost(l, l[..last], last + 1, last) <= Cost(l, f, next, matched)
    ensures last == Min(next - 1 + B, |l|) ==> Cost(l, l[..last], last + 1, last) < Cost(l, f, next, matched)
  {
    PrefixCost(l, last);
    BatchCost(|l|, next - 1);
    CeilDivGrows(|l| - last, |l| - (next - 1));
    CeilDivGrows(|l| - (next - 1), |l|);
    hide CeilDiv;
  }

  /** Backing off by one index is strictly cheaper. */
  lemma RefusalHelps(l: seq<Entry>, f: Replica, next: nat, matched: nat)
    requires Tracks(l, f, next, matched) && 1 <= next && Tracks(l, f, next - 1, matched)
    ensures next >= 2 && Cost(l, f.log, next - 1, matched) < Cost(l, f.log, next, matched)
  {
    CeilDivGrows(|l| - |f.log|, |l|);
    assert matched < |l|;
    hide CeilDiv;
  }

  // ---------------------------------------------------------------- steps at one follower

  lemma SendCosts(leader: Replica, f: Replica, next: nat, matched: nat)
    requires Tracks(leader.log, f, next, matched)
    ensures Follows(leader.log, leader.commitIndex, f, next, matched, Some(Asked(MakeRequest(leader, next))))
    ensures Potential(leader.log, leader.commitIndex, f, next, matched, Some(Asked(MakeRequest(leader, next)))) ==
            Potential(leader.log, leader.commitIndex, f, next, matched, None)
  {
    BuiltRequestIsFrom(leader, f, next, matched);
  }

  lemma HandleCosts(l: seq<Entry>, commit: nat, f: Replica, next: nat, matched: nat, req: AppendRequest, clock: nat -> nat)
    requires Aligned(l, 0) && Follows(l, commit, f, next, matched, Some(Asked(req)))
    ensures AllAbove(req.entries, 0)
    ensures var h := OnAppend(f, req, clock);
            && Follows(l, commit, h.replica, next, matched, Some(Answered(h.reply)))
            && Potential(l, commit, h.replica, next, matched, Some(Answered(h.reply))) <=
               Potential(l, commit, f, next, matched, Some(Asked(req)))
  {
    HandleFollows(l, commit, f, next, matched, req, clock);
    FollowsBounds(l, commit, f, next, matched, Some(Asked(req)));
    RequestTracks(l, commit, f, next, matched, req, clock);
    var h := OnAppend(f, req, clock);
    hide OnAppend, Tracks, Cost;
    if h.reply.Matched? && matched != |l| {
      BatchHelps(l, f.log, next, matched, h.reply.lastIndex);
    }
  }

  lemma ReplyCosts(l: seq<Entry>, commit: nat, f: Replica, next: nat, matched: nat, reply: AppendReply)
    requires Follows(l, commit, f, next, matched, Some(Answered(reply)))
    ensures var next', matched' := if reply.Refused? then reply.conflict else reply.lastIndex + 1,
                                   if reply.Refused? then matched else reply.lastIndex;
            && Follows(l, commit, f, next', matched', None)
            && var was, now := Potential(l, commit, f, next, matched, Some(Answered(reply))), Potential(l, commit, f, next', matched', None);
               now < was || now == 0
  {
    hide Tracks, Cost;
    match reply
    case Refused(_) => RefusalHelps(l, f, next, matched);
    case Matched(last) =>
      FollowsBounds(l, commit, f, next, matched, Some(Answered(reply)));
      PrefixCost(l, last);
  }

  lemma LossCosts(l: seq<Entry>, commit: nat, f: Replica, next: nat, matched: nat, flight: Flight)
    requires Follows(l, commit, f, next, matched, Some(flight)) && Follows(l, commit, f, next, matched, None)
    ensures Potential(l, commit, f, next, matched, None) <= Potential(l, commit, f, next, matched, Some(flight))
  {
    if flight.Answered? && flight.reply.Matched? {
      var last := flight.reply.lastIndex;
      LostMatchExactly(l, commit, f, next, matched, last);
      hide Tracks, CeilDiv;
      assert last == next - 1;
    } else {
      hide Tracks, Cost, RequestFrom;
    }
  }

  // ---------------------------------------------------------------- steps of the epoch

  ghost function PotentialOf(e: Epoch, f: nat): nat
    requires Sound(e) && f in e.followers
  {
    SoundAt(e, f);
    Potential(e.leader.log, e.leader.commitIndex, e.followers[f], e.next[f], e.matched[f], FlightOf(e, f))
  }

  /** The measure does not see the commit index. */
  lemma CommitIsFree(l: seq<Entry>, commit: nat, commit': nat, f: Replica, next: nat, matched: nat, flight: Option<Flight>)
    requires Follows(l, commit, f, next, matched, flight) && Follows(l, commit', f, next, matched, flight)
    ensures Potential(l, commit, f, next, matched, flight) == Potential(l, commit', f, next, matched, flight)
  {
    hide Tracks, Cost, RequestFrom;
  }

  /** A step that leaves the follower, its slots, its flight and the leader's log alone. */
  lemma ElsewhereCosts(e: Epoch, e': Epoch, f: nat)
    requires Sound(e) && Sound(e') && f in e.followers && f in e'.followers && e'.leader.log == e.leader.log
    requires e'.followers[f] == e.followers[f] && FlightOf(e', f) == FlightOf(e, f)
    requires f in e.next && f in e.matched && f in e'.next && f in e'.matched && e'.next[f] == e.next[f] && e'.matched[f] == e.matched[f]
    ensures PotentialOf(e', f) == PotentialOf(e, f)
  {
    hide Sound, Follows, Potential;
    SoundAt(e, f);
    SoundAt(e', f);
    CommitIsFree(e.leader.log, e.leader.commitIndex, e'.leader.commitIndex, e.followers[f], e.next[f], e.matched[f], FlightOf(e, f));
  }

  lemma SendCostsHere(e: Epoch, f: nat, clock: ClockOf)
    requires Sound(e) && f in e.followers && f !in e.wire && Sound(Next(e, Send(f), clock))
    ensures PotentialOf(Next(e, Send(f), clock), f) <= PotentialOf(e, f)
  {
    hide Tracks, Potential, MakeRequest, Sound;
    SendIsSound(e, f, clock);
    SoundAt(e, f);
    SendCosts(e.leader, e.followers[f], e.next[f], e.matched[f]);
    var e' := Next(e, Send(f), clock);
    SoundAt(e', f);
    hide Follows;
    assert FlightOf(e, f) == None && FlightOf(e', f) == Some(Asked(MakeRequest(e.leader, e.next[f])));
  }

  lemma HandleCostsHere(e: Epoch, f: nat, clock: ClockOf)
    requires Sound(e) && f in e.followers && f in e.wire && e.wire[f].Asked? && Sound(Next(e, Handle(f), clock))
    ensures f in Next(e, Handle(f), clock).followers && PotentialOf(Next(e, Handle(f), clock), f) <= PotentialOf(e, f)
  {
    hide Follows, Potential, Sound, OnAppend, Next;
    HandleEffect(e, f, clock);
    SoundAt(e, f);
    var e' := Next(e, Handle(f), clock);
    SoundAt(e', f);
    HandleCosts(e.leader.log, e.leader.commitIndex, e.followers[f], e.next[f], e.matched[f], e.wire[f].request, Clock(clock, f));
  }

  lemma ReplyCostsHere(e: Epoch, f: nat, clock: ClockOf)
    requires Sound(e) && HasReply(e, f) && Sound(Next(e, Reply(f), clock))
    ensures f in e.followers && f in Next(e, Reply(f), clock).followers
    ensures PotentialOf(Next(e, Reply(f), clock), f) < PotentialOf(e, f) || PotentialOf(Next(e, Reply(f), clock), f) == 0
  {
    hide Follows, Potential, Sound, Next, Advance, QuorumIndex;
    ReplyEffect(e, f, clock);
    ReplyIsSound(e, f, clock);
    SoundAt(e, f);
    var e' := Next(e, Reply(f), clock);
    SoundAt(e', f);
    ReplyCosts(e.leader.log, e.leader.commitIndex, e.followers[f], e.next[f], e.matched[f], e.wire[f].reply);
    CommitIsFree(e.leader.log, e.leader.commitIndex, e'.leader.commitIndex, e.followers[f], e'.next[f], e'.matched[f], None);
  }

  lemma LossCostsHere(e: Epoch, e': Epoch, f: nat)
    requires Sound(e) && f in e.followers && f in e.wire && e' == e.(wire := e.wire - {f}) && Sound(e')
    ensures PotentialOf(e', f) <= PotentialOf(e, f)
  {
    hide Follows, Potential, Sound;
    SoundAt(e, f);
    SoundAt(e', f);
    LossCosts(e.leader.log, e.leader.commitIndex, e.followers[f], e.next[f], e.matched[f], e.wire[f]);
  }

  /** Every processed reply brings the follower strictly closer, and no other step takes it further away. */
  lemma StepCosts(e: Epoch, st: Step, f: nat, clock: ClockOf)
    requires Sound(e) && f in e.followers && !st.ClientAppend? && Harmless(e, st)
    ensures Sound(Next(e, st, clock)) && f in Next(e, st, clock).followers
    ensures Next(e, st, clock).leader.log == e.leader.log
    ensures PotentialOf(Next(e, st, clock), f) <= PotentialOf(e, f)
    ensures st == Reply(f) && HasReply(e, f) && PotentialOf(e, f) > 0 ==> PotentialOf(Next(e, st, clock), f) < PotentialOf(e, f)
  {
    hide Sound, PotentialOf, Next, FollowerAfter, Advance, QuorumIndex, Harmless;
    NextIsSound(e, st, clock);
    StepKeepsLeaderLog(e, st, clock);
    SoundAt(e, f);
    FlightsAreFollowers(e);
    var e' := Next(e, st, clock);
    if st.ReserveIno? {
      ReserveCosts(e, st.remotePath, f, clock);
    } else if st.Handle? && CanHandle(e, st.follower) {
      HandleEffect(e, st.follower, clock);
      if st.follower == f { HandleCostsHere(e, f, clock); } else { ElsewhereCosts(e, e', f); }
    } else if st.Reply? && HasReply(e, st.follower) {
      ReplyEffect(e, st.follower, clock);
      if st.follower == f { ReplyCostsHere(e, f, clock); } else { ElsewhereCosts(e, e', f); }
    } else {
      WireCosts(e, st, f, clock);
    }
  }

  lemma ReserveCosts(e: Epoch, p: string, f: nat, clock: ClockOf)
    requires Sound(e) && f in e.followers && Sound(Next(e, ReserveIno(p), clock))
    ensures f in Next(e, ReserveIno(p), clock).followers && PotentialOf(Next(e, ReserveIno(p), clock), f) == PotentialOf(e, f)
  {
    hide Sound, PotentialOf;
    SoundAt(e, f);
    ElsewhereCosts(e, Next(e, ReserveIno(p), clock), f);
  }

  /** Sending and losing. */
  lemma WireCosts(e: Epoch, st: Step, f: nat, clock: ClockOf)
    requires Sound(e) && f in e.followers && Sound(Next(e, st, clock)) && !Local(st)
    requires !(st.Handle? && CanHandle(e, st.follower)) && !(st.Reply? && HasReply(e, st.follower))
    ensures f in Next(e, st, clock).followers && PotentialOf(Next(e, st, clock), f) <= PotentialOf(e, f)
  {
    hide Sound, PotentialOf, MakeRequest;
    OnlyWireChanges(e, st, clock);
    SoundAt(e, f);
    var e' := Next(e, st, clock);
    if st.Send? {
      hide OnReply, OnAppend;
      if st.follower == f && f !in e.wire { SendCostsHere(e, f, clock); } else { ElsewhereCosts(e, e', f); }
    } else {
      hide OnReply, OnAppend;
      LossOrNothing(e, e', st.follower, f);
    }
  }

  lemma LossOrNothing(e: Epoch, e': Epoch, g: nat, f: nat)
    requires Sound(e) && Sound(e') && f in e.followers && (e' == e || (g in e.wire && e' == e.(wire := e.wire - {g})))
    ensures f in e'.followers && PotentialOf(e', f) <= PotentialOf(e, f)
  {
    hide Sound, PotentialOf;
    SoundAt(e, f);
    if e' != e {
      if g == f { LossCostsHere(e, e', f); } else { ElsewhereCosts(e, e', f); }
    }
  }

  /** The measure of a follower falls with every reply of it that is processed, whatever happens in between. */
  lemma {:induction false} CostFalls(e: Epoch, steps: seq<Step>, f: nat, clock: ClockOf)
    requires Sound(e) && f in e.followers && Quiet(steps) && AllHarmless(e, steps, clock)
    ensures Sound(Run(e, steps, clock)) && f in Run(e, steps, clock).followers
    ensures Run(e, steps, clock).leader.log == e.leader.log
    ensures PotentialOf(Run(e, steps, clock), f) == 0 || PotentialOf(Run(e, steps, clock), f) + Rounds(e, steps, clock, f) <= PotentialOf(e, f)
  {
    hide Sound, PotentialOf, Harmless, Next;
    if steps != [] {
      var before, st := steps[..|steps| - 1], steps[|steps| - 1];
      CostFalls(e, before, f, clock);
      StepCosts(Run(e, before, clock), st, f, clock);
    }
  }

  lemma CostBound(e: Epoch, f: nat)
    requires Sound(e) && f in e.followers
    ensures f in e.next && 1 <= e.next[f]
    ensures PotentialOf(e, f) <= e.next[f] - 1 + Max1(CeilDiv(|e.leader.log|, B)) + Extra(e, f)
  {
    SoundAt(e, f);
    PotentialBound(e.leader.log, e.leader.commitIndex, e.followers[f], e.next[f], e.matched[f], FlightOf(e, f));
    hide Potential, Follows, Sound;
  }

  lemma PotentialBound(l: seq<Entry>, commit: nat, f: Replica, next: nat, matched: nat, flight: Option<Flight>)
    requires Follows(l, commit, f, next, matched, flight)
    ensures 1 <= next
    ensures Potential(l, commit, f, next, matched, flight) <=
            next - 1 + Max1(CeilDiv(|l|, B)) + if flight.Some? then 1 else 0
  {
    FollowsBounds(l, commit, f, next, matched, flight);
    CeilDivGrows(|l| - |f.log|, |l|);
    hide Tracks, CeilDiv, RequestFrom;
  }

  lemma ZeroCostMeansCopied(e: Epoch, f: nat)
    requires Sound(e) && f in e.followers && PotentialOf(e, f) == 0
    ensures f in e.matched && e.matched[f] == |e.leader.log| && e.followers[f].log == e.leader.log
  {
    SoundAt(e, f);
    var l := e.leader.log;
    FollowsBounds(l, e.leader.commitIndex, e.followers[f], e.next[f], e.matched[f], FlightOf(e, f));
    hide Sound, Tracks, RequestFrom, CeilDiv;
    assert e.matched[f] == |l|;
    assert e.followers[f].log[..|l|] == l[..|l|];
  }

  /**
   Follower convergence: with the leader's log fixed, a follower of which next - 1 + ceil(|L| / 64)
   replies are processed (at least one batch, and one more if something was under way), interleaved
   with anything else, holds exactly the leader's log and the leader has it recorded.
   */
  lemma FollowerConverges(e: Epoch, steps: seq<Step>, f: nat, clock: ClockOf)
    requires Sound(e) && f in e.followers && Quiet(steps) && AllHarmless(e, steps, clock)
    requires f in e.next && Rounds(e, steps, clock, f) >= e.next[f] - 1 + Max(1, CeilDiv(|e.leader.log|, 64)) + Extra(e, f)
    ensures f in Run(e, steps, clock).followers && f in Run(e, steps, clock).matched
    ensures Run(e, steps, clock).leader.log == e.leader.log
    ensures Run(e, steps, clock).followers[f].log == e.leader.log
    ensures Run(e, steps, clock).matched[f] == |e.leader.log|
  {
    hide Run, AllHarmless, Rounds, Sound, PotentialOf;
    CostFalls(e, steps, f, clock);
    CostBound(e, f);
    ZeroCostMeansCopied(Run(e, steps, clock), f);
  }

  // ---------------------------------------------------------------- everything applied

  ghost predicate AllCopied(e: Epoch) {
    Sound(e) && forall f :: f in e.followers ==> e.matched[f] == |e.leader.log| && e.followers[f].log == e.leader.log
  }

  /** Once every follower is confirmed, the whole log is committed. */
  lemma CopiedIsCommitted(e: Epoch, start: nat)
    requires AllCopied(e) && CommitIsQuorum(e, start) && e.followers != map[]
    ensures e.leader.commitIndex == |e.leader.log| == e.leader.lastApplied
  {
    hide Follows, IsQuorumIndex, Aligned;
    var k := |e.leader.log|;
    assert e.followers.Keys <= Slots(e.matched, k);
    SubsetSize(e.followers.Keys, Slots(e.matched, k));
    assert |e.matched.Keys| == |e.followers.Keys| + 1;
    assert |e.followers.Keys| > 0;
    QuorumIndexCovers(e.matched, QuorumIndex(e.matched), k);
  }

  ghost predicate Finished(e: Epoch) {
    AllCopied(e) && e.leader.commitIndex == |e.leader.log| == e.leader.lastApplied
  }

  /** Replies of a follower still needed until it has applied everything. */
  function Untold(e: Epoch, f: nat): nat
    requires f in e.followers
  {
    if e.followers[f].lastApplied == |e.leader.log| then 0
    else if f !in e.wire || (e.wire[f].Asked? && e.wire[f].request.leaderCommit == |e.leader.log|) then 1
    else 2
  }

  /** What is under way when everything is copied and committed. */
  lemma FinishedFlight(e: Epoch, f: nat)
    requires Finished(e) && f in e.followers
    ensures f in e.next && f in e.matched && e.next[f] == |e.leader.log| + 1
    ensures f in e.wire && e.wire[f].Asked? ==>
              var req := e.wire[f].request;
              req.entries == [] && req.prevIndex == |e.leader.log| && req.prevTerm == TermAt(e.leader.log, |e.leader.log|)
              && req.leaderCommit <= |e.leader.log|
    ensures HasReply(e, f) ==> e.wire[f].reply == Matched(|e.leader.log|)
    ensures e.followers[f].lastApplied == e.followers[f].commitIndex <= |e.leader.log|
  {
    SoundAt(e, f);
    var l := e.leader.log;
    FollowsBounds(l, e.leader.commitIndex, e.followers[f], e.next[f], e.matched[f], FlightOf(e, f));
    hide Sound, LogMatching, Aligned;
    assert e.followers[f].log == l;
  }

  lemma FinishedHandle(e: Epoch, f: nat, clock: ClockOf)
    requires Finished(e) && f in e.followers && f in e.wire && e.wire[f].Asked?
    ensures CanHandle(e, f)
    ensures var h := FollowerAfter(e, f, clock);
            && h.replica.log == e.leader.log && h.reply == Matched(|e.leader.log|)
            && h.replica.lastApplied == if e.wire[f].request.leaderCommit == |e.leader.log| then |e.leader.log|
                                        else Max(e.followers[f].lastApplied, e.wire[f].request.leaderCommit)
  {
    FinishedFlight(e, f);
    assert e.followers[f].log == e.leader.log;
    hide Finished;
  }

  lemma FinishedReply(e: Epoch, f: nat, clock: ClockOf)
    requires Finished(e) && HasReply(e, f)
    ensures f in e.followers && Next(e, Reply(f), clock) == e.(wire := e.wire - {f})
  {
    hide Follows, IsQuorumIndex, Aligned, Advance;
    SoundShape(e);
    FinishedFlight(e, f);
    var k := |e.leader.log|;
    assert e.matched[f := k] == e.matched && e.next[f := k + 1] == e.next;
    assert e.self in e.matched;
    QuorumIsReached(e.matched, QuorumIndex(e.matched), k);
  }

  /** What a step does once everything is finished. */
  ghost predicate Tells(e: Epoch, e': Epoch, st: Step) {
    && Finished(e') && e'.leader.log == e.leader.log && e'.followers.Keys == e.followers.Keys
    && forall f :: f in e.followers ==>
         && Untold(e', f) <= Untold(e, f)
         && (st == Reply(f) && HasReply(e, f) && Untold(e, f) > 0 ==> Untold(e', f) < Untold(e, f))
  }

  lemma StillFinished(e: Epoch, e': Epoch)
    requires Finished(e) && Sound(e') && e'.leader.log == e.leader.log && e'.matched == e.matched
    requires e'.leader.commitIndex == e.leader.commitIndex && e'.leader.lastApplied == e.leader.lastApplied
    requires e'.followers.Keys == e.followers.Keys && forall f :: f in e.followers ==> e'.followers[f].log == e.followers[f].log
    ensures Finished(e')
  {
    hide Sound;
  }

  lemma SendTells(e: Epoch, f: nat, clock: ClockOf)
    requires Finished(e) && CanSend(e, f) && Sound(Next(e, Send(f), clock))
    ensures Tells(e, Next(e, Send(f), clock), Send(f))
  {
    StillFinished(e, Next(e, Send(f), clock));
    assert MakeRequest(e.leader, e.next[f]).leaderCommit == |e.leader.log|;
    hide MakeRequest, Finished;
  }

  lemma HandleTells(e: Epoch, f: nat, clock: ClockOf)
    requires Finished(e) && f in e.followers && f in e.wire && e.wire[f].Asked? && Sound(Next(e, Handle(f), clock))
    ensures Tells(e, Next(e, Handle(f), clock), Handle(f))
  {
    hide Sound, Next, OnAppend, Finished, Untold;
    FinishedShape(e);
    FinishedHandle(e, f, clock);
    FinishedFlight(e, f);
    HandleEffect(e, f, clock);
    FinishedLogs(e, f);
    var e' := Next(e, Handle(f), clock);
    StillFinished(e, e');
    forall g | g in e.followers ensures Untold(e', g) <= Untold(e, g) {
      UntoldAfterHandle(e, e', f, g);
    }
  }

  lemma UntoldAfterHandle(e: Epoch, e': Epoch, f: nat, g: nat)
    requires f in e.followers && f in e'.followers && g in e.followers && f in e.wire && f in e'.wire && e.wire[f].Asked?
    requires e' == e.(followers := e.followers[f := e'.followers[f]], wire := e.wire[f := e'.wire[f]])
    requires e.followers[f].lastApplied <= |e.leader.log| && e.wire[f].request.leaderCommit <= |e.leader.log|
    requires e'.followers[f].lastApplied == if e.wire[f].request.leaderCommit == |e.leader.log| then |e.leader.log|
                                            else Max(e.followers[f].lastApplied, e.wire[f].request.leaderCommit)
    ensures Untold(e', g) <= Untold(e, g)
  {
  }

  /** A reply processed or lost, or a request lost. */
  lemma DropTells(e: Epoch, e': Epoch, st: Step, f: nat)
    requires Finished(e) && f in e.wire && e' == e.(wire := e.wire - {f}) && Sound(e')
    requires st.Reply? ==> st == Reply(f) && HasReply(e, f)
    ensures Tells(e, e', st)
  {
    StillFinished(e, e');
    hide Finished;
  }

  /** From there on everything stays so, and a follower that is told applies. */
  lemma FinishedStep(e: Epoch, st: Step, clock: ClockOf)
    requires Finished(e) && !st.ClientAppend? && Harmless(e, st)
    ensures Tells(e, Next(e, st, clock), st)
  {
    FinishedShape(e);
    hide Sound, Finished, OnAppend, MakeRequest, Tells;
    NextIsSound(e, st, clock);
    var e' := Next(e, st, clock);
    match st
    case ReserveIno(p) => StillFinished(e, e'); SameTells(e, e', st);
    case Send(g) => if CanSend(e, g) { SendTells(e, g, clock); } else { SameTells(e, e', st); }
    case Handle(g) => if CanHandle(e, g) { HandleTells(e, g, clock); } else { SameTells(e, e', st); }
    case Reply(g) =>
      if HasReply(e, g) { FinishedReply(e, g, clock); hide Next; DropTells(e, e', st, g); } else { SameTells(e, e', st); }
    case LoseRequest(g) => if g in e.wire && e.wire[g].Asked? { DropTells(e, e', st, g); } else { SameTells(e, e', st); }
    case LoseReply(g) => if HasReply(e, g) { DropTells(e, e', st, g); } else { SameTells(e, e', st); }
  }

  lemma FinishedShape(e: Epoch)
    requires Finished(e)
    ensures Sound(e) && e.wire.Keys <= e.followers.Keys
  {
    hide Follows;
  }

  lemma SameTells(e: Epoch, e': Epoch, st: Step)
    requires Finished(e') && e'.leader.log == e.leader.log && e'.followers == e.followers && e'.wire == e.wire
    requires !(st.Reply? && HasReply(e, st.follower))
    ensures Tells(e, e', st)
  {
    hide Finished;
  }

  lemma {:induction false} FinishedApplies(e: Epoch, steps: seq<Step>, clock: ClockOf)
    requires Finished(e) && Quiet(steps) && AllHarmless(e, steps, clock)
    ensures Finished(Run(e, steps, clock)) && Run(e, steps, clock).leader.log == e.leader.log
    ensures Run(e, steps, clock).followers.Keys == e.followers.Keys
    ensures forall f :: f in e.followers ==>
              Untold(Run(e, steps, clock), f) == 0 || Untold(Run(e, steps, clock), f) + Rounds(e, steps, clock, f) <= Untold(e, f)
  {
    hide Finished, Next, Untold, Harmless;
    if steps != [] {
      var before, st := steps[..|steps| - 1], steps[|steps| - 1];
      FinishedApplies(e, before, clock);
      FinishedStep(Run(e, before, clock), st, clock);
      assert Tells(Run(e, before, clock), Run(e, steps, clock), st);
    }
  }

  /** The replies of the first phase that make a follower converge, for every follower. */
  ghost predicate EnoughRounds(e: Epoch, steps: seq<Step>, clock: ClockOf) {
    && Sound(e)
    && forall f :: f in e.followers ==>
         f in e.next && Rounds(e, steps, clock, f) >= e.next[f] - 1 + Max1(CeilDiv(|e.leader.log|, B)) + Extra(e, f)
  }

  /** One more reply of every follower, and another if a request is under way that may not know. */
  ghost predicate OneMoreRound(e: Epoch, steps: seq<Step>, clock: ClockOf) {
    forall f :: f in e.followers ==> Rounds(e, steps, clock, f) >= 1 + Extra(e, f)
  }

  lemma EnoughCopies(e: Epoch, steps: seq<Step>, clock: ClockOf)
    requires EnoughRounds(e, steps, clock) && Quiet(steps) && AllHarmless(e, steps, clock)
    ensures Run(e, steps, clock).leader.log == e.leader.log && AllCopied(Run(e, steps, clock))
    ensures Run(e, steps, clock).followers.Keys == e.followers.Keys
  {
    hide Run, Follows, AllHarmless, Rounds;
    SoundShape(e);
    RunKeepsPeers(e, steps, clock);
    QuietIsSound(e, steps, clock);
    forall f | f in e.followers
      ensures f in Run(e, steps, clock).followers && f in Run(e, steps, clock).matched
      ensures Run(e, steps, clock).followers[f].log == e.leader.log && Run(e, steps, clock).matched[f] == |e.leader.log|
    {
      FollowerConverges(e, steps, f, clock);
    }
  }

  lemma {:induction false} QuietIsSound(e: Epoch, steps: seq<Step>, clock: ClockOf)
    requires Sound(e) && Quiet(steps) && AllHarmless(e, steps, clock)
    ensures Sound(Run(e, steps, clock)) && Run(e, steps, clock).leader.log == e.leader.log
  {
    hide Sound, Harmless, Next;
    if steps != [] {
      var before, st := steps[..|steps| - 1], steps[|steps| - 1];
      QuietIsSound(e, before, clock);
      NextIsSound(Run(e, before, clock), st, clock);
      QuietStepKeepsLog(Run(e, before, clock), st, clock);
    }
  }

  lemma QuietStepKeepsLog(e: Epoch, st: Step, clock: ClockOf)
    requires !st.ClientAppend?
    ensures Next(e, st, clock).leader.log == e.leader.log
  {
    StepKeepsLeaderLog(e, st, clock);
    hide Next;
  }

  /**
   Everything is applied: from the start of an epoch without client appends, once enough replies of
   every follower were processed and then at least one more, every node has the leader's log, committed
   and applied to its end. All followers' paths and inodes agree up to the stamps of files, and the
   leader's agree with them exactly when it created no directory after reserving an ino.
   */
  lemma EverythingApplied(e: Epoch, first: seq<Step>, second: seq<Step>, clock: ClockOf, n: nat, m: nat)
    requires Starts(e) && Agrees(e) && e.followers != map[]
    requires EnoughRounds(e, first, clock) && OneMoreRound(Run(e, first, clock), second, clock)
    requires Quiet(first) && Quiet(second) && AllHarmless(e, first + second, clock)
    requires n in e.followers && m in e.followers
    ensures var r := Run(e, first + second, clock);
            && n in r.followers && m in r.followers
            && r.leader.log == r.followers[n].log == e.leader.log
            && r.leader.lastApplied == r.followers[n].lastApplied == |e.leader.log|
            && MapsAgree(r.followers[m].space, r.followers[n].space)
            && (MapsAgree(r.leader.space, r.followers[n].space) <==> !LeaderSplit(e, first + second, clock))
  {
    hide Run, AllHarmless, Rounds, Agrees, EnoughRounds, LeaderSplit, MapsAgree, Finished, AllCopied, OneMoreRound;
    AllFinished(e, first, second, clock);
    var r := Run(e, first + second, clock);
    SelfStays(e, first + second, clock);
    ReplicaAgreement(e, first + second, clock, e.self, n);
    ReplicaAgreement(e, first + second, clock, m, n);
    FinishedLogs(r, n);
  }

  lemma FinishedLogs(r: Epoch, n: nat)
    requires Finished(r) && n in r.followers
    ensures r.followers[n].log == r.leader.log && r.leader.lastApplied == |r.leader.log| && r.self !in r.followers
  {
    hide Follows;
  }

  /** At the end of both phases everything is copied, committed and applied everywhere. */
  lemma AllFinished(e: Epoch, first: seq<Step>, second: seq<Step>, clock: ClockOf)
    requires Starts(e) && e.followers != map[]
    requires EnoughRounds(e, first, clock) && OneMoreRound(Run(e, first, clock), second, clock)
    requires Quiet(first) && Quiet(second) && AllHarmless(e, first + second, clock)
    ensures var r := Run(e, first + second, clock);
            && Finished(r) && r.leader.log == e.leader.log && r.followers.Keys == e.followers.Keys
            && forall f :: f in e.followers ==> r.followers[f].lastApplied == |e.leader.log|
  {
    hide Run, AllHarmless, Rounds, Starts, EnoughRounds, AllCopied, CommitIsQuorum;
    RunSplits(e, first, second, clock);
    var mid := Run(e, first, clock);
    EnoughCopies(e, first, clock);
    RunIsQuorum(e, first, clock);
    CopiedIsCommitted(mid, e.leader.commitIndex);
    FinishedApplies(mid, second, clock);
    var r := Run(e, first + second, clock);
    forall f | f in e.followers ensures r.followers[f].lastApplied == |e.leader.log| {
      assert Untold(r, f) == 0;
    }
  }
}
