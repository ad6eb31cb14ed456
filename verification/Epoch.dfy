/**
 One leader epoch: a leader and any number of followers. Client appends, ino reservations, requests
 built and sent, requests handled, replies processed, and the loss of either, in any order; the one
 restriction is that a follower is not sent a second request while one to it is under way.
 */
module Epoch {
  import opened Basics
  import opened Namespace
  import opened Logs
  import opened Replication
  import opened Quorum

  /** What is under way between the leader and one follower. */
  datatype Flight = Asked(request: AppendRequest) | Answered(reply: AppendReply)

  /** `next` and `matched` have a slot for every peer, the leader included. */
  datatype Epoch = Epoch(self: nat, term: nat, leader: Replica, next: map<nat, nat>, matched: map<nat, nat>,
                         followers: map<nat, Replica>, wire: map<nat, Flight>)

  datatype Step =
    | ClientAppend(command: Command)
    | ReserveIno(remotePath: string)
    | Send(follower: nat)
    | Handle(follower: nat)
    | Reply(follower: nat)
    | LoseRequest(follower: nat)
    | LoseReply(follower: nat)

  /** The steps at the leader that involve no follower. */
  predicate Local(st: Step) { st.ClientAppend? || st.ReserveIno? }

  /** Every node of the cluster. */
  function Members(e: Epoch): map<nat, Replica> { e.followers[e.self := e.leader] }

  function FlightOf(e: Epoch, f: nat): Option<Flight> { if f in e.wire then Some(e.wire[f]) else None }

  /** What each node's clock shows when it applies an index: (node, index) to time. */
  type ClockOf = (nat, nat) -> nat

  function Clock(clock: ClockOf, n: nat): nat -> nat { i => clock(n, i) }

  /** What the leader does with a reply from `f`. */
  ghost function OnReply(e: Epoch, f: nat, reply: AppendReply, clock: ClockOf): Epoch {
    match reply
    case Refused(conflict) => e.(next := e.next[f := conflict])
    case Matched(last) =>
      var matched := e.matched[f := last];
      assert f in matched;
      var q := QuorumIndex(matched);
      e.(next := e.next[f := last + 1], matched := matched,
         leader := if q > e.leader.commitIndex then Advance(e.leader, q, Clock(clock, e.self)) else e.leader)
  }

  predicate CanSend(e: Epoch, f: nat) {
    f in e.followers && f !in e.wire && f in e.next && 1 <= e.next[f] <= |e.leader.log| + 1
  }

  predicate CanHandle(e: Epoch, f: nat) {
    f in e.followers && f in e.wire && e.wire[f].Asked? && AllAbove(e.wire[f].request.entries, 0)
  }

  predicate HasReply(e: Epoch, f: nat) { f in e.wire && e.wire[f].Answered? }

  ghost function FollowerAfter(e: Epoch, f: nat, clock: ClockOf): Handled
    requires CanHandle(e, f)
  {
    OnAppend(e.followers[f], e.wire[f].request, Clock(clock, f))
  }

  /** One step; a step that is not enabled changes nothing. */
  ghost function Next(e: Epoch, st: Step, clock: ClockOf): Epoch {
    match st
    case ClientAppend(c) => e.(leader := e.leader.(log := e.leader.log + [Entry(e.term, |e.leader.log| + 1, c)]))
    case ReserveIno(p) => e.(leader := e.leader.(space := Prepare(e.leader.space, p)))
    case Send(f) =>
      if !CanSend(e, f) then e else e.(wire := e.wire[f := Asked(MakeRequest(e.leader, e.next[f]))])
    case Handle(f) =>
      if !CanHandle(e, f) then e
      else
        var h := FollowerAfter(e, f, clock);
        e.(followers := e.followers[f := h.replica], wire := e.wire[f := Answered(h.reply)])
    case Reply(f) =>
      if !HasReply(e, f) then e else OnReply(e.(wire := e.wire - {f}), f, e.wire[f].reply, clock)
    case LoseRequest(f) => if f in e.wire && e.wire[f].Asked? then e.(wire := e.wire - {f}) else e
    case LoseReply(f) => if HasReply(e, f) then e.(wire := e.wire - {f}) else e
  }

  ghost function Run(e: Epoch, steps: seq<Step>, clock: ClockOf): Epoch {
    if steps == [] then e else Next(Run(e, steps[..|steps| - 1], clock), steps[|steps| - 1], clock)
  }

  /** A request built, handled and answered with nothing in between. */
  function Round(f: nat): seq<Step> { [Send(f), Handle(f), Reply(f)] }

  // ---------------------------------------------------------------- the invariant

  ghost predicate Shape(e: Epoch) {
    && e.self in e.matched && e.matched[e.self] == 0
    && e.next.Keys == e.matched.Keys == e.followers.Keys + {e.self} && e.self !in e.followers
    && e.wire.Keys <= e.followers.Keys
    && Aligned(e.leader.log, 0)
    && e.leader.lastApplied == e.leader.commitIndex <= |e.leader.log|
  }

  /**
   What holds of one follower. With nothing or a request under way it is tracked as the leader has it
   on its books; with a reply under way it is tracked as the leader will have it after processing it.
   */
  ghost predicate Follows(l: seq<Entry>, commit: nat, f: Replica, next: nat, matched: nat, flight: Option<Flight>) {
    match flight
    case None => Tracks(l, f, next, matched)
    case Some(Asked(req)) => Tracks(l, f, next, matched) && RequestFrom(l, commit, f.log, req, next)
    case Some(Answered(Refused(conflict))) =>
      Tracks(l, f, next, matched) && conflict == next - 1 && Tracks(l, f, conflict, matched)
    case Some(Answered(Matched(last))) =>
      && matched < next <= last + 1 && last <= |l| && f.log == l[..last]
      && Tracks(l, f, last + 1, last)
  }

  ghost predicate Sound(e: Epoch) {
    && Shape(e)
    && forall f :: f in e.followers ==>
         Follows(e.leader.log, e.leader.commitIndex, e.followers[f], e.next[f], e.matched[f], FlightOf(e, f))
  }

  /**
   How an epoch starts: `become_leader` has set every slot, nothing is under way, and every follower's
   log is aligned, no longer than the leader's, log-matching, with its applied prefix in the leader's log.
   */
  ghost predicate Starts(e: Epoch) {
    && Shape(e) && e.wire == map[]
    && forall f :: f in e.followers ==>
         && e.next[f] == |e.leader.log| + 1 && e.matched[f] == 0
         && Aligned(e.followers[f].log, 0) && |e.followers[f].log| <= |e.leader.log|
         && LogMatching(e.followers[f].log, e.leader.log)
         && e.followers[f].lastApplied == e.followers[f].commitIndex <= |e.followers[f].log|
         && e.followers[f].log[..e.followers[f].lastApplied] == e.leader.log[..e.followers[f].lastApplied]
  }

  /** Node `n` leads the others, with every slot as `become_leader` sets it. */
  function NewEpoch(all: map<nat, Replica>, n: nat, term: nat): Epoch
    requires n in all
  {
    Epoch(n, term, all[n], map p | p in all :: |all[n].log| + 1, map p | p in all :: 0, all - {n}, map[])
  }

  /** What a node must bring to follow a leader with log `l`, however it was tracked before. */
  ghost predicate FitFollower(l: seq<Entry>, f: Replica) {
    && Aligned(f.log, 0) && |f.log| <= |l| && LogMatching(f.log, l)
    && f.lastApplied == f.commitIndex <= |f.log| && f.log[..f.lastApplied] == l[..f.lastApplied]
  }

  lemma FitStarts(all: map<nat, Replica>, n: nat, term: nat)
    requires n in all && forall m :: m in all ==> FitFollower(all[n].log, all[m])
    ensures Starts(NewEpoch(all, n, term))
  {
    hide LogMatching;
    var e := NewEpoch(all, n, term);
    assert e.followers.Keys == all.Keys - {n};
    forall f | f in e.followers ensures FitFollower(e.leader.log, e.followers[f]) {
      assert f in all;
    }
  }

  lemma EveryMemberIsFit(e: Epoch, n: nat)
    requires Sound(e) && n in Members(e)
    ensures FitFollower(e.leader.log, Members(e)[n])
  {
    hide RequestFrom;
  }

  lemma StartIsSound(e: Epoch)
    requires Starts(e)
    ensures Sound(e)
  {
  }

  /** A lost reply is harmless when it is a refusal or reports nothing the leader does not expect. */
  predicate Harmless(e: Epoch, st: Step) {
    st.LoseReply? && HasReply(e, st.follower) && e.wire[st.follower].reply.Matched? && st.follower in e.next ==>
      e.wire[st.follower].reply.lastIndex < e.next[st.follower]
  }

  ghost predicate AllHarmless(e: Epoch, steps: seq<Step>, clock: ClockOf) {
    steps != [] ==> AllHarmless(e, steps[..|steps| - 1], clock) && Harmless(Run(e, steps[..|steps| - 1], clock), steps[|steps| - 1])
  }

  // ---------------------------------------------------------------- one follower, step by step

  lemma AppendTracks(l: seq<Entry>, x: Entry, f: Replica, next: nat, matched: nat)
    requires Tracks(l, f, next, matched)
    ensures Tracks(l + [x], f, next, matched)
  {
    var l' := l + [x];
    assert forall i :: 0 <= i <= |l| ==> l'[..i] == l[..i];
  }

  lemma AppendFollows(l: seq<Entry>, x: Entry, commit: nat, f: Replica, next: nat, matched: nat, flight: Option<Flight>)
    requires Follows(l, commit, f, next, matched, flight)
    ensures Follows(l + [x], commit, f, next, matched, flight)
  {
    hide Tracks, RequestFrom;
    match flight
    case None => AppendTracks(l, x, f, next, matched);
    case Some(Asked(req)) =>
      AppendTracks(l, x, f, next, matched);
      LaterLogKeepsRequest(l, commit, l + [x], commit, f.log, req, next);
    case Some(Answered(Refused(conflict))) =>
      AppendTracks(l, x, f, next, matched);
      AppendTracks(l, x, f, conflict, matched);
    case Some(Answered(Matched(last))) =>
      AppendTracks(l, x, f, last + 1, last);
      assert (l + [x])[..last] == l[..last];
  }

  lemma CommitFollows(l: seq<Entry>, commit: nat, commit': nat, f: Replica, next: nat, matched: nat, flight: Option<Flight>)
    requires Follows(l, commit, f, next, matched, flight) && commit <= commit'
    ensures Follows(l, commit', f, next, matched, flight)
  {
    hide Tracks;
  }

  /** The follower's side of a request under way. */
  lemma HandleFollows(l: seq<Entry>, commit: nat, f: Replica, next: nat, matched: nat, req: AppendRequest, clock: nat -> nat)
    requires Aligned(l, 0) && Follows(l, commit, f, next, matched, Some(Asked(req)))
    ensures AllAbove(req.entries, 0)
    ensures var h := OnAppend(f, req, clock);
            Follows(l, commit, h.replica, next, matched, Some(Answered(h.reply)))
  {
    RequestTracks(l, commit, f, next, matched, req, clock);
    TracksBounds(l, f, next, matched);
    RequestBounds(l, commit, f.log, req, next);
    hide Tracks, OnAppend, RequestFrom;
  }

  lemma RequestBounds(l: seq<Entry>, commit: nat, f: seq<Entry>, req: AppendRequest, next: nat)
    requires RequestFrom(l, commit, f, req, next)
    ensures 1 <= next && next - 1 + |req.entries| <= |l|
  {
  }

  /** What the leader may rely on, whatever is under way. */
  lemma FollowsBounds(l: seq<Entry>, commit: nat, f: Replica, next: nat, matched: nat, flight: Option<Flight>)
    requires Follows(l, commit, f, next, matched, flight)
    ensures matched < next <= |l| + 1 && matched <= |l|
    ensures matched <= |f.log| <= |l| && f.log[..matched] == l[..matched]
    ensures flight.Some? && flight.value.Answered? && flight.value.reply.Matched? ==>
              matched <= flight.value.reply.lastIndex <= |l|
  {
    hide RequestFrom, LogMatching, Aligned;
    if flight.Some? && flight.value.Answered? && flight.value.reply.Matched? {
      assert f.log[..matched] == l[..matched];
    }
  }

  lemma TracksBounds(l: seq<Entry>, f: Replica, next: nat, matched: nat)
    requires Tracks(l, f, next, matched)
    ensures matched <= |l| && matched < next && 1 <= next <= |l| + 1
  {
  }

  /** The rule's choice never lies beyond what some slot has reached. */
  lemma QuorumIsReached(m: map<nat, nat>, q: nat, bound: nat)
    requires m != map[] && IsQuorumIndex(m, q) && forall f :: f in m ==> m[f] <= bound
    ensures q <= bound
  {
    assert |m.Keys| > 0;
    assert |Slots(m, q)| > 0;
    var f :| f in Slots(m, q);
  }

  // ---------------------------------------------------------------- steps keep it

  lemma SoundAt(e: Epoch, f: nat)
    requires Sound(e) && f in e.followers
    ensures f in e.next && f in e.matched
    ensures Follows(e.leader.log, e.leader.commitIndex, e.followers[f], e.next[f], e.matched[f], FlightOf(e, f))
    ensures Aligned(e.leader.log, 0) && e.leader.lastApplied == e.leader.commitIndex <= |e.leader.log|
    ensures e.matched[f] < e.next[f] <= |e.leader.log| + 1 && e.matched[f] <= |e.leader.log|
  {
    hide Follows, Aligned;
    FollowsBounds(e.leader.log, e.leader.commitIndex, e.followers[f], e.next[f], e.matched[f], FlightOf(e, f));
  }

  lemma SoundShape(e: Epoch)
    requires Sound(e)
    ensures Shape(e) && forall g :: g in e.matched ==> e.matched[g] <= |e.leader.log|
  {
    hide Follows;
    forall g | g in e.matched ensures e.matched[g] <= |e.leader.log| {
      if g != e.self { SoundAt(e, g); }
    }
  }

  lemma FlightsAreFollowers(e: Epoch)
    requires Sound(e)
    ensures e.wire.Keys <= e.followers.Keys
  {
    hide Follows;
  }

  /** Changing one follower, its slots and its flight keeps the epoch sound if it keeps following. */
  lemma OneFollowerKeepsSound(e: Epoch, e': Epoch, f: nat)
    requires Sound(e) && f in e.followers && Shape(e') && e'.leader.log == e.leader.log
    requires e.leader.commitIndex <= e'.leader.commitIndex && e'.followers.Keys == e.followers.Keys
    requires forall g :: g in e.followers && g != f ==>
               e'.followers[g] == e.followers[g] && e'.next[g] == e.next[g] && e'.matched[g] == e.matched[g] && FlightOf(e', g) == FlightOf(e, g)
    requires Follows(e'.leader.log, e'.leader.commitIndex, e'.followers[f], e'.next[f], e'.matched[f], FlightOf(e', f))
    ensures Sound(e')
  {
    hide Follows, FlightOf;
    forall g | g in e'.followers
      ensures Follows(e'.leader.log, e'.leader.commitIndex, e'.followers[g], e'.next[g], e'.matched[g], FlightOf(e', g))
    {
      if g != f {
        CommitFollows(e.leader.log, e.leader.commitIndex, e'.leader.commitIndex, e.followers[g], e.next[g], e.matched[g], FlightOf(e, g));
      }
    }
  }

  lemma ClientAppendIsSound(e: Epoch, c: Command, clock: ClockOf)
    requires Sound(e)
    ensures Sound(Next(e, ClientAppend(c), clock))
  {
    hide Follows;
    var e' := Next(e, ClientAppend(c), clock);
    forall f | f in e.followers
      ensures Follows(e'.leader.log, e.leader.commitIndex, e.followers[f], e.next[f], e.matched[f], FlightOf(e, f))
    {
      AppendFollows(e.leader.log, Entry(e.term, |e.leader.log| + 1, c), e.leader.commitIndex,
                    e.followers[f], e.next[f], e.matched[f], FlightOf(e, f));
    }
  }

  lemma ReserveIsSound(e: Epoch, p: string, clock: ClockOf)
    requires Sound(e)
    ensures Sound(Next(e, ReserveIno(p), clock))
  {
    hide Follows;
  }

  lemma SendIsSound(e: Epoch, f: nat, clock: ClockOf)
    requires Sound(e) && f in e.followers
    ensures Sound(Next(e, Send(f), clock))
    ensures f !in e.wire ==> CanSend(e, f)
  {
    hide Tracks, Aligned, MakeRequest;
    SoundAt(e, f);
    if f !in e.wire {
      BuiltRequestIsFrom(e.leader, e.followers[f], e.next[f], e.matched[f]);
      hide RequestFrom;
      OneFollowerKeepsSound(e, Next(e, Send(f), clock), f);
    }
  }

  lemma HandleIsSound(e: Epoch, f: nat, clock: ClockOf)
    requires Sound(e) && f in e.followers && f in e.wire && e.wire[f].Asked?
    ensures CanHandle(e, f) && Sound(Next(e, Handle(f), clock))
  {
    hide Follows, OnAppend, Aligned;
    SoundAt(e, f);
    HandleFollows(e.leader.log, e.leader.commitIndex, e.followers[f], e.next[f], e.matched[f], e.wire[f].request, Clock(clock, f));
    OneFollowerKeepsSound(e, Next(e, Handle(f), clock), f);
  }

  /** Processing a success keeps the leader in shape: the commit index stays within its log. */
  lemma ReplyKeepsShape(e: Epoch, f: nat, last: nat, clock: ClockOf)
    requires Shape(e) && f in e.followers && last <= |e.leader.log|
    requires forall g :: g in e.matched ==> e.matched[g] <= |e.leader.log|
    ensures var e' := OnReply(e, f, Matched(last), clock);
            Shape(e') && e'.leader.log == e.leader.log && e.leader.commitIndex <= e'.leader.commitIndex
  {
    hide IsQuorumIndex, Aligned;
    var matched := e.matched[f := last];
    assert f in matched;
    QuorumIsReached(matched, QuorumIndex(matched), |e.leader.log|);
    if QuorumIndex(matched) > e.leader.commitIndex {
      AdvanceKeepsLog(e.leader, QuorumIndex(matched), Clock(clock, e.self));
    }
  }

  lemma ReplyIsSound(e: Epoch, f: nat, clock: ClockOf)
    requires Sound(e) && HasReply(e, f)
    ensures f in e.followers && Sound(Next(e, Reply(f), clock))
    ensures Next(e, Reply(f), clock).leader.log == e.leader.log
    ensures Next(e, Reply(f), clock).leader.commitIndex >= e.leader.commitIndex
  {
    hide Follows, Shape, Next, OnReply;
    SoundShape(e);
    ReplyEffect(e, f, clock);
    SoundAt(e, f);
    ReplyShape(e, f, clock);
    AfterReply(e.leader.log, e.leader.commitIndex, e.followers[f], e.next[f], e.matched[f], e.wire[f].reply);
    var e' := Next(e, Reply(f), clock);
    if e.wire[f].reply.Matched? {
      CommitFollows(e.leader.log, e.leader.commitIndex, e'.leader.commitIndex, e.followers[f], e'.next[f], e'.matched[f], None);
    }
    OneFollowerKeepsSound(e, e', f);
  }

  lemma AfterReply(l: seq<Entry>, commit: nat, f: Replica, next: nat, matched: nat, reply: AppendReply)
    requires Follows(l, commit, f, next, matched, Some(Answered(reply)))
    ensures reply.Refused? ==> Follows(l, commit, f, reply.conflict, matched, None)
    ensures reply.Matched? ==> Follows(l, commit, f, reply.lastIndex + 1, reply.lastIndex, None)
  {
    hide Tracks;
  }

  lemma ReplyShape(e: Epoch, f: nat, clock: ClockOf)
    requires Sound(e) && HasReply(e, f)
    ensures var e' := Next(e, Reply(f), clock);
            Shape(e') && e'.leader.log == e.leader.log && e.leader.commitIndex <= e'.leader.commitIndex
  {
    hide Follows, Aligned, Advance, IsQuorumIndex;
    SoundShape(e);
    SoundAt(e, f);
    FollowsBounds(e.leader.log, e.leader.commitIndex, e.followers[f], e.next[f], e.matched[f], FlightOf(e, f));
    if e.wire[f].reply.Matched? {
      ReplyKeepsShape(e.(wire := e.wire - {f}), f, e.wire[f].reply.lastIndex, clock);
    }
  }

  lemma LoseRequestIsSound(e: Epoch, f: nat, clock: ClockOf)
    requires Sound(e) && f in e.wire && e.wire[f].Asked?
    ensures Sound(Next(e, LoseRequest(f), clock))
  {
    hide Tracks, Aligned, RequestFrom;
    SoundAt(e, f);
    OneFollowerKeepsSound(e, Next(e, LoseRequest(f), clock), f);
  }

  /** A follower that reported more than the leader expected no longer lacks anything at `next`. */
  lemma LostMatchExactly(l: seq<Entry>, commit: nat, f: Replica, next: nat, matched: nat, last: nat)
    requires Follows(l, commit, f, next, matched, Some(Answered(Matched(last))))
    ensures Follows(l, commit, f, next, matched, None) <==> last < next
  {
    if last < next {
      assert last == next - 1;
      assert f.log[..matched] == l[..matched];
    } else {
      assert f.log[next - 1] == l[next - 1];
    }
  }

  /** A lost reply keeps the epoch sound exactly when it is a refusal or reports nothing new. */
  lemma LostReplyIsSoundExactly(e: Epoch, f: nat, clock: ClockOf)
    requires Sound(e) && HasReply(e, f)
    ensures Sound(Next(e, LoseReply(f), clock)) <==> Harmless(e, LoseReply(f))
  {
    hide Tracks, Aligned;
    SoundAt(e, f);
    var e' := Next(e, LoseReply(f), clock);
    match e.wire[f].reply
    case Refused(conflict) => OneFollowerKeepsSound(e, e', f);
    case Matched(last) =>
      LostMatchExactly(e.leader.log, e.leader.commitIndex, e.followers[f], e.next[f], e.matched[f], last);
      hide Follows;
      if last < e.next[f] {
        OneFollowerKeepsSound(e, e', f);
      } else if Sound(e') {
        SoundAt(e', f);
      }
  }

  lemma NoSuchFlight(e: Epoch, st: Step, clock: ClockOf)
    requires !Local(st) && e.wire.Keys <= e.followers.Keys
    requires st.follower !in e.followers || (st.Handle? && !CanHandle(e, st.follower)) ||
             (st.Reply? && !HasReply(e, st.follower)) || (st.LoseReply? && !HasReply(e, st.follower)) ||
             (st.LoseRequest? && !(st.follower in e.wire && e.wire[st.follower].Asked?))
    ensures Next(e, st, clock) == e
  {
  }

  lemma NextIsSound(e: Epoch, st: Step, clock: ClockOf)
    requires Sound(e) && Harmless(e, st)
    ensures Sound(Next(e, st, clock))
  {
    SoundShape(e);
    hide Sound;
    match st
    case ClientAppend(c) => ClientAppendIsSound(e, c, clock);
    case ReserveIno(p) => ReserveIsSound(e, p, clock);
    case Send(f) => if f in e.followers { SendIsSound(e, f, clock); }
    case Handle(f) => if f in e.wire && e.wire[f].Asked? { HandleIsSound(e, f, clock); }
    case Reply(f) => if HasReply(e, f) { ReplyIsSound(e, f, clock); }
    case LoseRequest(f) => if f in e.wire && e.wire[f].Asked? { LoseRequestIsSound(e, f, clock); }
    case LoseReply(f) => if HasReply(e, f) { LostReplyIsSoundExactly(e, f, clock); }
  }

  /**
   Bookkeeping soundness: at every point of every epoch run, each follower agrees with the leader
   up to `matched`, and lacks or conflicts at `next` or has a reply under way that says where it does,
   so no batch ever repeats an entry.
   */
  lemma {:induction false} RunIsSound(e: Epoch, steps: seq<Step>, clock: ClockOf)
    requires Starts(e) && AllHarmless(e, steps, clock)
    ensures Sound(Run(e, steps, clock))
  {
    hide Sound, Harmless, Next;
    if steps == [] {
      StartIsSound(e);
    } else {
      var before := steps[..|steps| - 1];
      RunIsSound(e, before, clock);
      NextIsSound(Run(e, before, clock), steps[|steps| - 1], clock);
    }
  }

  // ---------------------------------------------------------------- effects of steps and runs

  /** Handling a request: the follower's log and what it reports. */
  lemma HandleEffect(e: Epoch, f: nat, clock: ClockOf)
    requires Sound(e) && f in e.followers && f in e.wire && e.wire[f].Asked?
    ensures CanHandle(e, f)
    ensures var h, e', req := FollowerAfter(e, f, clock), Next(e, Handle(f), clock), e.wire[f].request;
            && e' == e.(followers := e.followers[f := h.replica], wire := e.wire[f := Answered(h.reply)])
            && (h.reply.Refused? ==> h.replica == e.followers[f] && h.reply.conflict == e.next[f] - 1)
            && (h.reply.Matched? ==>
                  && h.reply.lastIndex == e.next[f] - 1 + |req.entries| <= |e.leader.log|
                  && h.replica.log == e.leader.log[..h.reply.lastIndex])
            && h.replica.lastApplied <= Max(e.followers[f].lastApplied, e.leader.commitIndex)
  {
    SoundAt(e, f);
    var req := e.wire[f].request;
    RequestTracks(e.leader.log, e.leader.commitIndex, e.followers[f], e.next[f], e.matched[f], req, Clock(clock, f));
    hide Tracks, OnAppend, Aligned;
  }

  /** Processing a reply: the leader's books and what it commits. */
  lemma ReplyEffect(e: Epoch, f: nat, clock: ClockOf)
    requires Sound(e) && HasReply(e, f)
    ensures f in e.followers && f in e.matched
    ensures var reply, e' := e.wire[f].reply, Next(e, Reply(f), clock);
            && e'.self == e.self && e'.followers == e.followers && e'.wire == e.wire - {f}
            && (reply.Refused? ==>
                  e'.leader == e.leader && e'.matched == e.matched && e'.next == e.next[f := reply.conflict])
            && (reply.Matched? ==>
                  && e'.next == e.next[f := reply.lastIndex + 1]
                  && e.matched[f] <= reply.lastIndex && e'.matched == e.matched[f := reply.lastIndex] && e'.matched != map[]
                  && var q := QuorumIndex(e'.matched);
                     e'.leader == if q > e.leader.commitIndex then Advance(e.leader, q, Clock(clock, e.self)) else e.leader)
  {
    hide Follows, Aligned, Advance, IsQuorumIndex;
    SoundShape(e);
    SoundAt(e, f);
    FollowsBounds(e.leader.log, e.leader.commitIndex, e.followers[f], e.next[f], e.matched[f], FlightOf(e, f));
    if e.wire[f].reply.Matched? {
      assert f in e.matched[f := e.wire[f].reply.lastIndex];
    }
  }

  /** A step that handles no request and processes no reply: at most what is under way changes. */
  lemma OnlyWireChanges(e: Epoch, st: Step, clock: ClockOf)
    requires !Local(st) && !(st.Handle? && CanHandle(e, st.follower)) && !(st.Reply? && HasReply(e, st.follower))
    ensures Next(e, st, clock) == e.(wire := Next(e, st, clock).wire)
  {
    hide MakeRequest, OnReply, OnAppend;
  }

  lemma HandledIs(e: Epoch, f: nat, clock: ClockOf)
    requires CanHandle(e, f)
    ensures var h := FollowerAfter(e, f, clock);
            Next(e, Handle(f), clock) == e.(followers := e.followers[f := h.replica], wire := e.wire[f := Answered(h.reply)])
  {
    hide FollowerAfter;
  }

  lemma ReplyKeepsLog(e: Epoch, f: nat, reply: AppendReply, clock: ClockOf)
    ensures var e' := OnReply(e, f, reply, clock);
            e'.leader.log == e.leader.log && e'.followers == e.followers && e'.self == e.self && e'.wire == e.wire
  {
    hide ApplyAll, Commands, IsQuorumIndex;
  }

  /** Only a client's append changes the leader's log. */
  lemma StepKeepsLeaderLog(e: Epoch, st: Step, clock: ClockOf)
    requires !st.ClientAppend?
    ensures Next(e, st, clock).leader.log == e.leader.log && Next(e, st, clock).self == e.self
  {
    if st.ReserveIno? {
      hide Prepare;
    } else if st.Handle? && CanHandle(e, st.follower) {
      HandledIs(e, st.follower, clock);
      hide Next;
    } else if st.Reply? && HasReply(e, st.follower) {
      ReplyKeepsLog(e.(wire := e.wire - {st.follower}), st.follower, e.wire[st.follower].reply, clock);
      hide OnReply;
    } else {
      OnlyWireChanges(e, st, clock);
      hide Next;
    }
  }

  lemma {:induction false} RunKeepsPeers(e: Epoch, steps: seq<Step>, clock: ClockOf)
    requires e.wire.Keys <= e.followers.Keys
    ensures Run(e, steps, clock).followers.Keys == e.followers.Keys
    ensures Run(e, steps, clock).wire.Keys <= e.followers.Keys
  {
    hide Next;
    if steps != [] {
      RunKeepsPeers(e, steps[..|steps| - 1], clock);
      NextKeepsPeers(Run(e, steps[..|steps| - 1], clock), steps[|steps| - 1], clock);
    }
  }

  lemma NextKeepsPeers(e: Epoch, st: Step, clock: ClockOf)
    requires e.wire.Keys <= e.followers.Keys
    ensures Next(e, st, clock).followers.Keys == e.followers.Keys && Next(e, st, clock).wire.Keys <= e.followers.Keys
  {
    hide OnAppend, MakeRequest, Advance, QuorumIndex;
  }

  lemma {:induction false} SelfStays(e: Epoch, steps: seq<Step>, clock: ClockOf)
    ensures Run(e, steps, clock).self == e.self
  {
    if steps != [] {
      SelfStays(e, steps[..|steps| - 1], clock);
    }
  }

  lemma {:induction false} RunSplits(e: Epoch, a: seq<Step>, b: seq<Step>, clock: ClockOf)
    ensures Run(e, a + b, clock) == Run(Run(e, a, clock), b, clock)
    ensures AllHarmless(e, a + b, clock) <==> AllHarmless(e, a, clock) && AllHarmless(Run(e, a, clock), b, clock)
  {
    hide Next, Harmless;
    if b == [] {
      assert a + b == a;
    } else {
      assert (a + b)[..|a + b| - 1] == a + b[..|b| - 1];
      RunSplits(e, a, b[..|b| - 1], clock);
    }
  }

  // ---------------------------------------------------------------- rounds and ticks

  lemma RunThree(e: Epoch, x: Step, y: Step, z: Step, clock: ClockOf)
    ensures Run(e, [x, y, z], clock) == Next(Next(Next(e, x, clock), y, clock), z, clock)
  {
    hide Run, Next;
    RunNothing(e, clock);
    RunAppend(e, [], x, clock);
    RunAppend(e, [x], y, clock);
    RunAppend(e, [x, y], z, clock);
    assert [] + [x] == [x] && [x] + [y] == [x, y] && [x, y] + [z] == [x, y, z];
  }

  lemma RunNothing(e: Epoch, clock: ClockOf)
    ensures Run(e, [], clock) == e
  {
  }

  lemma RunAppend(e: Epoch, steps: seq<Step>, st: Step, clock: ClockOf)
    ensures Run(e, steps + [st], clock) == Next(Run(e, steps, clock), st, clock)
  {
    hide Next;
    assert (steps + [st])[..|steps|] == steps;
  }

  /** A round with an idle follower: what it answers to a request built now, processed at once. */
  lemma RoundEffect(e: Epoch, f: nat, clock: ClockOf)
    requires Sound(e) && f in e.followers && f !in e.wire
    ensures CanSend(e, f) && AllAbove(MakeRequest(e.leader, e.next[f]).entries, 0)
    ensures var h := OnAppend(e.followers[f], MakeRequest(e.leader, e.next[f]), Clock(clock, f));
            Run(e, Round(f), clock) == OnReply(e.(followers := e.followers[f := h.replica]), f, h.reply, clock)
    ensures Sound(Run(e, Round(f), clock))
  {
    hide Sound, OnAppend, MakeRequest, AllAbove, OnReply, Run, Next;
    SlotsAreBounded(e, f);
    SendIsSound(e, f, clock);
    SentIs(e, e, f, clock);
    var sent := Next(e, Send(f), clock);
    HandleIsSound(sent, f, clock);
    HandledIs(sent, f, clock);
    var handled := Next(sent, Handle(f), clock);
    ReplyIsSound(handled, f, clock);
    ReplyIs(handled, f, clock);
    RunThree(e, Send(f), Handle(f), Reply(f), clock);
    assert handled.wire - {f} == e.wire;
  }

  lemma ReplyIs(e: Epoch, f: nat, clock: ClockOf)
    requires HasReply(e, f)
    ensures Next(e, Reply(f), clock) == OnReply(e.(wire := e.wire - {f}), f, e.wire[f].reply, clock)
  {
    hide OnReply;
  }

  /** Rounds keep the epoch sound, with any follower that has nothing under way. */
  lemma RoundIsSound(e: Epoch, f: nat, clock: ClockOf)
    requires Sound(e) && f in e.followers && f !in e.wire
    ensures Sound(Run(e, Round(f), clock)) && Run(e, Round(f), clock).leader.log == e.leader.log
  {
    hide Sound, OnAppend, MakeRequest, AllAbove;
    RoundEffect(e, f, clock);
  }

  /**
   A tick of the heartbeat: the requests to all idle followers are built from one state, in whatever
   order they are sent, and nothing else changes.
   */
  lemma {:induction false} TickSendsAll(e: Epoch, fs: seq<nat>, clock: ClockOf)
    requires Sound(e) && (forall i :: 0 <= i < |fs| ==> fs[i] in e.followers && fs[i] !in e.wire)
    ensures var r := Run(e, Sends(fs), clock);
            && Sound(r) && r == e.(wire := r.wire)
            && (forall f :: f in e.followers ==>
                  FlightOf(r, f) == if f in fs then Some(Asked(MakeRequest(e.leader, e.next[f]))) else FlightOf(e, f))
  {
    hide MakeRequest, Sound, Next;
    if fs == [] {
      RunNothing(e, clock);
    } else {
      var before, f := fs[..|fs| - 1], fs[|fs| - 1];
      assert fs == before + [f] && Sends(fs) == Sends(before) + [Send(f)];
      TickSendsAll(e, before, clock);
      RunAppend(e, Sends(before), Send(f), clock);
      hide Run;
      var mid := Run(e, Sends(before), clock);
      SendIsSound(mid, f, clock);
      SlotsAreBounded(e, f);
      SentIs(mid, e.(wire := mid.wire), f, clock);
    }
  }

  /** Sending again to a follower whose request is under way changes nothing. */
  lemma SentIs(mid: Epoch, e: Epoch, f: nat, clock: ClockOf)
    requires mid == e && f in e.followers && f in e.next && 1 <= e.next[f] <= |e.leader.log| + 1
    ensures Next(mid, Send(f), clock) == if f in e.wire then e else e.(wire := e.wire[f := Asked(MakeRequest(e.leader, e.next[f]))])
  {
    hide MakeRequest;
  }

  lemma SlotsAreBounded(e: Epoch, f: nat)
    requires Sound(e) && f in e.followers
    ensures f in e.next && 1 <= e.next[f] <= |e.leader.log| + 1
  {
    SoundAt(e, f);
  }

  function Sends(fs: seq<nat>): seq<Step> { seq(|fs|, i requires 0 <= i < |fs| => Send(fs[i])) }
}
