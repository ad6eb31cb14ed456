/** What every epoch run guarantees about commits and about the namespaces of the nodes. */
module Agreement {
  import opened Basics
  import opened Namespace
  import opened Logs
  import opened Replication
  import opened Quorum
  import opened Snapshots
  import opened Reservations
  import opened Epoch
  import opened Accounts

  // ---------------------------------------------------------------- commits

  /** Whatever was committed since the start is backed by enough slots, and nothing backed is left uncommitted. */
  ghost predicate CommitIsQuorum(e: Epoch, start: nat) {
    && (e.leader.commitIndex > start ==> Reached(e.matched, e.leader.commitIndex) >= Needed(|e.matched|))
    && e.matched != map[] && QuorumIndex(e.matched) <= e.leader.commitIndex
  }

  lemma ReachedGrows(m: map<nat, nat>, f: nat, x: nat, k: nat)
    requires f in m && m[f] <= x
    ensures Reached(m, k) <= Reached(m[f := x], k) && |m[f := x]| == |m|
  {
    SubsetSize(Slots(m, k), Slots(m[f := x], k));
    assert m[f := x].Keys == m.Keys;
    assert |m[f := x].Keys| == |m.Keys|;
  }

  lemma QuorumKept(e: Epoch, f: nat, last: nat, e': Epoch, start: nat, clock: ClockOf)
    requires CommitIsQuorum(e, start) && f in e.matched && e.matched[f] <= last
    requires e'.matched == e.matched[f := last] && e.leader.lastApplied <= e.leader.commitIndex
    requires e'.matched != map[]
    requires var q := QuorumIndex(e'.matched);
             e'.leader == if q > e.leader.commitIndex then Advance(e.leader, q, Clock(clock, e.self)) else e.leader
    ensures CommitIsQuorum(e', start)
  {
    hide Reached, IsQuorumIndex;
    var q := QuorumIndex(e'.matched);
    QuorumIndexCovers(e'.matched, q, q);
    ReachedGrows(e.matched, f, last, e.leader.commitIndex);
  }

  lemma ReplyKeepsQuorum(e: Epoch, f: nat, start: nat, clock: ClockOf)
    requires Sound(e) && HasReply(e, f) && CommitIsQuorum(e, start)
    ensures CommitIsQuorum(Next(e, Reply(f), clock), start)
  {
    hide Next, Follows, Reached, IsQuorumIndex, Aligned, Advance;
    ReplyEffect(e, f, clock);
    var e' := Next(e, Reply(f), clock);
    if e.wire[f].reply.Matched? {
      assert f in e'.matched;
      QuorumKept(e, f, e.wire[f].reply.lastIndex, e', start, clock);
    }
  }

  lemma StartIsQuorum(e: Epoch)
    requires Starts(e)
    ensures CommitIsQuorum(e, e.leader.commitIndex)
  {
    forall g | g in e.matched ensures e.matched[g] <= 0 {
    }
    QuorumIsReached(e.matched, QuorumIndex(e.matched), 0);
  }

  lemma {:induction false} RunIsQuorum(e: Epoch, steps: seq<Step>, clock: ClockOf)
    requires Starts(e) && AllHarmless(e, steps, clock)
    ensures Sound(Run(e, steps, clock)) && CommitIsQuorum(Run(e, steps, clock), e.leader.commitIndex)
  {
    RunIsSound(e, steps, clock);
    if steps == [] {
      StartIsQuorum(e);
    } else {
      var before, st := steps[..|steps| - 1], steps[|steps| - 1];
      RunIsQuorum(e, before, clock);
      hide Sound, CommitIsQuorum;
      StepKeepsQuorum(Run(e, before, clock), st, e.leader.commitIndex, clock);
    }
  }

  lemma StepKeepsQuorum(e: Epoch, st: Step, start: nat, clock: ClockOf)
    requires Sound(e) && CommitIsQuorum(e, start)
    ensures CommitIsQuorum(Next(e, st, clock), start)
  {
    hide Sound, OnAppend, MakeRequest, Reached, QuorumIndex;
    if st.Reply? && HasReply(e, st.follower) {
      ReplyKeepsQuorum(e, st.follower, start, clock);
    }
  }

  /** The followers that hold the leader's log up to index `k`. */
  ghost function Holders(e: Epoch, k: nat): set<nat>
    requires k <= |e.leader.log|
  {
    set f | f in e.followers && k <= |e.followers[f].log| && e.followers[f].log[..k] == e.leader.log[..k]
  }

  lemma SlotsHold(e: Epoch, k: nat)
    requires Sound(e) && 0 < k <= |e.leader.log|
    ensures Slots(e.matched, k) <= Holders(e, k)
  {
    hide Follows, Aligned;
    forall f | f in Slots(e.matched, k) ensures f in Holders(e, k) {
      var m, log := e.matched[f], e.followers[f].log;
      SoundAt(e, f);
      FollowsBounds(e.leader.log, e.leader.commitIndex, e.followers[f], e.next[f], m, FlightOf(e, f));
      assert log[..k] == log[..m][..k] == e.leader.log[..m][..k] == e.leader.log[..k];
    }
  }

  /**
   Commit quorum: whatever the leader committed in the epoch lies within its log and is held by
   at least n - n/2 followers, hence by a strict majority of the cluster; conversely an index that
   n - n/2 followers have confirmed is committed. For odd n that is one node more than a majority.
   */
  lemma CommitQuorum(e: Epoch, steps: seq<Step>, clock: ClockOf)
    requires Starts(e) && AllHarmless(e, steps, clock)
    ensures var r := Run(e, steps, clock); var k, n := r.leader.commitIndex, |r.matched|;
            && k <= |r.leader.log|
            && (k > e.leader.commitIndex ==> |Holders(r, k)| >= n - n / 2 && 2 * (|Holders(r, k)| + 1) > n)
            && (forall i: nat :: Reached(r.matched, i) >= n - n / 2 ==> i <= k)
  {
    hide Run;
    RunIsQuorum(e, steps, clock);
    CommitIsHeld(Run(e, steps, clock), e.leader.commitIndex);
  }

  lemma CommitIsHeld(r: Epoch, start: nat)
    requires Sound(r) && CommitIsQuorum(r, start)
    ensures var k, n := r.leader.commitIndex, |r.matched|;
            && k <= |r.leader.log|
            && (k > start ==> |Holders(r, k)| >= n - n / 2 && 2 * (|Holders(r, k)| + 1) > n)
            && (forall i: nat :: Reached(r.matched, i) >= n - n / 2 ==> i <= k)
  {
    hide Follows, IsQuorumIndex, Aligned;
    var k, q := r.leader.commitIndex, QuorumIndex(r.matched);
    if k > start {
      SlotsHold(r, k);
      CommitHasMajority(r.matched, r.self, k);
      SubsetSize(Slots(r.matched, k) - {r.self}, Holders(r, k));
    }
    forall i: nat | Reached(r.matched, i) >= Needed(|r.matched|) ensures i <= k {
      QuorumIndexCovers(r.matched, q, i);
    }
  }

  // ---------------------------------------------------------------- namespaces

  /** Every node's namespace is the replay of what it applied of the leader's log, stamps aside. */
  ghost predicate Agrees(e: Epoch) {
    forall n :: n in Members(e) ==>
      && Members(e)[n].lastApplied <= |e.leader.log|
      && Represents(Members(e)[n].space, AppliedCommands(Members(e)[n], e.leader.log))
  }

  /** What node `n` did to its namespace over a run. */
  ghost function DeedsOf(e: Epoch, steps: seq<Step>, clock: ClockOf, n: nat): seq<Event> {
    if steps == [] then []
    else
      var before := steps[..|steps| - 1];
      DeedsOf(e, before, clock, n) + Deeds(Run(e, before, clock), steps[|steps| - 1], clock, n)
  }

  ghost function AccountOf(e: Epoch, steps: seq<Step>, clock: ClockOf, n: nat): Account
    requires n in Members(e)
  {
    Note(Open(Members(e)[n]), DeedsOf(e, steps, clock, n))
  }

  /** A directory was created on the leader after it had reserved an ino. */
  ghost predicate LeaderSplit(e: Epoch, steps: seq<Step>, clock: ClockOf) {
    MkdirAfterReserve(e.leader.space, DeedsOf(e, steps, clock, e.self))
  }

  lemma OpenExplains(r: Replica, l: seq<Entry>)
    requires r.lastApplied <= |l| && Represents(r.space, AppliedCommands(r, l))
    ensures Explains(Open(r), r, l)
  {
    hide Represents;
    assert Commands(l[r.lastApplied..r.lastApplied]) == [];
  }

  /** At every point of a run, each node's account explains its namespace. */
  lemma {:induction false} RunIsExplained(e: Epoch, steps: seq<Step>, clock: ClockOf, n: nat)
    requires Starts(e) && Agrees(e) && AllHarmless(e, steps, clock) && n in Members(e)
    ensures var r := Run(e, steps, clock);
            Sound(r) && n in Members(r) && Explains(AccountOf(e, steps, clock, n), Members(r)[n], r.leader.log)
  {
    hide Sound, Explains, Harmless, Starts, Represents, AccountOf;
    RunIsSound(e, steps, clock);
    AccountGrows(e, steps, clock, n);
    if steps == [] {
      OpenExplains(Members(e)[n], e.leader.log);
    } else {
      var before, st := steps[..|steps| - 1], steps[|steps| - 1];
      RunIsExplained(e, before, clock, n);
      hide Next, Deeds, DeedsOf, Members, Agrees;
      StepIsExplained(AccountOf(e, before, clock, n), Run(e, before, clock), st, clock, n);
    }
  }

  lemma AccountGrows(e: Epoch, steps: seq<Step>, clock: ClockOf, n: nat)
    requires n in Members(e)
    ensures steps == [] ==> AccountOf(e, steps, clock, n) == Open(Members(e)[n])
    ensures steps != [] ==>
              var before := steps[..|steps| - 1];
              AccountOf(e, steps, clock, n) ==
              Note(AccountOf(e, before, clock, n), Deeds(Run(e, before, clock), steps[|steps| - 1], clock, n))
  {
    hide Deeds, Run;
  }

  /** Only the leader reserves. */
  lemma {:induction false} FollowersDoNotReserve(e: Epoch, steps: seq<Step>, clock: ClockOf, n: nat)
    requires n != e.self
    ensures forall i :: 0 <= i < |DeedsOf(e, steps, clock, n)| ==> DeedsOf(e, steps, clock, n)[i].Execute?
  {
    if steps != [] {
      var before, st := steps[..|steps| - 1], steps[|steps| - 1];
      FollowersDoNotReserve(e, before, clock, n);
      SelfStays(e, before, clock);
      FollowerOnlyExecutes(Run(e, before, clock), st, clock, n);
    }
  }

  lemma FollowerOnlyExecutes(e: Epoch, st: Step, clock: ClockOf, n: nat)
    requires n != e.self
    ensures forall i :: 0 <= i < |Deeds(e, st, clock, n)| ==> Deeds(e, st, clock, n)[i].Execute?
  {
    hide Next, Executions;
    if n in Members(e) && n in Members(Next(e, st, clock)) {
      var r' := Members(Next(e, st, clock))[n];
      ExecutionsExecute(r'.log, Members(e)[n].lastApplied, r'.lastApplied, Clock(clock, n));
    }
  }

  lemma AppliedIsPrefix(r: Epoch, n: nat)
    requires Sound(r) && n in Members(r)
    ensures var a := Members(r)[n];
            a.lastApplied <= |a.log| && a.lastApplied <= |r.leader.log| && a.log[..a.lastApplied] == r.leader.log[..a.lastApplied]
  {
    EveryMemberIsFit(r, n);
    hide Sound;
  }

  /** Whether node `n` reserved an ino, or split from the log, in the run. */
  lemma LeaderAloneSplits(e: Epoch, steps: seq<Step>, clock: ClockOf, n: nat)
    requires n in Members(e)
    ensures var acc := AccountOf(e, steps, clock, n);
            && acc.base == Members(e)[n].space && acc.deeds == DeedsOf(e, steps, clock, n)
            && (n != e.self ==> !Reserved(acc.base, acc.deeds) && !MkdirAfterReserve(acc.base, acc.deeds))
  {
    if n != e.self {
      FollowersDoNotReserve(e, steps, clock, n);
      NeverReserved(Members(e)[n].space, DeedsOf(e, steps, clock, n));
    }
  }

  /**
   Replica agreement: for every interleaving and every clock, what a node has applied is a prefix
   of the leader's log. Of two nodes that applied equally many entries, followers have equal paths
   and inodes up to the stamps of files; leader and follower have them exactly when no directory
   was created on the leader after it reserved an ino. Without uploads agreeing maps are equal, and
   without reservations the next ino is too.
   */
  lemma ReplicaAgreement(e: Epoch, steps: seq<Step>, clock: ClockOf, m: nat, n: nat)
    requires Starts(e) && Agrees(e) && AllHarmless(e, steps, clock)
    requires m in Members(e) && n in Members(e)
    ensures var r := Run(e, steps, clock);
            && m in Members(r) && n in Members(r)
            && var a, b := Members(r)[m], Members(r)[n];
               && a.lastApplied <= |a.log| && a.log[..a.lastApplied] <= r.leader.log
               && (a.lastApplied == b.lastApplied ==>
                     && (MapsAgree(a.space, b.space) <==>
                           m == n || (m != e.self && n != e.self) || !LeaderSplit(e, steps, clock))
                     && (MapsAgree(a.space, b.space) && NoUploads(Commands(a.log[..a.lastApplied])) ==>
                           SameMaps(a.space, b.space))
                     && ((m != e.self && n != e.self) || !Reserved(e.leader.space, DeedsOf(e, steps, clock, e.self)) ==>
                           a.space.nextIno == b.space.nextIno))
  {
    RunIsExplained(e, steps, clock, m);
    RunIsExplained(e, steps, clock, n);
    LeaderAloneSplits(e, steps, clock, m);
    LeaderAloneSplits(e, steps, clock, n);
    var r := Run(e, steps, clock);
    AppliedIsPrefix(r, m);
    hide Run, Sound, Starts, Agrees, DeedsOf, Explains, AccountOf, Reserved, MkdirAfterReserve, NoUploads, MapsAgree, Commands;
    var a, b := Members(r)[m], Members(r)[n];
    if a.lastApplied == b.lastApplied {
      UnreservedIsUnsplit(e.leader.space, DeedsOf(e, steps, clock, e.self));
      AccountsCompare(AccountOf(e, steps, clock, m), a, r.leader.log, AccountOf(e, steps, clock, n), b, r.leader.log);
    }
  }
}
