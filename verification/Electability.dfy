/**
 Who can win the next election. The vote handler compares indices before terms, so a node can be
 elected that has enough entries but not the committed ones; how far this goes is exact.
 */
module Electability {
  import opened Basics
  import opened Namespace
  import opened Logs
  import opened Ballots
  import opened Replication
  import opened Quorum
  import opened Epoch
  import opened Agreement

  /** Node `v` finds the log of `c` up to date. */
  predicate Finds(v: Replica, c: Replica) {
    UpToDate(|c.log|, TermAt(c.log, |c.log|), |v.log|, TermAt(v.log, |v.log|))
  }

  function Supporters(e: Epoch, c: nat): set<nat>
    requires c in Members(e)
  {
    set v | v in Members(e) && Finds(Members(e)[v], Members(e)[c])
  }

  /** A majority of the cluster, itself included, finds its log up to date. */
  predicate Electable(e: Epoch, c: nat) {
    c in Members(e) && |Supporters(e, c)| > |Members(e)| / 2
  }

  ghost predicate HoldsCommitted(e: Epoch, c: nat)
    requires c in Members(e)
  {
    var k, log := e.leader.commitIndex, Members(e)[c].log;
    k <= |log| && k <= |e.leader.log| && log[..k] == e.leader.log[..k]
  }

  /**
   Once the leader has committed in its epoch, an electable node has at least as many entries as
   are committed, and it holds the committed ones exactly when its entry at the commit index has
   the term of the leader's.
   */
  lemma ElectableHoldsCommitExactly(e: Epoch, start: nat, c: nat)
    requires Sound(e) && CommitIsQuorum(e, start) && e.leader.commitIndex > start
    requires Electable(e, c)
    ensures var k, log := e.leader.commitIndex, Members(e)[c].log;
            && 0 < k <= |log| && k <= |e.leader.log|
            && (HoldsCommitted(e, c) <==> log[k - 1].term == e.leader.log[k - 1].term)
  {
    hide Tracks, CommitIsQuorum;
    var k, all := e.leader.commitIndex, Members(e);
    CommitIsHeld(e, start);
    assert all.Keys == e.matched.Keys;
    assert |all.Keys| == |e.matched.Keys|;
    var v := SetsMeet(all.Keys, Holders(e, k), Supporters(e, c));
    EveryMemberIsFit(e, c);
    hide Sound;
    if all[c].log[k - 1].term == e.leader.log[k - 1].term {
      PrefixFromMatch(all[c].log, e.leader.log, k);
    } else {
      assert all[c].log[..k][k - 1] != e.leader.log[..k][k - 1];
    }
  }

  /** The same at every point of every epoch run at which something has been committed. */
  lemma ElectableInRun(e: Epoch, steps: seq<Step>, clock: ClockOf, c: nat)
    requires Starts(e) && AllHarmless(e, steps, clock)
    requires Run(e, steps, clock).leader.commitIndex > e.leader.commitIndex && Electable(Run(e, steps, clock), c)
    ensures var r := Run(e, steps, clock);
            var k, log := r.leader.commitIndex, Members(r)[c].log;
            && 0 < k <= |log| && k <= |r.leader.log|
            && (HoldsCommitted(r, c) <==> log[k - 1].term == r.leader.log[k - 1].term)
  {
    hide Run, AllHarmless, Starts, Sound, CommitIsQuorum, Electable, HoldsCommitted;
    RunIsQuorum(e, steps, clock);
    ElectableHoldsCommitExactly(Run(e, steps, clock), e.leader.commitIndex, c);
  }

  // ---------------------------------------------------------------- a stale node that can win

  function Repeat(f: nat, k: nat): seq<Step> {
    if k == 0 then [] else Repeat(f, k - 1) + Round(f)
  }

  /** Backing off over a leader's whole log, and one batch. */
  function Feed(e: Epoch, f: nat): seq<Step> { Repeat(f, |e.leader.log| + 1) }

  lemma RefusedRound(e: Epoch, f: nat, clock: ClockOf)
    requires Sound(e) && f in e.followers && f !in e.wire && e.followers[f].log == [] && f in e.next && e.next[f] > 1
    ensures Sound(Run(e, Round(f), clock)) && Run(e, Round(f), clock) == e.(next := e.next[f := e.next[f] - 1])
  {
    hide Run, Sound, OnAppend, MakeRequest, OnReply, AllAbove;
    RoundEffect(e, f, clock);
    EmptyRefuses(e.leader, e.followers[f], e.next[f], Clock(clock, f));
    assert e.followers[f := e.followers[f]] == e.followers;
    RefusalIs(e, f, e.next[f] - 1, clock);
  }

  lemma EmptyRefuses(leader: Replica, f: Replica, next: nat, clock: nat -> nat)
    requires f.log == [] && 1 < next <= |leader.log| + 1 && AllAbove(MakeRequest(leader, next).entries, 0)
    ensures OnAppend(f, MakeRequest(leader, next), clock) == Handled(f, Refused(next - 1))
  {
  }

  lemma RefusalIs(e: Epoch, f: nat, conflict: nat, clock: ClockOf)
    ensures OnReply(e, f, Refused(conflict), clock) == e.(next := e.next[f := conflict])
  {
  }

  lemma {:induction false} BackOff(e: Epoch, f: nat, k: nat, clock: ClockOf)
    requires Sound(e) && f in e.followers && f !in e.wire && e.followers[f].log == [] && f in e.next && k < e.next[f]
    ensures Sound(Run(e, Repeat(f, k), clock)) && Run(e, Repeat(f, k), clock) == e.(next := e.next[f := e.next[f] - k])
  {
    hide Sound, Next;
    if k == 0 {
      assert e.next[f := e.next[f]] == e.next;
    } else {
      BackOff(e, f, k - 1, clock);
      RunSplits(e, Repeat(f, k - 1), Round(f), clock);
      hide Run;
      RefusedRound(Run(e, Repeat(f, k - 1), clock), f, clock);
    }
  }

  /** What one batch can carry. */
  function Batch(l: seq<Entry>): seq<Entry> { l[..Min(MAX_APPEND_ENTRIES_SIZE, |l|)] }

  /** The answer to the first batch into an empty log. */
  lemma FirstReply(e: Epoch, f: nat, clock: ClockOf)
    requires Sound(e) && f in e.followers && f !in e.wire && e.followers[f].log == [] && f in e.next && e.next[f] == 1
    ensures AllAbove(MakeRequest(e.leader, 1).entries, 0)
    ensures var h := OnAppend(e.followers[f], MakeRequest(e.leader, 1), Clock(clock, f));
            h.reply == Matched(|Batch(e.leader.log)|) && h.replica.log == Batch(e.leader.log)
  {
    SoundAt(e, f);
    RoundTracks(e.leader, e.followers[f], 1, e.matched[f], Clock(clock, f));
    assert PrevMatches(e.followers[f].log, MakeRequest(e.leader, 1));
    hide Tracks, MakeRequest, Merge, Advance, Sound, LogMatching;
  }

  /** The follower has got a first batch, and the leader knows. */
  ghost predicate Served(e: Epoch, r: Epoch, f: nat) {
    && f in r.followers && f in r.matched
    && r.followers[f].log == Batch(e.leader.log) && r.matched[f] == |Batch(e.leader.log)|
  }

  ghost predicate Untouched(e: Epoch, r: Epoch, f: nat) {
    f in e.followers && f in r.followers && r.followers[f] == e.followers[f] && f in r.next && f in e.next && r.next[f] == e.next[f]
  }

  /** `r` is `e` after the nodes of `fed` got a first batch, and nothing else. */
  ghost predicate Fed(e: Epoch, r: Epoch, fed: set<nat>) {
    && Sound(r) && r.leader.log == e.leader.log && r.followers.Keys == e.followers.Keys && r.wire == map[]
    && (forall f :: f in fed ==> Served(e, r, f))
    && (forall f :: f in e.followers && f !in fed ==> Untouched(e, r, f))
  }

  lemma ServeOne(r: Epoch, f: nat, clock: ClockOf)
    requires Sound(r) && f in r.followers && r.wire == map[] && r.followers[f].log == [] && f in r.next && r.next[f] == 1
    ensures var r' := Run(r, Round(f), clock);
            && Sound(r') && r'.leader.log == r.leader.log && r'.followers.Keys == r.followers.Keys && r'.wire == map[]
            && Served(r, r', f)
            && (forall g :: Untouched(r, r, g) && g != f ==> Untouched(r, r', g))
            && (forall g :: g != f && g in r.matched ==> g in r'.matched && r'.matched[g] == r.matched[g])
  {
    hide Sound, OnAppend, MakeRequest, Run, Batch, Advance, QuorumIndex;
    FirstReply(r, f, clock);
    RoundEffect(r, f, clock);
    RoundIsSound(r, f, clock);
  }

  lemma FeedOne(e: Epoch, r: Epoch, fed: set<nat>, f: nat, clock: ClockOf)
    requires Starts(e) && Fed(e, r, fed) && f in e.followers && f !in fed && e.followers[f].log == []
    ensures Fed(e, Run(r, Feed(e, f), clock), fed + {f})
  {
    hide Follows, Next, Batch, Aligned;
    var k := |e.leader.log|;
    assert Untouched(e, r, f) && e.next[f] == k + 1;
    hide Sound, Run, Starts;
    BackOff(r, f, k, clock);
    RunSplits(r, Repeat(f, k), Round(f), clock);
    var mid := Run(r, Repeat(f, k), clock);
    ServeOne(mid, f, clock);
    FedGrows(e, r, mid, Run(mid, Round(f), clock), fed, f);
  }

  lemma FedGrows(e: Epoch, r: Epoch, mid: Epoch, r': Epoch, fed: set<nat>, f: nat)
    requires Fed(e, r, fed) && f in r.next && mid == r.(next := r.next[f := 1]) && f !in fed
    requires Sound(r') && r'.leader.log == r.leader.log && r'.followers.Keys == r.followers.Keys && r'.wire == map[] && Served(mid, r', f)
    requires forall g :: Untouched(mid, mid, g) && g != f ==> Untouched(mid, r', g)
    requires forall g :: g != f && g in mid.matched ==> g in r'.matched && r'.matched[g] == mid.matched[g]
    ensures Fed(e, r', fed + {f})
  {
    hide Batch, Tracks, Served, Untouched;
    assert r.next.Keys == r.matched.Keys == r.followers.Keys + {r.self};
    forall g | g in fed + {f} ensures Served(e, r', g) {
      if g != f { StaysServed(e, r, mid, r', f, g); } else { ServedAlike(e, mid, r', f); }
    }
    forall g | g in e.followers && g !in fed + {f} ensures Untouched(e, r', g) {
      StaysUntouched(e, r, mid, r', f, g);
    }
  }

  lemma ServedAlike(e: Epoch, mid: Epoch, r': Epoch, f: nat)
    requires Served(mid, r', f) && mid.leader.log == e.leader.log
    ensures Served(e, r', f)
  {
  }

  lemma StaysServed(e: Epoch, r: Epoch, mid: Epoch, r': Epoch, f: nat, g: nat)
    requires Served(e, r, g) && g != f && mid == r.(next := r.next[f := 1]) && r.next.Keys == r.matched.Keys
    requires Untouched(mid, mid, g) ==> Untouched(mid, r', g)
    requires g in mid.matched ==> g in r'.matched && r'.matched[g] == mid.matched[g]
    ensures Served(e, r', g)
  {
    hide Batch;
    assert Untouched(mid, mid, g);
  }

  lemma StaysUntouched(e: Epoch, r: Epoch, mid: Epoch, r': Epoch, f: nat, g: nat)
    requires Untouched(e, r, g) && g != f && mid == r.(next := r.next[f := 1])
    requires Untouched(mid, mid, g) ==> Untouched(mid, r', g)
    ensures Untouched(e, r', g)
  {
    assert Untouched(mid, mid, g);
  }

  /** Five members: three followers without entries, and `c` with its own, longer than one batch. */
  ghost predicate StaleStart(e: Epoch, x: nat, y: nat, z: nat, c: nat) {
    && Starts(e) && e.leader.commitIndex == 0
    && e.followers.Keys == {x, y, z, c} && x != y && y != z && z != x && c != x && c != y && c != z
    && e.followers[x].log == e.followers[y].log == e.followers[z].log == []
    && MAX_APPEND_ENTRIES_SIZE < |e.followers[c].log|
    && e.followers[c].log[0].term != e.leader.log[0].term
  }

  function FeedThree(e: Epoch, x: nat, y: nat, z: nat): seq<Step> { Feed(e, x) + Feed(e, y) + Feed(e, z) }

  lemma NoneFed(e: Epoch)
    requires Starts(e)
    ensures Fed(e, e, {})
  {
    StartIsSound(e);
  }

  lemma ThreeFed(e: Epoch, x: nat, y: nat, z: nat, c: nat, clock: ClockOf)
    requires StaleStart(e, x, y, z, c)
    ensures Fed(e, Run(e, FeedThree(e, x, y, z), clock), {x, y, z})
  {
    hide Starts, Run, Fed, Feed;
    NoneFed(e);
    assert x in e.followers && y in e.followers && z in e.followers;
    FeedOne(e, e, {}, x, clock);
    assert {} + {x} == {x};
    FeedOne(e, Run(e, Feed(e, x), clock), {x}, y, clock);
    assert {x} + {y} == {x, y};
    RunSplits(e, Feed(e, x), Feed(e, y), clock);
    FeedOne(e, Run(e, Feed(e, x) + Feed(e, y), clock), {x, y}, z, clock);
    assert {x, y} + {z} == {x, y, z};
    RunSplits(e, Feed(e, x) + Feed(e, y), Feed(e, z), clock);
  }

  predicate NoLosses(steps: seq<Step>) {
    forall i :: 0 <= i < |steps| ==> !steps[i].LoseReply?
  }

  lemma {:induction false} RepeatLosesNothing(f: nat, k: nat)
    ensures NoLosses(Repeat(f, k))
  {
    if k > 0 {
      RepeatLosesNothing(f, k - 1);
    }
  }

  lemma {:induction false} RoundsAreHarmless(e: Epoch, steps: seq<Step>, clock: ClockOf)
    requires NoLosses(steps)
    ensures AllHarmless(e, steps, clock)
  {
    hide Next;
    if steps != [] {
      RoundsAreHarmless(e, steps[..|steps| - 1], clock);
    }
  }

  lemma FiveMembers(r: Epoch, x: nat, y: nat, z: nat, c: nat)
    requires Sound(r) && r.followers.Keys == {x, y, z, c} && x != y && y != z && z != x && c != x && c != y && c != z
    ensures |Members(r)| == |r.matched| == 5
  {
    hide Follows, Aligned;
    var self := r.self;
    assert self !in {x, y, z, c};
    assert Members(r).Keys == {x, y, z, c} + {self} && r.matched.Keys == {x, y, z, c} + {self};
    assert |{x, y, z, c}| == 4;
    assert |Members(r).Keys| == |r.matched.Keys| == 5;
  }

  /**
   The committed prefix is not safe from elections: the leader feeds one batch to three of its four
   followers and commits it, and the fourth, which never held any of it, is longer than they are
   and can win the next election.
   */
  lemma StaleNodeIsElectable(e: Epoch, x: nat, y: nat, z: nat, c: nat, clock: ClockOf)
    requires StaleStart(e, x, y, z, c)
    ensures AllHarmless(e, FeedThree(e, x, y, z), clock)
    ensures var r := Run(e, FeedThree(e, x, y, z), clock);
            r.leader.commitIndex >= MAX_APPEND_ENTRIES_SIZE && Electable(r, c) && !HoldsCommitted(r, c)
  {
    hide Run, AllHarmless, Sound, CommitIsQuorum, Electable, HoldsCommitted, Starts;
    var steps, k := FeedThree(e, x, y, z), |e.leader.log| + 1;
    RepeatLosesNothing(x, k);
    RepeatLosesNothing(y, k);
    RepeatLosesNothing(z, k);
    RoundsAreHarmless(e, steps, clock);
    ThreeFed(e, x, y, z, c, clock);
    RunIsQuorum(e, steps, clock);
    FiveMembers(Run(e, steps, clock), x, y, z, c);
    FedIsElectable(e, Run(e, steps, clock), x, y, z, c);
  }

  /** A node that got its first batch is confirmed for it, and finds any longer log up to date. */
  lemma ServedIsBehind(e: Epoch, r: Epoch, f: nat, c: nat)
    requires Served(e, r, f) && |e.leader.log| > MAX_APPEND_ENTRIES_SIZE && f != r.self
    requires c in Members(r) && |Members(r)[c].log| > MAX_APPEND_ENTRIES_SIZE
    ensures f in Slots(r.matched, MAX_APPEND_ENTRIES_SIZE) && f in Supporters(r, c)
  {
    assert Members(r)[f] == r.followers[f];
  }

  /** What the members look like after three were fed. */
  lemma AfterFeeding(e: Epoch, r: Epoch, x: nat, y: nat, z: nat, c: nat)
    requires StaleStart(e, x, y, z, c) && Fed(e, r, {x, y, z})
    ensures Served(e, r, x) && Served(e, r, y) && Served(e, r, z) && Untouched(e, r, c)
    ensures |e.leader.log| > MAX_APPEND_ENTRIES_SIZE && x != r.self && y != r.self && z != r.self && c != r.self
    ensures r.leader.log == e.leader.log
  {
    hide Tracks, Aligned, LogMatching, Served, Untouched;
    assert c in e.followers && c !in {x, y, z};
  }

  lemma FedIsElectable(e: Epoch, r: Epoch, x: nat, y: nat, z: nat, c: nat)
    requires StaleStart(e, x, y, z, c) && Fed(e, r, {x, y, z}) && CommitIsQuorum(r, 0)
    requires |Members(r)| == |r.matched| == 5
    ensures r.leader.commitIndex >= MAX_APPEND_ENTRIES_SIZE && Electable(r, c) && !HoldsCommitted(r, c)
  {
    hide Fed, Starts, Served, Slots, Supporters, CommitIsQuorum;
    AfterFeeding(e, r, x, y, z, c);
    assert Members(r)[c] == e.followers[c];
    ServedIsBehind(e, r, x, c);
    ServedIsBehind(e, r, y, c);
    ServedIsBehind(e, r, z, c);
    FindsItself(r, c);
    ThreeDiffer(x, y, z, Slots(r.matched, MAX_APPEND_ENTRIES_SIZE));
    ThreeDiffer(x, y, c, Supporters(r, c));
    ReachedIsCommitted(r, MAX_APPEND_ENTRIES_SIZE);
    DiffersFromTheStart(Members(r)[c].log, r.leader.log);
  }

  lemma DiffersFromTheStart(a: seq<Entry>, b: seq<Entry>)
    requires a != [] && b != [] && a[0] != b[0]
    ensures forall k :: 0 < k <= |a| && k <= |b| ==> a[..k] != b[..k]
  {
    assert forall k :: 0 < k <= |a| && k <= |b| ==> a[..k][0] != b[..k][0];
  }

  lemma FindsItself(r: Epoch, c: nat)
    requires c in Members(r)
    ensures c in Supporters(r, c)
  {
  }

  lemma ThreeDiffer(x: nat, y: nat, z: nat, s: set<nat>)
    requires x != y && y != z && z != x && x in s && y in s && z in s
    ensures |s| >= 3
  {
    SubsetSize({x, y, z}, s);
    assert |{x, y, z}| == 3;
  }

  lemma ReachedIsCommitted(r: Epoch, k: nat)
    requires CommitIsQuorum(r, 0) && Reached(r.matched, k) >= Needed(|r.matched|)
    ensures r.leader.commitIndex >= k
  {
    hide IsQuorumIndex, Reached;
    QuorumIndexCovers(r.matched, QuorumIndex(r.matched), k);
  }

  // ---------------------------------------------------------------- such a start exists

  function Filled(term: nat, n: nat): seq<Entry> {
    seq(n, i requires 0 <= i < n => Entry(term, i + 1, Unknown))
  }

  function Unapplied(log: seq<Entry>): Replica { Replica(log, 0, 0, ROOT_SPACE) }

  /** Nodes 0 and 4 have each led a term alone and appended more than a batch. */
  function StaleMembers(): map<nat, Replica> {
    var n := MAX_APPEND_ENTRIES_SIZE + 1;
    map[0 := Unapplied(Filled(2, n)), 1 := Unapplied([]), 2 := Unapplied([]), 3 := Unapplied([]),
        4 := Unapplied(Filled(1, n))]
  }

  lemma OtherTermFits(a: nat, b: nat, n: nat)
    ensures FitFollower(Filled(b, n), Unapplied(Filled(a, n))) && FitFollower(Filled(b, n), Unapplied([]))
  {
    assert a == b ==> Filled(a, n) == Filled(b, n);
    assert Filled(a, n)[..0] == Filled(b, n)[..0] == [];
  }

  lemma FilledAt(term: nat, n: nat)
    ensures |Filled(term, n)| == n && (n > 0 ==> Filled(term, n)[0].term == term)
  {
  }

  /** Node 0 leads again, in term 3. */
  lemma StaleStartExists()
    ensures var e := NewEpoch(StaleMembers(), 0, 3); StaleStart(e, 1, 2, 3, 4) && Agrees(e)
  {
    hide FitFollower, Starts, Agrees, Filled;
    var all, n := StaleMembers(), MAX_APPEND_ENTRIES_SIZE + 1;
    OtherTermFits(1, 2, n);
    OtherTermFits(2, 2, n);
    var e := NewEpoch(all, 0, 3);
    assert all.Keys == {0, 1, 2, 3, 4};
    assert e.followers.Keys == {1, 2, 3, 4};
    assert all[0] == Unapplied(Filled(2, n)) && all[4] == Unapplied(Filled(1, n));
    assert all[1] == all[2] == all[3] == Unapplied([]);
    FitStarts(all, 0, 3);
    FilledAt(1, n);
    FilledAt(2, n);
    UnappliedAgree(e);
  }

  lemma UnappliedAgree(e: Epoch)
    requires forall n :: n in Members(e) ==> Members(e)[n].lastApplied == 0 && Members(e)[n].space == ROOT_SPACE
    ensures Agrees(e)
  {
    assert Commands([]) == [];
    assert e.leader.log[..0] == [];
  }
}
