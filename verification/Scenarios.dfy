/** Runs from fresh clusters that show what the conditions of the theorems are about. */
module Scenarios {
  import opened Basics
  import opened Namespace
  import opened Logs
  import opened Replication
  import opened Quorum
  import opened Integrity
  import opened Reservations
  import opened Epoch
  import opened Agreement
  import opened Electability
  import opened Succession

  // ---------------------------------------------------------------- a tick

  function Handles(fs: seq<nat>): seq<Step> { seq(|fs|, i requires 0 <= i < |fs| => Handle(fs[i])) }

  function Replies(fs: seq<nat>): seq<Step> { seq(|fs|, i requires 0 <= i < |fs| => Reply(fs[i])) }

  /** Nobody has applied more than it had before or than `commit`. */
  ghost predicate Within(e: Epoch, r: Epoch, commit: nat) {
    && Sound(r) && r.followers.Keys == e.followers.Keys
    && forall f :: f in e.followers ==> r.followers[f].lastApplied <= Max(e.followers[f].lastApplied, commit)
  }

  lemma {:induction false} HandlesStayWithin(e: Epoch, r: Epoch, hs: seq<nat>, clock: ClockOf)
    requires Within(e, r, e.leader.commitIndex) && r.leader == e.leader
    ensures var s := Run(r, Handles(hs), clock); Within(e, s, e.leader.commitIndex) && s.leader == e.leader
  {
    hide Next, Within;
    if hs != [] {
      var before, f, steps := hs[..|hs| - 1], hs[|hs| - 1], Handles(hs);
      assert steps[..|steps| - 1] == Handles(before) && steps[|steps| - 1] == Handle(f);
      HandlesStayWithin(e, r, before, clock);
      HandleStaysWithin(e, Run(r, Handles(before), clock), f, clock);
    }
  }

  lemma HandleStaysWithin(e: Epoch, mid: Epoch, f: nat, clock: ClockOf)
    requires Within(e, mid, e.leader.commitIndex) && mid.leader == e.leader
    ensures var s := Next(mid, Handle(f), clock); Within(e, s, e.leader.commitIndex) && s.leader == e.leader
  {
    hide Sound, Next, OnAppend, FollowerAfter;
    NextIsSound(mid, Handle(f), clock);
    FlightsAreFollowers(mid);
    if f in mid.wire && mid.wire[f].Asked? {
      HandleEffect(mid, f, clock);
    } else {
      NoSuchFlight(mid, Handle(f), clock);
    }
  }

  lemma {:induction false} RepliesStayWithin(e: Epoch, r: Epoch, rs: seq<nat>, commit: nat, clock: ClockOf)
    requires Within(e, r, commit)
    ensures Within(e, Run(r, Replies(rs), clock), commit)
  {
    hide Next, Within;
    if rs != [] {
      var before, f, steps := rs[..|rs| - 1], rs[|rs| - 1], Replies(rs);
      assert steps[..|steps| - 1] == Replies(before) && steps[|steps| - 1] == Reply(f);
      RepliesStayWithin(e, r, before, commit, clock);
      ReplyStaysWithin(e, Run(r, Replies(before), clock), f, commit, clock);
    }
  }

  lemma ReplyStaysWithin(e: Epoch, mid: Epoch, f: nat, commit: nat, clock: ClockOf)
    requires Within(e, mid, commit)
    ensures Within(e, Next(mid, Reply(f), clock), commit)
  {
    hide Sound, Next, Advance, QuorumIndex;
    NextIsSound(mid, Reply(f), clock);
    FlightsAreFollowers(mid);
    if HasReply(mid, f) {
      ReplyEffect(mid, f, clock);
    } else {
      NoSuchFlight(mid, Reply(f), clock);
    }
  }

  /**
   A tick as the heartbeat loop makes it: all requests are sent before any reply is processed. However
   many followers confirm an entry in it, none applies beyond what was committed when the tick began.
   */
  lemma TickTellsOldCommit(e: Epoch, fs: seq<nat>, hs: seq<nat>, rs: seq<nat>, clock: ClockOf)
    requires Sound(e) && e.wire == map[] && forall i :: 0 <= i < |fs| ==> fs[i] in e.followers
    ensures Within(e, Run(e, Sends(fs) + Handles(hs) + Replies(rs), clock), e.leader.commitIndex)
  {
    hide Sound, Run;
    TickSendsAll(e, fs, clock);
    RunSplits(e, Sends(fs), Handles(hs), clock);
    RunSplits(e, Sends(fs) + Handles(hs), Replies(rs), clock);
    HandlesStayWithin(e, Run(e, Sends(fs), clock), hs, clock);
    RepliesStayWithin(e, Run(e, Sends(fs) + Handles(hs), clock), rs, e.leader.commitIndex, clock);
  }

  // ---------------------------------------------------------------- two nodes and one batch

  lemma OtherSlotDecides(m: map<nat, nat>, self: nat, f: nat)
    requires m.Keys == {self, f} && self != f && m[self] == 0
    ensures m != map[] && QuorumIndex(m) == m[f]
  {
    assert self in m && |m.Keys| == 2;
    QuorumIsReached(m, QuorumIndex(m), m[f]);
    assert f in Slots(m, m[f]);
    assert Slots(m, m[f]) != {};
    QuorumIndexCovers(m, QuorumIndex(m), m[f]);
  }

  /** A leader with a few entries, and one follower that has nothing yet. */
  ghost predicate TwoNodes(e: Epoch, f: nat) {
    && Sound(e) && e.followers.Keys == {f} && e.wire == map[]
    && e.followers[f] == Unapplied([]) && e.next[f] == 1 && e.matched[f] == 0
    && e.leader.commitIndex == 0 && 0 < |e.leader.log| <= MAX_APPEND_ENTRIES_SIZE
  }

  lemma FirstAnswer(leader: Replica, clock: nat -> nat)
    requires Aligned(leader.log, 0) && leader.commitIndex == 0 && 0 < |leader.log| <= MAX_APPEND_ENTRIES_SIZE
    ensures AllAbove(MakeRequest(leader, 1).entries, 0)
    ensures OnAppend(Unapplied([]), MakeRequest(leader, 1), clock) == Handled(Unapplied(leader.log), Matched(|leader.log|))
  {
    assert MakeRequest(leader, 1).entries == leader.log;
  }

  /** After the first round the follower has everything and the leader has applied it. */
  lemma FirstRound(e: Epoch, f: nat, clock: ClockOf)
    requires TwoNodes(e, f)
    ensures var r, l := Run(e, Round(f), clock), e.leader.log;
            && Sound(r) && r.self == e.self && r.wire == map[] && r.followers == map[f := Unapplied(l)]
            && f in r.next && r.next[f] == |l| + 1 && r.leader == Advance(e.leader, |l|, Clock(clock, e.self))
  {
    hide TwoNodes, Run, OnAppend, MakeRequest, OnReply, AllAbove, Sound, Aligned, CanSend, Clock, Advance, Unapplied;
    TwoNodesFacts(e, f);
    RoundEffect(e, f, clock);
    FirstAnswer(e.leader, Clock(clock, f));
    assert e.followers[f := Unapplied(e.leader.log)] == map[f := Unapplied(e.leader.log)];
    var told := e.(followers := map[f := Unapplied(e.leader.log)]);
    assert Run(e, Round(f), clock) == OnReply(told, f, Matched(|e.leader.log|), clock);
    FirstBooks(told, f, clock);
  }

  lemma TwoNodesFacts(e: Epoch, f: nat)
    requires TwoNodes(e, f)
    ensures Sound(e) && f in e.followers && f !in e.wire && f in e.next && e.next[f] == 1 && e.followers[f] == Unapplied([])
    ensures e.followers.Keys == {f} && e.wire == map[] && Aligned(e.leader.log, 0) && e.leader.commitIndex == 0
    ensures 0 < |e.leader.log| <= MAX_APPEND_ENTRIES_SIZE
    ensures e.matched.Keys == {e.self, f} && e.self != f && e.matched[e.self] == 0
  {
    hide Follows;
  }

  lemma FirstBooks(e: Epoch, f: nat, clock: ClockOf)
    requires e.matched.Keys == {e.self, f} && e.self != f && e.matched[e.self] == 0 && e.leader.commitIndex == 0 < |e.leader.log|
    ensures var l := e.leader.log;
            var r := OnReply(e, f, Matched(|l|), clock);
            && r.self == e.self && r.wire == e.wire && r.followers == e.followers
            && f in r.next && r.next[f] == |l| + 1 && r.leader == Advance(e.leader, |l|, Clock(clock, e.self))
  {
    hide Advance, IsQuorumIndex;
    var slots := e.matched[f := |e.leader.log|];
    assert slots.Keys == {e.self, f};
    OtherSlotDecides(slots, e.self, f);
  }

  lemma SecondAnswer(leader: Replica, clock: nat -> nat)
    requires leader.commitIndex == |leader.log| > 0
    ensures AllAbove(MakeRequest(leader, |leader.log| + 1).entries, 0)
    ensures OnAppend(Unapplied(leader.log), MakeRequest(leader, |leader.log| + 1), clock) ==
            Handled(Advance(Unapplied(leader.log), |leader.log|, clock), Matched(|leader.log|))
  {
    hide ApplyAll;
    assert MakeRequest(leader, |leader.log| + 1).entries == [];
  }

  /** After the second the follower has applied it too. */
  lemma SecondRound(r: Epoch, f: nat, clock: ClockOf)
    requires Sound(r) && r.wire == map[] && r.followers == map[f := Unapplied(r.leader.log)] && f in r.next
    requires r.next[f] == |r.leader.log| + 1 && r.leader.commitIndex == |r.leader.log| == r.leader.lastApplied > 0
    ensures var s, l := Run(r, Round(f), clock), r.leader.log;
            && f in s.followers && s.followers[f] == Advance(Unapplied(l), |l|, Clock(clock, f))
            && s.leader == r.leader
  {
    hide Sound, Run, Advance, OnAppend, MakeRequest, QuorumIndex, AllAbove, IsQuorumIndex;
    SoundShape(r);
    RoundEffect(r, f, clock);
    SecondAnswer(r.leader, Clock(clock, f));
    var slots := r.matched[f := |r.leader.log|];
    assert f in slots;
    QuorumIsReached(slots, QuorumIndex(slots), |r.leader.log|);
  }

  lemma TwoRoundsApplyAll(e: Epoch, f: nat, clock: ClockOf)
    requires TwoNodes(e, f)
    ensures var r, l := Run(e, Round(f) + Round(f), clock), e.leader.log;
            && f in r.followers && r.leader.lastApplied == r.followers[f].lastApplied == |l|
            && r.leader.space == ApplyAll(e.leader.space, Commands(l), Clock(clock, e.self), 0)
            && r.followers[f].space == ApplyAll(ROOT_SPACE, Commands(l), Clock(clock, f), 0)
  {
    SoundShape(e);
    FirstRound(e, f, clock);
    var mid, l := Run(e, Round(f), clock), e.leader.log;
    RunSplits(e, Round(f), Round(f), clock);
    hide Run, Sound, ApplyAll;
    assert l[0..|l|] == l;
    SecondRound(mid, f, clock);
  }

  // ---------------------------------------------------------------- reserve, upload, mkdir

  const UP := Upload(UploadRequest(1, "/f", []))
  const MK := Mkdir(MkdirRequest("/", "d", 0))

  /** A client reserves an ino for `/f`, uploads it and makes a directory. */
  function Ordinary(): seq<Step> { [ReserveIno("/f"), ClientAppend(UP), ClientAppend(MK)] }

  function Pair(): Epoch { NewEpoch(map[0 := Unapplied([]), 1 := Unapplied([])], 0, 1) }

  lemma PairStarts()
    ensures Starts(Pair()) && Agrees(Pair()) && Pair().followers.Keys == {1}
  {
    hide Starts, Agrees;
    var all := map[0 := Unapplied([]), 1 := Unapplied([])];
    assert FitFollower([], Unapplied([]));
    FitStarts(all, 0, 1);
    UnappliedAgree(Pair());
  }

  lemma AfterRequests(clock: ClockOf)
    ensures AllHarmless(Pair(), Ordinary() + (Round(1) + Round(1)), clock)
    ensures var e := Run(Pair(), Ordinary(), clock);
            TwoNodes(e, 1) && e.self == 0 && e.leader.space == Prepare(ROOT_SPACE, "/f") && Commands(e.leader.log) == [UP, MK]
  {
    hide Sound, Starts, Agrees, Run, AllHarmless;
    PairStarts();
    RoundsAreHarmless(Pair(), Ordinary() + (Round(1) + Round(1)), clock);
    RoundsAreHarmless(Pair(), Ordinary(), clock);
    RunIsSound(Pair(), Ordinary(), clock);
    LogOfThree(clock);
  }

  lemma LogOfThree(clock: ClockOf)
    ensures Run(Pair(), Ordinary(), clock) ==
            Pair().(leader := Replica([Entry(1, 1, UP), Entry(1, 2, MK)], 0, 0, Prepare(ROOT_SPACE, "/f")))
  {
    hide Run, Prepare;
    RunThree(Pair(), ReserveIno("/f"), ClientAppend(UP), ClientAppend(MK), clock);
    assert [] + [Entry(1, 1, UP)] + [Entry(1, 2, MK)] == [Entry(1, 1, UP), Entry(1, 2, MK)];
  }

  lemma OneMore(evs: seq<Event>, ev: Event)
    ensures AfterEvents(evs + [ev]) == AfterEvent(AfterEvents(evs), ev)
    ensures FreshRun(evs + [ev]) <==> FreshRun(evs) && Fresh(AfterEvents(evs), ev)
  {
    hide AfterEvent, Fresh;
    assert (evs + [ev])[..|evs|] == evs;
  }

  /** What the leader did: reserve, upload, mkdir. */
  lemma LeaderStaysIntegral(a: nat, b: nat)
    ensures var s := Apply(Apply(Prepare(ROOT_SPACE, "/f"), UP, a), MK, b);
            Integral(s) && "/d" in s.entries && s.entries["/d"].ino == 2
  {
    var x, y, z := Reserve("/f"), Execute(UP, a), Execute(MK, b);
    OneMore([], x);
    OneMore([x], y);
    OneMore([x, y], z);
    assert [] + [x] == [x] && [x] + [y] == [x, y] && [x, y] + [z] == [x, y, z];
    hide AfterEvents, FreshRun, Apply, Accepted, Integral;
    AtTheRoot();
    ReservedUpload(a);
    ReservedMkdir(Apply(Prepare(ROOT_SPACE, "/f"), UP, a), b);
    FreshRunIsIntegral([x, y, z]);
  }

  lemma AtTheRoot()
    ensures AfterEvents([]) == ROOT_SPACE && FreshRun([]) && Prepare(ROOT_SPACE, "/f") == ROOT_SPACE.(nextIno := 2)
  {
  }

  lemma ReservedUpload(a: nat)
    ensures var s := Apply(ROOT_SPACE.(nextIno := 2), UP, a);
            s.nextIno == 2 && s.entries.Keys == {"/", "/f"} && "/" in s.entries && s.entries["/"] == ROOT_ENTRY
            && 0 in s.inodes && s.inodes[0].isDir
  {
    Paths.LastSlashUnique("/f", 0);
    assert Paths.Name("/f") == "f";
    assert UploadOutcome(ROOT_SPACE.(nextIno := 2), UP.upload).Ok?;
  }

  lemma ReservedMkdir(s: Space, b: nat)
    requires s.nextIno == 2 && s.entries.Keys == {"/", "/f"} && s.entries["/"] == ROOT_ENTRY && 0 in s.inodes && s.inodes[0].isDir
    ensures Accepted(s, MK) && "/d" in Apply(s, MK, b).entries && Apply(s, MK, b).entries["/d"].ino == 2
  {
    assert Paths.Join("/", "d") == "/d";
    assert MkdirOutcome(s, MK.mkdir).Ok?;
  }

  /**
   In ordinary use of a fresh cluster of two: the leader reserves an ino, a client uploads with it and
   makes a directory. Leader and follower have applied the same entries, yet their maps disagree; the
   leader's namespace is integral, and the follower has a directory entry on the inode of the file.
   */
  lemma FollowerLosesIntegrity(clock: ClockOf)
    ensures Starts(Pair()) && Agrees(Pair()) && AllHarmless(Pair(), Ordinary() + (Round(1) + Round(1)), clock)
    ensures var r := Run(Pair(), Ordinary() + (Round(1) + Round(1)), clock);
            && 1 in r.followers && r.leader.lastApplied == r.followers[1].lastApplied == 2
            && Integral(r.leader.space) && DirectoryOnFile(r.followers[1].space) && !Integral(r.followers[1].space)
            && !MapsAgree(r.leader.space, r.followers[1].space)
  {
    hide Run, AllHarmless, Starts, Agrees, TwoNodes, Integral, DirectoryOnFile, MapsAgree, ApplyAll, Next;
    PairStarts();
    AfterRequests(clock);
    var e := Run(Pair(), Ordinary(), clock);
    RunSplits(Pair(), Ordinary(), Round(1) + Round(1), clock);
    TwoRoundsApplyAll(e, 1, clock);
    var r := Run(Pair(), Ordinary() + (Round(1) + Round(1)), clock);
    FollowersSpace(Clock(clock, 1));
    LeadersSpace(Clock(clock, 0));
    TheyDisagree(r.leader.space, r.followers[1].space);
  }

  lemma TwoApplied(s: Space, clock: nat -> nat)
    ensures ApplyAll(s, [UP, MK], clock, 0) == Apply(Apply(s, UP, clock(1)), MK, clock(2))
  {
    hide Apply;
    ApplyAllAppend(s, [], UP, clock, 0);
    ApplyAllAppend(s, [UP], MK, clock, 0);
    assert [] + [UP] == [UP] && [UP] + [MK] == [UP, MK];
  }

  lemma FollowersSpace(clock: nat -> nat)
    ensures var s := ApplyAll(ROOT_SPACE, [UP, MK], clock, 0); DirectoryOnFile(s) && !Integral(s)
  {
    hide Apply, DirectoryOnFile, Integral;
    var y, z := Execute(UP, clock(1)), Execute(MK, clock(2));
    TwoApplied(ROOT_SPACE, clock);
    OneMore([], y);
    OneMore([y], z);
    assert [] + [y] == [y] && [y] + [z] == [y, z] == UploadThenMkdir(clock(1), clock(2), 0);
    AtTheRoot();
    UnreservedInoBreaksMkdir(clock(1), clock(2), 0);
    SharedInoIsNotIntegral(AfterEvents([y, z]));
  }

  lemma SharedInoIsNotIntegral(s: Space)
    requires DirectoryOnFile(s)
    ensures !Integral(s)
  {
    hide Sound, Onto, MkdirOutcome;
  }

  lemma LeadersSpace(clock: nat -> nat)
    ensures var s := ApplyAll(Prepare(ROOT_SPACE, "/f"), [UP, MK], clock, 0);
            Integral(s) && "/d" in s.entries && s.entries["/d"].ino == 2
  {
    hide Apply, Integral;
    TwoApplied(Prepare(ROOT_SPACE, "/f"), clock);
    LeaderStaysIntegral(clock(1), clock(2));
  }

  lemma TheyDisagree(s: Space, t: Space)
    requires "/d" in s.entries && s.entries["/d"].ino == 2 && DirectoryOnFile(t)
    ensures !MapsAgree(s, t)
  {
    hide MkdirOutcome;
    SplitDisagrees(s, t, "/d");
  }

  // ---------------------------------------------------------------- how a stale start comes about

  function Appends(n: nat): (steps: seq<Step>)
    ensures |steps| == n
  {
    if n == 0 then [] else Appends(n - 1) + [ClientAppend(Unknown)]
  }

  function Acts(steps: seq<Step>): seq<Act> { seq(|steps|, i requires 0 <= i < |steps| => Proceed(steps[i])) }

  lemma {:induction false} AppendsFill(e: Epoch, n: nat, clock: ClockOf)
    requires e.leader.log == []
    ensures Run(e, Appends(n), clock) == e.(leader := e.leader.(log := Filled(e.term, n)))
  {
    hide Run, Filled, Next;
    if n == 0 {
      NothingFilled(e, clock);
    } else {
      AppendsFill(e, n - 1, clock);
      RunAppend(e, Appends(n - 1), ClientAppend(Unknown), clock);
      FilledGrows(e.term, n);
      AppendOne(Run(e, Appends(n - 1), clock), clock);
    }
  }

  lemma NothingFilled(e: Epoch, clock: ClockOf)
    requires e.leader.log == []
    ensures Run(e, [], clock) == e && Filled(e.term, 0) == []
  {
  }

  lemma AppendOne(e: Epoch, clock: ClockOf)
    ensures Next(e, ClientAppend(Unknown), clock) ==
            e.(leader := e.leader.(log := e.leader.log + [Entry(e.term, |e.leader.log| + 1, Unknown)]))
  {
  }

  lemma FilledGrows(term: nat, n: nat)
    requires n > 0
    ensures Filled(term, n) == Filled(term, n - 1) + [Entry(term, n, Unknown)] && |Filled(term, n - 1)| == n - 1
  {
  }

  /** A stretch of a history within one epoch is a run of it. */
  lemma {:induction false} StretchIsRun(a: Era, steps: seq<Step>, clock: ClockOf)
    ensures History(a, Acts(steps), clock).epoch == Run(a.epoch, steps, clock)
  {
    hide Next;
    if steps != [] {
      var acts, before := Acts(steps), steps[..|steps| - 1];
      assert acts[..|acts| - 1] == Acts(before) && acts[|acts| - 1] == Proceed(steps[|steps| - 1]);
      StretchIsRun(a, before, clock);
    }
  }

  const MANY := MAX_APPEND_ENTRIES_SIZE + 1

  function FreshFive(): map<nat, Replica> {
    map[0 := Unapplied([]), 1 := Unapplied([]), 2 := Unapplied([]), 3 := Unapplied([]), 4 := Unapplied([])]
  }

  function FirstEra(): Era { Era(NewEpoch(FreshFive(), 4, 1), 0, OpenAll(Members(NewEpoch(FreshFive(), 4, 1)))) }

  /** Node 4 leads term 1 and appends alone; node 0 wins term 2, appends alone, and wins term 3. */
  ghost function Alone(a: Era, term: nat, clock: ClockOf): Era {
    After(History(a, Acts(Appends(MANY)), clock), Elect(0, term, None), clock)
  }

  ghost predicate LedAlone(e: Epoch, leader: nat, term: nat, all: map<nat, Replica>) {
    leader in all && all[leader].log == [] && e == NewEpoch(all, leader, term)
  }

  lemma AloneElects(a: Era, leader: nat, term: nat, all: map<nat, Replica>, next: nat, clock: ClockOf)
    requires LedAlone(a.epoch, leader, term, all) && 0 in all
    ensures var now := all[leader := all[leader].(log := Filled(term, MANY))];
            && Alone(a, next, clock).epoch == NewEpoch(now, 0, next)
            && Members(History(a, Acts(Appends(MANY)), clock).epoch) == now
  {
    hide Run, Filled, History, Appends, Acts;
    StretchIsRun(a, Appends(MANY), clock);
    AppendsFill(a.epoch, MANY, clock);
    var e := History(a, Acts(Appends(MANY)), clock).epoch;
    assert Members(e) == all[leader := all[leader].(log := Filled(term, MANY))];
  }

  /** What the members hold when node 0 stands for term 2: only node 4 has entries. */
  function AfterFour(): map<nat, Replica> { FreshFive()[4 := Unapplied(Filled(1, MANY))] }

  lemma ShorterIsSupporter(e: Epoch, v: nat)
    requires 0 in Members(e) && v in Members(e)
    requires |Members(e)[v].log| < |Members(e)[0].log| || Members(e)[v].log == Members(e)[0].log
    ensures v in Supporters(e, 0)
  {
  }

  lemma FourSupporters(e: Epoch)
    requires Members(e).Keys == {0, 1, 2, 3, 4}
    requires forall v :: v in {1, 2, 3} ==> |Members(e)[v].log| < |Members(e)[0].log| || Members(e)[v].log == Members(e)[0].log
    ensures Electable(e, 0)
  {
    hide Supporters;
    ShorterIsSupporter(e, 0);
    ShorterIsSupporter(e, 1);
    ShorterIsSupporter(e, 2);
    ShorterIsSupporter(e, 3);
    SubsetSize({0, 1, 2, 3}, Supporters(e, 0));
    assert |{0, 1, 2, 3}| == 4;
    assert |Members(e).Keys| == 5;
  }

  lemma EmptyIsSupported(e: Epoch)
    requires Members(e) == AfterFour()
    ensures Electable(e, 0)
  {
    hide Electable, Filled;
    assert Members(e).Keys == {0, 1, 2, 3, 4};
    FourSupporters(e);
  }

  lemma LongestIsSupported(e: Epoch)
    requires Members(e) == StaleMembers()
    ensures Electable(e, 0)
  {
    hide Electable, Filled;
    FilledAt(2, MANY);
    assert Members(e).Keys == {0, 1, 2, 3, 4};
    FourSupporters(e);
  }

  /**
   From a fresh cluster of five to the start of `StaleNodeIsElectable`, by elections that can be won:
   node 4 leads first and appends more than a batch alone, then node 0 does, and is elected again.
   */
  lemma StaleStartIsReached(clock: ClockOf)
    ensures Begins(FirstEra())
    ensures var first := History(FirstEra(), Acts(Appends(MANY)), clock);
            var second := History(Alone(FirstEra(), 2, clock), Acts(Appends(MANY)), clock);
            && Electable(first.epoch, 0) && Electable(second.epoch, 0)
            && Alone(Alone(FirstEra(), 2, clock), 3, clock).epoch == NewEpoch(StaleMembers(), 0, 3)
            && StaleStart(NewEpoch(StaleMembers(), 0, 3), 1, 2, 3, 4)
  {
    hide Electable, StaleStart, Begins, History, Alone, Filled, NewEpoch, Acts, Appends;
    FreshClusterBegins(FreshFive(), 4, 1);
    AloneElects(FirstEra(), 4, 1, FreshFive(), 2, clock);
    FourLed();
    EmptyIsSupported(History(FirstEra(), Acts(Appends(MANY)), clock).epoch);
    var a := Alone(FirstEra(), 2, clock);
    AloneElects(a, 0, 2, AfterFour(), 3, clock);
    LongestIsSupported(History(a, Acts(Appends(MANY)), clock).epoch);
    StaleStartExists();
  }

  lemma FourLed()
    ensures FreshFive()[4 := FreshFive()[4].(log := Filled(1, MANY))] == AfterFour()
    ensures AfterFour()[0 := AfterFour()[0].(log := Filled(2, MANY))] == StaleMembers()
    ensures AfterFour()[0].log == [] && FreshFive()[4].log == []
  {
    hide Filled;
  }
}
