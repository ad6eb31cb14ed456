/**
 Safety beyond one leadership: epochs follow one another, and an old leader may come back from a
 restart with what its store held. Of a new leader it is asked that no remaining log is longer than
 its own and that it holds whatever was ever applied; `Electability` says how far elections ensure
 the latter, and the program does not ensure it altogether, so it is a hypothesis: `Succeeds`.
 */
module Succession {
  import opened Basics
  import opened Namespace
  import opened Logs
  import opened Replication
  import opened Snapshots
  import opened Reservations
  import opened Quorum
  import opened Epoch
  import opened Accounts
  import opened Agreement
  import opened Electability

  /**
   Something happens in the current epoch, or `node` becomes leader in `term`. In the latter case
   the old leader may have restarted and read the first `stored` entries of its log back.
   */
  datatype Act = Proceed(step: Step) | Elect(node: nat, term: nat, stored: Option<nat>)

  /** The current epoch, the highest index ever applied, and every node's account. */
  datatype Era = Era(epoch: Epoch, safe: nat, accounts: map<nat, Account>)

  /** The members at an election. */
  function Electorate(e: Epoch, stored: Option<nat>): map<nat, Replica> {
    match stored
    case None => Members(e)
    case Some(k) => Members(e)[e.self := Replica(e.leader.log[..Min(k, |e.leader.log|)], 0, 0, ROOT_SPACE)]
  }

  ghost function After(a: Era, act: Act, clock: ClockOf): Era {
    match act
    case Proceed(st) =>
      var e' := Next(a.epoch, st, clock);
      Era(e', Max(a.safe, e'.leader.lastApplied), map n | n in a.accounts :: Note(a.accounts[n], Deeds(a.epoch, st, clock, n)))
    case Elect(n, term, stored) =>
      var all := Electorate(a.epoch, stored);
      if n !in all then a
      else Era(NewEpoch(all, n, term), a.safe,
               if stored.None? then a.accounts else a.accounts[a.epoch.self := Account(ROOT_SPACE, 0, [])])
  }

  ghost function History(a: Era, acts: seq<Act>, clock: ClockOf): Era {
    if acts == [] then a else After(History(a, acts[..|acts| - 1], clock), acts[|acts| - 1], clock)
  }

  /** No log is longer than the new leader's, and its entry at the highest applied index has the right term. */
  predicate Succeeds(all: map<nat, Replica>, n: nat, l: seq<Entry>, safe: nat)
    requires n in all && safe <= |l|
  {
    && (forall m :: m in all ==> |all[m].log| <= |all[n].log|)
    && safe <= |all[n].log| && TermAt(all[n].log, safe) == TermAt(l, safe)
  }

  predicate Allowed(a: Era, act: Act) {
    match act
    case Proceed(st) => Harmless(a.epoch, st)
    case Elect(n, _, stored) =>
      var all, l := Electorate(a.epoch, stored), a.epoch.leader.log;
      n in all ==> a.safe <= |l| && Succeeds(all, n, l, a.safe)
  }

  ghost predicate AllAllowed(a: Era, acts: seq<Act>, clock: ClockOf) {
    acts != [] ==> AllAllowed(a, acts[..|acts| - 1], clock) &&
                   Allowed(History(a, acts[..|acts| - 1], clock), acts[|acts| - 1])
  }

  // ---------------------------------------------------------------- the invariant

  /** Any two logs match, not only each with the leader's. */
  ghost predicate PairsMatch(all: map<nat, Replica>) {
    forall m, n :: m in all && n in all ==> LogMatching(all[m].log, all[n].log)
  }

  ghost predicate Applied(a: Era, n: nat)
    requires n in Members(a.epoch) && n in a.accounts
  {
    && Members(a.epoch)[n].lastApplied <= a.safe
    && Explains(a.accounts[n], Members(a.epoch)[n], a.epoch.leader.log)
  }

  ghost predicate Safe(a: Era) {
    && Sound(a.epoch) && PairsMatch(Members(a.epoch)) && a.safe <= |a.epoch.leader.log|
    && a.accounts.Keys == Members(a.epoch).Keys
    && forall n :: n in Members(a.epoch) ==> Applied(a, n)
  }

  function OpenAll(all: map<nat, Replica>): map<nat, Account> { map n | n in all :: Open(all[n]) }

  /** How a history begins: an epoch whose logs match pairwise, with new accounts. */
  ghost predicate Begins(a: Era) {
    && Starts(a.epoch) && Agrees(a.epoch) && PairsMatch(Members(a.epoch)) && a.safe <= |a.epoch.leader.log|
    && a.accounts == OpenAll(Members(a.epoch))
    && forall n :: n in Members(a.epoch) ==> Members(a.epoch)[n].lastApplied <= a.safe
  }

  lemma BeginningIsSafe(a: Era)
    requires Begins(a)
    ensures Safe(a)
  {
    hide PairsMatch, Represents, Explains, Tracks;
    StartIsSound(a.epoch);
    hide Sound, Starts;
    forall n | n in Members(a.epoch) ensures Applied(a, n) {
      OpenExplains(Members(a.epoch)[n], a.epoch.leader.log);
    }
  }

  /** The first election in a cluster of new nodes begins a history. */
  lemma FreshClusterBegins(all: map<nat, Replica>, n: nat, term: nat)
    requires n in all && forall m :: m in all ==> all[m] == Unapplied([])
    ensures var e := NewEpoch(all, n, term); Begins(Era(e, 0, OpenAll(Members(e))))
  {
    hide Starts, Agrees;
    var e := NewEpoch(all, n, term);
    assert FitFollower([], Unapplied([]));
    FitStarts(all, n, term);
    assert Members(e) == all;
    UnappliedAgree(e);
  }

  // ---------------------------------------------------------------- logs that match

  lemma MatchingPrefixes(a: seq<Entry>, b: seq<Entry>, l: seq<Entry>)
    requires LogMatching(a, l) && b <= l
    ensures LogMatching(a, b) && LogMatching(b, a)
  {
    assert forall i :: 0 <= i <= |b| ==> b[..i] == l[..i];
  }

  lemma MatchesItself(a: seq<Entry>)
    ensures LogMatching(a, a)
  {
  }

  /** Replacing one log by a prefix of the leader's, to which all others match, keeps the pairs matching. */
  lemma PrefixKeepsPairs(all: map<nat, Replica>, n: nat, r: Replica, l: seq<Entry>)
    requires PairsMatch(all) && n in all && r.log <= l
    requires forall m :: m in all ==> LogMatching(all[m].log, l)
    ensures PairsMatch(all[n := r])
  {
    hide LogMatching;
    var all' := all[n := r];
    forall m, k | m in all' && k in all' ensures LogMatching(all'[m].log, all'[k].log) {
      MatchesItself(r.log);
      MatchingPrefixes(all[m].log, r.log, l);
      MatchingPrefixes(all[k].log, r.log, l);
    }
  }

  lemma MembersMatchLeader(e: Epoch)
    requires Sound(e)
    ensures forall m :: m in Members(e) ==> LogMatching(Members(e)[m].log, e.leader.log)
  {
    hide Sound, LogMatching;
    forall m | m in Members(e) ensures LogMatching(Members(e)[m].log, e.leader.log) {
      EveryMemberIsFit(e, m);
    }
  }

  /** Any change of one node to the same log, or to a prefix of the leader's. */
  lemma ChangeKeepsPairs(e: Epoch, all': map<nat, Replica>, f: nat)
    requires Sound(e) && PairsMatch(Members(e)) && f in Members(e) && all'.Keys == Members(e).Keys
    requires forall m :: m in Members(e) && m != f ==> all'[m].log == Members(e)[m].log
    requires all'[f].log == Members(e)[f].log || all'[f].log <= e.leader.log
    ensures PairsMatch(all')
  {
    hide Sound, LogMatching;
    MembersMatchLeader(e);
    var all := Members(e);
    if all'[f].log <= e.leader.log {
      var changed := all[f := all'[f]];
      PrefixKeepsPairs(all, f, all'[f], e.leader.log);
      assert forall m, n :: m in all' && n in all' ==> LogMatching(changed[m].log, changed[n].log);
    } else {
      assert forall m, n :: m in all' && n in all' ==> LogMatching(all[m].log, all[n].log);
    }
  }

  // ---------------------------------------------------------------- within an epoch

  /** A step other than a client's append: at most one log changes, to a prefix of the leader's. */
  ghost predicate CopiesAtMost(e: Epoch, e': Epoch, f: nat) {
    && Members(e').Keys == Members(e).Keys && e'.leader.log == e.leader.log && f in Members(e)
    && (forall m :: m in Members(e) && m != f ==> Members(e')[m].log == Members(e)[m].log)
    && (Members(e')[f].log == Members(e)[f].log || Members(e')[f].log <= e.leader.log)
    && (forall n :: n in Members(e) ==> Members(e')[n].lastApplied <= Max(Members(e)[n].lastApplied, e'.leader.lastApplied))
  }

  lemma HandleCopies(e: Epoch, f: nat, clock: ClockOf)
    requires Sound(e) && f in e.followers && f in e.wire && e.wire[f].Asked?
    ensures CopiesAtMost(e, Next(e, Handle(f), clock), f)
  {
    hide Sound, Next, OnAppend, FollowerAfter;
    LeaderInShape(e);
    HandleEffect(e, f, clock);
    var e' := Next(e, Handle(f), clock);
    assert Members(e') == Members(e)[f := e'.followers[f]];
  }

  lemma ReplyCopies(e: Epoch, f: nat, clock: ClockOf)
    requires Sound(e) && HasReply(e, f)
    ensures CopiesAtMost(e, Next(e, Reply(f), clock), f)
  {
    hide Sound, Next, Advance, QuorumIndex;
    ReplyEffect(e, f, clock);
    ReplyIsSound(e, f, clock);
    LeaderInShape(e);
    LeaderInShape(Next(e, Reply(f), clock));
    var e' := Next(e, Reply(f), clock);
    assert Members(e') == Members(e)[e.self := e'.leader];
  }

  lemma StepCopies(e: Epoch, st: Step, clock: ClockOf) returns (f: nat)
    requires Sound(e) && !st.ClientAppend?
    ensures CopiesAtMost(e, Next(e, st, clock), f)
  {
    hide Sound, Next, CopiesAtMost;
    if st.ReserveIno? {
      f := e.self;
      ReserveCopies(e, st.remotePath, clock);
    } else if st.Handle? && CanHandle(e, st.follower) {
      f := st.follower;
      HandleCopies(e, f, clock);
    } else if st.Reply? && HasReply(e, st.follower) {
      f := st.follower;
      ReplyCopies(e, f, clock);
    } else {
      f := e.self;
      OnlyWireChanges(e, st, clock);
      SameCopies(e, Next(e, st, clock));
    }
  }

  lemma ReserveCopies(e: Epoch, p: string, clock: ClockOf)
    ensures CopiesAtMost(e, Next(e, ReserveIno(p), clock), e.self)
  {
    hide Prepare;
  }

  lemma SameCopies(e: Epoch, e': Epoch)
    requires e' == e.(wire := e'.wire)
    ensures CopiesAtMost(e, e', e.self)
  {
  }

  lemma LeaderInShape(e: Epoch)
    requires Sound(e)
    ensures e.self !in e.followers && e.leader.lastApplied == e.leader.commitIndex <= |e.leader.log|
  {
    hide Follows;
  }

  /** The parts of safety that logs and indices decide. */
  ghost predicate LogsSafe(e: Epoch, safe: nat) {
    && Sound(e) && PairsMatch(Members(e)) && safe <= |e.leader.log|
    && forall n :: n in Members(e) ==> Members(e)[n].lastApplied <= safe
  }

  lemma StepIsSafe(e: Epoch, safe: nat, st: Step, clock: ClockOf)
    requires LogsSafe(e, safe) && Harmless(e, st)
    ensures var e' := Next(e, st, clock);
            && LogsSafe(e', Max(safe, e'.leader.lastApplied)) && e.leader.log <= e'.leader.log
            && Members(e').Keys == Members(e).Keys
  {
    hide Sound, PairsMatch, Harmless, Next, Members;
    NextIsSound(e, st, clock);
    var e' := Next(e, st, clock);
    LeaderInShape(e');
    if st.ClientAppend? {
      AppendKeepsPairs(e, st.command, clock);
    } else {
      var f := StepCopies(e, st, clock);
      ChangeKeepsPairs(e, Members(e'), f);
    }
  }

  /** The leader's log may grow, and nobody applies anything. */
  ghost predicate OnlyTheLeader(e: Epoch, e': Epoch) {
    && Members(e').Keys == Members(e).Keys && e.leader.log <= e'.leader.log
    && forall n :: n in Members(e) ==> Members(e')[n].lastApplied == Members(e)[n].lastApplied
  }

  lemma AppendKeepsPairs(e: Epoch, c: Command, clock: ClockOf)
    requires Sound(e) && PairsMatch(Members(e))
    ensures PairsMatch(Members(Next(e, ClientAppend(c), clock))) && OnlyTheLeader(e, Next(e, ClientAppend(c), clock))
  {
    AppendPairs(e, c, clock);
    hide Sound, PairsMatch;
  }

  lemma AppendPairs(e: Epoch, c: Command, clock: ClockOf)
    requires Sound(e) && PairsMatch(Members(e))
    ensures PairsMatch(Members(Next(e, ClientAppend(c), clock)))
  {
    var e' := Next(e, ClientAppend(c), clock);
    ClientAppendIsSound(e, c, clock);
    MembersMatchLeader(e');
    hide Sound, LogMatching;
    var all, all' := Members(e), Members(e');
    forall m, n | m in all' && n in all' ensures LogMatching(all'[m].log, all'[n].log) {
      if m == e.self {
        MatchingPrefixes(all'[n].log, e'.leader.log, e'.leader.log);
      } else if n != e.self {
        assert LogMatching(all[m].log, all[n].log);
      }
    }
  }

  // ---------------------------------------------------------------- elections

  lemma RestartKeepsSafe(e: Epoch, safe: nat, stored: Option<nat>)
    requires LogsSafe(e, safe)
    ensures var all := Electorate(e, stored);
            && PairsMatch(all) && all.Keys == Members(e).Keys
            && forall m :: m in all ==> FitFollower(e.leader.log, all[m]) && all[m].lastApplied <= safe
  {
    var all := Electorate(e, stored);
    hide Sound, PairsMatch, FitFollower;
    forall m | m in Members(e) ensures FitFollower(e.leader.log, Members(e)[m]) {
      EveryMemberIsFit(e, m);
    }
    if stored.Some? {
      RestartedIsFit(e.leader.log, Min(stored.value, |e.leader.log|));
      assert FitFollower(e.leader.log, Members(e)[e.self]);
      LeaderIsAligned(e);
      ChangeKeepsPairs(e, all, e.self);
    }
  }

  lemma LeaderIsAligned(e: Epoch)
    requires Sound(e)
    ensures Aligned(e.leader.log, 0)
  {
    hide Follows;
  }

  lemma RestartedIsFit(l: seq<Entry>, k: nat)
    requires k <= |l|
    ensures Aligned(l, 0) ==> FitFollower(l, Replica(l[..k], 0, 0, ROOT_SPACE))
  {
    assert forall i :: 0 <= i <= k ==> l[..k][..i] == l[..i];
  }

  /** A node fit for the old leader is fit for the new one, which holds all that was applied. */
  lemma FitForSuccessor(l: seq<Entry>, heir: seq<Entry>, r: Replica, safe: nat)
    requires FitFollower(l, r) && LogMatching(r.log, heir) && |r.log| <= |heir| && r.lastApplied <= safe
    requires safe <= |l| && safe <= |heir| && heir[..safe] == l[..safe]
    ensures FitFollower(heir, r)
  {
    assert heir[..r.lastApplied] == heir[..safe][..r.lastApplied] == l[..safe][..r.lastApplied] == l[..r.lastApplied];
  }

  /** The new leader holds everything ever applied. */
  lemma SuccessorHolds(l: seq<Entry>, heir: Replica, safe: nat)
    requires FitFollower(l, heir) && safe <= |l| && safe <= |heir.log| && TermAt(heir.log, safe) == TermAt(l, safe)
    ensures heir.log[..safe] == l[..safe]
  {
    PrefixFromMatch(heir.log, l, safe);
  }

  lemma ElectionIsSafe(e: Epoch, safe: nat, n: nat, term: nat, stored: Option<nat>)
    requires LogsSafe(e, safe) && n in Electorate(e, stored) && Succeeds(Electorate(e, stored), n, e.leader.log, safe)
    ensures var e' := NewEpoch(Electorate(e, stored), n, term);
            && Starts(e') && LogsSafe(e', safe) && Members(e') == Electorate(e, stored)
            && e'.leader.log[..safe] == e.leader.log[..safe]
  {
    var all, l := Electorate(e, stored), e.leader.log;
    hide FitFollower, Sound, Starts, PairsMatch, Electorate, NewEpoch;
    RestartKeepsSafe(e, safe, stored);
    SuccessorHolds(l, all[n], safe);
    forall m | m in all ensures FitFollower(all[n].log, all[m]) {
      PairAt(all, m, n);
      FitForSuccessor(l, all[n].log, all[m], safe);
    }
    FitStarts(all, n, term);
    NewMembers(all, n, term);
    StartIsSound(NewEpoch(all, n, term));
  }

  /**
   Of all members, exactly those that succeed start an epoch whose leader keeps what was applied:
   no log beside them is longer, and their entry at the highest applied index has the right term.
   */
  lemma ElectionIsSafeExactly(e: Epoch, safe: nat, n: nat, term: nat, stored: Option<nat>)
    requires LogsSafe(e, safe) && n in Electorate(e, stored)
    ensures var all, l := Electorate(e, stored), e.leader.log;
            var e' := NewEpoch(all, n, term);
            && (Succeeds(all, n, l, safe) <==>
                  Starts(e') && safe <= |e'.leader.log| && e'.leader.log[..safe] == l[..safe])
            && (Succeeds(all, n, l, safe) ==> LogsSafe(e', safe) && Members(e') == all)
  {
    hide LogsSafe, Electorate, Starts, Succeeds, Members, NewEpoch;
    var all, l := Electorate(e, stored), e.leader.log;
    SafeIsWithin(e, safe);
    NewMembers(all, n, term);
    if Succeeds(all, n, l, safe) {
      ElectionIsSafe(e, safe, n, term, stored);
      SucceedsReaches(all, n, l, safe);
    } else if Starts(NewEpoch(all, n, term)) && safe <= |all[n].log| && all[n].log[..safe] == l[..safe] {
      StartMeansSucceeds(all, n, term, l, safe);
    }
  }

  lemma SafeIsWithin(e: Epoch, safe: nat)
    requires LogsSafe(e, safe)
    ensures safe <= |e.leader.log|
  {
    hide Sound, PairsMatch;
  }

  lemma SucceedsReaches(all: map<nat, Replica>, n: nat, l: seq<Entry>, safe: nat)
    requires n in all && safe <= |l| && Succeeds(all, n, l, safe)
    ensures safe <= |all[n].log|
  {
  }

  lemma StartMeansSucceeds(all: map<nat, Replica>, n: nat, term: nat, l: seq<Entry>, safe: nat)
    requires n in all && safe <= |l| && Starts(NewEpoch(all, n, term))
    requires safe <= |all[n].log| && all[n].log[..safe] == l[..safe]
    ensures Succeeds(all, n, l, safe)
  {
    hide LogMatching, Aligned;
    var e := NewEpoch(all, n, term);
    forall m | m in all ensures |all[m].log| <= |all[n].log| {
      assert m != n ==> m in e.followers;
    }
    hide Starts;
    if TermAt(all[n].log, safe) != TermAt(l, safe) {
      DifferentTermMeansDifferent(all[n].log, l, safe);
    }
  }

  lemma DifferentTermMeansDifferent(a: seq<Entry>, b: seq<Entry>, k: nat)
    requires k <= |a| && k <= |b| && TermAt(a, k) != TermAt(b, k)
    ensures a[..k] != b[..k]
  {
    assert a[..k][k - 1] == a[k - 1] && b[..k][k - 1] == b[k - 1];
  }

  lemma PairAt(all: map<nat, Replica>, m: nat, n: nat)
    requires PairsMatch(all) && m in all && n in all
    ensures LogMatching(all[m].log, all[n].log)
  {
  }

  lemma NewMembers(all: map<nat, Replica>, n: nat, term: nat)
    requires n in all
    ensures Members(NewEpoch(all, n, term)) == all && NewEpoch(all, n, term).leader == all[n]
  {
  }

  // ---------------------------------------------------------------- histories

  lemma AccountsFollow(a: Era, st: Step, clock: ClockOf)
    requires Safe(a) && Harmless(a.epoch, st)
    ensures var a' := After(a, Proceed(st), clock);
            && a'.accounts.Keys == Members(a.epoch).Keys
            && forall n :: n in Members(a.epoch) ==>
                 n in Members(a'.epoch) && Explains(a'.accounts[n], Members(a'.epoch)[n], a'.epoch.leader.log)
  {
    hide Sound, Explains, Next, Deeds, PairsMatch, Harmless;
    forall n | n in Members(a.epoch)
      ensures var e' := Next(a.epoch, st, clock);
              n in Members(e') && Explains(Note(a.accounts[n], Deeds(a.epoch, st, clock, n)), Members(e')[n], e'.leader.log)
    {
      assert Applied(a, n);
      StepIsExplained(a.accounts[n], a.epoch, st, clock, n);
    }
  }

  lemma SafeLogs(a: Era)
    requires Safe(a)
    ensures LogsSafe(a.epoch, a.safe)
  {
    hide Sound, PairsMatch, Explains;
    assert forall n :: n in Members(a.epoch) ==> Applied(a, n);
  }

  lemma ProceedIsSafe(a: Era, st: Step, clock: ClockOf)
    requires Safe(a) && Harmless(a.epoch, st)
    ensures var a' := After(a, Proceed(st), clock);
            Safe(a') && a.safe <= a'.safe && a.epoch.leader.log <= a'.epoch.leader.log
  {
    hide Sound, Explains, Next, Deeds, PairsMatch, Harmless;
    SafeLogs(a);
    StepIsSafe(a.epoch, a.safe, st, clock);
    AccountsFollow(a, st, clock);
  }

  lemma ElectIsSafe(a: Era, act: Act, clock: ClockOf)
    requires Safe(a) && act.Elect? && Allowed(a, act)
    ensures var a' := After(a, act, clock);
            Safe(a') && a'.safe == a.safe && a'.epoch.leader.log[..a.safe] == a.epoch.leader.log[..a.safe]
  {
    hide Sound, Explains, PairsMatch, Starts;
    var e, all := a.epoch, Electorate(a.epoch, act.stored);
    if act.node in all {
      SafeLogs(a);
      ElectionIsSafe(e, a.safe, act.node, act.term, act.stored);
      var a' := After(a, act, clock);
      forall n | n in all ensures n in a'.accounts && Explains(a'.accounts[n], all[n], a'.epoch.leader.log) {
        assert Applied(a, n);
        if act.stored.Some? && n == e.self {
          NothingIsExplained(all[n], a'.epoch.leader.log);
        } else {
          PrefixOfPrefix(e.leader.log, a'.epoch.leader.log, a.safe, all[n].lastApplied);
          SamePrefixIsExplained(a.accounts[n], all[n], e.leader.log, a'.epoch.leader.log);
        }
      }
    }
  }

  lemma NothingIsExplained(r: Replica, l: seq<Entry>)
    requires r.lastApplied == 0 && r.space == ROOT_SPACE
    ensures Explains(Account(ROOT_SPACE, 0, []), r, l)
  {
    assert Commands(l[..0]) == [] && Commands(l[0..0]) == [];
  }

  lemma PrefixOfPrefix(l: seq<Entry>, k: seq<Entry>, safe: nat, a: nat)
    requires a <= safe <= |l| && safe <= |k| && k[..safe] == l[..safe]
    ensures k[..a] == l[..a]
  {
    assert k[..a] == k[..safe][..a] && l[..a] == l[..safe][..a];
  }

  /** What was ever applied stays in every later leader's log. */
  lemma {:induction false} HistoryIsSafe(a: Era, acts: seq<Act>, clock: ClockOf)
    requires Safe(a) && AllAllowed(a, acts, clock)
    ensures var b := History(a, acts, clock);
            Safe(b) && a.safe <= b.safe <= |b.epoch.leader.log| && a.safe <= |a.epoch.leader.log|
            && b.epoch.leader.log[..a.safe] == a.epoch.leader.log[..a.safe]
  {
    hide After, Allowed;
    if acts != [] {
      var before, act := acts[..|acts| - 1], acts[|acts| - 1];
      HistoryIsSafe(a, before, clock);
      ActIsSafe(History(a, before, clock), act, clock);
      var mid, b := History(a, before, clock), History(a, acts, clock);
      hide History, Sound, PairsMatch, Applied;
      PrefixOfPrefix(mid.epoch.leader.log, b.epoch.leader.log, mid.safe, a.safe);
    } else {
      hide Sound, PairsMatch, Applied;
    }
  }

  lemma ActIsSafe(a: Era, act: Act, clock: ClockOf)
    requires Safe(a) && Allowed(a, act)
    ensures var b := After(a, act, clock);
            && Safe(b) && a.safe <= b.safe <= |b.epoch.leader.log| && a.safe <= |a.epoch.leader.log|
            && b.epoch.leader.log[..a.safe] == a.epoch.leader.log[..a.safe]
  {
    hide Sound, PairsMatch, Applied, Next;
    match act
    case Proceed(st) => ProceedIsSafe(a, st, clock);
    case Elect(_, _, _) => ElectIsSafe(a, act, clock);
  }

  lemma {:induction false} HistorySplits(a: Era, x: seq<Act>, y: seq<Act>, clock: ClockOf)
    ensures History(a, x + y, clock) == History(History(a, x, clock), y, clock)
    ensures AllAllowed(a, x + y, clock) <==> AllAllowed(a, x, clock) && AllAllowed(History(a, x, clock), y, clock)
  {
    hide After, Allowed;
    if y == [] {
      assert x + y == x;
    } else {
      assert (x + y)[..|x + y| - 1] == x + y[..|y| - 1];
      HistorySplits(a, x, y[..|y| - 1], clock);
    }
  }

  /** A directory was created on the node after it had reserved an ino, since it last started. */
  ghost predicate SplitNode(a: Era, n: nat)
    requires n in a.accounts
  {
    MkdirAfterReserve(a.accounts[n].base, a.accounts[n].deeds)
  }

  lemma AppliedIsSafe(a: Era, n: nat)
    requires Safe(a) && n in Members(a.epoch)
    ensures n in a.accounts && Explains(a.accounts[n], Members(a.epoch)[n], a.epoch.leader.log)
    ensures var r := Members(a.epoch)[n];
            && r.lastApplied <= a.safe <= |a.epoch.leader.log| && r.lastApplied <= |r.log|
            && r.log[..r.lastApplied] == a.epoch.leader.log[..r.lastApplied]
  {
    hide Sound, Explains, PairsMatch;
    assert Applied(a, n);
    EveryMemberIsFit(a.epoch, n);
  }

  /**
   State machine safety over histories of epochs: whatever a node applied at one time and any node
   applied at a later time, under whichever leaders and after whichever restarts of old leaders,
   one of the two applied logs is a prefix of the other, and it is in every later leader's log. Of
   two equally advanced nodes, the paths and inodes agree up to the stamps of files when neither
   has created a directory after a reservation of its own, and disagree when exactly one has.
   */
  lemma NothingAppliedIsLost(a: Era, x: seq<Act>, y: seq<Act>, clock: ClockOf, m: nat, n: nat)
    requires Begins(a) && AllAllowed(a, x + y, clock)
    requires m in Members(History(a, x, clock).epoch) && n in Members(History(a, x + y, clock).epoch)
    ensures var early, late := History(a, x, clock), History(a, x + y, clock);
            var r, s := Members(early.epoch)[m], Members(late.epoch)[n];
            && m in early.accounts && n in late.accounts
            && r.lastApplied <= |r.log| && s.lastApplied <= |s.log| && r.log[..r.lastApplied] <= late.epoch.leader.log
            && (r.log[..r.lastApplied] <= s.log[..s.lastApplied] || s.log[..s.lastApplied] <= r.log[..r.lastApplied])
            && (r.lastApplied == s.lastApplied ==>
                  && (!SplitNode(early, m) && !SplitNode(late, n) ==> MapsAgree(r.space, s.space))
                  && (SplitNode(early, m) != SplitNode(late, n) ==> !MapsAgree(r.space, s.space))
                  && (!SplitNode(early, m) && !SplitNode(late, n) && NoUploads(Commands(r.log[..r.lastApplied])) ==>
                        SameMaps(r.space, s.space)))
  {
    hide History, Safe, MapsAgree, NoUploads, Begins;
    BeginningIsSafe(a);
    HistorySplits(a, x, y, clock);
    HistoryIsSafe(a, x, clock);
    var early, late := History(a, x, clock), History(a, x + y, clock);
    HistoryIsSafe(early, y, clock);
    AppliedIsSafe(early, m);
    AppliedIsSafe(late, n);
    hide Explains, AllAllowed;
    var r, s := Members(early.epoch)[m], Members(late.epoch)[n];
    PrefixOfPrefix(early.epoch.leader.log, late.epoch.leader.log, early.safe, r.lastApplied);
    PrefixesCompare(late.epoch.leader.log, r.log[..r.lastApplied], s.log[..s.lastApplied]);
    if r.lastApplied == s.lastApplied {
      AccountsCompare(early.accounts[m], r, early.epoch.leader.log, late.accounts[n], s, late.epoch.leader.log);
    }
  }

  lemma PrefixesCompare(l: seq<Entry>, a: seq<Entry>, b: seq<Entry>)
    requires |a| <= |l| && |b| <= |l| && a == l[..|a|] && b == l[..|b|]
    ensures a <= l && b <= l && (a <= b || b <= a)
  {
    assert forall i :: 0 <= i < |a| ==> a[i] == l[i];
    assert forall i :: 0 <= i < |b| ==> b[i] == l[i];
  }

  // ---------------------------------------------------------------- who may succeed

  /** The elected node misses nothing of the old leader's log. */
  predicate Complete(e: Epoch, n: nat) {
    n in Members(e) ==> Members(e)[n].log == e.leader.log
  }

  /** Of the nodes that hold a prefix of the leader's log, exactly the complete ones can start an epoch. */
  lemma StartsExactlyWhenComplete(e: Epoch, n: nat, term: nat)
    requires Sound(e) && n in Members(e) && Members(e)[n].log <= e.leader.log
    ensures Starts(NewEpoch(Members(e), n, term)) <==> Complete(e, n)
  {
    hide Sound, LogMatching;
    if Complete(e, n) {
      forall m | m in Members(e) ensures FitFollower(e.leader.log, Members(e)[m]) {
        EveryMemberIsFit(e, m);
      }
      FitStarts(Members(e), n, term);
    } else {
      assert |Members(e)[n].log| < |e.leader.log|;
      assert e.self in NewEpoch(Members(e), n, term).followers;
    }
  }

  /** A complete node may always succeed, with the old leader still there or restarted. */
  lemma CompleteSucceeds(a: Era, n: nat, term: nat, stored: Option<nat>)
    requires Safe(a) && n in Members(a.epoch) && n != a.epoch.self && Complete(a.epoch, n)
    ensures Allowed(a, Elect(n, term, stored))
  {
    hide Sound, PairsMatch, Applied;
    var all, l := Electorate(a.epoch, stored), a.epoch.leader.log;
    forall m | m in all ensures |all[m].log| <= |l| {
      if m in Members(a.epoch) { EveryMemberIsFit(a.epoch, m); }
    }
  }

  /**
   When the leader has committed in its epoch all that was ever applied: an electable node than
   which no remaining log is longer may succeed exactly when it holds the committed entries, which
   is when its entry at the commit index has the leader's term.
   */
  lemma ElectableSucceedsExactly(a: Era, start: nat, n: nat, term: nat, stored: Option<nat>)
    requires Safe(a) && CommitIsQuorum(a.epoch, start) && a.safe == a.epoch.leader.commitIndex > start
    requires Electable(a.epoch, n) && n != a.epoch.self
    requires forall m :: m in Electorate(a.epoch, stored) ==> |Electorate(a.epoch, stored)[m].log| <= |Members(a.epoch)[n].log|
    ensures Allowed(a, Elect(n, term, stored)) <==> HoldsCommitted(a.epoch, n)
  {
    hide Sound, PairsMatch, Applied, CommitIsQuorum, Supporters, HoldsCommitted;
    ElectableHoldsCommitExactly(a.epoch, start, n);
    assert Electorate(a.epoch, stored)[n] == Members(a.epoch)[n];
  }
}
