/**
 How a waiting client gets its answer: the leader files the suspended request under the log
 index it appended, and applying that index resumes it.
 */
module Answers {
  import opened Basics
  import opened Namespace
  import opened Listing
  import opened Operations

  /** A filed request: the coroutine to resume, if any, and the response prepared for it. */
  datatype Pending = Pending(handle: Option<nat>, answer: Option<Outcome>)

  /** One resumption, with what the client reads; no answer is the preset failure. */
  datatype Resumption = Resumption(handle: nat, answer: Option<Outcome>)

  datatype Desk = Desk(pending: map<nat, Pending>, resumed: seq<Resumption>)

  /** `append_request`: emplacing leaves an entry that is already there. */
  function File(d: Desk, index: nat, handle: nat): Desk {
    d.(pending := Emplace(d.pending, index, Pending(Some(handle), None)))
  }

  function HandleAt(d: Desk, index: nat): Option<nat> {
    if index in d.pending then d.pending[index].handle else None
  }

  /** The pending part of `apply_entry`; looking an index up creates an empty entry for it. */
  function Settle(d: Desk, index: nat, answer: Option<Outcome>): Desk {
    var p := if index in d.pending then d.pending[index] else Pending(None, None);
    var q := if answer.Some? then p.(answer := answer) else p;
    Desk(d.pending[index := q],
         d.resumed + if q.handle.Some? then [Resumption(q.handle.value, q.answer)] else [])
  }

  function AnswerTo(s: Space, c: Command): Option<Outcome> {
    if c.Unknown? then None else Some(OutcomeOf(s, c))
  }

  // ---------------------------------------------------------------- one leadership

  datatype Leader = Leader(log: seq<Command>, applied: nat, space: Space, desk: Desk)

  datatype Step = Request(handle: nat, command: Command) | ApplyOne | ReserveIno(remotePath: string)

  /** `clock` is what this node reads when it applies each index. */
  function Next(l: Leader, st: Step, clock: nat -> nat): Leader {
    match st
    case Request(h, c) => l.(log := l.log + [c], desk := File(l.desk, |l.log| + 1, h))
    case ApplyOne =>
      if l.applied >= |l.log| then l
      else
        var c := l.log[l.applied];
        l.(applied := l.applied + 1, space := Apply(l.space, c, clock(l.applied + 1)),
           desk := Settle(l.desk, l.applied + 1, AnswerTo(l.space, c)))
    case ReserveIno(p) => l.(space := Prepare(l.space, p))
  }

  function Run(l: Leader, steps: seq<Step>, clock: nat -> nat): Leader {
    if steps == [] then l else Next(Run(l, steps[..|steps| - 1], clock), steps[|steps| - 1], clock)
  }

  /** What each application of the run answered, in order. */
  function Outs(l: Leader, steps: seq<Step>, clock: nat -> nat): seq<Option<Outcome>> {
    if steps == [] then []
    else Outs(l, steps[..|steps| - 1], clock) + Answered(Run(l, steps[..|steps| - 1], clock), steps[|steps| - 1])
  }

  function Answered(l: Leader, st: Step): seq<Option<Outcome>> {
    if st.ApplyOne? && l.applied < |l.log| then [AnswerTo(l.space, l.log[l.applied])] else []
  }

  /** The handles of the requests the run appended, in log order. */
  function Handles(steps: seq<Step>): seq<nat> {
    if steps == [] then []
    else Handles(steps[..|steps| - 1]) + if steps[|steps| - 1].Request? then [steps[|steps| - 1].handle] else []
  }

  /** Nothing is filed beyond the log, and what is filed but not applied has no answer yet. */
  predicate Tidy(l: Leader) {
    && l.applied <= |l.log|
    && (forall i :: i in l.desk.pending ==> i <= |l.log|)
    && (forall i :: i in l.desk.pending && l.applied < i ==> l.desk.pending[i].answer.None?)
  }

  /** The resumptions owed for applying indices `from + 1 .. from + |outs|`. */
  function Owed(d: Desk, from: nat, outs: seq<Option<Outcome>>): seq<Resumption> {
    if outs == [] then []
    else
      var n := |outs| - 1;
      Owed(d, from, outs[..n]) +
      match HandleAt(d, from + n + 1) { case Some(h) => [Resumption(h, outs[n])] case None => [] }
  }

  lemma {:induction false} OwedFramed(d: Desk, d': Desk, from: nat, outs: seq<Option<Outcome>>)
    requires forall i: nat :: i <= from + |outs| ==> HandleAt(d, i) == HandleAt(d', i)
    ensures Owed(d, from, outs) == Owed(d', from, outs)
  {
    if outs != [] {
      OwedFramed(d, d', from, outs[..|outs| - 1]);
    }
  }

  /** A request is filed under its own index exactly when that index was not filed before. */
  lemma FiledExactlyWhenFree(l: Leader, h: nat, c: Command, clock: nat -> nat)
    requires forall i :: i in l.desk.pending ==> l.desk.pending[i].handle != Some(h)
    ensures HandleAt(Next(l, Request(h, c), clock).desk, |l.log| + 1) == Some(h) <==> |l.log| + 1 !in l.desk.pending
  {
  }

  /** An applied index is taken for ever: whoever is filed there later waits in vain, and no other index is touched. */
  lemma AppliedIndexIsTaken(d: Desk, index: nat, answer: Option<Outcome>, h: nat)
    ensures HandleAt(File(Settle(d, index, answer), index, h), index) == HandleAt(d, index)
    ensures forall i :: i != index ==> (i in Settle(d, index, answer).pending <==> i in d.pending)
    ensures forall i :: i != index && i in d.pending ==> Settle(d, index, answer).pending[i] == d.pending[i]
  {
  }

  lemma NextKeepsTidy(l: Leader, st: Step, clock: nat -> nat)
    requires Tidy(l)
    ensures Tidy(Next(l, st, clock))
    ensures forall i: nat :: i <= |l.log| ==> HandleAt(Next(l, st, clock).desk, i) == HandleAt(l.desk, i)
    ensures st.Request? ==> HandleAt(Next(l, st, clock).desk, |l.log| + 1) == Some(st.handle)
    ensures |Next(l, st, clock).log| == |l.log| + if st.Request? then 1 else 0
  {
  }

  lemma NextResumes(l: Leader, st: Step, clock: nat -> nat)
    requires Tidy(l)
    ensures Next(l, st, clock).applied == l.applied + |Answered(l, st)|
    ensures Next(l, st, clock).desk.resumed == l.desk.resumed + Owed(l.desk, l.applied, Answered(l, st))
  {
    if Answered(l, st) != [] {
      assert Answered(l, st)[..0] == [];
    }
  }

  lemma {:induction false} OwedSplits(d: Desk, from: nat, a: seq<Option<Outcome>>, b: seq<Option<Outcome>>)
    ensures Owed(d, from, a + b) == Owed(d, from, a) + Owed(d, from + |a|, b)
  {
    if b == [] {
      assert a + b == a;
    } else {
      assert (a + b)[..|a + b| - 1] == a + b[..|b| - 1];
      OwedSplits(d, from, a, b[..|b| - 1]);
    }
  }

  /** Where the run's requests are filed. */
  ghost predicate Filed(l0: Leader, l: Leader, hs: seq<nat>) {
    && |l.log| == |l0.log| + |hs|
    && (forall j :: 0 <= j < |hs| ==> HandleAt(l.desk, |l0.log| + j + 1) == Some(hs[j]))
    && (forall i: nat :: i <= |l0.log| ==> HandleAt(l.desk, i) == HandleAt(l0.desk, i))
  }

  lemma FiledGrows(l0: Leader, b: Leader, l: Leader, hs: seq<nat>, more: seq<nat>)
    requires Filed(l0, b, hs) && |more| <= 1 && |l.log| == |b.log| + |more|
    requires forall i: nat :: i <= |b.log| ==> HandleAt(l.desk, i) == HandleAt(b.desk, i)
    requires more != [] ==> HandleAt(l.desk, |b.log| + 1) == Some(more[0])
    ensures Filed(l0, l, hs + more)
  {
    hide HandleAt;
  }

  /** The run's requests stay filed under their own indices. */
  lemma {:induction false} RunKeepsFiled(l0: Leader, steps: seq<Step>, clock: nat -> nat)
    requires Tidy(l0)
    ensures Tidy(Run(l0, steps, clock)) && Filed(l0, Run(l0, steps, clock), Handles(steps))
  {
    hide Next, Tidy, HandleAt;
    if steps != [] {
      var before, st := steps[..|steps| - 1], steps[|steps| - 1];
      RunKeepsFiled(l0, before, clock);
      hide Filed;
      NextKeepsTidy(Run(l0, before, clock), st, clock);
      FiledGrows(l0, Run(l0, before, clock), Run(l0, steps, clock), Handles(before), if st.Request? then [st.handle] else []);
    }
  }

  lemma OwedGrows(d: Desk, d': Desk, from: nat, outs: seq<Option<Outcome>>, more: seq<Option<Outcome>>)
    requires forall i: nat :: i <= from + |outs| + |more| ==> HandleAt(d, i) == HandleAt(d', i)
    ensures Owed(d, from, outs) + Owed(d, from + |outs|, more) == Owed(d', from, outs + more)
  {
    OwedSplits(d, from, outs, more);
    OwedFramed(d, d', from, outs + more);
  }

  ghost predicate Paid(l0: Leader, l: Leader, outs: seq<Option<Outcome>>) {
    && l.applied == l0.applied + |outs|
    && l.desk.resumed == l0.desk.resumed + Owed(l.desk, l0.applied, outs)
  }

  lemma StillPaid(l0: Leader, b: Leader, l: Leader, outs: seq<Option<Outcome>>, more: seq<Option<Outcome>>)
    requires Paid(l0, b, outs)
    requires l.applied == b.applied + |more| <= |b.log|
    requires l.desk.resumed == b.desk.resumed + Owed(b.desk, b.applied, more)
    requires forall i: nat :: i <= |b.log| ==> HandleAt(l.desk, i) == HandleAt(b.desk, i)
    ensures Paid(l0, l, outs + more)
  {
    hide Owed, HandleAt;
    OwedGrows(b.desk, l.desk, l0.applied, outs, more);
    Associate(l0.desk.resumed, Owed(b.desk, l0.applied, outs), Owed(b.desk, b.applied, more), b.desk.resumed, l.desk.resumed,
              Owed(l.desk, l0.applied, outs + more));
  }

  lemma Associate<T>(a: seq<T>, b: seq<T>, c: seq<T>, ab: seq<T>, abc: seq<T>, bc: seq<T>)
    requires ab == a + b && abc == ab + c && bc == b + c
    ensures abc == a + bc
  {
  }

  lemma NextIsPaid(l0: Leader, b: Leader, outs: seq<Option<Outcome>>, st: Step, clock: nat -> nat)
    requires Tidy(b) && Paid(l0, b, outs)
    ensures Paid(l0, Next(b, st, clock), outs + Answered(b, st))
  {
    NextResumes(b, st, clock);
    NextKeepsTidy(b, st, clock);
    StillPaid(l0, b, Next(b, st, clock), outs, Answered(b, st));
  }

  lemma {:induction false} RunIsPaid(l0: Leader, steps: seq<Step>, clock: nat -> nat)
    requires Tidy(l0)
    ensures Paid(l0, Run(l0, steps, clock), Outs(l0, steps, clock))
  {
    if steps != [] {
      var before := steps[..|steps| - 1];
      RunIsPaid(l0, before, clock);
      RunKeepsFiled(l0, before, clock);
      NextIsPaid(l0, Run(l0, before, clock), Outs(l0, before, clock), steps[|steps| - 1], clock);
    }
  }

  /**
   While a node stays leader: the request appended at index i is resumed when `applied` passes i,
   in log order, with the outcome its own command had, and never otherwise.
   */
  lemma AnswerMatchesPosition(l0: Leader, steps: seq<Step>, clock: nat -> nat)
    requires Tidy(l0)
    ensures Filed(l0, Run(l0, steps, clock), Handles(steps))
    ensures Paid(l0, Run(l0, steps, clock), Outs(l0, steps, clock))
  {
    RunKeepsFiled(l0, steps, clock);
    RunIsPaid(l0, steps, clock);
  }

  /** No client is on file twice. */
  ghost predicate DistinctHandles(d: Desk) {
    forall i: nat, j: nat :: HandleAt(d, i).Some? && HandleAt(d, i) == HandleAt(d, j) ==> i == j
  }

  /** With distinct handles on file, no two resumptions owed are to one client. */
  lemma {:induction false} OwedAtMostOnce(d: Desk, from: nat, outs: seq<Option<Outcome>>)
    requires DistinctHandles(d)
    ensures forall x, y :: 0 <= x < y < |Owed(d, from, outs)| ==> Owed(d, from, outs)[x].handle != Owed(d, from, outs)[y].handle
    ensures forall x :: 0 <= x < |Owed(d, from, outs)| ==> FiledWithin(d, from, |outs|, Owed(d, from, outs)[x].handle)
  {
    if outs != [] {
      var n := |outs| - 1;
      OwedAtMostOnce(d, from, outs[..n]);
      var earlier := Owed(d, from, outs[..n]);
      forall x | 0 <= x < |earlier| ensures FiledWithin(d, from, |outs|, earlier[x].handle) {
        assert FiledWithin(d, from, n, earlier[x].handle);
      }
      if HandleAt(d, from + n + 1).Some? {
        assert FiledWithin(d, from, |outs|, HandleAt(d, from + n + 1).value);
      }
    }
  }

  /** The handles of the new requests differ from each other and from those on file. */
  ghost predicate NewHandles(d: Desk, hs: seq<nat>) {
    && (forall i, j :: 0 <= i < j < |hs| ==> hs[i] != hs[j])
    && (forall i: nat, j :: 0 <= j < |hs| ==> HandleAt(d, i) != Some(hs[j]))
  }

  lemma FiledKeepsDistinct(l0: Leader, l: Leader, hs: seq<nat>)
    requires Filed(l0, l, hs) && Tidy(l) && DistinctHandles(l0.desk) && NewHandles(l0.desk, hs)
    ensures DistinctHandles(l.desk)
  {
    var n := |l0.log|;
    forall i: nat, j: nat | HandleAt(l.desk, i).Some? && HandleAt(l.desk, i) == HandleAt(l.desk, j) ensures i == j {
      assert i <= |l.log| && j <= |l.log|;
      if i > n { assert HandleAt(l.desk, n + (i - n - 1) + 1) == Some(hs[i - n - 1]); }
      if j > n { assert HandleAt(l.desk, n + (j - n - 1) + 1) == Some(hs[j - n - 1]); }
    }
  }

  /**
   Over any run of a leadership whose requests come from new clients: no client is on file twice at
   the end, and none is resumed twice during the run.
   */
  lemma ResumedAtMostOnce(l0: Leader, steps: seq<Step>, clock: nat -> nat)
    requires Tidy(l0) && DistinctHandles(l0.desk) && NewHandles(l0.desk, Handles(steps))
    ensures var l, base := Run(l0, steps, clock), |l0.desk.resumed|;
            && DistinctHandles(l.desk) && base <= |l.desk.resumed|
            && (forall x, y :: base <= x < y < |l.desk.resumed| ==> l.desk.resumed[x].handle != l.desk.resumed[y].handle)
            && (forall x :: base <= x < |l.desk.resumed| ==>
                  FiledWithin(l.desk, l0.applied, |Outs(l0, steps, clock)|, l.desk.resumed[x].handle))
  {
    hide Run, Outs, Handles, Owed, DistinctHandles, NewHandles, FiledWithin;
    RunKeepsFiled(l0, steps, clock);
    RunIsPaid(l0, steps, clock);
    var l, outs := Run(l0, steps, clock), Outs(l0, steps, clock);
    FiledKeepsDistinct(l0, l, Handles(steps));
    OwedAtMostOnce(l.desk, l0.applied, outs);
  }

  ghost predicate FiledWithin(d: Desk, from: nat, n: nat, h: nat) {
    exists i: nat :: from < i <= from + n && HandleAt(d, i) == Some(h)
  }

  predicate NoReservations(steps: seq<Step>) {
    forall i :: 0 <= i < |steps| ==> !steps[i].ReserveIno?
  }

  /** The answer owed to log index `i + 1`: its command's outcome after all entries before it. */
  function OutcomeAt(s0: Space, log: seq<Command>, from: nat, i: nat, clock: nat -> nat): Option<Outcome>
    requires from <= i < |log|
  {
    AnswerTo(ApplyAll(s0, log[from..i], clock, from), log[i])
  }

  /** The node's state and answers so far are those the log alone determines. */
  ghost predicate FollowsLog(l0: Leader, l: Leader, outs: seq<Option<Outcome>>, clock: nat -> nat) {
    && l0.applied + |outs| == l.applied <= |l.log|
    && l.space == ApplyAll(l0.space, l.log[l0.applied..l.applied], clock, l0.applied)
    && forall k :: 0 <= k < |outs| ==> outs[k] == OutcomeAt(l0.space, l.log, l0.applied, l0.applied + k, clock)
  }

  /** Appending to the log changes nothing that was applied. */
  lemma LongerLogFollows(l0: Leader, b: Leader, l: Leader, outs: seq<Option<Outcome>>, clock: nat -> nat)
    requires FollowsLog(l0, b, outs, clock)
    requires b.log <= l.log && l.applied == b.applied && l.space == b.space
    ensures FollowsLog(l0, l, outs, clock)
  {
    hide AnswerTo, ApplyAll;
    assert forall k :: l0.applied <= k <= |b.log| ==> l.log[l0.applied..k] == b.log[l0.applied..k];
  }

  lemma AppliedFollows(l0: Leader, b: Leader, l: Leader, outs: seq<Option<Outcome>>, out: Option<Outcome>, clock: nat -> nat)
    requires FollowsLog(l0, b, outs, clock) && b.applied < |b.log|
    requires l.log == b.log && l.applied == b.applied + 1
    requires l.space == Apply(b.space, b.log[b.applied], clock(l.applied))
    requires out == AnswerTo(b.space, b.log[b.applied])
    ensures FollowsLog(l0, l, outs + [out], clock)
  {
    hide Apply, ApplyAll, AnswerTo;
    var before, c := b.log[l0.applied..b.applied], b.log[b.applied];
    assert l.log[l0.applied..l.applied] == before + [c];
    ApplyAllAppend(l0.space, before, c, clock, l0.applied);
    assert OutcomeAt(l0.space, l.log, l0.applied, b.applied, clock) == out;
    var all := outs + [out];
    assert forall k :: 0 <= k < |outs| ==> all[k] == outs[k];
    assert all[|outs|] == out;
  }

  lemma NextFollowsLog(l0: Leader, b: Leader, outs: seq<Option<Outcome>>, st: Step, clock: nat -> nat)
    requires Tidy(b) && FollowsLog(l0, b, outs, clock) && !st.ReserveIno?
    ensures FollowsLog(l0, Next(b, st, clock), outs + Answered(b, st), clock)
  {
    hide FollowsLog, AnswerTo, Apply, Settle, File, Prepare;
    if Answered(b, st) != [] {
      AppliedFollows(l0, b, Next(b, st, clock), outs, AnswerTo(b.space, b.log[b.applied]), clock);
    } else {
      assert outs + Answered(b, st) == outs;
      LongerLogFollows(l0, b, Next(b, st, clock), outs, clock);
    }
  }

  /** Without reservations in between, each answer is the outcome the log alone determines. */
  lemma {:induction false} OutcomesFollowTheLog(l0: Leader, steps: seq<Step>, clock: nat -> nat)
    requires Tidy(l0) && NoReservations(steps)
    ensures FollowsLog(l0, Run(l0, steps, clock), Outs(l0, steps, clock), clock)
  {
    if steps == [] {
      assert l0.log[l0.applied..l0.applied] == [];
    } else {
      var before := steps[..|steps| - 1];
      OutcomesFollowTheLog(l0, before, clock);
      RunKeepsFiled(l0, before, clock);
      NextFollowsLog(l0, Run(l0, before, clock), Outs(l0, before, clock), steps[|steps| - 1], clock);
    }
  }

  // ---------------------------------------------------------------- what an answer means

  /**
   What a client is told about a command that took the namespace from `s` to `t`: kOk exactly when that
   changed it, a reason exactly when the reason holds, nothing exactly for what does not parse.
   */
  ghost predicate Told(answer: Option<Outcome>, c: Command, s: Space, t: Space) {
    && (answer.None? <==> c.Unknown?)
    && (answer == Some(Ok) <==> s != t)
    && (forall reason :: answer == Some(Rejected(reason)) <==> Refused(s, c, reason))
    && (c.Unknown? || s != t || exists reason :: Refused(s, c, reason))
  }

  lemma AnswerIsTold(s: Space, c: Command, now: nat)
    requires Sound(s)
    ensures Told(AnswerTo(s, c), c, s, Apply(s, c, now))
  {
    hide Apply, Refused, Sound, OutcomeOf;
    if c.Unknown? {
      UnknownDoesNothing(s, c, now);
    } else {
      AnswersExactly(s, c);
      Integrity.OkExactlyWhenGained(s, c, now);
      if s == Apply(s, c, now) {
        assert Refused(s, c, OutcomeOf(s, c).reason);
      }
    }
  }

  lemma UnknownDoesNothing(s: Space, c: Command, now: nat)
    requires c.Unknown?
    ensures Apply(s, c, now) == s && forall reason :: !Refused(s, c, reason)
  {
  }

  /** One application: the command and the namespace before and after. */
  datatype Application = Application(command: Command, before: Space, after: Space)

  function AppliedBy(l: Leader, st: Step, clock: nat -> nat): seq<Application> {
    if st.ApplyOne? && l.applied < |l.log| then [Application(l.log[l.applied], l.space, Next(l, st, clock).space)] else []
  }

  function Applications(l: Leader, steps: seq<Step>, clock: nat -> nat): seq<Application> {
    if steps == [] then []
    else
      var before := steps[..|steps| - 1];
      Applications(l, before, clock) + AppliedBy(Run(l, before, clock), steps[|steps| - 1], clock)
  }

  lemma SpaceStaysSound(s: Space, ev: Event)
    requires Sound(s)
    ensures Sound(AfterEvent(s, ev))
  {
    if ev.Execute? {
      if Accepted(s, ev.command) {
        AcceptedInserts(s, ev.command, ev.now);
        var e, n := NewEntry(s, ev.command, ev.now), NextInoAfter(s, ev.command);
        InsertInserts(s, e, BlocksOf(ev.command), n);
        hide Apply, Accepted, Insert;
        InsertKeepsRooted(s, Apply(s, ev.command, ev.now), e, n);
        InsertKeepsSeparate(s, Apply(s, ev.command, ev.now), e, n);
      }
    } else {
      NewNextInoKeepsSound(s, AfterEvent(s, ev));
    }
  }

  lemma StepStaysSound(l: Leader, st: Step, clock: nat -> nat)
    requires Sound(l.space)
    ensures Sound(Next(l, st, clock).space)
  {
    hide Sound, Apply, Prepare;
    if st.ApplyOne? && l.applied < |l.log| {
      SpaceStaysSound(l.space, Execute(l.log[l.applied], clock(l.applied + 1)));
    } else if st.ReserveIno? {
      SpaceStaysSound(l.space, Reserve(st.remotePath));
    }
  }

  /** The k-th application of the run took log entry `applied + k`, from the state the (k-1)-th left, reservations apart. */
  ghost predicate InLogOrder(l0: Leader, l: Leader, apps: seq<Application>) {
    && l.applied == l0.applied + |apps| <= |l.log|
    && forall k :: 0 <= k < |apps| ==> apps[k].command == l.log[l0.applied + k]
  }

  ghost predicate AllTold(outs: seq<Option<Outcome>>, apps: seq<Application>) {
    |outs| == |apps| && forall k :: 0 <= k < |outs| ==> Told(outs[k], apps[k].command, apps[k].before, apps[k].after)
  }

  lemma StepIsTold(l: Leader, st: Step, clock: nat -> nat)
    requires Sound(l.space)
    ensures AllTold(Answered(l, st), AppliedBy(l, st, clock))
  {
    if st.ApplyOne? && l.applied < |l.log| {
      AnswerIsTold(l.space, l.log[l.applied], clock(l.applied + 1));
    }
  }

  lemma ToldTogether(outs: seq<Option<Outcome>>, apps: seq<Application>, more: seq<Option<Outcome>>, also: seq<Application>)
    requires AllTold(outs, apps) && AllTold(more, also)
    ensures AllTold(outs + more, apps + also)
  {
    hide Told;
  }

  /** Over every run of a leadership, every answer is true of the command it belongs to. */
  lemma {:induction false} AnswersAreTrue(l0: Leader, steps: seq<Step>, clock: nat -> nat)
    requires Tidy(l0) && Sound(l0.space)
    ensures var l, apps := Run(l0, steps, clock), Applications(l0, steps, clock);
            Sound(l.space) && InLogOrder(l0, l, apps) && AllTold(Outs(l0, steps, clock), apps)
  {
    hide Next, AllTold, Sound, Answered;
    RunKeepsFiled(l0, steps, clock);
    if steps == [] {
      NothingIsTold();
    } else {
      var before, st := steps[..|steps| - 1], steps[|steps| - 1];
      AnswersAreTrue(l0, before, clock);
      var b := Run(l0, before, clock);
      StepStaysSound(b, st, clock);
      StepIsTold(b, st, clock);
      ToldTogether(Outs(l0, before, clock), Applications(l0, before, clock), Answered(b, st), AppliedBy(b, st, clock));
      StepMovesLog(b, st, clock);
    }
  }

  lemma NothingIsTold()
    ensures AllTold([], [])
  {
  }

  lemma StepMovesLog(b: Leader, st: Step, clock: nat -> nat)
    requires b.applied <= |b.log|
    ensures b.log <= Next(b, st, clock).log && Next(b, st, clock).applied == b.applied + |AppliedBy(b, st, clock)| <= |b.log|
    ensures AppliedBy(b, st, clock) != [] ==> AppliedBy(b, st, clock)[0].command == b.log[b.applied]
  {
  }

  lemma {:induction false} OwedMembers(d: Desk, from: nat, outs: seq<Option<Outcome>>, x: nat) returns (k: nat)
    requires x < |Owed(d, from, outs)|
    ensures k < |outs| && Owed(d, from, outs)[x] == Resumption(Owed(d, from, outs)[x].handle, outs[k])
    ensures HandleAt(d, from + k + 1) == Some(Owed(d, from, outs)[x].handle)
  {
    var n := |outs| - 1;
    if x < |Owed(d, from, outs[..n])| {
      k := OwedMembers(d, from, outs[..n], x);
    } else {
      k := n;
    }
  }

  lemma {:induction false} OwedContains(d: Desk, from: nat, outs: seq<Option<Outcome>>, k: nat)
    requires k < |outs| && HandleAt(d, from + k + 1).Some?
    ensures Resumption(HandleAt(d, from + k + 1).value, outs[k]) in Owed(d, from, outs)
  {
    var n := |outs| - 1;
    if k < n {
      OwedContains(d, from, outs[..n], k);
    } else {
      var all := Owed(d, from, outs);
      assert all[|all| - 1] == Resumption(HandleAt(d, from + k + 1).value, outs[k]);
    }
  }

  /**
   Over every run of a leadership, every client that is resumed reads a true answer about the entry
   under whose index it was filed.
   */
  lemma ClientsReadTheTruth(l0: Leader, steps: seq<Step>, clock: nat -> nat, x: nat) returns (k: nat)
    requires Tidy(l0) && Sound(l0.space) && |l0.desk.resumed| <= x < |Run(l0, steps, clock).desk.resumed|
    ensures var l, apps := Run(l0, steps, clock), Applications(l0, steps, clock);
            k < |apps| && InLogOrder(l0, l, apps) && ReadsTruth(l, l0.applied, apps, k, l.desk.resumed[x])
  {
    hide Run, Outs, Owed, Told, Sound, HandleAt, Applications, Tidy;
    AnswersAreTrue(l0, steps, clock);
    RunIsPaid(l0, steps, clock);
    var l, outs := Run(l0, steps, clock), Outs(l0, steps, clock);
    k := OwedMembers(l.desk, l0.applied, outs, x - |l0.desk.resumed|);
  }

  /** And every client filed under an index that was applied is resumed so. */
  lemma FiledClientsAreResumed(l0: Leader, steps: seq<Step>, clock: nat -> nat, k: nat) returns (x: nat)
    requires Tidy(l0) && Sound(l0.space) && k < |Applications(l0, steps, clock)|
    requires HandleAt(Run(l0, steps, clock).desk, l0.applied + k + 1).Some?
    ensures var l, apps := Run(l0, steps, clock), Applications(l0, steps, clock);
            |l0.desk.resumed| <= x < |l.desk.resumed| && ReadsTruth(l, l0.applied, apps, k, l.desk.resumed[x])
  {
    hide Run, Outs, Owed, Told, Sound, HandleAt, Applications, Tidy, InLogOrder;
    AnswersAreTrue(l0, steps, clock);
    RunIsPaid(l0, steps, clock);
    var l, outs := Run(l0, steps, clock), Outs(l0, steps, clock);
    OwedContains(l.desk, l0.applied, outs, k);
    var y :| 0 <= y < |Owed(l.desk, l0.applied, outs)| &&
             Owed(l.desk, l0.applied, outs)[y] == Resumption(HandleAt(l.desk, l0.applied + k + 1).value, outs[k]);
    x := |l0.desk.resumed| + y;
  }

  /** The resumption is of the client filed under the index of application `k`, with a true answer about it. */
  ghost predicate ReadsTruth(l: Leader, from: nat, apps: seq<Application>, k: nat, r: Resumption)
    requires k < |apps|
  {
    HandleAt(l.desk, from + k + 1) == Some(r.handle) && Told(r.answer, apps[k].command, apps[k].before, apps[k].after)
  }

  /** The last resumption of one application, for a client whose request has no answer yet. */
  lemma SettleTells(d: Desk, index: nat, c: Command, s: Space, now: nat)
    requires Sound(s) && index in d.pending && d.pending[index].handle.Some? && d.pending[index].answer.None?
    ensures var d' := Settle(d, index, AnswerTo(s, c));
            && |d'.resumed| == |d.resumed| + 1 && d'.resumed[..|d.resumed|] == d.resumed
            && var r := d'.resumed[|d.resumed|];
               r.handle == d.pending[index].handle.value && Told(r.answer, c, s, Apply(s, c, now))
  {
    hide Told, Sound, Apply, AnswerTo;
    AnswerIsTold(s, c, now);
  }
}
