/** The stores through a history of epochs, and what a restart reads back from them. */
module Restarts {
  import opened Logs
  import opened Persistence
  import opened Epoch
  import opened Durability
  import opened Succession

  /** Elections write no entries. */
  ghost function DisksAfter(a: Era, d: Disks, act: Act): Disks {
    if act.Proceed? then NextDisks(a.epoch, d, act.step) else d
  }

  ghost function HistoryDisks(a: Era, d: Disks, acts: seq<Act>, clock: ClockOf): Disks {
    if acts == [] then d
    else
      var before := acts[..|acts| - 1];
      DisksAfter(History(a, before, clock), HistoryDisks(a, d, before, clock), acts[|acts| - 1])
  }

  /** An old leader that restarts reads back what its store holds, and nothing is left above that. */
  ghost predicate ReadsStore(a: Era, d: Disks, act: Act) {
    act.Elect? && act.stored.Some? ==>
      var self := a.epoch.self;
      && self in d.saved && self in d.stores && act.stored.value == d.saved[self]
      && forall i: nat :: i > d.saved[self] ==> Key(i) !in d.stores[self]
  }

  ghost predicate AllReadStores(a: Era, d: Disks, acts: seq<Act>, clock: ClockOf) {
    acts != [] ==>
      var before := acts[..|acts| - 1];
      AllReadStores(a, d, before, clock) && ReadsStore(History(a, before, clock), HistoryDisks(a, d, before, clock), acts[|acts| - 1])
  }

  lemma CutIsBacked(store: Store, log: seq<Entry>, saved: nat)
    requires Backed(store, 0, log, saved) && forall i: nat :: i > saved ==> Key(i) !in store
    ensures Backed(store, 0, log[..saved], saved)
  {
  }

  lemma ElectionKeepsBacked(a: Era, d: Disks, act: Act, clock: ClockOf)
    requires AllBacked(a.epoch, d) && act.Elect? && ReadsStore(a, d, act)
    ensures AllBacked(After(a, act, clock).epoch, d)
  {
    hide Backed;
    var e, all := a.epoch, Electorate(a.epoch, act.stored);
    if act.node in all {
      NewMembers(all, act.node, act.term);
      var e' := NewEpoch(all, act.node, act.term);
      forall n | n in Members(e') ensures BackedAt(e', d, n) {
        assert BackedAt(e, d, n);
        if act.stored.Some? && n == e.self {
          SavedIsWithin(d.stores[n], e.leader.log, d.saved[n]);
          CutIsBacked(d.stores[n], e.leader.log, d.saved[n]);
        }
      }
    }
  }

  lemma ActKeepsBacked(a: Era, d: Disks, act: Act, clock: ClockOf)
    requires Safe(a) && AllBacked(a.epoch, d) && ReadsStore(a, d, act)
    ensures AllBacked(After(a, act, clock).epoch, DisksAfter(a, d, act))
  {
    hide AllBacked, ReadsStore, Sound, PairsMatch, Applied, Next, NextDisks;
    match act
    case Proceed(st) => StepKeepsBacked(a.epoch, d, st, clock);
    case Elect(_, _, _) => ElectionKeepsBacked(a, d, act, clock);
  }

  lemma {:induction false} BackedAlongHistory(a: Era, d: Disks, acts: seq<Act>, clock: ClockOf)
    requires Safe(a) && AllAllowed(a, acts, clock) && AllBacked(a.epoch, d) && AllReadStores(a, d, acts, clock)
    ensures AllBacked(History(a, acts, clock).epoch, HistoryDisks(a, d, acts, clock))
  {
    hide Safe, AllBacked, ReadsStore, After, Allowed, DisksAfter;
    if acts != [] {
      var before := acts[..|acts| - 1];
      BackedAlongHistory(a, d, before, clock);
      HistoryIsSafe(a, before, clock);
      ActKeepsBacked(History(a, before, clock), HistoryDisks(a, d, before, clock), acts[|acts| - 1], clock);
    }
  }

  /**
   At every point of every history, every node reads back after a restart its log up to the first gap
   in its store: below the first entry it appended as leader and no later batch has made good.
   */
  lemma HistoryIsBacked(a: Era, d: Disks, acts: seq<Act>, clock: ClockOf, n: nat, es: seq<Entry>)
    requires Begins(a) && AllAllowed(a, acts, clock) && AllBacked(a.epoch, d) && AllReadStores(a, d, acts, clock)
    requires n in Members(History(a, acts, clock).epoch)
    ensures var r, d' := History(a, acts, clock).epoch, HistoryDisks(a, d, acts, clock);
            && BackedAt(r, d', n) && d'.saved[n] <= |Members(r)[n].log|
            && (Scanned(d'.stores[n], 0, es) <==> es == Members(r)[n].log[..d'.saved[n]])
  {
    hide Backed, History, HistoryDisks, AllReadStores, AllAllowed, Begins, Safe;
    BeginningIsSafe(a);
    BackedAlongHistory(a, d, acts, clock);
    var r, d' := History(a, acts, clock).epoch, HistoryDisks(a, d, acts, clock);
    assert BackedAt(r, d', n);
    SavedIsWithin(d'.stores[n], Members(r)[n].log, d'.saved[n]);
    BackedReadsBack(d'.stores[n], 0, Members(r)[n].log, d'.saved[n], es);
  }
}
