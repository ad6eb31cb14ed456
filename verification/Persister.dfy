/** The durable side: hard state and log entries in a key-value store. */
module Persistence {
  import opened Basics
  import opened Decimal
  import opened Logs

  datatype HardState = HardState(term: nat, votedFor: Option<nat>)

  /** What a stored payload decodes to. */
  datatype Record = HardRecord(hard: HardState) | EntryRecord(entry: Entry)

  type Store = map<string, Record>

  const HARD_STATE_KEY := "hard_state"

  function Key(index: nat): string {
    "log" + ToString(index)
  }

  lemma KeysDistinct(i: nat, j: nat)
    ensures Key(i) == Key(j) <==> i == j
    ensures Key(i) != HARD_STATE_KEY
  {
    if Key(i) == Key(j) {
      assert ToString(i) == Key(i)[3..] == Key(j)[3..] == ToString(j);
      ToStringInjective(i, j);
    }
    assert Key(i)[0] == 'l';
  }

  /** The store holds exactly `log` above `base`: every entry, and nothing beyond the last. */
  ghost predicate Mirrors(store: Store, base: nat, log: seq<Entry>) {
    && (forall k :: 0 <= k < |log| ==> Holds(store, base + k + 1, log[k]))
    && (forall i: nat :: i > base + |log| ==> Key(i) !in store)
  }

  predicate Holds(store: Store, i: nat, e: Entry) {
    Key(i) in store && store[Key(i)] == EntryRecord(e)
  }

  /** `es` is what scanning up from `base` finds before the first gap. */
  ghost predicate Scanned(store: Store, base: nat, es: seq<Entry>) {
    && (forall k :: 0 <= k < |es| ==> Holds(store, base + k + 1, es[k]))
    && Key(base + |es| + 1) !in store
  }

  /** A mirrored log is what a restart reads back, and the only thing it can read back. */
  lemma MirrorReadsBack(store: Store, base: nat, log: seq<Entry>, es: seq<Entry>)
    requires Mirrors(store, base, log)
    ensures Scanned(store, base, es) <==> es == log
  {
    if Scanned(store, base, es) {
      assert |es| > 0 ==> Holds(store, base + (|es| - 1) + 1, es[|es| - 1]);
      assert |es| < |log| ==> Holds(store, base + |es| + 1, log[|es|]);
      assert |es| == |log|;
      forall k | 0 <= k < |es| ensures es[k] == log[k] {
        assert Holds(store, base + k + 1, es[k]) && Holds(store, base + k + 1, log[k]);
      }
    }
  }

  function SavedAll(store: Store, es: seq<Entry>): Store {
    if es == [] then store
    else SavedAll(store, es[..|es| - 1])[Key(es[|es| - 1].index) := EntryRecord(es[|es| - 1])]
  }

  /** Deletes the keys of indices lo .. hi - 1. */
  function Deleted(store: Store, lo: nat, hi: nat): Store
    decreases hi
  {
    if lo >= hi then store else Deleted(store, lo, hi - 1) - {Key(hi - 1)}
  }

  lemma {:induction false} SavedAllAt(store: Store, es: seq<Entry>, base: nat, i: nat)
    requires Aligned(es, base)
    ensures base < i <= base + |es| ==> Holds(SavedAll(store, es), i, es[i - base - 1])
    ensures !(base < i <= base + |es|) ==> (Key(i) in SavedAll(store, es) <==> Key(i) in store)
    ensures !(base < i <= base + |es|) && Key(i) in store ==> SavedAll(store, es)[Key(i)] == store[Key(i)]
  {
    if es != [] {
      KeysDistinct(i, es[|es| - 1].index);
      SavedAllAt(store, es[..|es| - 1], base, i);
    }
  }

  lemma {:induction false} DeletedAt(store: Store, lo: nat, hi: nat, i: nat)
    ensures Key(i) in Deleted(store, lo, hi) <==> Key(i) in store && !(lo <= i < hi)
    ensures Key(i) in Deleted(store, lo, hi) ==> Deleted(store, lo, hi)[Key(i)] == store[Key(i)]
    decreases hi
  {
    if lo < hi {
      KeysDistinct(i, hi - 1);
      DeletedAt(store, lo, hi - 1, i);
    }
  }

  /** The store after a follower handled a batch: the conflicting tail deleted, the batch saved. */
  function StoreAfter(store: Store, log: seq<Entry>, base: nat, entries: seq<Entry>): Store
    requires AllAbove(entries, base)
  {
    if entries == [] then store
    else
      var kept := Kept(log, base, entries);
      SavedAll(if kept < |log| then Deleted(store, base + kept + 1, base + |log| + 1) else store, entries)
  }

  lemma CutMirrors(store: Store, base: nat, log: seq<Entry>, kept: nat)
    requires Mirrors(store, base, log) && kept <= |log|
    ensures Mirrors(if kept < |log| then Deleted(store, base + kept + 1, base + |log| + 1) else store, base, log[..kept])
  {
    hide Backed, Mirrors, Deleted;
    MirrorsIsBacked(store, base, log);
    CutBacks(store, base, log, |log|, kept);
    MirrorsIsBacked(if kept < |log| then Deleted(store, base + kept + 1, base + |log| + 1) else store, base, log[..kept]);
  }

  lemma SaveMirrors(store: Store, base: nat, log: seq<Entry>, es: seq<Entry>)
    requires Mirrors(store, base, log) && Aligned(es, base + |log|)
    ensures Mirrors(SavedAll(store, es), base, log + es)
  {
    if es == [] {
      assert log + es == log;
    } else {
      hide Backed, Mirrors, SavedAll, Aligned;
      MirrorsIsBacked(store, base, log);
      SaveBacks(store, base, log, |log|, es);
      MirrorsIsBacked(SavedAll(store, es), base, log + es);
    }
  }

  /**
   One batch on a follower whose store mirrors its log: they still agree exactly when the first
   entry of the batch is missing or conflicts.
   */
  lemma BatchMirrorsExactly(store: Store, base: nat, log: seq<Entry>, at: nat, entries: seq<Entry>)
    requires Mirrors(store, base, log) && Aligned(log, base)
    requires AllAbove(entries, base) && Aligned(entries, base + at) && at <= |log|
    ensures Mirrors(StoreAfter(store, log, base, entries), base, Merge(log, base, entries))
       <==> FirstIsNews(log, at, entries)
  {
    if entries != [] {
      KeptBound(log, base, at, entries);
      if FirstIsNews(log, at, entries) {
        hide Mirrors, Deleted, SavedAll;
        var kept := Kept(log, base, entries);
        CutMirrors(store, base, log, kept);
        var cut := if kept < |log| then Deleted(store, base + kept + 1, base + |log| + 1) else store;
        SaveMirrors(cut, base, log[..kept], entries);
      } else {
        hide Mirrors, StoreAfter, Merge;
        RepeatBreaksMirror(store, base, log, at, entries);
      }
    }
  }

  /** A batch that repeats an entry is appended whole, but saved under the indices it carries. */
  lemma RepeatBreaksMirror(store: Store, base: nat, log: seq<Entry>, at: nat, entries: seq<Entry>)
    requires Mirrors(store, base, log) && entries != []
    requires AllAbove(entries, base) && Aligned(entries, base + at) && at < Kept(log, base, entries)
    ensures !Mirrors(StoreAfter(store, log, base, entries), base, Merge(log, base, entries))
  {
    hide Mirrors, Deleted, SavedAll, Kept, Key, AllAbove, Aligned;
    var kept := Kept(log, base, entries);
    var cut := if kept < |log| then Deleted(store, base + kept + 1, base + |log| + 1) else store;
    var last := base + kept + |entries|;
    CutMirrors(store, base, log, kept);
    MirrorEnds(cut, base, log[..kept], last);
    SavedAllAt(cut, entries, base + at, last);
    MirrorHoldsLast(SavedAll(cut, entries), base, log[..kept] + entries);
  }

  lemma MirrorEnds(store: Store, base: nat, log: seq<Entry>, i: nat)
    requires Mirrors(store, base, log) && i > base + |log|
    ensures Key(i) !in store
  {
  }

  lemma MirrorHoldsLast(store: Store, base: nat, log: seq<Entry>)
    requires log != []
    ensures Mirrors(store, base, log) ==> Key(base + |log|) in store
  {
    var k := |log| - 1;
    assert Mirrors(store, base, log) ==> Holds(store, base + k + 1, log[k]);
  }

  // ---------------------------------------------------------------- logs saved only in part

  /**
   The store holds the first `saved` entries of the log and then has a gap. Above the gap it may hold
   more of the log, but nothing beyond its end.
   */
  ghost predicate Backed(store: Store, base: nat, log: seq<Entry>, saved: nat) {
    && saved <= |log|
    && (forall k :: 0 <= k < saved ==> Holds(store, base + k + 1, log[k]))
    && Key(base + saved + 1) !in store
    && (forall i: nat :: i > base + |log| ==> Key(i) !in store)
  }

  lemma MirrorsIsBacked(store: Store, base: nat, log: seq<Entry>)
    ensures Mirrors(store, base, log) <==> Backed(store, base, log, |log|)
  {
  }

  /** A restart reads back what was saved below the gap, and nothing else. */
  lemma BackedReadsBack(store: Store, base: nat, log: seq<Entry>, saved: nat, es: seq<Entry>)
    requires Backed(store, base, log, saved)
    ensures Scanned(store, base, es) <==> es == log[..saved]
  {
    if Scanned(store, base, es) {
      ScanStopsAtGap(store, base, log, saved, es);
      forall k | 0 <= k < |es| ensures es[k] == log[k] {
        assert Holds(store, base + k + 1, es[k]) && Holds(store, base + k + 1, log[k]);
      }
    }
  }

  lemma ScanStopsAtGap(store: Store, base: nat, log: seq<Entry>, saved: nat, es: seq<Entry>)
    requires Backed(store, base, log, saved) && Scanned(store, base, es)
    ensures |es| == saved
  {
    assert |es| < saved ==> Holds(store, base + |es| + 1, log[|es|]);
    assert |es| > saved ==> Holds(store, base + saved + 1, es[saved]);
  }

  /** How much is saved after a batch: all of it if the batch closes the gap or cuts below it. */
  function SavedAfter(log: seq<Entry>, base: nat, saved: nat, entries: seq<Entry>): nat
    requires AllAbove(entries, base)
  {
    if entries == [] then saved
    else if Kept(log, base, entries) <= saved then Kept(log, base, entries) + |entries|
    else saved
  }

  /** A batch whose first entry is news, on a log saved in part. */
  lemma BatchBacks(store: Store, base: nat, log: seq<Entry>, saved: nat, at: nat, entries: seq<Entry>)
    requires Backed(store, base, log, saved)
    requires AllAbove(entries, base) && Aligned(entries, base + at) && at <= |log| && FirstIsNews(log, at, entries)
    ensures Backed(StoreAfter(store, log, base, entries), base, Merge(log, base, entries), SavedAfter(log, base, saved, entries))
  {
    hide Backed, SavedAll, Deleted, Kept, Aligned;
    if entries != [] {
      KeptBound(log, base, at, entries);
      var cut := if at < |log| then Deleted(store, base + at + 1, base + |log| + 1) else store;
      CutBacks(store, base, log, saved, at);
      SaveBacks(cut, base, log[..at], Min(saved, at), entries);
      SavedBound(store, base, log, saved);
    }
  }

  lemma SavedBound(store: Store, base: nat, log: seq<Entry>, saved: nat)
    requires Backed(store, base, log, saved)
    ensures saved <= |log|
  {
  }

  lemma CutBacks(store: Store, base: nat, log: seq<Entry>, saved: nat, at: nat)
    requires Backed(store, base, log, saved) && at <= |log|
    ensures Backed(if at < |log| then Deleted(store, base + at + 1, base + |log| + 1) else store, base, log[..at], Min(saved, at))
  {
    var cut := if at < |log| then Deleted(store, base + at + 1, base + |log| + 1) else store;
    forall i: nat ensures Key(i) in cut <==> Key(i) in store && !(base + at < i <= base + |log|)
                  ensures Key(i) in cut ==> cut[Key(i)] == store[Key(i)]
    {
      DeletedAt(store, base + at + 1, base + |log| + 1, i);
    }
    hide Key, Deleted;
    forall k | 0 <= k < Min(saved, at) ensures Holds(cut, base + k + 1, log[..at][k]) {
      assert Holds(store, base + k + 1, log[k]);
    }
  }

  lemma SaveBacks(store: Store, base: nat, log: seq<Entry>, saved: nat, es: seq<Entry>)
    requires Backed(store, base, log, saved) && es != [] && Aligned(es, base + |log|)
    ensures Backed(SavedAll(store, es), base, log + es, if saved == |log| then |log + es| else saved)
  {
    var all, store' := log + es, SavedAll(store, es);
    SavedAround(store, base, log, es);
    hide Key, SavedAll, Aligned;
    forall k | 0 <= k < saved ensures Holds(store', base + k + 1, all[k]) {
      assert Holds(store, base + k + 1, log[k]);
    }
  }

  /** Saving a batch behind a log: its own indices hold it, all others are as before. */
  lemma SavedAround(store: Store, base: nat, log: seq<Entry>, es: seq<Entry>)
    requires Aligned(es, base + |log|)
    ensures var all, store' := log + es, SavedAll(store, es);
            && (forall k :: |log| <= k < |all| ==> Holds(store', base + k + 1, all[k]))
            && (forall i: nat :: !(base + |log| < i <= base + |all|) ==> (Key(i) in store' <==> Key(i) in store))
            && (forall i: nat :: !(base + |log| < i <= base + |all|) && Key(i) in store ==> store'[Key(i)] == store[Key(i)])
  {
    var all, store' := log + es, SavedAll(store, es);
    forall k | |log| <= k < |all| ensures Holds(store', base + k + 1, all[k]) {
      SavedAllAt(store, es, base + |log|, base + k + 1);
    }
    forall i: nat | !(base + |log| < i <= base + |all|)
      ensures Key(i) in store' <==> Key(i) in store
      ensures Key(i) in store ==> store'[Key(i)] == store[Key(i)]
    {
      SavedAllAt(store, es, base + |log|, i);
    }
  }

  /** Appending in memory alone leaves what is saved as it was. */
  lemma AppendStaysBacked(store: Store, base: nat, log: seq<Entry>, saved: nat, e: Entry)
    requires Backed(store, base, log, saved)
    ensures Backed(store, base, log + [e], saved)
  {
  }

  /**
   After a restart the entries above the gap are still in the store. A batch that closes the gap is
   read back alone exactly when no such entry lies right above it.
   */
  lemma LeftoversResurfaceExactly(store: Store, base: nat, log: seq<Entry>, es: seq<Entry>)
    requires Scanned(store, base, log) && Aligned(es, base + |log|)
    ensures Scanned(SavedAll(store, es), base, log + es) <==> Key(base + |log| + |es| + 1) !in store
  {
    var all, store' := log + es, SavedAll(store, es);
    SavedAllAt(store, es, base + |log|, base + |all| + 1);
    forall k | 0 <= k < |all| ensures Holds(store', base + k + 1, all[k]) {
      SavedAllAt(store, es, base + |log|, base + k + 1);
      assert k < |log| ==> Holds(store, base + k + 1, log[k]);
    }
  }

  // ---------------------------------------------------------------- runs of batches

  datatype Batch = Batch(at: nat, entries: seq<Entry>)

  datatype Durable = Durable(store: Store, log: seq<Entry>)

  ghost predicate Admissible(r: Durable, base: nat, b: Batch) {
    && b.at <= |r.log|
    && Aligned(b.entries, base + b.at) && AllAbove(b.entries, base)
    && FirstIsNews(r.log, b.at, b.entries)
  }

  ghost predicate AllAdmissible(r: Durable, base: nat, bs: seq<Batch>) {
    bs != [] ==> AllAdmissible(r, base, bs[..|bs| - 1]) &&
                 Admissible(Accept(r, base, bs[..|bs| - 1]), base, bs[|bs| - 1])
  }

  ghost function Accept(r: Durable, base: nat, bs: seq<Batch>): Durable {
    if bs == [] then r
    else
      var before, b := Accept(r, base, bs[..|bs| - 1]), bs[|bs| - 1];
      if AllAbove(b.entries, base)
      then Durable(StoreAfter(before.store, before.log, base, b.entries), Merge(before.log, base, b.entries))
      else before
  }

  /** After any run of admissible batches a restart reads back exactly the log in memory. */
  lemma {:induction false} DurableLogMirrorsMemory(r: Durable, base: nat, bs: seq<Batch>, es: seq<Entry>)
    requires Mirrors(r.store, base, r.log) && Aligned(r.log, base) && AllAdmissible(r, base, bs)
    ensures Aligned(Accept(r, base, bs).log, base)
    ensures Mirrors(Accept(r, base, bs).store, base, Accept(r, base, bs).log)
    ensures Scanned(Accept(r, base, bs).store, base, es) <==> es == Accept(r, base, bs).log
  {
    if bs != [] {
      var before, b := Accept(r, base, bs[..|bs| - 1]), bs[|bs| - 1];
      DurableLogMirrorsMemory(r, base, bs[..|bs| - 1], es);
      MergeAlignedExactly(before.log, base, b.at, b.entries);
      BatchMirrorsExactly(before.store, base, before.log, b.at, b.entries);
    }
    MirrorReadsBack(Accept(r, base, bs).store, base, Accept(r, base, bs).log, es);
  }

  class Persister {
    var store: Store

    constructor (s: Store)
      ensures store == s
    {
      store := s;
    }

    method SaveHardState(h: HardState)
      modifies this
      ensures store == old(store)[HARD_STATE_KEY := HardRecord(h)]
    {
      store := store[HARD_STATE_KEY := HardRecord(h)];
    }

    /** A first start stores and returns term 0 without a vote; a payload of another kind is an error. */
    method LoadHardState() returns (h: Option<HardState>)
      modifies this
      ensures HARD_STATE_KEY !in old(store) ==>
                h == Some(HardState(0, None)) && store == old(store)[HARD_STATE_KEY := HardRecord(HardState(0, None))]
      ensures HARD_STATE_KEY in old(store) ==> store == old(store)
      ensures HARD_STATE_KEY in old(store) ==>
                h == if store[HARD_STATE_KEY].HardRecord? then Some(store[HARD_STATE_KEY].hard) else None
    {
      if HARD_STATE_KEY !in store {
        store := store[HARD_STATE_KEY := HardRecord(HardState(0, None))];
        return Some(HardState(0, None));
      }
      match store[HARD_STATE_KEY] {
        case HardRecord(hard) => return Some(hard);
        case EntryRecord(_) => return None;
      }
    }

    method SaveEntries(es: seq<Entry>)
      modifies this
      ensures store == SavedAll(old(store), es)
    {
      for i := 0 to |es|
        invariant store == SavedAll(old(store), es[..i])
      {
        assert es[..i + 1][..i] == es[..i];
        store := store[Key(es[i].index) := EntryRecord(es[i])];
      }
      assert es[..|es|] == es;
    }

    /** Deletes both ends included; an empty range deletes nothing. */
    method TruncateEntries(lo: nat, hi: nat)
      modifies this
      ensures store == Deleted(old(store), lo, hi + 1)
    {
      var index := lo;
      while index <= hi
        invariant lo <= index && (index <= hi + 1 || index == lo)
        invariant store == Deleted(old(store), lo, index)
      {
        store := store - {Key(index)};
        index := index + 1;
      }
    }

    /** Reads upwards until the first missing key; a foreign payload on the way is an error. */
    method LoadEntries(base: nat) returns (es: Option<seq<Entry>>)
      ensures es.Some? ==> Scanned(store, base, es.value)
      ensures es.None? ==> exists i: nat :: i > base && Key(i) in store && !store[Key(i)].EntryRecord?
    {
      var found: seq<Entry> := [];
      var index := base + 1;
      ghost var seen: set<string> := {};
      while Key(index) in store
        invariant index == base + 1 + |found|
        invariant forall k :: 0 <= k < |found| ==> Holds(store, base + k + 1, found[k])
        invariant seen <= store.Keys
        invariant forall i: nat :: Key(i) in seen ==> i < index
        decreases |store.Keys - seen|
      {
        if !store[Key(index)].EntryRecord? {
          return None;
        }
        assert Key(index) in store.Keys - seen;
        found := found + [store[Key(index)].entry];
        ghost var was := seen;
        seen := seen + {Key(index)};
        assert store.Keys - seen == (store.Keys - was) - {Key(index)};
        forall i: nat | Key(i) in seen ensures i < index + 1 {
          KeysDistinct(i, index);
        }
        index := index + 1;
      }
      return Some(found);
    }
  }
}
