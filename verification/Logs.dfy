/** The log: an offset sequence of entries, and what a follower does with a batch. */
module Logs {
  import opened Basics
  import opened Namespace

  datatype Entry = Entry(term: nat, index: nat, command: Command)

  /** Entry k of a log above `base` carries index base + k + 1. */
  ghost predicate Aligned(log: seq<Entry>, base: nat) {
    forall k :: 0 <= k < |log| ==> log[k].index == base + k + 1
  }

  predicate AllAbove(entries: seq<Entry>, base: nat) {
    forall k :: 0 <= k < |entries| ==> entries[k].index > base
  }

  /** How much of the log survives the conflict scan: all of it, or everything below the first conflict. */
  function Kept(log: seq<Entry>, base: nat, entries: seq<Entry>): (n: nat)
    requires AllAbove(entries, base)
    ensures n <= |log|
  {
    if entries == [] then |log|
    else
      var e := entries[0];
      if e.index > base + |log| then |log|
      else if log[e.index - base - 1].term != e.term then e.index - base - 1
      else Kept(log, base, entries[1..])
  }

  /** The follower's log after a batch: the whole batch goes behind what the scan kept. */
  function Merge(log: seq<Entry>, base: nat, entries: seq<Entry>): seq<Entry>
    requires AllAbove(entries, base)
  {
    if entries == [] then log else log[..Kept(log, base, entries)] + entries
  }

  /**
   Section 5.3 of the Raft paper: delete an existing entry that conflicts and all that follow it,
   append only entries not already in the log. `at` is the position of the first new entry.
   */
  function PaperMerge(log: seq<Entry>, at: nat, entries: seq<Entry>): seq<Entry>
    requires at <= |log|
    decreases |entries|
  {
    if entries == [] then log
    else if at < |log| && log[at].term == entries[0].term then PaperMerge(log, at + 1, entries[1..])
    else log[..at] + entries
  }

  /** The first entry of the batch is missing from the log, or conflicts with it. */
  predicate FirstIsNews(log: seq<Entry>, at: nat, entries: seq<Entry>) {
    entries != [] ==> |log| <= at || log[at].term != entries[0].term
  }

  lemma {:induction false} KeptBound(log: seq<Entry>, base: nat, at: nat, entries: seq<Entry>)
    requires AllAbove(entries, base) && Aligned(entries, base + at) && at <= |log|
    ensures Kept(log, base, entries) >= at
    ensures entries != [] && !FirstIsNews(log, at, entries) ==> Kept(log, base, entries) > at
    ensures entries != [] && FirstIsNews(log, at, entries) ==> Kept(log, base, entries) == at
    decreases |entries|
  {
    if entries != [] && !FirstIsNews(log, at, entries) {
      KeptBound(log, base, at + 1, entries[1..]);
    }
  }

  /**
   What a batch does to an aligned log: it stays aligned exactly when the first entry is missing
   or conflicts, and then it is the log up to there followed by the batch.
   */
  lemma MergeAlignedExactly(log: seq<Entry>, base: nat, at: nat, entries: seq<Entry>)
    requires Aligned(log, base) && AllAbove(entries, base) && Aligned(entries, base + at) && at <= |log|
    ensures Aligned(Merge(log, base, entries), base) <==> FirstIsNews(log, at, entries)
    ensures entries != [] && FirstIsNews(log, at, entries) ==> Merge(log, base, entries) == log[..at] + entries
  {
    KeptBound(log, base, at, entries);
    if entries != [] {
      var m, n := Merge(log, base, entries), Kept(log, base, entries);
      assert m[n] == entries[0];
    }
  }

  lemma {:induction false} PaperMergeLength(log: seq<Entry>, at: nat, entries: seq<Entry>)
    requires at <= |log|
    ensures |PaperMerge(log, at, entries)| == |log| || |PaperMerge(log, at, entries)| == at + |entries|
    ensures |PaperMerge(log, at, entries)| >= at
    decreases |entries|
  {
    if entries != [] && at < |log| && log[at].term == entries[0].term {
      PaperMergeLength(log, at + 1, entries[1..]);
    }
  }

  lemma {:induction false} KeptLength(log: seq<Entry>, base: nat, at: nat, entries: seq<Entry>)
    requires AllAbove(entries, base) && Aligned(entries, base + at) && at <= |log|
    requires entries != [] && !FirstIsNews(log, at, entries)
    ensures Kept(log, base, entries) + |entries| > |PaperMerge(log, at, entries)|
    decreases |entries|
  {
    var rest := entries[1..];
    KeptBound(log, base, at + 1, rest);
    if rest != [] && !FirstIsNews(log, at + 1, rest) {
      KeptLength(log, base, at + 1, rest);
    }
  }

  /** The code and the paper agree on a batch exactly when its first entry is news. */
  lemma FollowsPaperExactly(log: seq<Entry>, base: nat, at: nat, entries: seq<Entry>)
    requires AllAbove(entries, base) && Aligned(entries, base + at) && at <= |log|
    ensures Merge(log, base, entries) == PaperMerge(log, at, entries) <==> FirstIsNews(log, at, entries)
  {
    if entries != [] {
      KeptBound(log, base, at, entries);
      if !FirstIsNews(log, at, entries) {
        KeptLength(log, base, at, entries);
      }
    }
  }

  class RaftLog {
    var lastIncludedIndex: nat
    var lastIncludedTerm: nat
    var entries: seq<Entry>

    constructor (index: nat, term: nat, es: seq<Entry>)
      ensures lastIncludedIndex == index && lastIncludedTerm == term && entries == es
    {
      lastIncludedIndex, lastIncludedTerm, entries := index, term, es;
    }

    /** Moves the base; the entries below it stay where they are. */
    method LoadSnapshot(index: nat, term: nat)
      modifies this`lastIncludedIndex, this`lastIncludedTerm
      ensures lastIncludedIndex == index && lastIncludedTerm == term
    {
      lastIncludedIndex, lastIncludedTerm := index, term;
    }

    function LastLogIndex(): nat
      reads this
    {
      lastIncludedIndex + |entries|
    }

    function LastLogTerm(): nat
      reads this
    {
      if entries == [] && LastLogIndex() == 0 then 0
      else if entries == [] then lastIncludedTerm
      else entries[|entries| - 1].term
    }

    function GetTerm(index: nat): nat
      requires lastIncludedIndex <= index <= LastLogIndex()
      reads this
    {
      if index == lastIncludedIndex then lastIncludedTerm else entries[index - lastIncludedIndex - 1].term
    }

    function GetEntry(index: nat): Entry
      requires lastIncludedIndex < index <= LastLogIndex()
      reads this
    {
      entries[index - lastIncludedIndex - 1]
    }

    /** Up to `size` entries from `index` on, fewer when the log ends first. */
    method GetEntries(index: nat, size: nat) returns (es: seq<Entry>)
      requires lastIncludedIndex < index <= LastLogIndex()
      ensures |es| == Min(size, LastLogIndex() - index + 1)
      ensures forall k :: 0 <= k < |es| ==> es[k] == GetEntry(index + k)
    {
      es := [];
      var at, left := index - lastIncludedIndex - 1, size;
      while left > 0 && at < |entries|
        invariant 0 <= left <= size && |es| == size - left
        invariant at == index - lastIncludedIndex - 1 + |es| && at <= |entries|
        invariant forall k :: 0 <= k < |es| ==> es[k] == GetEntry(index + k)
      {
        es := es + [entries[at]];
        at, left := at + 1, left - 1;
      }
    }

    method AppendEntry(e: Entry)
      modifies this`entries
      ensures entries == old(entries) + [e]
    {
      entries := entries + [e];
    }

    method AppendEntries(es: seq<Entry>)
      modifies this`entries
      ensures entries == old(entries) + es
    {
      for i := 0 to |es|
        invariant entries == old(entries) + es[..i]
      {
        entries := entries + [es[i]];
      }
    }

    /** Erases `index` and everything above it. */
    method TruncateFrom(index: nat)
      requires lastIncludedIndex < index <= LastLogIndex()
      modifies this`entries
      ensures entries == old(entries)[..index - lastIncludedIndex - 1]
    {
      entries := entries[..index - lastIncludedIndex - 1];
    }
  }
}
