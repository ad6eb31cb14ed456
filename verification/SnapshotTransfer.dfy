/** Sending a snapshot file in chunks: one cursor per member at the sender, one buffer at each receiver. */
module SnapshotTransfer {
  import opened Basics

  const MAX_SNAPSHOT_CHUNK_SIZE: nat := 4096

  newtype Byte = x: int | 0 <= x < 256

  type Bytes = seq<Byte>

  datatype Chunk = Chunk(offset: nat, data: Bytes, done: bool)

  datatype Sent = Sent(chunk: Chunk, offset: nat)

  /** The chunk at `offset` and where the cursor goes; after the last chunk it returns to 0. */
  function Send(file: Bytes, offset: nat): Sent
    requires offset <= |file|
  {
    var size := Min(MAX_SNAPSHOT_CHUNK_SIZE, |file| - offset);
    var done := offset + size == |file|;
    Sent(Chunk(offset, file[offset..offset + size], done), if done then 0 else offset + size)
  }

  /** The receiver starts over at offset 0 and appends otherwise, whatever the offset. */
  function Receive(buffer: Bytes, c: Chunk): Bytes {
    (if c.offset == 0 then [] else buffer) + c.data
  }

  /** How many chunks a file takes. */
  function Chunks(size: nat): nat {
    if size == 0 then 1 else CeilDiv(size, MAX_SNAPSHOT_CHUNK_SIZE)
  }

  // ---------------------------------------------------------------- runs

  /** Cursors and buffers; an absent cursor is 0 and an absent buffer empty. */
  datatype Transfer = Transfer(offsets: map<nat, nat>, buffers: map<nat, Bytes>)

  /** A chunk delivered, a chunk that could not be read, or a new leadership resetting all cursors. */
  datatype Step = Deliver(member: nat) | Fault(member: nat) | ResetAll

  function OffsetOf(t: Transfer, m: nat): nat { if m in t.offsets then t.offsets[m] else 0 }

  function BufferOf(t: Transfer, m: nat): Bytes { if m in t.buffers then t.buffers[m] else [] }

  function Zeroed(offsets: map<nat, nat>): map<nat, nat> { map m | m in offsets :: 0 }

  function Next(t: Transfer, file: Bytes, st: Step): Transfer {
    match st
    case Deliver(m) =>
      if OffsetOf(t, m) > |file| then t
      else
        var s := Send(file, OffsetOf(t, m));
        Transfer(t.offsets[m := s.offset], t.buffers[m := Receive(BufferOf(t, m), s.chunk)])
    case Fault(m) => t.(offsets := t.offsets[m := 0])
    case ResetAll => t.(offsets := Zeroed(t.offsets))
  }

  function Run(t: Transfer, file: Bytes, steps: seq<Step>): Transfer {
    if steps == [] then t else Next(Run(t, file, steps[..|steps| - 1]), file, steps[|steps| - 1])
  }

  /** A member whose cursor has moved has received exactly the bytes before it. */
  ghost predicate InStep(t: Transfer, file: Bytes) {
    forall m :: OffsetOf(t, m) > 0 ==> OffsetOf(t, m) < |file| && BufferOf(t, m) == file[..OffsetOf(t, m)]
  }

  lemma NextInStep(t: Transfer, file: Bytes, st: Step)
    requires InStep(t, file)
    ensures InStep(Next(t, file, st), file)
    ensures st.Deliver? ==> OffsetOf(t, st.member) <= |file|
    ensures st.Deliver? && Send(file, OffsetOf(t, st.member)).chunk.done ==> BufferOf(Next(t, file, st), st.member) == file
  {
    if st.Deliver? {
      var o := OffsetOf(t, st.member);
      var s := Send(file, o);
      assert file[..o] + s.chunk.data == file[..o + |s.chunk.data|];
      assert Receive(BufferOf(t, st.member), s.chunk) == file[..o + |s.chunk.data|];
      assert file[..|file|] == file;
    }
    var u := Next(t, file, st);
    forall m | OffsetOf(u, m) > 0 ensures OffsetOf(u, m) < |file| && BufferOf(u, m) == file[..OffsetOf(u, m)] {
      if st != Deliver(m) {
        assert OffsetOf(u, m) == OffsetOf(t, m) && BufferOf(u, m) == BufferOf(t, m);
      }
    }
  }

  /**
   Whenever a receiver is told `done`, its buffer is the whole file: for every run with any faults
   and resets before, for every member on its own.
   */
  lemma {:induction false} DoneMeansWhole(t: Transfer, file: Bytes, steps: seq<Step>, m: nat)
    requires InStep(t, file)
    ensures var r := Run(t, file, steps);
            && InStep(r, file) && OffsetOf(r, m) <= |file|
            && (Send(file, OffsetOf(r, m)).chunk.done ==> BufferOf(Next(r, file, Deliver(m)), m) == file)
  {
    if steps != [] {
      var before := steps[..|steps| - 1];
      DoneMeansWhole(t, file, before, m);
      NextInStep(Run(t, file, before), file, steps[|steps| - 1]);
    }
    NextInStep(Run(t, file, steps), file, Deliver(m));
  }

  function Deliveries(steps: seq<Step>, m: nat): nat {
    if steps == [] then 0
    else Deliveries(steps[..|steps| - 1], m) + if steps[|steps| - 1] == Deliver(m) then 1 else 0
  }

  predicate Undisturbed(steps: seq<Step>, m: nat) {
    forall i :: 0 <= i < |steps| ==> steps[i] != Fault(m) && !steps[i].ResetAll?
  }

  /**
   A transfer without faults of its own takes exactly max(1, ceil(size / 4096)) chunks, whatever
   happens to other members: after k of them the cursor is at 4096 k and the next one is the last
   exactly when k + 1 is that number.
   */
  lemma {:induction false} TransferLength(t: Transfer, file: Bytes, steps: seq<Step>, m: nat)
    requires OffsetOf(t, m) == 0 && Undisturbed(steps, m) && Deliveries(steps, m) < Max(1, CeilDiv(|file|, 4096))
    ensures OffsetOf(Run(t, file, steps), m) == Deliveries(steps, m) * 4096 <= |file|
    ensures Send(file, OffsetOf(Run(t, file, steps), m)).chunk.done <==> Deliveries(steps, m) + 1 == Max(1, CeilDiv(|file|, 4096))
  {
    if steps != [] {
      var before := steps[..|steps| - 1];
      TransferLength(t, file, before, m);
    }
  }

  // ---------------------------------------------------------------- a chunk that never arrives

  /** What a receiver holds after the first `|got|` chunks were sent, of which those marked arrived. */
  function Held(file: Bytes, junk: Bytes, got: seq<bool>): Bytes
    requires |got| <= Chunks(|file|)
  {
    if got == [] then junk
    else
      var k := |got| - 1;
      var before := Held(file, junk, got[..k]);
      if got[k] then Receive(before, Send(file, k * MAX_SNAPSHOT_CHUNK_SIZE).chunk) else before
  }

  lemma {:induction false} HeldLength(file: Bytes, junk: Bytes, got: seq<bool>)
    requires 0 < |got| <= Chunks(|file|) && got[0]
    ensures |Held(file, junk, got)| <= Min(|got| * MAX_SNAPSHOT_CHUNK_SIZE, |file|)
    ensures (forall i :: 0 <= i < |got| ==> got[i]) ==>
              Held(file, junk, got) == file[..Min(|got| * MAX_SNAPSHOT_CHUNK_SIZE, |file|)]
    ensures |Held(file, junk, got)| == Min(|got| * MAX_SNAPSHOT_CHUNK_SIZE, |file|) ==>
              forall i :: 0 <= i < |got| ==> got[i]
  {
    var k := |got| - 1;
    var c := Send(file, k * MAX_SNAPSHOT_CHUNK_SIZE).chunk;
    if k > 0 {
      HeldLength(file, junk, got[..k]);
      assert forall i :: 0 <= i < k ==> got[..k][i] == got[i];
      var a := k * MAX_SNAPSHOT_CHUNK_SIZE;
      assert file[..a] + c.data == file[..a + |c.data|];
    }
  }

  /** Without the first chunk, whatever was in the buffer stays in front of what arrives. */
  lemma {:induction false} LostFirstKeepsJunk(file: Bytes, junk: Bytes, got: seq<bool>)
    requires 0 < |got| <= Chunks(|file|) && !got[0]
    ensures var first, end := Min(MAX_SNAPSHOT_CHUNK_SIZE, |file|), Min(|got| * MAX_SNAPSHOT_CHUNK_SIZE, |file|);
            && |junk| <= |Held(file, junk, got)| <= |junk| + end - first
            && Held(file, junk, got)[..|junk|] == junk
            && ((forall i :: 1 <= i < |got| ==> got[i]) ==> Held(file, junk, got) == junk + file[first..end])
  {
    var k := |got| - 1;
    if k > 0 {
      LostFirstKeepsJunk(file, junk, got[..k]);
      assert forall i :: 0 <= i < k ==> got[..k][i] == got[i];
      var c, a := Send(file, k * MAX_SNAPSHOT_CHUNK_SIZE).chunk, k * MAX_SNAPSHOT_CHUNK_SIZE;
      assert file[MAX_SNAPSHOT_CHUNK_SIZE..a] + c.data == file[MAX_SNAPSHOT_CHUNK_SIZE..a + |c.data|];
    }
  }

  /**
   The receiver does not check offsets. If the first chunk arrived it ends up with the file exactly
   when every other chunk arrived too. If only the first was lost, exactly when the buffer happened to
   hold those bytes already; and with an empty buffer and the first chunk lost, only for an empty file.
   */
  lemma WholeExactlyWhenNoneLost(file: Bytes, junk: Bytes, got: seq<bool>)
    requires |got| == Chunks(|file|)
    ensures got[0] ==> (Held(file, junk, got) == file <==> forall i :: 0 <= i < |got| ==> got[i])
    ensures !got[0] && (forall i :: 1 <= i < |got| ==> got[i]) ==>
              (Held(file, junk, got) == file <==> junk == file[..Min(MAX_SNAPSHOT_CHUNK_SIZE, |file|)])
    ensures !got[0] && |junk| < Min(MAX_SNAPSHOT_CHUNK_SIZE, |file|) ==> Held(file, junk, got) != file
    ensures !got[0] && junk == [] ==> (Held(file, junk, got) == file <==> file == [])
  {
    hide Held;
    assert file[..|file|] == file;
    var first := Min(MAX_SNAPSHOT_CHUNK_SIZE, |file|);
    ChunksCover(|file|);
    if got[0] {
      HeldLength(file, junk, got);
    } else {
      LostFirstKeepsJunk(file, junk, got);
      CompletesExactly(file, junk, first);
    }
  }

  lemma ChunksCover(size: nat)
    ensures Chunks(size) > 0 && Min(Chunks(size) * MAX_SNAPSHOT_CHUNK_SIZE, size) == size
  {
  }

  lemma CompletesExactly(file: Bytes, junk: Bytes, first: nat)
    requires first <= |file|
    ensures junk + file[first..] == file <==> junk == file[..first]
  {
    assert file == file[..first] + file[first..];
    assert (junk + file[first..])[..|junk|] == junk;
  }

  datatype ReadResult = Loaded(chunk: Chunk) | FileOpenFailed | FileSeekFailed | FileReadFailed

  /** What the file system does to one read. */
  datatype Disk = Works | OpenFails | SeekFails | ReadFails

  class Snapshotter {
    var offsets: map<nat, nat>
    var snapshotSize: nat

    constructor ()
      ensures offsets == map[] && snapshotSize == 0
    {
      offsets, snapshotSize := map[], 0;
    }

    method ResetOffsets()
      modifies this`offsets
      ensures offsets == Zeroed(old(offsets))
    {
      var rest := offsets.Keys;
      while rest != {}
        invariant rest <= offsets.Keys == old(offsets).Keys
        invariant forall m :: m in offsets ==> offsets[m] == if m in rest then old(offsets)[m] else 0
        decreases rest
      {
        var m :| m in rest;
        offsets := offsets[m := 0];
        rest := rest - {m};
      }
    }

    /** Reads the next chunk for `member`; any failure returns its cursor to 0. */
    method LoadSnapshotData(member: nat, file: Bytes, disk: Disk) returns (r: ReadResult)
      requires snapshotSize == |file|
      requires member in offsets ==> offsets[member] <= |file|
      modifies this`offsets
      ensures disk.Works? ==>
                var s := Send(file, if member in old(offsets) then old(offsets)[member] else 0);
                r == Loaded(s.chunk) && offsets == old(offsets)[member := s.offset]
      ensures !disk.Works? ==> !r.Loaded? && offsets == old(offsets)[member := 0]
    {
      if member !in offsets {
        offsets := offsets[member := 0];
      }
      var offset := offsets[member];
      var size := Min(MAX_SNAPSHOT_CHUNK_SIZE, snapshotSize - offset);
      if disk.OpenFails? {
        offsets := offsets[member := 0];
        return FileOpenFailed;
      }
      if disk.SeekFails? {
        offsets := offsets[member := 0];
        return FileSeekFailed;
      }
      if disk.ReadFails? {
        offsets := offsets[member := 0];
        return FileReadFailed;
      }
      var data := file[offset..offset + size];
      var done := false;
      offsets := offsets[member := offset + size];
      if offsets[member] == snapshotSize {
        done := true;
        offsets := offsets[member := 0];
      }
      return Loaded(Chunk(offset, data, done));
    }
  }
}
