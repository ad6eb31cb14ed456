/** The data node: blocks kept in files named after ino and block id. */
module BlockStore {
  import opened Basics
  import opened Decimal
  import opened SnapshotTransfer

  function BlockPath(dir: string, ino: nat, block: nat): string {
    var name := ToString(ino) + "-" + ToString(block);
    if dir == "/" then dir + name else dir + "/" + name
  }

  /** No two blocks share a file. */
  lemma BlockPathInjective(dir: string, ino: nat, block: nat, ino': nat, block': nat)
    ensures BlockPath(dir, ino, block) == BlockPath(dir, ino', block') <==> ino == ino' && block == block'
  {
    if BlockPath(dir, ino, block) == BlockPath(dir, ino', block') {
      var k := if dir == "/" then |dir| else |dir| + 1;
      var a, b := ToString(ino) + "-" + ToString(block), ToString(ino') + "-" + ToString(block');
      assert BlockPath(dir, ino, block)[k..] == a && BlockPath(dir, ino', block')[k..] == b;
      DashedPairInjective(ino, block, ino', block');
    }
  }

  /**
   What the file system does to one upload: the file cannot be created, or it is created (and so
   emptied) and `n` bytes reach it, with or without an error. The code does not look at n.
   */
  datatype WriteOutcome = NotCreated | Written(n: nat) | WriteError(n: nat)

  datatype Upload = Upload(ino: nat, block: nat, data: Bytes, outcome: WriteOutcome)

  function Prefix(data: Bytes, n: nat): Bytes { data[..Min(n, |data|)] }

  function Stored(files: map<string, Bytes>, dir: string, u: Upload): map<string, Bytes> {
    if u.outcome.NotCreated? then files
    else files[BlockPath(dir, u.ino, u.block) := Prefix(u.data, u.outcome.n)]
  }

  function Run(files: map<string, Bytes>, dir: string, us: seq<Upload>): map<string, Bytes> {
    if us == [] then files else Stored(Run(files, dir, us[..|us| - 1]), dir, us[|us| - 1])
  }

  function Lookup(files: map<string, Bytes>, path: string): Option<Bytes> {
    if path in files then Some(files[path]) else None
  }

  /** The abstract store: what the last upload of this very block wrote, if any got as far as its file. */
  function Latest(us: seq<Upload>, ino: nat, block: nat): Option<Bytes> {
    if us == [] then None
    else
      var u := us[|us| - 1];
      if u.ino == ino && u.block == block && !u.outcome.NotCreated? then Some(Prefix(u.data, u.outcome.n))
      else Latest(us[..|us| - 1], ino, block)
  }

  /** The directory of files refines a map from (ino, block) to bytes, over every run of uploads. */
  lemma {:induction false} StoreRefinesMap(dir: string, us: seq<Upload>, ino: nat, block: nat)
    ensures Lookup(Run(map[], dir, us), BlockPath(dir, ino, block)) == Latest(us, ino, block)
  {
    if us != [] {
      var u := us[|us| - 1];
      StoreRefinesMap(dir, us[..|us| - 1], ino, block);
      BlockPathInjective(dir, ino, block, u.ino, u.block);
    }
  }

  /**
   A download after an acknowledged upload, with any uploads of other blocks in between, returns
   the uploaded bytes exactly when the write was complete.
   */
  lemma {:induction false} DownloadReturnsUpload(dir: string, us: seq<Upload>, u: Upload, later: seq<Upload>)
    requires u.outcome.Written?
    requires forall i :: 0 <= i < |later| ==> later[i].ino != u.ino || later[i].block != u.block
    ensures Lookup(Run(map[], dir, us + [u] + later), BlockPath(dir, u.ino, u.block)) == Some(u.data)
       <==> u.outcome.n >= |u.data|
    decreases |later|
  {
    var all := us + [u] + later;
    StoreRefinesMap(dir, all, u.ino, u.block);
    if later == [] {
      assert all[|all| - 1] == u;
      assert u.data[..|u.data|] == u.data;
      assert |Prefix(u.data, u.outcome.n)| == Min(u.outcome.n, |u.data|);
    } else {
      var earlier := later[..|later| - 1];
      assert all[..|all| - 1] == us + [u] + earlier;
      DownloadReturnsUpload(dir, us, u, earlier);
      StoreRefinesMap(dir, us + [u] + earlier, u.ino, u.block);
    }
  }

  class DataNode {
    const blockDir: string
    var files: map<string, Bytes>

    constructor (dir: string)
      ensures blockDir == dir && files == map[]
    {
      blockDir, files := dir, map[];
    }

    method UploadBlock(u: Upload) returns (ok: bool)
      modifies this
      ensures files == Stored(old(files), blockDir, u)
      ensures ok <==> u.outcome.Written?
    {
      var path := BlockPath(blockDir, u.ino, u.block);
      if u.outcome.NotCreated? {
        return false;
      }
      files := files[path := []];
      files := files[path := u.data[..Min(u.outcome.n, |u.data|)]];
      return u.outcome.Written?;
    }

    /** `readable` is whether the open file can be read to its end. */
    method DownloadBlock(ino: nat, block: nat, readable: bool) returns (data: Option<Bytes>)
      ensures data == if readable then Lookup(files, BlockPath(blockDir, ino, block)) else None
    {
      var path := BlockPath(blockDir, ino, block);
      if path !in files || !readable {
        return None;
      }
      return Some(files[path]);
    }
  }
}
