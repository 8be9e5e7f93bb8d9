/** The file cache (FileCacheManager.java): what the sections under its lock do to the cached files and
    to the byte count. */
module FileCache {
  import opened Options

  type Path = string
  type Data = seq<bv8>

  const LONG_MAX: int := 0x7fff_ffff_ffff_ffff

  /** A clock reading in milliseconds. */
  type Millis = t: int | 0 <= t < LONG_MAX

  /** A cached file: its bytes, and its size and modification time when it was read. */
  datatype Mem = Mem(path: Path, data: Data, size: int, mtime: int, lastAccess: Millis)

  type Files = map<Path, Mem>

  // ---------------------------------------------------------------------------------------------
  // The byte count
  // ---------------------------------------------------------------------------------------------

  /** Some cached file. */
  ghost function AnyOf(files: Files): (path: Path)
    requires |files| > 0
    ensures path in files
  {
    var path :| path in files;
    path
  }

  ghost function Bytes(files: Files): nat
    decreases |files|
  {
    if |files| == 0 then 0 else |files[AnyOf(files)].data| + Bytes(files - {AnyOf(files)})
  }

  lemma {:induction false} BytesWithout(files: Files, path: Path)
    requires path in files
    ensures Bytes(files) == |files[path].data| + Bytes(files - {path})
    decreases |files|
  {
    var first := AnyOf(files);
    if first != path {
      var others, rest := files - {first}, files - {path};
      BytesWithout(others, path);
      BytesWithout(rest, first);
      assert others - {path} == rest - {first};
      assert others[path] == files[path] && rest[first] == files[first];
    }
  }

  lemma BytesWith(files: Files, mem: Mem)
    requires mem.path !in files
    ensures Bytes(files[mem.path := mem]) == Bytes(files) + |mem.data|
  {
    BytesWithout(files[mem.path := mem], mem.path);
    assert files[mem.path := mem] - {mem.path} == files;
  }

  // ---------------------------------------------------------------------------------------------
  // Eviction by last access
  // ---------------------------------------------------------------------------------------------

  predicate Filed(files: Files) {
    forall path :: path in files ==> files[path].path == path
  }

  /** The evicted files, oldest access first, each no later than any that stays. */
  ghost predicate LeastRecent(evicted: seq<Mem>, kept: Files) {
    && (forall i: nat, j: nat :: i < j < |evicted| ==> evicted[i].lastAccess <= evicted[j].lastAccess)
    && (forall i: nat, path :: i < |evicted| && path in kept ==> evicted[i].lastAccess <= kept[path].lastAccess)
  }

  /** Nothing is lost but what was evicted. */
  ghost predicate SplitUp(before: Files, evicted: seq<Mem>, kept: Files) {
    && (forall path :: path in kept ==> path in before && kept[path] == before[path])
    && (forall i: nat :: i < |evicted| ==> evicted[i].path in before && before[evicted[i].path] == evicted[i]
                                           && evicted[i].path !in kept)
    && (forall path :: path in before && path !in kept ==> exists i: nat :: i < |evicted| && evicted[i].path == path)
  }

  /** What `enforceSizeLimit` does: the cache fits, the least recently used files are gone, and with the
      last of them it would not have fitted. */
  ghost predicate Trimmed(before: Files, evicted: seq<Mem>, after: Files, limit: nat) {
    && Bytes(after) <= limit && SplitUp(before, evicted, after) && LeastRecent(evicted, after)
    && (evicted != [] ==> Bytes(after) + |evicted[|evicted| - 1].data| > limit)
  }

  /** Nothing is evicted from a cache that fits. */
  lemma TrimmedFits(before: Files, evicted: seq<Mem>, after: Files, limit: nat)
    requires Bytes(before) <= limit && Trimmed(before, evicted, after, limit)
    ensures after == before
  {
    if evicted != [] {
      var last := evicted[|evicted| - 1];
      assert last.path in before && before[last.path] == last && last.path !in after;
      BytesWithout(before, last.path);
      BytesSubset(after, before - {last.path});
    }
    assert forall path :: path in before ==> path in after;
  }

  lemma {:induction false} BytesSubset(a: Files, b: Files)
    requires forall path :: path in a ==> path in b && a[path] == b[path]
    ensures Bytes(a) <= Bytes(b)
    decreases |a|
  {
    if |a| > 0 {
      var path :| path in a;
      BytesWithout(a, path);
      BytesWithout(b, path);
      BytesSubset(a - {path}, b - {path});
    }
  }

  // ---------------------------------------------------------------------------------------------
  // The sections under the lock, as values
  // ---------------------------------------------------------------------------------------------

  function Without(files: Files, path: Path): Files { files - {path} }

  /** The entry is of the file as it is on disk. */
  predicate Fresh(files: Files, path: Path, mtime: int, size: int) {
    path in files && files[path].mtime == mtime && files[path].size == size
  }

  /** The first section of `getFile`: a fresh entry is touched, a stale one dropped. */
  function LookedUp(files: Files, path: Path, mtime: int, size: int, now: Millis): Files {
    if path !in files then files
    else if Fresh(files, path, mtime, size) then files[path := files[path].(lastAccess := now)]
    else Without(files, path)
  }

  /** The second section, before the size limit. */
  function Stored(files: Files, mem: Mem): Files {
    Without(files, mem.path)[mem.path := mem]
  }

  /** `evictStale`, before the size limit. */
  function Recent(files: Files, now: Millis, idle: int): Files {
    map path | path in files && now - files[path].lastAccess <= idle :: files[path]
  }

  // ---------------------------------------------------------------------------------------------
  // The cache
  // ---------------------------------------------------------------------------------------------

  class Cache {
    const maxBytes: nat
    const maxEntry: int
    const idleTimeout: int
    var files: Files
    var bytes: int

    /** Whenever the lock is free. */
    ghost predicate Valid()
      reads this
    {
      Counted() && bytes <= maxBytes
    }

    ghost predicate Counted()
      reads this
    {
      bytes == Bytes(files) && Filed(files)
    }

    constructor (maxBytes: nat, maxEntry: int, idleTimeout: int)
      ensures Valid() && files == map[]
    {
      this.maxBytes := maxBytes;
      this.maxEntry := maxEntry;
      this.idleTimeout := idleTimeout;
      files := map[];
      bytes := 0;
    }

    method DropFile(path: Path)
      requires Counted()
      modifies this
      ensures Counted() && files == Without(old(files), path) && bytes <= old(bytes)
    {
      if path in files {
        BytesWithout(files, path);
        var removed := files[path];
        files := files - {path};
        bytes := bytes - |removed.data|;
      } else {
        assert files - {path} == files;
      }
    }

    /** The file is gone from the disk. */
    method Missing(path: Path)
      requires Valid()
      modifies this
      ensures Valid() && files == Without(old(files), path)
    {
      DropFile(path);
    }

    method Lookup(path: Path, mtime: int, size: int, now: Millis) returns (hit: Option<Data>)
      requires Valid()
      modifies this
      ensures Valid() && files == LookedUp(old(files), path, mtime, size, now)
      ensures hit == if Fresh(old(files), path, mtime, size) then Some(old(files)[path].data) else None
    {
      if path in files {
        var mem := files[path];
        if mem.mtime == mtime && mem.size == size {
          Touched(files, path, now);
          files := files[path := mem.(lastAccess := now)];
          return Some(mem.data);
        }
        DropFile(path);
      }
      hit := None;
    }

    lemma Touched(files: Files, path: Path, now: Millis)
      requires path in files && Filed(files)
      ensures Bytes(files[path := files[path].(lastAccess := now)]) == Bytes(files)
    {
      var mem := files[path].(lastAccess := now);
      BytesWithout(files, path);
      BytesWith(files - {path}, mem);
      assert (files - {path})[path := mem] == files[path := mem];
    }

    method Store(path: Path, data: Data, size: int, mtime: int, now: Millis) returns (ghost evicted: seq<Mem>)
      requires Valid()
      modifies this
      ensures Valid()
      ensures Trimmed(Stored(old(files), Mem(path, data, size, mtime, now)), evicted, files, maxBytes)
    {
      DropFile(path);
      var mem := Mem(path, data, size, mtime, now);
      BytesWith(files, mem);
      files := files[path := mem];
      bytes := bytes + |data|;
      evicted := EnforceSizeLimit();
    }

    method EvictStale(now: Millis) returns (ghost evicted: seq<Mem>)
      requires Valid()
      modifies this
      ensures Valid()
      ensures Trimmed(Recent(old(files), now, idleTimeout), evicted, files, maxBytes)
    {
      var paths := files.Keys;
      while paths != {}
        invariant Counted() && paths <= files.Keys
        invariant forall path :: path in files ==> path in old(files) && files[path] == old(files)[path]
        invariant forall path :: path in old(files) ==>
          (path in files <==> path in paths || now - old(files)[path].lastAccess <= idleTimeout)
        decreases |paths|
      {
        var path :| path in paths;
        paths := paths - {path};
        if now - files[path].lastAccess > idleTimeout {
          DropFile(path);
        }
      }
      assert files == Recent(old(files), now, idleTimeout);
      evicted := EnforceSizeLimit();
    }

    method ClearCache() returns (removed: nat)
      requires Valid()
      modifies this
      ensures Valid() && files == map[] && removed == |old(files)|
    {
      removed := |files|;
      files := map[];
      bytes := 0;
    }

    method EnforceSizeLimit() returns (ghost evicted: seq<Mem>)
      requires Counted()
      modifies this
      ensures Valid() && Trimmed(old(files), evicted, files, maxBytes)
    {
      evicted := [];
      while bytes > maxBytes && files != map[]
        invariant Counted() && SplitUp(old(files), evicted, files) && LeastRecent(evicted, files)
        invariant evicted != [] ==> Bytes(files) + |evicted[|evicted| - 1].data| > maxBytes
        decreases |files|
      {
        ghost var mem := EvictOne(old(files), evicted);
        evicted := evicted + [mem];
      }
      assert files == map[] ==> Bytes(files) == 0;
    }

    /** One pass of the loop. */
    method EvictOne(ghost all: Files, ghost evicted: seq<Mem>) returns (ghost mem: Mem)
      requires Counted() && files != map[] && bytes > maxBytes
      requires SplitUp(all, evicted, files) && LeastRecent(evicted, files)
      modifies this
      ensures Counted() && |files| < |old(files)|
      ensures SplitUp(all, evicted + [mem], files) && LeastRecent(evicted + [mem], files)
      ensures Bytes(files) + |mem.data| > maxBytes
    {
      var lruPath := LeastRecentlyUsed();
      mem := files[lruPath];
      BytesWithout(files, lruPath);
      EvictedOne(all, evicted, files, mem);
      DropFile(lruPath);
    }

    lemma EvictedOne(all: Files, evicted: seq<Mem>, files: Files, mem: Mem)
      requires SplitUp(all, evicted, files) && LeastRecent(evicted, files) && Filed(files)
      requires mem.path in files && files[mem.path] == mem
      requires forall path :: path in files ==> mem.lastAccess <= files[path].lastAccess
      ensures SplitUp(all, evicted + [mem], Without(files, mem.path))
      ensures LeastRecent(evicted + [mem], Without(files, mem.path))
    {
      var next := evicted + [mem];
      forall i: nat | i < |next|
        ensures next[i].path in all && all[next[i].path] == next[i] && next[i].path !in Without(files, mem.path)
      {
        assert i < |evicted| ==> next[i] == evicted[i];
      }
      forall path | path in all && path !in Without(files, mem.path)
        ensures exists i: nat :: i < |next| && next[i].path == path
      {
        EvictedAt(all, evicted, files, mem, path);
      }
    }

    lemma EvictedAt(all: Files, evicted: seq<Mem>, files: Files, mem: Mem, path: Path)
      requires SplitUp(all, evicted, files) && path in all && path !in Without(files, mem.path)
      ensures exists i: nat :: i < |evicted + [mem]| && (evicted + [mem])[i].path == path
    {
      if path == mem.path {
        assert (evicted + [mem])[|evicted|].path == path;
      } else {
        var i: nat :| i < |evicted| && evicted[i].path == path;
        assert (evicted + [mem])[i].path == path;
      }
    }

    /** The inner loop of eviction, over the files in any order. */
    method LeastRecentlyUsed() returns (lruPath: Path)
      requires Filed(files) && files != map[]
      ensures lruPath in files
      ensures forall path :: path in files ==> files[lruPath].lastAccess <= files[path].lastAccess
    {
      var oldest := LONG_MAX;
      lruPath := "";
      var paths := files.Keys;
      while paths != {}
        invariant paths <= files.Keys
        invariant paths == files.Keys ==> oldest == LONG_MAX
        invariant paths != files.Keys ==> lruPath in files && files[lruPath].lastAccess == oldest
        invariant forall path :: path in files && path !in paths ==> oldest <= files[path].lastAccess
        decreases |paths|
      {
        var path :| path in paths;
        paths := paths - {path};
        if files[path].lastAccess < oldest {
          oldest := files[path].lastAccess;
          lruPath := files[path].path;
        }
      }
    }
  }
}
