/** StoreResolver seen by one caller at a time: Resolve rewrites the mounts of a
    function in place. */
module LayerResolver {
  import opened LayerDigests
  import opened Options
  import LayerPull

  type Blob = LayerPull.Blob

  datatype Mount = Mount(name: string, digest: string, hostPath: string)

  /** The remote store and what is known about its blobs. */
  datatype Remote = Remote(blobs: map<string, Blob>, hash: Blob -> string, unpacks: Blob -> bool)

  class StoreResolver {
    const remote: Remote
    const root: Root                   // the cache directory
    const files: set<string>           // host paths that exist beside the installed ones
    var cache: map<string, Blob>
    var pulling: set<string>

    constructor (remote: Remote, root: Root, files: set<string>)
      ensures this.remote == remote && this.root == root && this.files == files && cache == map[] && pulling == {}
    {
      this.remote, this.root, this.files := remote, root, files;
      cache, pulling := map[], {};
    }

    /** The remote holds a blob under d whose hash is the one d declares. */
    predicate Genuine(d: string) {
      d in remote.blobs && remote.unpacks(remote.blobs[d]) && Matches(d, remote.hash(remote.blobs[d]))
    }

    /** A stat of the path succeeds. */
    predicate Present(path: string, cache: map<string, Blob>) { path in cache || path in files }

    /** Succeeds if and only if the directory is there or a genuine blob can be
        had; a failure changes nothing, and the slot is given back either way.
        `works` says whether the download, the disk and the rename do. */
    method EnsureLocal(d: string, works: bool) returns (path: Option<string>)
      requires d !in pulling
      modifies this
      ensures pulling == old(pulling)
      ensures path ==
        if Present(Directory(root, d), old(cache)) || (works && Genuine(d)) then Some(Directory(root, d)) else None
      ensures cache ==
        if !Present(Directory(root, d), old(cache)) && works && Genuine(d)
        then old(cache)[Directory(root, d) := remote.blobs[d]] else old(cache)
    {
      var target := Directory(root, d);
      if target in cache || target in files { return Some(target); }
      pulling := pulling + {d};
      if works && d in remote.blobs {
        var blob := remote.blobs[d];
        if remote.unpacks(blob) && Matches(d, remote.hash(blob)) {
          cache := cache[target := blob];
        }
      }
      path := if target in cache then Some(target) else None;
      pulling := pulling - {d};
    }

    /** A mount that is ready to be bound into a sandbox. */
    predicate Ready(m: Mount)
      reads this
    {
      if m.digest == "" then m.hostPath in files && m.hostPath != ""
      else m.hostPath == Directory(root, m.digest) && Present(m.hostPath, cache)
    }

    /** On success every mount is ready.  On failure the mounts before the failing
        one have been rewritten, that one and all after it are as they were, and
        that one could not be had. */
    method Resolve(mounts: array<Mount>, works: nat -> bool) returns (ok: bool, k: nat)
      requires pulling == {}
      modifies this, mounts
      ensures k <= mounts.Length && (ok <==> k == mounts.Length)
      ensures forall i :: 0 <= i < mounts.Length ==>
          mounts[i].digest == old(mounts[i].digest) && mounts[i].name == old(mounts[i].name)
      ensures forall i :: 0 <= i < k ==> Ready(mounts[i])
      ensures forall i :: k <= i < mounts.Length ==> mounts[i] == old(mounts[i])
      ensures !ok ==> !Ready(mounts[k]) && (mounts[k].digest != "" ==>
          !Present(Directory(root, mounts[k].digest), cache) && !(works(k) && Genuine(mounts[k].digest)))
      ensures pulling == {} && old(cache.Keys) <= cache.Keys
      ensures forall p :: p in old(cache) ==> cache[p] == old(cache)[p]
    {
      k := 0;
      while k < mounts.Length
        invariant k <= mounts.Length && pulling == {}
        invariant forall i :: 0 <= i < mounts.Length ==>
            mounts[i].digest == old(mounts[i].digest) && mounts[i].name == old(mounts[i].name)
        invariant forall i :: 0 <= i < k ==> Ready(mounts[i])
        invariant forall i :: k <= i < mounts.Length ==> mounts[i] == old(mounts[i])
        invariant old(cache.Keys) <= cache.Keys && forall p :: p in old(cache) ==> cache[p] == old(cache)[p]
      {
        var m := mounts[k];
        if m.digest == "" {
          if m.hostPath == "" || m.hostPath !in files { return false, k; }
        } else {
          var path := EnsureLocal(m.digest, works(k));
          if path.None? { return false, k; }
          mounts[k] := m.(hostPath := path.value);
        }
        k := k + 1;
      }
      ok := true;
    }
  }
}
