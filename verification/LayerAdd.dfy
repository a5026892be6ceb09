/** The store's methods, run against a disk that can stop at any operation. */
module LayerAdd {
  import opened LayerRefs
  import opened LayerStore
  import opened Options

  datatype Added = Added(manifest: Manifest) | BadArguments | CutOff | IndexUnreadable

  /** The keys an empty version is resolved among. */
  function Matching(k: Disk, name: string): set<string>
    requires k.index.Complete?
  {
    set key | key in k.index.content && name + "@" <= key
  }

  /** A key of the index that was made from this name. */
  predicate Names(k: Disk, name: string, version: string)
    requires k.index.Complete?
  {
    Key(Ref(name, version)) in k.index.content
  }

  /** The keys an empty version is resolved among are those made from the name, with
      whatever version. */
  lemma MatchingMeans(k: Disk, name: string)
    requires k.index.Complete?
    ensures forall v :: Names(k, name, v) ==> Key(Ref(name, v)) in Matching(k, name)
    ensures forall key :: key in Matching(k, name) ==>
        Names(k, name, key[|name| + 1..]) && key == Key(Ref(name, key[|name| + 1..]))
  {
    forall v | Names(k, name, v) ensures Key(Ref(name, v)) in Matching(k, name) {
      assert name + "@" <= Key(Ref(name, v));
    }
    forall key | key in Matching(k, name)
      ensures Names(k, name, key[|name| + 1..]) && key == Key(Ref(name, key[|name| + 1..]))
    {
      assert key == name + "@" + key[|name| + 1..];
    }
  }

  /** The version of the name whose key sorts last. */
  ghost predicate LastVersion(k: Disk, name: string, version: string)
    requires k.index.Complete?
  {
    && Names(k, name, version)
    && forall v :: Names(k, name, v) ==> AtMost(Key(Ref(name, v)), Key(Ref(name, version)))
  }

  lemma LastIsLast(k: Disk, name: string, key: string) returns (v: string)
    requires k.index.Complete? && Last(key, Matching(k, name))
    ensures LastVersion(k, name, v) && key == Key(Ref(name, v))
    ensures '@' !in v ==> ParseRef(key) == Some(Ref(name, v))
  {
    MatchingMeans(k, name);
    v := key[|name| + 1..];
    RefRoundTripIff(Ref(name, v));
    hide Matching, Key, ParseRef, AtMost;
  }

  class Store {
    var disk: Disk
    var fuel: nat                      // file operations until the crash

    constructor (disk: Disk, fuel: nat)
      ensures this.disk == disk && this.fuel == fuel
    {
      this.disk, this.fuel := disk, fuel;
    }

    /** The first n operations of `ops` are done, or as many as there was fuel for. */
    ghost predicate Tracks(start: Disk, cut: nat, ops: seq<Op>, n: nat)
      requires n <= |ops|
      reads this
    {
      if cut < n then fuel == 0 && disk == DoAll(start, ops[..cut])
      else fuel == cut - n && disk == DoAll(start, ops[..n])
    }

    method Perform(op: Op, ghost start: Disk, ghost cut: nat, ghost ops: seq<Op>, ghost n: nat)
      requires n < |ops| && ops[n] == op && Tracks(start, cut, ops, n)
      modifies this
      ensures Tracks(start, cut, ops, n + 1)
      ensures !op.RenameIndex? ==> disk.index == old(disk.index)
    {
      if fuel > 0 {
        DoSnoc(start, ops, n);
        disk := Do(disk, op);
        fuel := fuel - 1;
      }
    }

    method CopyBlob(a: Layer, ghost start: Disk, ghost cut: nat, ghost ops: seq<Op>)
      requires disk == start && fuel == cut && BlobOps(start, a) <= ops
      modifies this
      ensures Tracks(start, cut, ops, |BlobOps(start, a)|) && disk.index == start.index
    {
      var d := a.digest;
      assert Tracks(start, cut, ops, 0);
      if d !in disk.blobs {
        ghost var mine := BlobOps(start, a);
        assert forall i :: 0 <= i < 4 ==> ops[i] == mine[i];
        Perform(RemoveIncoming(d), start, cut, ops, 0);
        Perform(CopySome(d), start, cut, ops, 1);
        Perform(CopyRest(d, a.tree), start, cut, ops, 2);
        Perform(RenameBlob(d), start, cut, ops, 3);
      }
    }

    method WriteManifest(a: Layer, ghost start: Disk, ghost cut: nat, ghost ops: seq<Op>, ghost n: nat)
      requires n + 3 <= |ops| && ops[n..n + 3] == ManifestOps(a) && Tracks(start, cut, ops, n)
      modifies this
      ensures Tracks(start, cut, ops, n + 3) && disk.index == old(disk.index)
    {
      ghost var mine := ManifestOps(a);
      assert forall i :: 0 <= i < 3 ==> ops[n + i] == ops[n..n + 3][i] == mine[i];
      Perform(StartManifest(a.digest), start, cut, ops, n);
      assert ops[n + 1] == mine[1] && ops[n + 2] == mine[2];
      Perform(EndManifest(a.digest, ManifestOf(a)), start, cut, ops, n + 1);
      Perform(RenameManifest(a.digest), start, cut, ops, n + 2);
    }

    method WriteIndex(index: map<string, Digest>, ghost start: Disk, ghost cut: nat, ghost ops: seq<Op>, ghost n: nat)
      requires n + 3 <= |ops| && ops[n..n + 3] == [StartIndex, EndIndex(index), RenameIndex] &&
          Tracks(start, cut, ops, n)
      modifies this
      ensures Tracks(start, cut, ops, n + 3)
    {
      ghost var mine := ops[n..n + 3];
      assert ops[n] == mine[0] && ops[n + 1] == mine[1] && ops[n + 2] == mine[2];
      Perform(StartIndex, start, cut, ops, n);
      Perform(EndIndex(index), start, cut, ops, n + 1);
      Perform(RenameIndex, start, cut, ops, n + 2);
    }

    /** Wrong arguments leave the disk alone.  Otherwise the disk shows exactly the
        operations the crash left time for, and success means all of them. */
    method Add(name: string, version: string, mountPath: string, runtime: string, source: Option<Tree>,
        hash: Tree -> Digest)
      returns (r: Added)
      modifies this
      ensures name == "" || version == "" || !("/" <= mountPath) || source.None? <==> r.BadArguments?
      ensures r.BadArguments? ==> disk == old(disk)
      ensures !r.BadArguments? ==>
        var a := Layer(name, version, runtime, mountPath, source.value, hash(source.value));
        && disk == After(old(disk), Attempt(a, old(fuel), false))
        && (r.Added? <==> old(disk).index.Complete? && Completes(old(disk), Attempt(a, old(fuel), false)))
        && (r.Added? ==> r.manifest == ManifestOf(a))
      ensures r.Added? ==>
        var m := r.manifest;
        && m.name == name && m.version == version && m.runtime == runtime && m.mountPath == mountPath
        && m.digest == "sha256:" + hash(source.value) && m.size == |source.value|
    {
      if name == "" || version == "" || !("/" <= mountPath) || source.None? { return BadArguments; }
      var a := Layer(name, version, runtime, mountPath, source.value, hash(source.value));
      ghost var start, cut, ops, p := disk, fuel, Script(disk, a), |BlobOps(disk, a)|;
      var enough := |Script(disk, a)| <= fuel;
      var readable := disk.index.Complete?;
      CopyBlob(a, start, cut, ops);
      assert ops[p..p + 3] == ManifestOps(a);
      WriteManifest(a, start, cut, ops, p);
      if readable {
        assert ops[p + 3..p + 6] == IndexOps(start, a);
        WriteIndex(disk.index.content[Key(Ref(name, version)) := a.digest], start, cut, ops, p + 3);
      }
      r := if !readable then IndexUnreadable else if enough then Added(ManifestOf(a)) else CutOff;
    }

    /** With a version, the entry of that key; without one, the entry whose key
        sorts last among those of the name. */
    method Resolve(ref: Ref) returns (r: Found)
      ensures ref.version != "" ==> r == ResolveKey(disk, Key(ref))
      ensures ref.version == "" && disk.index.Partial? ==> r == Unreadable
      ensures ref.version == "" && disk.index.Complete? && (forall v :: !Names(disk, ref.name, v)) ==> r == NotFound
      ensures ref.version == "" && disk.index.Complete? && (exists v :: Names(disk, ref.name, v)) ==>
        exists v ::
          && LastVersion(disk, ref.name, v) && r == ResolveKey(disk, Key(Ref(ref.name, v)))
          && ('@' !in v ==> ParseRef(Key(Ref(ref.name, v))) == Some(Ref(ref.name, v)))
    {
      if disk.index.Partial? { return Unreadable; }
      var key := Key(ref);
      if ref.version == "" {
        var keys := Matching(disk, ref.name);
        MatchingMeans(disk, ref.name);
        hide Matching, Key, ParseRef, AtMost, ResolveKey, Names, LastVersion, Last;
        if keys == {} { return NotFound; }
        key := PickLast(keys);
        ghost var v := LastIsLast(disk, ref.name, key);
      }
      r := ResolveKey(disk, key);
    }
  }

  /** An empty version is promised to mean the most recently added entry.  It does
      if and only if that entry's key sorts after all others of the name. */
  lemma EmptyVersionIsNewestIff(k: Disk, t: Attempt, last: string)
    requires k.index.Complete? && Completes(k, t) && After(k, t).index.Complete?
    requires LastVersion(After(k, t), t.a.name, last)
    ensures last == t.a.version <==>
      forall v :: Names(k, t.a.name, v) ==> AtMost(Key(Ref(t.a.name, v)), Key(Ref(t.a.name, t.a.version)))
  {
    var name, newest := t.a.name, Key(Ref(t.a.name, t.a.version));
    AttemptShows(k, t);
    CompletesStage(k, t);
    hide After, Completes, Stage, Reach;
    assert After(k, t).index.content.Keys == k.index.content.Keys + {newest};
    assert Names(After(k, t), name, t.a.version);
    AtMostSelf(newest);
    forall v ensures Names(After(k, t), name, v) <==> Names(k, name, v) || v == t.a.version {
      SameVersion(name, v, t.a.version);
    }
    if forall v :: Names(k, name, v) ==> AtMost(Key(Ref(name, v)), newest) {
      Antisymmetric(Key(Ref(name, last)), newest);
      SameVersion(name, last, t.a.version);
    }
  }

  lemma SameVersion(name: string, v: string, w: string)
    ensures Key(Ref(name, v)) == Key(Ref(name, w)) <==> v == w
  {
    assert Key(Ref(name, v))[|name| + 1..] == v && Key(Ref(name, w))[|name| + 1..] == w;
  }

  /** Version 10 after version 9 is not found. */
  lemma NineSortsAfterTen()
    ensures !AtMost(Key(Ref("lib", "9")), Key(Ref("lib", "10")))
  {
    assert Key(Ref("lib", "9")) == "lib@9" && Key(Ref("lib", "10")) == "lib@10";
    assert !AtMost("9", "10");
    assert "lib@9"[4..] == "9" && "lib@10"[4..] == "10";
    assert "lib@9"[1..] == "ib@9" && "lib@10"[1..] == "ib@10";
    assert "ib@9"[1..] == "b@9" && "ib@10"[1..] == "b@10";
    assert "b@9"[1..] == "@9" && "b@10"[1..] == "@10";
    assert "@9"[1..] == "9" && "@10"[1..] == "10";
    assert !AtMost("@9", "@10");
    assert !AtMost("b@9", "b@10");
  }
}
