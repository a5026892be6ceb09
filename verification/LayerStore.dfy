/** The layer store on disk.  Add is a sequence of file operations that can be cut
    off after any of them, by a crash or by an error. */
module LayerStore {
  import opened LayerRefs
  import opened Options

  type Tree = seq<bv8>
  type Digest = string

  datatype Manifest = Manifest(name: string, version: string, runtime: string, mountPath: string, digest: string,
      size: nat)

  /** What a path holds: something half written has no usable content. */
  datatype File<T> = Partial | Complete(content: T)

  datatype Disk = Disk(
    blobs: map<Digest, File<Tree>>,
    incoming: map<Digest, File<Tree>>,
    manifests: map<Digest, File<Manifest>>,
    manifestTmps: map<Digest, File<Manifest>>,
    index: File<map<string, Digest>>,
    indexTmp: File<map<string, Digest>>)

  datatype Op =
    | RemoveIncoming(d: Digest)
    | CopySome(d: Digest)
    | CopyRest(d: Digest, tree: Tree)
    | RenameBlob(d: Digest)
    | StartManifest(d: Digest)
    | EndManifest(d: Digest, m: Manifest)
    | RenameManifest(d: Digest)
    | StartIndex
    | EndIndex(index: map<string, Digest>)
    | RenameIndex

  /** One file operation.  A rename moves whatever is there: only the order of the
      operations keeps half-written files from getting into place. */
  function Do(k: Disk, op: Op): Disk {
    match op
    case RemoveIncoming(d) => k.(incoming := k.incoming - {d})
    case CopySome(d) => k.(incoming := k.incoming[d := Partial])
    case CopyRest(d, tree) => k.(incoming := k.incoming[d := Complete(tree)])
    case RenameBlob(d) =>
      if d in k.incoming then k.(incoming := k.incoming - {d}, blobs := k.blobs[d := k.incoming[d]]) else k
    case StartManifest(d) => k.(manifestTmps := k.manifestTmps[d := Partial])
    case EndManifest(d, m) => k.(manifestTmps := k.manifestTmps[d := Complete(m)])
    case RenameManifest(d) =>
      if d in k.manifestTmps
      then k.(manifestTmps := k.manifestTmps - {d}, manifests := k.manifests[d := k.manifestTmps[d]])
      else k
    case StartIndex => k.(indexTmp := Partial)
    case EndIndex(index) => k.(indexTmp := Complete(index))
    case RenameIndex => k.(index := k.indexTmp)
  }

  function DoAll(k: Disk, ops: seq<Op>): Disk
    decreases |ops|
  {
    if ops == [] then k else DoAll(Do(k, ops[0]), ops[1..])
  }

  /** The arguments of Add after its checks: `digest` is the hash of the tree. */
  datatype Layer = Layer(name: string, version: string, runtime: string, mountPath: string, tree: Tree, digest: Digest)

  function LayerKey(a: Layer): string { Key(Ref(a.name, a.version)) }

  function ManifestOf(a: Layer): Manifest {
    Manifest(a.name, a.version, a.runtime, a.mountPath, "sha256:" + a.digest, |a.tree|)
  }

  function BlobOps(k: Disk, a: Layer): seq<Op> {
    var d := a.digest;
    if d in k.blobs then [] else [RemoveIncoming(d), CopySome(d), CopyRest(d, a.tree), RenameBlob(d)]
  }

  function ManifestOps(a: Layer): seq<Op> {
    [StartManifest(a.digest), EndManifest(a.digest, ManifestOf(a)), RenameManifest(a.digest)]
  }

  function IndexOps(k: Disk, a: Layer): seq<Op>
    requires k.index.Complete?
  {
    [StartIndex, EndIndex(k.index.content[LayerKey(a) := a.digest]), RenameIndex]
  }

  /** Everything Add does to the disk; an unreadable index stops it. */
  function Script(k: Disk, a: Layer): seq<Op> {
    BlobOps(k, a) + ManifestOps(a) + if k.index.Complete? then IndexOps(k, a) else []
  }

  /** How far a cut-off Add got: 0 the blob, 1 the manifest, 2 the index is missing. */
  function Stage(k: Disk, a: Layer, n: nat): nat {
    var p := |BlobOps(k, a)|;
    if n < p then 0 else if n < p + 3 then 1 else if n < p + 6 then 2 else 3
  }

  /** What a reader of the store can see: temporary paths are never read. */
  predicate SeesSame(k: Disk, l: Disk) {
    k.blobs == l.blobs && k.manifests == l.manifests && k.index == l.index
  }

  function WithBlob(k: Disk, a: Layer): Disk {
    if a.digest in k.blobs then k else k.(blobs := k.blobs[a.digest := Complete(a.tree)])
  }

  function WithManifest(k: Disk, a: Layer): Disk { k.(manifests := k.manifests[a.digest := Complete(ManifestOf(a))]) }

  function WithEntry(k: Disk, a: Layer): Disk
    requires k.index.Complete?
  {
    k.(index := Complete(k.index.content[LayerKey(a) := a.digest]))
  }

  /** What a cut-off Add has changed, as far as readers can tell. */
  function Visible(k: Disk, a: Layer, stage: nat): Disk
    requires k.index.Complete?
  {
    if stage == 0 then k
    else if stage == 1 then WithBlob(k, a)
    else if stage == 2 then WithManifest(WithBlob(k, a), a)
    else WithEntry(WithManifest(WithBlob(k, a), a), a)
  }

  lemma {:induction false} DoConcat(k: Disk, xs: seq<Op>, ys: seq<Op>)
    ensures DoAll(k, xs + ys) == DoAll(DoAll(k, xs), ys)
    decreases |xs|
  {
    if xs == [] {
      assert xs + ys == ys;
    } else {
      assert (xs + ys)[1..] == xs[1..] + ys;
      DoConcat(Do(k, xs[0]), xs[1..], ys);
    }
  }

  lemma DoSnoc(k: Disk, ops: seq<Op>, n: nat)
    requires n < |ops|
    ensures DoAll(k, ops[..n + 1]) == Do(DoAll(k, ops[..n]), ops[n])
  {
    assert ops[..n + 1] == ops[..n] + [ops[n]];
    DoConcat(k, ops[..n], [ops[n]]);
    assert DoAll(DoAll(k, ops[..n]), [ops[n]]) == Do(DoAll(k, ops[..n]), ops[n]);
  }

  lemma BlobStage(k: Disk, a: Layer, n: nat)
    requires n <= |BlobOps(k, a)|
    ensures SeesSame(DoAll(k, BlobOps(k, a)[..n]), if n < |BlobOps(k, a)| then k else WithBlob(k, a))
  {
    var ops := BlobOps(k, a);
    if n > 0 { DoSnoc(k, ops, n - 1); }
    if n > 1 { DoSnoc(k, ops, n - 2); }
    if n > 2 { DoSnoc(k, ops, n - 3); }
    if n > 3 { DoSnoc(k, ops, n - 4); }
  }

  lemma ManifestStage(k: Disk, a: Layer, n: nat)
    requires n <= 3
    ensures SeesSame(DoAll(k, ManifestOps(a)[..n]), if n < 3 then k else WithManifest(k, a))
  {
    var ops := ManifestOps(a);
    if n > 0 { DoSnoc(k, ops, n - 1); }
    if n > 1 { DoSnoc(k, ops, n - 2); }
    if n > 2 { DoSnoc(k, ops, n - 3); }
  }

  lemma IndexStage(k: Disk, j: Disk, a: Layer, n: nat)
    requires n <= 3 && k.index.Complete? && j.index == k.index
    ensures SeesSame(DoAll(j, IndexOps(k, a)[..n]), if n < 3 then j else WithEntry(j, a))
  {
    var ops := IndexOps(k, a);
    if n > 0 { DoSnoc(j, ops, n - 1); }
    if n > 1 { DoSnoc(j, ops, n - 2); }
    if n > 2 { DoSnoc(j, ops, n - 3); }
  }

  /** Wherever Add is cut off, a reader sees one of four disks. */
  lemma CutOffShows(k: Disk, a: Layer, n: nat)
    requires k.index.Complete? && n <= |Script(k, a)|
    ensures SeesSame(DoAll(k, Script(k, a)[..n]), Visible(k, a, Stage(k, a, n)))
  {
    var p := |BlobOps(k, a)|;
    if n < p {
      BlobStage(k, a, n);
      assert Script(k, a)[..n] == BlobOps(k, a)[..n];
    } else {
      BlobStage(k, a, p);
      assert BlobOps(k, a)[..p] == BlobOps(k, a);
      CutOffAfterBlob(k, a, n - p);
    }
  }

  lemma Cut(xs: seq<Op>, ys: seq<Op>, zs: seq<Op>, n: nat)
    requires n <= |ys| + |zs|
    ensures (xs + ys + zs)[..|xs| + n] == if n <= |ys| then xs + ys[..n] else (xs + ys) + zs[..n - |ys|]
  {
  }

  lemma ScriptCut(k: Disk, a: Layer, n: nat)
    requires k.index.Complete? && n <= 6
    ensures |Script(k, a)| == |BlobOps(k, a)| + 6
    ensures Stage(k, a, |BlobOps(k, a)| + n) == if n < 3 then 1 else if n < 6 then 2 else 3
    ensures Script(k, a)[..|BlobOps(k, a)| + n] ==
      if n <= 3 then BlobOps(k, a) + ManifestOps(a)[..n] else BlobOps(k, a) + ManifestOps(a) + IndexOps(k, a)[..n - 3]
  {
    ThreeOps(k, a);
    Cut(BlobOps(k, a), ManifestOps(a), IndexOps(k, a), n);
    hide BlobOps, ManifestOps, IndexOps;
  }

  lemma CutInManifest(k: Disk, a: Layer, n: nat)
    requires n <= 3 && k.index.Complete? && SeesSame(DoAll(k, BlobOps(k, a)), WithBlob(k, a))
    ensures SeesSame(DoAll(k, BlobOps(k, a) + ManifestOps(a)[..n]), Visible(k, a, if n < 3 then 1 else 2))
  {
    hide DoAll, BlobOps, WithBlob;
    ManifestStage(DoAll(k, BlobOps(k, a)), a, n);
    DoConcat(k, BlobOps(k, a), ManifestOps(a)[..n]);
  }

  lemma {:induction false} CutInIndex(k: Disk, a: Layer, n: nat)
    requires n <= 3 && k.index.Complete? && SeesSame(DoAll(k, BlobOps(k, a) + ManifestOps(a)), Visible(k, a, 2))
    ensures SeesSame(DoAll(k, BlobOps(k, a) + ManifestOps(a) + IndexOps(k, a)[..n]),
        Visible(k, a, if n < 3 then 2 else 3))
  {
    var bm := BlobOps(k, a) + ManifestOps(a);
    hide DoAll, BlobOps, ManifestOps;
    IndexStage(k, DoAll(k, bm), a, n);
    DoConcat(k, bm, IndexOps(k, a)[..n]);
  }

  lemma {:induction false} CutOffAfterBlob(k: Disk, a: Layer, n: nat)
    requires k.index.Complete? && n <= 6 && SeesSame(DoAll(k, BlobOps(k, a)), WithBlob(k, a))
    ensures SeesSame(DoAll(k, Script(k, a)[..|BlobOps(k, a)| + n]), Visible(k, a, Stage(k, a, |BlobOps(k, a)| + n)))
  {
    hide DoAll, BlobOps, ManifestOps, IndexOps, Script, SeesSame, Visible, Stage, WithBlob;
    ThreeOps(k, a);
    ScriptCut(k, a, n);
    if n <= 3 {
      CutInManifest(k, a, n);
    } else {
      CutInManifest(k, a, 3);
      assert ManifestOps(a)[..3] == ManifestOps(a);
      CutInIndex(k, a, n - 3);
    }
  }

  lemma ThreeOps(k: Disk, a: Layer)
    requires k.index.Complete?
    ensures |ManifestOps(a)| == 3 == |IndexOps(k, a)|
  {
  }

  // --- Every index entry can be used ---

  ghost predicate Consistent(k: Disk, hash: Tree -> Digest) {
    && k.index.Complete?
    && (forall key :: key in k.index.content ==> k.index.content[key] in k.manifests)
    && (forall d :: d in k.manifests ==>
          d in k.blobs && k.manifests[d].Complete? && k.manifests[d].content.digest == "sha256:" + d)
    && (forall d :: d in k.blobs ==> k.blobs[d].Complete? && hash(k.blobs[d].content) == d)
  }

  /** One call of Add: cut off after `cut` operations, if it has that many; after an
      error while copying it still removes the copy. */
  datatype Attempt = Attempt(a: Layer, cut: nat, tidies: bool)

  function Reach(k: Disk, t: Attempt): nat {
    if t.cut < |Script(k, t.a)| then t.cut else |Script(k, t.a)|
  }

  function After(k: Disk, t: Attempt): Disk {
    var l := DoAll(k, Script(k, t.a)[..Reach(k, t)]);
    if t.tidies && Reach(k, t) < |BlobOps(k, t.a)| then Do(l, RemoveIncoming(t.a.digest)) else l
  }

  function AfterAll(k: Disk, ts: seq<Attempt>): Disk
    decreases |ts|
  {
    if ts == [] then k else AfterAll(After(k, ts[0]), ts[1..])
  }

  lemma AttemptShows(k: Disk, t: Attempt)
    requires k.index.Complete?
    ensures SeesSame(After(k, t), Visible(k, t.a, Stage(k, t.a, Reach(k, t))))
  {
    CutOffShows(k, t.a, Reach(k, t));
  }

  predicate Completes(k: Disk, t: Attempt) { Reach(k, t) == |Script(k, t.a)| }

  lemma CompletesStage(k: Disk, t: Attempt)
    requires k.index.Complete?
    ensures Completes(k, t) <==> Stage(k, t.a, Reach(k, t)) == 3
  {
  }

  predicate CopiesBlob(op: Op) { op.RemoveIncoming? || op.CopySome? || op.CopyRest? || op.RenameBlob? }

  lemma {:induction false} OthersKeepCopies(k: Disk, ops: seq<Op>)
    requires forall op :: op in ops ==> !CopiesBlob(op)
    ensures DoAll(k, ops).incoming == k.incoming
    decreases |ops|
  {
    if ops != [] {
      assert ops[0] in ops;
      OthersKeepCopies(Do(k, ops[0]), ops[1..]);
    }
  }

  lemma CopyAfter(k: Disk, a: Layer, n: nat)
    requires a.digest !in k.blobs && n <= 4
    ensures a.digest in DoAll(k, BlobOps(k, a)[..n]).incoming <==>
        if n == 0 then a.digest in k.incoming else n == 2 || n == 3
  {
    var ops := BlobOps(k, a);
    if n > 0 { DoSnoc(k, ops, n - 1); }
    if n > 1 { DoSnoc(k, ops, n - 2); }
    if n > 2 { DoSnoc(k, ops, n - 3); }
    if n > 3 { DoSnoc(k, ops, n - 4); }
  }

  /** A copy stays behind exactly if Add was cut off between starting and renaming it,
      and did not tidy up; or if one was there and Add did nothing at all. */
  lemma LeavesCopyIff(k: Disk, t: Attempt)
    requires t.a.digest !in k.blobs
    ensures var n := Reach(k, t);
      t.a.digest in After(k, t).incoming <==> !t.tidies && (n == 2 || n == 3 || (n == 0 && t.a.digest in k.incoming))
  {
    var n, ops, rest := Reach(k, t), BlobOps(k, t.a), Script(k, t.a)[4..];
    assert Script(k, t.a) == ops + rest;
    if n <= 4 {
      assert Script(k, t.a)[..n] == ops[..n];
      CopyAfter(k, t.a, n);
    } else {
      assert Script(k, t.a)[..n] == ops + rest[..n - 4];
      assert ops[..4] == ops;
      CopyAfter(k, t.a, 4);
      DoConcat(k, ops, rest[..n - 4]);
      forall op | op in rest[..n - 4] ensures !CopiesBlob(op) { assert op in rest; }
      hide DoAll, Do;
      OthersKeepCopies(DoAll(k, ops), rest[..n - 4]);
    }
  }

  /** A completed Add leaves no temporary manifest. */
  lemma LeavesNoManifest(k: Disk, t: Attempt)
    requires k.index.Complete? && Completes(k, t)
    ensures t.a.digest !in After(k, t).manifestTmps
  {
    var ops, index := ManifestOps(t.a), IndexOps(k, t.a);
    var blob := BlobOps(k, t.a);
    var j := DoAll(k, blob);
    assert Script(k, t.a)[..|Script(k, t.a)|] == (blob + ops) + index;
    DoConcat(k, blob + ops, index);
    DoConcat(k, blob, ops);
    NoManifestLeft(j, t.a);
    hide BlobOps;
    var l := DoAll(j, ops);
    assert index[..3] == index;
    DoSnoc(l, index, 2);
    DoSnoc(l, index, 1);
    DoSnoc(l, index, 0);
  }

  lemma NoManifestLeft(j: Disk, a: Layer)
    ensures a.digest !in DoAll(j, ManifestOps(a)).manifestTmps
  {
    var ops := ManifestOps(a);
    assert ops[..3] == ops;
    DoSnoc(j, ops, 2);
    DoSnoc(j, ops, 1);
    DoSnoc(j, ops, 0);
  }

  lemma BlobIsSafe(k: Disk, a: Layer, hash: Tree -> Digest)
    requires Consistent(k, hash) && a.digest == hash(a.tree)
    ensures Consistent(WithBlob(k, a), hash) && a.digest in WithBlob(k, a).blobs
  {
  }

  lemma ManifestIsSafe(k: Disk, a: Layer, hash: Tree -> Digest)
    requires Consistent(k, hash) && a.digest in k.blobs
    ensures Consistent(WithManifest(k, a), hash) && a.digest in WithManifest(k, a).manifests
  {
    assert ManifestOf(a).digest == "sha256:" + a.digest;
    hide ManifestOf;
  }

  lemma EntryIsSafe(k: Disk, a: Layer, hash: Tree -> Digest)
    requires Consistent(k, hash) && a.digest in k.manifests
    ensures Consistent(WithEntry(k, a), hash)
  {
    hide LayerKey;
  }

  lemma VisibleIsSafe(k: Disk, a: Layer, stage: nat, hash: Tree -> Digest)
    requires Consistent(k, hash) && a.digest == hash(a.tree)
    ensures Consistent(Visible(k, a, stage), hash)
  {
    BlobIsSafe(k, a, hash);
    ManifestIsSafe(WithBlob(k, a), a, hash);
    EntryIsSafe(WithManifest(WithBlob(k, a), a), a, hash);
    assert k.index == WithManifest(WithBlob(k, a), a).index;
    hide Consistent, WithBlob, WithManifest, WithEntry;
  }

  lemma SameIsSafe(k: Disk, l: Disk, hash: Tree -> Digest)
    requires Consistent(k, hash) && SeesSame(l, k)
    ensures Consistent(l, hash)
  {
  }

  lemma AttemptIsSafe(k: Disk, t: Attempt, hash: Tree -> Digest)
    requires Consistent(k, hash) && t.a.digest == hash(t.a.tree)
    ensures Consistent(After(k, t), hash)
  {
    AttemptShows(k, t);
    var stage := Stage(k, t.a, Reach(k, t));
    hide After, Stage, Reach, Visible, SeesSame;
    VisibleIsSafe(k, t.a, stage, hash);
    SameIsSafe(Visible(k, t.a, stage), After(k, t), hash);
  }

  /** However many calls of Add are cut off wherever, the store stays usable. */
  lemma {:induction false} StoreSurvives(k: Disk, ts: seq<Attempt>, hash: Tree -> Digest)
    requires Consistent(k, hash) && forall t :: t in ts ==> t.a.digest == hash(t.a.tree)
    ensures Consistent(AfterAll(k, ts), hash)
    decreases |ts|
  {
    if ts != [] {
      AttemptIsSafe(k, ts[0], hash);
      StoreSurvives(After(k, ts[0]), ts[1..], hash);
    }
  }

  // --- What Resolve finds ---

  datatype Found = NotFound | Unreadable | Hit(manifest: Manifest, digest: Digest)

  /** Reading by key: index, then manifest. */
  function ResolveKey(k: Disk, key: string): Found {
    if k.index.Partial? then Unreadable
    else if key !in k.index.content || k.index.content[key] == "" then NotFound
    else
      var d := k.index.content[key];
      if d !in k.manifests || k.manifests[d].Partial? then Unreadable else Hit(k.manifests[d].content, d)
  }

  /** The digest of the last completed Add of a key. */
  function LastAdded(k: Disk, ts: seq<Attempt>, key: string): Option<Digest>
    decreases |ts|
  {
    if ts == [] then None
    else
      var later := LastAdded(After(k, ts[0]), ts[1..], key);
      if later.Some? then later
      else if Completes(k, ts[0]) && LayerKey(ts[0].a) == key then Some(ts[0].a.digest)
      else None
  }

  /** The last manifest written for a digest, by an Add that got that far. */
  function LastWritten(k: Disk, ts: seq<Attempt>, d: Digest): Option<Manifest>
    decreases |ts|
  {
    if ts == [] then None
    else
      var later := LastWritten(After(k, ts[0]), ts[1..], d);
      if later.Some? then later
      else if Stage(k, ts[0].a, Reach(k, ts[0])) >= 2 && ts[0].a.digest == d then Some(ManifestOf(ts[0].a))
      else None
  }

  lemma {:induction false} IndexHoldsLastAdded(k: Disk, ts: seq<Attempt>, key: string)
    requires k.index.Complete?
    ensures var l := AfterAll(k, ts);
            && l.index.Complete?
            && match LastAdded(k, ts, key)
               case Some(d) => key in l.index.content && l.index.content[key] == d
               case None =>
                 && (key in l.index.content <==> key in k.index.content)
                 && (key in k.index.content ==> l.index.content[key] == k.index.content[key])
    decreases |ts|
  {
    if ts != [] {
      AttemptShows(k, ts[0]);
      CompletesStage(k, ts[0]);
      hide After, Completes, Stage, Reach;
      IndexHoldsLastAdded(After(k, ts[0]), ts[1..], key);
    }
  }

  lemma {:induction false} ManifestIsLastWritten(k: Disk, ts: seq<Attempt>, d: Digest)
    requires k.index.Complete?
    ensures var l := AfterAll(k, ts);
            match LastWritten(k, ts, d)
            case Some(m) => d in l.manifests && l.manifests[d] == Complete(m)
            case None =>
              && (d in l.manifests <==> d in k.manifests)
              && (d in k.manifests ==> l.manifests[d] == k.manifests[d])
    decreases |ts|
  {
    if ts != [] {
      AttemptShows(k, ts[0]);
      hide After, Stage, Reach;
      ManifestIsLastWritten(After(k, ts[0]), ts[1..], d);
    }
  }

  function EmptyStore(): Disk { Disk(map[], map[], map[], map[], Complete(map[]), Complete(map[])) }

  /** After any history of complete and cut-off Adds, resolving a key gives the
      digest of its last completed Add, or nothing if there is none. */
  lemma ResolveGivesLastAdded(ts: seq<Attempt>, hash: Tree -> Digest, key: string)
    requires forall t :: t in ts ==> t.a.digest == hash(t.a.tree)
    requires forall tree :: hash(tree) != ""
    ensures var l := AfterAll(EmptyStore(), ts);
            match LastAdded(EmptyStore(), ts, key)
            case None => ResolveKey(l, key) == NotFound
            case Some(d) =>
              && LastWritten(EmptyStore(), ts, d).Some?
              && ResolveKey(l, key) == Hit(LastWritten(EmptyStore(), ts, d).value, d)
              && d in l.blobs && l.blobs[d].Complete? && hash(l.blobs[d].content) == d
  {
    var k := EmptyStore();
    StoreSurvives(k, ts, hash);
    IndexHoldsLastAdded(k, ts, key);
    var l := AfterAll(k, ts);
    hide AfterAll, LastAdded, LastWritten;
    if LastAdded(k, ts, key).Some? {
      var d := LastAdded(k, ts, key).value;
      ManifestIsLastWritten(k, ts, d);
      assert hash(l.blobs[d].content) == d;
    }
  }

  /** The manifest carries the name and version that were asked for if and only if
      the last manifest written for that digest was written under them. */
  lemma ResolveNamesItRightIff(ts: seq<Attempt>, hash: Tree -> Digest, r: Ref)
    requires forall t :: t in ts ==> t.a.digest == hash(t.a.tree)
    requires forall tree :: hash(tree) != ""
    requires LastAdded(EmptyStore(), ts, Key(r)).Some?
    ensures var found := ResolveKey(AfterAll(EmptyStore(), ts), Key(r));
            var last := LastWritten(EmptyStore(), ts, LastAdded(EmptyStore(), ts, Key(r)).value);
            && found.Hit? && last.Some?
            && ((found.manifest.name == r.name && found.manifest.version == r.version) <==>
                (last.value.name == r.name && last.value.version == r.version))
  {
    ResolveGivesLastAdded(ts, hash, Key(r));
  }

  /** Adding the same tree again under a new version renames the old entry. */
  lemma AddingAgainRenames(a: Layer, b: Layer, hash: Tree -> Digest)
    requires a.tree == b.tree && a.digest == hash(a.tree) == b.digest && a.name == b.name && a.version != b.version
    requires forall tree :: hash(tree) != ""
    ensures var found := ResolveKey(AfterAll(EmptyStore(), [Attempt(a, 10, false), Attempt(b, 10, false)]),
        LayerKey(a));
            found.Hit? && found.digest == a.digest && found.manifest.version == b.version != a.version
  {
    var k, s, t := EmptyStore(), Attempt(a, 10, false), Attempt(b, 10, false);
    var ts := [s, t];
    assert ts[1..] == [t] && [t][1..] == [];
    assert a.version == LayerKey(a)[|a.name| + 1..] && b.version == LayerKey(b)[|a.name| + 1..];
    CompletesStage(k, s);
    AttemptShows(k, s);
    CompletesStage(After(k, s), t);
    assert Completes(k, s) && Completes(After(k, s), t);
    hide After, Completes, Stage, Reach;
    ResolveGivesLastAdded(ts, hash, LayerKey(a));
    assert LastAdded(After(k, s), [t], LayerKey(a)) == None;
    assert LastWritten(After(k, s), [t], a.digest) == Some(ManifestOf(b));
  }
}
