/** StoreResolver.ensureLocal, run by any number of goroutines at once: a layer is
    downloaded by one of them while the others wait on its channel. */
module LayerPull {
  import opened LayerDigests

  type Goroutine = nat
  type Chan = nat
  type Blob = seq<bv8>

  datatype Pc =
    | Looking(d: string)               // before the first stat
    | AtSlot(d: string)                // not there, about to take the resolver mutex
    | Waiting(d: string, ch: Chan)
    | Rechecking(d: string, ch: Chan)  // owns the slot from here on
    | Fetching(d: string, ch: Chan)
    | Extracting(d: string, ch: Chan, blob: Blob)
    | Installing(d: string, ch: Chan, blob: Blob)
    | Leaving(d: string, ch: Chan, ok: bool)
    | Closing(d: string, ch: Chan, ok: bool)
    | Done(d: string, ok: bool, waited: bool)

  /** `root` is the cache directory and `hash` the digest of a blob; they never change. */
  datatype State = State(
    root: Root,
    hash: Blob -> string,
    cache: map<string, Blob>,
    pulling: map<string, Chan>,
    closed: set<Chan>,
    made: nat,                         // channels made so far
    pcs: map<Goroutine, Pc>)

  datatype Step =
    | Start(g: Goroutine, d: string)
    | Stat(g: Goroutine, found: bool)
    | TakeSlot(g: Goroutine)
    | Wake(g: Goroutine)
    | Cancel(g: Goroutine)
    | Recheck(g: Goroutine, found: bool)
    | Get(g: Goroutine, blob: Blob)
    | Verify(g: Goroutine)
    | Install(g: Goroutine)
    | Fail(g: Goroutine)               // Get, MkdirTemp, extraction or rename fails
    | Unlist(g: Goroutine)
    | Close(g: Goroutine)

  /** The directory of d was installed by a pull. */
  predicate Cached(s: State, d: string) { Directory(s.root, d) in s.cache }

  /** Owns the slot of its digest. */
  predicate Pulls(pc: Pc) {
    pc.Rechecking? || pc.Fetching? || pc.Extracting? || pc.Installing? || pc.Leaving?
  }

  /** Whether something is there.  What is no well-formed digest can name a path that
      no pull installed, such as the cache directory itself or a file in a layer. */
  predicate MayFind(s: State, d: string, found: bool) {
    (Cached(s, d) ==> found) && (IsDigest(d) && found ==> Cached(s, d))
  }

  predicate Enabled(s: State, a: Step) {
    if a.Start? then a.g !in s.pcs
    else
      && a.g in s.pcs
      && var pc := s.pcs[a.g];
         match a
         case Stat(_, found) => pc.Looking? && MayFind(s, pc.d, found)
         case TakeSlot(_) => pc.AtSlot?
         case Wake(_) => pc.Waiting? && pc.ch in s.closed
         case Cancel(_) => pc.Waiting?
         case Recheck(_, found) => pc.Rechecking? && MayFind(s, pc.d, found)
         case Get(_, _) => pc.Fetching?
         case Verify(_) => pc.Extracting?
         case Install(_) => pc.Installing?
         case Fail(_) => pc.Fetching? || pc.Extracting? || pc.Installing?
         case Unlist(_) => pc.Leaving?
         case Close(_) => pc.Closing?
  }

  function Go(s: State, g: Goroutine, pc: Pc): State { s.(pcs := s.pcs[g := pc]) }

  function Apply(s: State, a: Step): State
    requires Enabled(s, a)
  {
    if a.Start? then Go(s, a.g, Looking(a.d))
    else
      var g, pc := a.g, s.pcs[a.g];
      match a
      case Stat(_, found) => Go(s, g, if found then Done(pc.d, true, false) else AtSlot(pc.d))
      case TakeSlot(_) =>
        if pc.d in s.pulling then Go(s, g, Waiting(pc.d, s.pulling[pc.d]))
        else Go(s, g, Rechecking(pc.d, s.made)).(pulling := s.pulling[pc.d := s.made], made := s.made + 1)
      case Wake(_) => Go(s, g, Done(pc.d, true, true))
      case Cancel(_) => Go(s, g, Done(pc.d, false, true))
      case Recheck(_, found) => Go(s, g, if found then Leaving(pc.d, pc.ch, true) else Fetching(pc.d, pc.ch))
      case Get(_, blob) => Go(s, g, Extracting(pc.d, pc.ch, blob))
      case Verify(_) =>
        Go(s, g, if Matches(pc.d, s.hash(pc.blob)) then Installing(pc.d, pc.ch, pc.blob)
            else Leaving(pc.d, pc.ch, false))
      case Install(_) =>
        if Cached(s, pc.d) then Go(s, g, Leaving(pc.d, pc.ch, true))
        else Go(s, g, Leaving(pc.d, pc.ch, true)).(cache := s.cache[Directory(s.root, pc.d) := pc.blob])
      case Fail(_) => Go(s, g, Leaving(pc.d, pc.ch, pc.Installing? && Cached(s, pc.d)))
      case Unlist(_) => Go(s, g, Closing(pc.d, pc.ch, pc.ok)).(pulling := s.pulling - {pc.d})
      case Close(_) => Go(s, g, Done(pc.d, pc.ok, false)).(closed := s.closed + {pc.ch})
  }

  ghost predicate Init(s: State) {
    && s.cache == map[] && s.pulling == map[] && s.closed == {} && s.made == 0 && s.pcs == map[]
    && forall b :: IsHash(s.hash(b))
  }

  ghost predicate Next(s: State, s': State) { exists a :: Enabled(s, a) && s' == Apply(s, a) }

  ghost predicate IsRun(run: seq<State>) {
    && |run| > 0 && Init(run[0])
    && forall i :: 0 <= i < |run| - 1 ==> Next(run[i], run[i + 1])
  }

  // --- Single flight ---

  /** The map holds a digest exactly while a goroutine pulls it. */
  ghost predicate SlotsAreOwned(s: State) {
    && (forall g :: g in s.pcs && Pulls(s.pcs[g]) ==> s.pcs[g].d in s.pulling && s.pulling[s.pcs[g].d] == s.pcs[g].ch)
    && (forall d :: d in s.pulling ==> exists g :: Owner(s, g, d))
  }

  predicate Owner(s: State, g: Goroutine, d: string) {
    g in s.pcs && Pulls(s.pcs[g]) && s.pcs[g].d == d
  }

  /** Every channel that was made is closed, or somebody is still going to close it. */
  predicate WillClose(s: State, g: Goroutine, ch: Chan) {
    g in s.pcs && (Pulls(s.pcs[g]) || s.pcs[g].Closing?) && s.pcs[g].ch == ch
  }

  ghost predicate ChannelsEnd(s: State) {
    && (forall ch :: ch in s.closed ==> ch < s.made)
    && (forall g :: g in s.pcs && (Pulls(s.pcs[g]) || s.pcs[g].Closing? || s.pcs[g].Waiting?) ==> s.pcs[g].ch < s.made)
    && (forall ch: Chan :: ch < s.made && ch !in s.closed ==> exists g :: WillClose(s, g, ch))
    && (forall d :: d in s.pulling ==> s.pulling[d] < s.made)
  }

  /** A channel has one closer, so it is closed once. */
  ghost predicate ChannelsHaveOneOwner(s: State) {
    && (forall g, h, ch :: WillClose(s, g, ch) && WillClose(s, h, ch) ==> g == h)
    && (forall g, ch :: WillClose(s, g, ch) ==> ch !in s.closed)
  }

  /** Directory p holds a tree that was checked against digest d. */
  predicate Holds(root: Root, hash: Blob -> string, p: string, b: Blob, d: string) {
    Directory(root, d) == p && Matches(d, hash(b))
  }

  /** Only trees whose hash was checked are in the cache. */
  ghost predicate Verified(s: State) {
    && (forall p :: p in s.cache ==> exists d :: Holds(s.root, s.hash, p, s.cache[p], d))
    && (forall g :: g in s.pcs && s.pcs[g].Installing? ==> Matches(s.pcs[g].d, s.hash(s.pcs[g].blob)))
    && (forall b :: IsHash(s.hash(b)))
  }

  /** What a goroutine that did not wait says about the cache is true. */
  predicate Truthful(s: State, pc: Pc) {
    (pc.Leaving? || pc.Closing? || (pc.Done? && !pc.waited)) && pc.ok && IsDigest(pc.d) ==> Cached(s, pc.d)
  }

  ghost predicate Honest(s: State) { forall g :: g in s.pcs ==> Truthful(s, s.pcs[g]) }

  predicate InFlight(pc: Pc) { pc.Fetching? || pc.Extracting? || pc.Installing? }

  /** While a goroutine fetches a layer nobody else can install it. */
  ghost predicate Exclusive(s: State) {
    && (forall g :: g in s.pcs && InFlight(s.pcs[g]) && IsDigest(s.pcs[g].d) ==> !Cached(s, s.pcs[g].d))
    && (forall g :: g in s.pcs && s.pcs[g].Leaving? && !s.pcs[g].ok && IsDigest(s.pcs[g].d) ==> !Cached(s, s.pcs[g].d))
  }

  ghost predicate Inv(s: State) {
    SlotsAreOwned(s) && ChannelsEnd(s) && ChannelsHaveOneOwner(s) && Verified(s) && Honest(s) && Exclusive(s)
  }

  lemma OnePuller(s: State, g: Goroutine, h: Goroutine)
    requires SlotsAreOwned(s) && ChannelsHaveOneOwner(s)
    requires g in s.pcs && h in s.pcs && Pulls(s.pcs[g]) && Pulls(s.pcs[h]) && s.pcs[g].d == s.pcs[h].d
    ensures g == h
  {
    assert WillClose(s, g, s.pcs[g].ch) && WillClose(s, h, s.pcs[g].ch);
  }

  /** A step moves one goroutine only. */
  lemma Frame(s: State, a: Step)
    requires Enabled(s, a)
    ensures var s' := Apply(s, a);
            && s'.pcs.Keys == s.pcs.Keys + {a.g} && s'.hash == s.hash && s'.root == s.root
            && forall g :: g in s.pcs && g != a.g ==> s'.pcs[g] == s.pcs[g]
  {
  }

  /** What a step does to the slots. */
  lemma SlotChange(s: State, a: Step)
    requires Enabled(s, a)
    ensures var s', owned, owns := Apply(s, a), a.g in s.pcs && Pulls(s.pcs[a.g]), Pulls(Apply(s, a).pcs[a.g]);
            && (owned && owns ==>
                  s'.pulling == s.pulling && s'.pcs[a.g].d == s.pcs[a.g].d && s'.pcs[a.g].ch == s.pcs[a.g].ch)
            && (owned && !owns ==> s'.pulling == s.pulling - {s.pcs[a.g].d})
            && (!owned && owns ==>
                  s'.pcs[a.g].d !in s.pulling && s'.pulling == s.pulling[s'.pcs[a.g].d := s'.pcs[a.g].ch])
            && (!owned && !owns ==> s'.pulling == s.pulling)
  {
  }

  /** What a step does to the cache. */
  lemma CacheChange(s: State, a: Step)
    requires Enabled(s, a)
    ensures var s' := Apply(s, a);
      && s'.root == s.root
      && s'.cache ==
         if a.Install? && !Cached(s, s.pcs[a.g].d) then s.cache[Directory(s.root, s.pcs[a.g].d) := s.pcs[a.g].blob]
         else s.cache
  {
  }

  lemma OwnersKeepSlots(s: State, a: Step)
    requires SlotsAreOwned(s) && ChannelsHaveOneOwner(s) && Enabled(s, a)
    ensures var s' := Apply(s, a); forall g :: g in s'.pcs && Pulls(s'.pcs[g]) ==>
        s'.pcs[g].d in s'.pulling && s'.pulling[s'.pcs[g].d] == s'.pcs[g].ch
  {
    Frame(s, a);
    SlotChange(s, a);
    var s' := Apply(s, a);
    hide Apply, Enabled, ChannelsHaveOneOwner;
    forall g | g in s'.pcs && Pulls(s'.pcs[g])
        ensures s'.pcs[g].d in s'.pulling && s'.pulling[s'.pcs[g].d] == s'.pcs[g].ch {
      if g != a.g && a.g in s.pcs && Pulls(s.pcs[a.g]) && s.pcs[g].d == s.pcs[a.g].d { OnePuller(s, g, a.g); }
    }
  }

  lemma SlotsKeepOwners(s: State, a: Step)
    requires SlotsAreOwned(s) && Enabled(s, a)
    ensures var s' := Apply(s, a); forall d :: d in s'.pulling ==> exists g :: Owner(s', g, d)
  {
    Frame(s, a);
    SlotChange(s, a);
    var s' := Apply(s, a);
    hide Apply, Enabled;
    forall d | d in s'.pulling ensures exists g :: Owner(s', g, d) {
      if d in s.pulling {
        var g :| Owner(s, g, d);
        assert Owner(s', g, d);
      } else {
        assert Owner(s', a.g, d);
      }
    }
  }

  lemma {:induction false} KeepsSlotsAreOwned(s: State, a: Step)
    requires SlotsAreOwned(s) && ChannelsHaveOneOwner(s) && Enabled(s, a)
    ensures SlotsAreOwned(Apply(s, a))
  {
    OwnersKeepSlots(s, a);
    SlotsKeepOwners(s, a);
    hide Apply, Enabled, Owner;
  }

  lemma KeepsChannelsEnd(s: State, a: Step)
    requires ChannelsEnd(s) && Enabled(s, a)
    ensures ChannelsEnd(Apply(s, a))
  {
    hide Directory, Matches, IsHash, IsDigest;
    var s' := Apply(s, a);
    forall ch: Chan | ch < s'.made && ch !in s'.closed ensures exists g :: WillClose(s', g, ch) {
      if ch < s.made {
        var g :| WillClose(s, g, ch);
        assert WillClose(s', g, ch);
      } else {
        assert WillClose(s', a.g, ch);
      }
    }
  }

  lemma KeepsChannelsHaveOneOwner(s: State, a: Step)
    requires ChannelsHaveOneOwner(s) && ChannelsEnd(s) && Enabled(s, a)
    ensures ChannelsHaveOneOwner(Apply(s, a))
  {
    var s' := Apply(s, a);
    forall g, ch | WillClose(s', g, ch)
      ensures WillClose(s, g, ch) || (a.TakeSlot? && g == a.g && ch == s.made)
      ensures ch !in s'.closed
    {
      if a.Close? && g != a.g { assert WillClose(s, a.g, s.pcs[a.g].ch); }
    }
  }

  /** A goroutine about to install has checked its tree. */
  lemma CheckedBeforeInstall(s: State, a: Step)
    requires Verified(s) && Enabled(s, a)
    ensures forall g :: g in Apply(s, a).pcs && Apply(s, a).pcs[g].Installing? ==>
        Matches(Apply(s, a).pcs[g].d, s.hash(Apply(s, a).pcs[g].blob))
  {
    hide Directory, Matches, IsHash, IsDigest;
  }

  lemma {:induction false} KeepsVerified(s: State, a: Step)
    requires Verified(s) && Enabled(s, a)
    ensures Verified(Apply(s, a))
  {
    var s' := Apply(s, a);
    Frame(s, a);
    CacheChange(s, a);
    CheckedBeforeInstall(s, a);
    hide Directory, Matches, IsHash, IsDigest, Apply;
    forall p | p in s'.cache ensures exists d :: Holds(s'.root, s'.hash, p, s'.cache[p], d) {
      if a.Install? && !Cached(s, s.pcs[a.g].d) && p == Directory(s.root, s.pcs[a.g].d) {
        assert Holds(s.root, s.hash, p, s'.cache[p], s.pcs[a.g].d);
      } else {
        var d :| Holds(s.root, s.hash, p, s.cache[p], d);
        assert Holds(s.root, s.hash, p, s'.cache[p], d);
      }
    }
  }

  lemma MoverIsTruthful(s: State, a: Step)
    requires Honest(s) && Enabled(s, a)
    ensures Truthful(Apply(s, a), Apply(s, a).pcs[a.g])
  {
    hide Directory, Matches, IsHash, IsDigest;
  }

  lemma KeepsHonest(s: State, a: Step)
    requires Honest(s) && Enabled(s, a)
    ensures Honest(Apply(s, a))
  {
    Frame(s, a);
    CacheChange(s, a);
    MoverIsTruthful(s, a);
    hide Directory, Matches, IsHash, IsDigest, Apply, Enabled;
    var s' := Apply(s, a);
    forall g | g in s'.pcs ensures Truthful(s', s'.pcs[g]) {
      if g != a.g { assert Truthful(s, s.pcs[g]); }
    }
  }

  lemma {:induction false} KeepsExclusive(s: State, a: Step)
    requires Exclusive(s) && Verified(s) && SlotsAreOwned(s) && ChannelsHaveOneOwner(s) && Enabled(s, a)
    ensures Exclusive(Apply(s, a))
  {
    hide Directory, Matches, IsHash, IsDigest;
    if a.Install? { InstallIsExclusive(s, a.g); } else { OthersAreExclusive(s, a); }
  }

  lemma OthersAreExclusive(s: State, a: Step)
    requires Exclusive(s) && Enabled(s, a) && !a.Install?
    ensures Exclusive(Apply(s, a))
  {
    hide Directory, Matches, IsHash, IsDigest;
    CacheChange(s, a);
  }

  lemma NoRivalDirectory(s: State, g: Goroutine, i: Goroutine)
    requires Verified(s) && SlotsAreOwned(s) && ChannelsHaveOneOwner(s)
    requires i in s.pcs && s.pcs[i].Installing? && g in s.pcs && Pulls(s.pcs[g]) && g != i && IsDigest(s.pcs[g].d)
    ensures Directory(s.root, s.pcs[g].d) != Directory(s.root, s.pcs[i].d)
  {
    CanMatchIff(s.pcs[i].d);
    hide Directory, Matches, IsHash, IsDigest;
    if Directory(s.root, s.pcs[g].d) == Directory(s.root, s.pcs[i].d) {
      SameDirectory(s.root, s.pcs[g].d, s.pcs[i].d);
      OnePuller(s, g, i);
    }
  }

  lemma {:induction false} InstallIsExclusive(s: State, i: Goroutine)
    requires Exclusive(s) && Verified(s) && SlotsAreOwned(s) && ChannelsHaveOneOwner(s) && Enabled(s, Install(i))
    ensures Exclusive(Apply(s, Install(i)))
  {
    hide Directory, Matches, IsHash, IsDigest, SlotsAreOwned, ChannelsHaveOneOwner, Verified;
    var s' := Apply(s, Install(i));
    forall g | g in s.pcs && g != i && Pulls(s.pcs[g]) && IsDigest(s.pcs[g].d)
      ensures Cached(s', s.pcs[g].d) <==> Cached(s, s.pcs[g].d)
    {
      NoRivalDirectory(s, g, i);
    }
  }

  lemma StepKeepsInv(s: State, a: Step)
    requires Inv(s) && Enabled(s, a)
    ensures Inv(Apply(s, a))
  {
    hide SlotsAreOwned, ChannelsEnd, ChannelsHaveOneOwner, Verified, Honest, Exclusive, Apply, Enabled;
    KeepsSlotsAreOwned(s, a);
    KeepsChannelsEnd(s, a);
    KeepsChannelsHaveOneOwner(s, a);
    KeepsVerified(s, a);
    KeepsHonest(s, a);
    KeepsExclusive(s, a);
  }

  lemma {:induction false} RunKeepsInv(run: seq<State>, n: nat)
    requires IsRun(run) && n < |run|
    ensures Inv(run[n])
  {
    if n > 0 {
      RunKeepsInv(run, n - 1);
      assert Next(run[n - 1], run[n - 1 + 1]);
      var a :| Enabled(run[n - 1], a) && run[n] == Apply(run[n - 1], a);
      StepKeepsInv(run[n - 1], a);
    }
  }

  lemma Extend(run: seq<State>, a: Step) returns (longer: seq<State>)
    requires IsRun(run) && Enabled(run[|run| - 1], a)
    ensures IsRun(longer) && longer[|longer| - 1] == Apply(run[|run| - 1], a)
    ensures run <= longer && longer[0] == run[0]
  {
    longer := run + [Apply(run[|run| - 1], a)];
    forall i | 0 <= i < |longer| - 1 ensures Next(longer[i], longer[i + 1]) {
      if i < |run| - 1 { assert Next(run[i], run[i + 1]); }
    }
  }

  // --- Main results ---

  /** At most one goroutine pulls a digest, and the map lists a digest exactly
      while there is one. */
  lemma SingleFlight(run: seq<State>, n: nat, d: string)
    requires IsRun(run) && n < |run|
    ensures forall g, h :: Owner(run[n], g, d) && Owner(run[n], h, d) ==> g == h
    ensures d in run[n].pulling <==> exists g :: Owner(run[n], g, d)
  {
    RunKeepsInv(run, n);
    forall g, h | Owner(run[n], g, d) && Owner(run[n], h, d) ensures g == h {
      OnePuller(run[n], g, h);
    }
  }

  /** Whoever waits, waits on a channel that is closed already or that exactly one
      live goroutine will close; no channel is closed twice. */
  lemma NoWaiterIsStranded(run: seq<State>, n: nat, g: Goroutine)
    requires IsRun(run) && n < |run| && g in run[n].pcs && run[n].pcs[g].Waiting?
    ensures run[n].pcs[g].ch in run[n].closed || exists h :: WillClose(run[n], h, run[n].pcs[g].ch)
    ensures forall h, k :: WillClose(run[n], h, run[n].pcs[g].ch) && WillClose(run[n], k, run[n].pcs[g].ch) ==> h == k
    ensures forall h, ch :: WillClose(run[n], h, ch) ==> ch !in run[n].closed
  {
    RunKeepsInv(run, n);
  }

  predicate OthersStay(s: State, s': State, g: Goroutine) {
    forall h :: h in s.pcs && h != g ==> h in s'.pcs && s'.pcs[h] == s.pcs[h]
  }

  function Left(pc: Pc): nat {
    match pc
    case Rechecking(_, _) => 4
    case Fetching(_, _) => 3
    case Extracting(_, _, _) => 3
    case Installing(_, _, _) => 3
    case Leaving(_, _, _) => 2
    case _ => 1
  }

  /** Whatever the others do, the goroutine that owns a channel can always go on
      and close it: the pull may fail, but it never blocks. */
  lemma {:induction false} OwnerCanClose(run: seq<State>, g: Goroutine, ch: Chan) returns (longer: seq<State>)
    requires IsRun(run) && WillClose(run[|run| - 1], g, ch)
    ensures IsRun(longer) && run <= longer && ch in longer[|longer| - 1].closed
    ensures OthersStay(run[|run| - 1], longer[|longer| - 1], g)
    decreases Left(run[|run| - 1].pcs[g])
  {
    hide Directory, Matches, IsHash, IsDigest;
    var s := run[|run| - 1];
    var pc := s.pcs[g];
    var a := if pc.Closing? then Close(g) else if pc.Leaving? then Unlist(g)
        else if pc.Rechecking? then Recheck(g, Cached(s, pc.d)) else Fail(g);
    Frame(s, a);
    longer := Extend(run, a);
    if !pc.Closing? {
      longer := OwnerCanClose(longer, g, ch);
    }
  }

  /** A cache directory holds a tree whose hash matched a digest of that directory;
      and of all digests that share the directory only a well-formed one matches. */
  lemma OnlyVerifiedTrees(run: seq<State>, n: nat, d: string)
    requires IsRun(run) && n < |run| && Cached(run[n], d)
    ensures var s, p := run[n], Directory(run[n].root, d);
      && (exists e :: Holds(s.root, s.hash, p, s.cache[p], e))
      && (Matches(d, s.hash(s.cache[p])) <==> IsDigest(d))
  {
    RunKeepsInv(run, n);
    var s, p := run[n], Directory(run[n].root, d);
    var e :| Holds(s.root, s.hash, p, s.cache[p], e);
    OneDigestPerDirectory(s.root, e, d, s.hash(s.cache[p]));
  }

  /** Once installed a directory is never replaced. */
  lemma {:induction false} InstalledForGood(run: seq<State>, m: nat, n: nat, p: string)
    requires IsRun(run) && m <= n < |run| && p in run[m].cache
    ensures p in run[n].cache && run[n].cache[p] == run[m].cache[p]
  {
    if m < n {
      InstalledForGood(run, m, n - 1, p);
      assert Next(run[n - 1], run[n - 1 + 1]);
      var a :| Enabled(run[n - 1], a) && run[n] == Apply(run[n - 1], a);
      CacheChange(run[n - 1], a);
    }
  }

  /** For a well-formed digest, a caller that did not wait reports success only if the
      directory was installed; and a puller that gives up its slot knows exactly: it
      succeeds if and only if it was. */
  lemma PullersTellTheTruth(run: seq<State>, n: nat, g: Goroutine)
    requires IsRun(run) && n < |run| && g in run[n].pcs
    ensures var pc := run[n].pcs[g];
            && (pc.Done? && pc.ok && !pc.waited && IsDigest(pc.d) ==> Cached(run[n], pc.d))
            && (pc.Leaving? && IsDigest(pc.d) ==> (pc.ok <==> Cached(run[n], pc.d)))
  {
    RunKeepsInv(run, n);
  }

  predicate NobodyInstalls(s: State, d: string) {
    forall g :: g in s.pcs && s.pcs[g].Installing? ==> s.pcs[g].d != d
  }

  /** Nobody but the puller of d itself could install the directory of d. */
  lemma NotInstalled(run: seq<State>, n: nat, d: string)
    requires IsRun(run) && n + 1 < |run| && IsDigest(d) && !Cached(run[n], d)
    requires NobodyInstalls(run[n], d)
    ensures !Cached(run[n + 1], d)
  {
    RunKeepsInv(run, n);
    var s := run[n];
    assert Next(s, run[n + 1]);
    var a :| Enabled(s, a) && run[n + 1] == Apply(s, a);
    CacheChange(s, a);
    if a.Install? {
      CanMatchIff(s.pcs[a.g].d);
      if Directory(s.root, s.pcs[a.g].d) == Directory(s.root, d) { SameDirectory(s.root, s.pcs[a.g].d, d); }
    }
  }

  lemma RootStays(run: seq<State>, n: nat)
    requires IsRun(run) && n + 1 < |run|
    ensures run[n + 1].root == run[n].root
  {
    hide Enabled, Apply;
    assert Next(run[n], run[n + 1]);
    var a :| Enabled(run[n], a) && run[n + 1] == Apply(run[n], a);
    CacheChange(run[n], a);
  }

  /** The cache after a pull, as long as nobody pulls the digest once more. */
  lemma {:induction false} CacheFollowsPull(run: seq<State>, m: nat, n: nat, puller: Goroutine, d: string)
    requires IsRun(run) && m <= n < |run| && IsDigest(d)
    requires puller in run[m].pcs && run[m].pcs[puller].Leaving? && run[m].pcs[puller].d == d
    requires forall k :: m <= k < n ==> NobodyInstalls(run[k], d)
    ensures Cached(run[n], d) <==> run[m].pcs[puller].ok
  {
    hide NobodyInstalls, IsRun, IsDigest, Cached;
    if m == n {
      PullersTellTheTruth(run, m, puller);
    } else {
      CacheFollowsPull(run, m, n - 1, puller, d);
      CacheStays(run, n - 1, d);
    }
  }

  lemma CacheStays(run: seq<State>, n: nat, d: string)
    requires IsRun(run) && n + 1 < |run| && IsDigest(d) && NobodyInstalls(run[n], d)
    ensures Cached(run[n + 1], d) <==> Cached(run[n], d)
  {
    RootStays(run, n);
    if Cached(run[n], d) {
      hide Directory, Matches, IsHash, IsDigest;
      InstalledForGood(run, n, n + 1, Directory(run[n].root, d));
    } else {
      NotInstalled(run, n, d);
    }
  }

  /** A layer that is there is found at once, without a pull; one that is not is pulled. */
  lemma FoundAtOnce(s: State, g: Goroutine, found: bool)
    requires Enabled(s, Stat(g, found)) && IsDigest(s.pcs[g].d)
    ensures var d, after := s.pcs[g].d, Apply(s, Stat(g, found)).pcs[g];
      after == if Cached(s, d) then Done(d, true, false) else AtSlot(d)
  {
  }

  /** The rename never meets a directory that another pull has put there: the fallback
      for that race is never needed among the users of one resolver. */
  lemma RenameFindsRoom(run: seq<State>, n: nat, g: Goroutine)
    requires IsRun(run) && n < |run| && g in run[n].pcs && run[n].pcs[g].Installing?
    ensures !Cached(run[n], run[n].pcs[g].d)
  {
    RunKeepsInv(run, n);
    CanMatchIff(run[n].pcs[g].d);
  }

  /** Whoever stops waiting reports success exactly if its channel is closed and it was
      not cancelled. */
  lemma WaiterReturns(s: State, a: Step)
    requires Enabled(s, a) && a.g in s.pcs && s.pcs[a.g].Waiting?
    ensures var pc, after := s.pcs[a.g], Apply(s, a).pcs[a.g];
      && after.Done? && after.d == pc.d && after.waited
      && (after.ok ==> pc.ch in s.closed) && (after.ok <==> !a.Cancel?)
  {
  }

  /** A waiter always reports success.  It is right if and only if the pull whose
      channel it waited on succeeded, as long as nobody pulled the digest once more
      between the end of that pull and the waiter's return. */
  lemma WaiterIsRightIff(run: seq<State>, m: nat, n: nat, puller: Goroutine, waiter: Goroutine)
    requires IsRun(run) && m < n < |run|
    requires puller in run[m].pcs && run[m].pcs[puller].Leaving? && IsDigest(run[m].pcs[puller].d)
    requires Enabled(run[n - 1], Wake(waiter)) && run[n] == Apply(run[n - 1], Wake(waiter))
    requires run[n - 1].pcs[waiter] == Waiting(run[m].pcs[puller].d, run[m].pcs[puller].ch)
    requires forall k :: m <= k < n ==> NobodyInstalls(run[k], run[m].pcs[puller].d)
    ensures var d := run[m].pcs[puller].d;
      run[n].pcs[waiter] == Done(d, true, true) && (Cached(run[n], d) <==> run[m].pcs[puller].ok)
  {
    CacheFollowsPull(run, m, n, puller, run[m].pcs[puller].d);
  }

  // --- A waiter that is wrong ---

  /** Goroutine 0 has the slot of d, goroutine 1 waits for it. */
  lemma OneWaits(root: Root, hash: Blob -> string, d: string) returns (run: seq<State>)
    requires forall b :: IsHash(hash(b))
    ensures IsRun(run) && run[0].root == root && run[0].hash == hash
    ensures run[|run| - 1] == State(root, hash, map[], map[d := 0], {}, 1, map[0 := Fetching(d, 0), 1 := Waiting(d, 0)])
  {
    run := [State(root, hash, map[], map[], {}, 0, map[])];
    hide Directory, Matches, IsHash, IsDigest;
    run := Extend(run, Start(0, d));
    run := Extend(run, Stat(0, false));
    run := Extend(run, TakeSlot(0));
    run := Extend(run, Recheck(0, false));
    run := Extend(run, Start(1, d));
    run := Extend(run, Stat(1, false));
    run := Extend(run, TakeSlot(1));
  }

  /** The download fails, the cache stays empty, and the waiter still returns
      success with a path that does not exist. */
  lemma WaiterCanBeWrong(root: Root, hash: Blob -> string, d: string) returns (run: seq<State>)
    requires forall b :: IsHash(hash(b))
    ensures IsRun(run) && run[0].root == root && run[0].hash == hash
    ensures run[|run| - 1].cache == map[]
    ensures run[|run| - 1].pcs == map[0 := Done(d, false, false), 1 := Done(d, true, true)]
  {
    run := OneWaits(root, hash, d);
    hide Directory, Matches, IsHash, IsDigest;
    run := Extend(run, Fail(0));
    run := Extend(run, Unlist(0));
    run := Extend(run, Close(0));
    run := Extend(run, Wake(1));
  }

  // --- Digests that are not well-formed ---

  /** Goroutine 0 has the slot of the alias, goroutine 1 waits for it, goroutine 2 is
      about to look for the digest itself. */
  lemma AliasWaits(root: Root, hash: Blob -> string, alias: string, d: string) returns (run: seq<State>)
    requires forall b :: IsHash(hash(b))
    ensures IsRun(run) && run[0].root == root && run[0].hash == hash
    ensures run[|run| - 1] == State(root, hash, map[], map[alias := 0], {}, 1,
          map[0 := Fetching(alias, 0), 1 := Waiting(alias, 0), 2 := AtSlot(d)])
  {
    run := OneWaits(root, hash, alias);
    hide Directory, Matches, IsHash, IsDigest;
    run := Extend(run, Start(2, d));
    run := Extend(run, Stat(2, false));
  }

  lemma OtherPulls(run: seq<State>, alias: string, d: string, blob: Blob) returns (longer: seq<State>)
    requires IsRun(run) && alias != d && IsDigest(d) && Matches(d, run[|run| - 1].hash(blob))
    requires var s := run[|run| - 1];
      && s.cache == map[] && s.closed == {} && s.made == 1 && s.pulling == map[alias := 0]
      && s.pcs == map[0 := Fetching(alias, 0), 1 := Waiting(alias, 0), 2 := AtSlot(d)]
    ensures IsRun(longer) && |run| > 0 && longer[0] == run[0]
    ensures var s, t := run[|run| - 1], longer[|longer| - 1];
      && t.root == s.root && t.hash == s.hash && t.cache == map[Directory(s.root, d) := blob]
      && t.pulling == map[alias := 0, d := 1] && t.closed == {} && t.made == 2
      && t.pcs == map[0 := Fetching(alias, 0), 1 := Waiting(alias, 0), 2 := Leaving(d, 1, true)]
  {
    hide Directory, Matches, IsHash, IsDigest;
    longer := Extend(run, TakeSlot(2));
    longer := Extend(longer, Recheck(2, false));
    longer := Extend(longer, Get(2, blob));
    longer := Extend(longer, Verify(2));
    longer := Extend(longer, Install(2));
  }

  /** An alias of a digest leads to the same directory, but cannot match: its own pull
      fails, while a pull of the digest itself fills the directory.  So the waiter
      is right although the pull it waited for failed. */
  lemma AliasFails(root: Root, hash: Blob -> string, d: string, blob: Blob) returns (run: seq<State>)
    requires (forall b :: IsHash(hash(b))) && Matches(d, hash(blob))
    ensures IsRun(run) && run[0].root == root && run[0].hash == hash
    ensures var s, alias := run[|run| - 1], "./" + d;
      && s.pcs == map[0 := Done(alias, false, false), 1 := Done(alias, true, true), 2 := Leaving(d, 1, true)]
      && s.cache == map[Directory(root, alias) := blob]
  {
    assert IsDigest(d) by { CanMatchIff(d); }
    AliasSharesDirectory(root, d);
    hide *;
    var alias := "./" + d;
    assert |alias| == |d| + 2;
    run := AliasRun(root, hash, alias, d, blob);
  }

  lemma AliasRun(root: Root, hash: Blob -> string, alias: string, d: string, blob: Blob) returns (run: seq<State>)
    requires (forall b :: IsHash(hash(b))) && Matches(d, hash(blob)) && IsDigest(d) && alias != d
    ensures IsRun(run) && run[0].root == root && run[0].hash == hash
    ensures var s := run[|run| - 1];
      && s.pcs == map[0 := Done(alias, false, false), 1 := Done(alias, true, true), 2 := Leaving(d, 1, true)]
      && s.cache == map[Directory(root, d) := blob]
  {
    hide Directory, Matches, IsHash, IsDigest, IsRun;
    run := AliasWaits(root, hash, alias, d);
    run := OtherPulls(run, alias, d, blob);
    run := AliasEnds(run, alias, d);
  }

  lemma AliasEnds(run: seq<State>, alias: string, d: string) returns (longer: seq<State>)
    requires IsRun(run)
    requires var s := run[|run| - 1];
      && s.pulling == map[alias := 0, d := 1] && s.closed == {}
      && s.pcs == map[0 := Fetching(alias, 0), 1 := Waiting(alias, 0), 2 := Leaving(d, 1, true)]
    ensures IsRun(longer) && |run| > 0 && longer[0] == run[0] && longer[|longer| - 1].cache == run[|run| - 1].cache
    ensures longer[|longer| - 1].pcs == map[0 := Done(alias, false, false), 1 := Done(alias, true, true),
        2 := Leaving(d, 1, true)]
  {
    hide Directory, Matches, IsHash, IsDigest;
    longer := Extend(run, Fail(0));
    longer := Extend(longer, Unlist(0));
    longer := Extend(longer, Close(0));
    longer := Extend(longer, Wake(1));
  }
}
