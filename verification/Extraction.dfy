/** Unpacking an archive onto a file system, in the builder and in the gateway. */
module Extraction {
  import opened Options
  import opened Paths
  import opened SafePath

  datatype Kind = Dir | Regular | Symlink | Other
  datatype Entry = Entry(name: string, kind: Kind, content: seq<bv8>)

  /** The builder skips symlinks, the gateway refuses them. */
  datatype Extractor = Builder | Gateway

  type Files = map<string, seq<bv8>>

  /** Where an entry goes; None means that the extractor stops with an error. */
  function Target(x: Extractor, dest: string, e: Entry): Option<string>
    requires dest != ""
  {
    if x.Builder? then ExtractTarget(dest, e.name)
    else if e.kind.Symlink? then None
    else SafeJoin(dest, e.name)
  }

  predicate Accepted(x: Extractor, dest: string, entries: seq<Entry>)
    requires dest != ""
  {
    forall i :: 0 <= i < |entries| ==> Target(x, dest, entries[i]).Some?
  }

  /** The files after a run of accepted entries. */
  function Unpacked(x: Extractor, files: Files, dest: string, entries: seq<Entry>): Files
    requires dest != "" && Accepted(x, dest, entries)
  {
    if entries == [] then files
    else
      var n := |entries| - 1;
      assert Accepted(x, dest, entries[..n]);
      var before, target := Unpacked(x, files, dest, entries[..n]), Target(x, dest, entries[n]);
      if entries[n].kind.Regular? then before[target.value := entries[n].content] else before
  }

  lemma EmptyIsAccepted(x: Extractor, files: Files, dest: string)
    requires dest != ""
    ensures Accepted(x, dest, []) && Unpacked(x, files, dest, []) == files
  {
  }

  lemma UnpackedSnoc(x: Extractor, files: Files, dest: string, entries: seq<Entry>, e: Entry)
    requires dest != "" && Accepted(x, dest, entries) && Target(x, dest, e).Some?
    ensures Accepted(x, dest, entries + [e])
    ensures var before := Unpacked(x, files, dest, entries);
            Unpacked(x, files, dest, entries + [e]) ==
              if e.kind.Regular? then before[Target(x, dest, e).value := e.content] else before
  {
    hide Target;
    assert (entries + [e])[..|entries|] == entries;
  }

  class FileSystem {
    var files: Files

    constructor ()
      ensures files == map[]
    {
      files := map[];
    }

    /** Stops at the first entry that the guard refuses; what came before it stays. */
    method Extract(x: Extractor, dest: string, entries: seq<Entry>) returns (ok: bool, n: nat)
      requires dest != ""
      modifies this
      ensures n <= |entries| && Accepted(x, dest, entries[..n])
      ensures if ok then n == |entries| else n < |entries| && Target(x, dest, entries[n]).None?
      ensures files == Unpacked(x, old(files), dest, entries[..n])
    {
      n := 0;
      EmptyIsAccepted(x, files, dest);
      assert entries[..0] == [];
      hide Target, Unpacked, Accepted;
      ok := true;
      while ok && n < |entries|
        invariant n <= |entries| && Accepted(x, dest, entries[..n])
        invariant ok || (n < |entries| && Target(x, dest, entries[n]).None?)
        invariant files == Unpacked(x, old(files), dest, entries[..n])
        decreases if ok then |entries| - n + 1 else 0
      {
        var e := entries[n];
        var target := Target(x, dest, e);
        if target.None? {
          ok := false;
        } else {
          UnpackedSnoc(x, old(files), dest, entries[..n], e);
          if e.kind.Regular? { files := files[target.value := e.content]; }
          n := n + 1;
          assert entries[..n] == entries[..n - 1] + [e];
        }
      }
    }
  }

  lemma TargetIsUnder(x: Extractor, dest: string, e: Entry)
    requires IsAbs(dest) && Clean(dest) != "/" && Target(x, dest, e).Some?
    ensures Under(Target(x, dest, e).value, Clean(dest))
  {
    BothContain(dest, e.name);
  }

  /** Whatever the entries are called, no file outside the destination changes. */
  lemma {:induction false} OutsideUntouched(x: Extractor, files: Files, dest: string, entries: seq<Entry>, p: string)
    requires IsAbs(dest) && Clean(dest) != "/" && Accepted(x, dest, entries) && !Under(p, Clean(dest))
    ensures p in Unpacked(x, files, dest, entries) <==> p in files
    ensures p in files ==> Unpacked(x, files, dest, entries)[p] == files[p]
  {
    hide Target, Under;
    if entries != [] {
      var n := |entries| - 1;
      assert Accepted(x, dest, entries[..n]);
      OutsideUntouched(x, files, dest, entries[..n], p);
      TargetIsUnder(x, dest, entries[n]);
    }
  }

  /** What each extractor accepts, and where it goes: the builder wants a relative name
      that does not climb out; the gateway a non-empty relative one without "..", and
      no symlinks. */
  lemma TargetIff(x: Extractor, dest: string, e: Entry)
    requires IsAbs(dest) && Clean(dest) != "/"
    ensures Target(x, dest, e).Some? <==>
      && !IsAbs(e.name)
      && (x.Builder? ==> ".." !in Names(e.name))
      && (x.Gateway? ==> !e.kind.Symlink? && e.name != "" && ".." !in Split(e.name))
    ensures Target(x, dest, e).Some? ==> Target(x, dest, e).value == "/" + Join(Names(dest) + Names(e.name))
  {
    SafeJoinAcceptsIff(dest, e.name);
    ExtractAcceptsIff(dest, e.name);
    hide SafeJoin, ExtractTarget, Clean, Names, Join, Split;
  }

  /** A path to which no regular entry goes keeps what it had, wherever it is. */
  lemma {:induction false} OthersKeep(x: Extractor, files: Files, dest: string, entries: seq<Entry>, p: string)
    requires dest != "" && Accepted(x, dest, entries)
    requires forall i :: 0 <= i < |entries| && entries[i].kind.Regular? ==> Target(x, dest, entries[i]) != Some(p)
    ensures p in Unpacked(x, files, dest, entries) <==> p in files
    ensures p in files ==> Unpacked(x, files, dest, entries)[p] == files[p]
  {
    hide Target;
    if entries != [] {
      var n := |entries| - 1;
      assert Accepted(x, dest, entries[..n]);
      OthersKeep(x, files, dest, entries[..n], p);
    }
  }

  /** A file has the content of the last regular entry with its path. */
  lemma {:induction false} LastEntryWins(x: Extractor, files: Files, dest: string, entries: seq<Entry>, i: nat)
    requires dest != "" && Accepted(x, dest, entries) && i < |entries| && entries[i].kind.Regular?
    requires forall j :: i < j < |entries| && entries[j].kind.Regular? ==>
        Target(x, dest, entries[j]) != Target(x, dest, entries[i])
    ensures var target := Target(x, dest, entries[i]).value;
            target in Unpacked(x, files, dest, entries) &&
                Unpacked(x, files, dest, entries)[target] == entries[i].content
  {
    hide Target;
    var n := |entries| - 1;
    if i < n {
      assert Accepted(x, dest, entries[..n]);
      LastEntryWins(x, files, dest, entries[..n], i);
    }
  }

  /** An archive that the gateway unpacks is unpacked by the builder to the same
      files. */
  lemma {:induction false} GatewayImpliesBuilder(files: Files, dest: string, entries: seq<Entry>)
    requires IsAbs(dest) && Accepted(Gateway, dest, entries)
    ensures Accepted(Builder, dest, entries)
    ensures Unpacked(Builder, files, dest, entries) == Unpacked(Gateway, files, dest, entries)
  {
    hide Target;
    forall i | 0 <= i < |entries| ensures Target(Builder, dest, entries[i]) == Target(Gateway, dest, entries[i]) {
      SameTarget(dest, entries[i]);
    }
    if entries != [] {
      var n := |entries| - 1;
      assert Accepted(Gateway, dest, entries[..n]);
      GatewayImpliesBuilder(files, dest, entries[..n]);
    }
  }

  lemma SameTarget(dest: string, e: Entry)
    requires IsAbs(dest) && Target(Gateway, dest, e).Some?
    ensures Target(Builder, dest, e) == Target(Gateway, dest, e)
  {
    SafeJoinImpliesExtract(dest, e.name);
    hide SafeJoin, ExtractTarget;
  }
}
