/** The two guards that keep archive entries inside their target directory. */
module SafePath {
  import opened Options
  import opened Paths

  /** The gateway's safeJoin; None stands for its errors. */
  function SafeJoin(dst: string, name: string): Option<string>
    requires dst != ""
  {
    if name == "" || IsAbs(name) || ".." in Split(name) then None
    else
      var target, root := JoinPath(dst, Clean(name)), Clean(dst);
      if !(root + "/" <= target) && target != root then None else Some(target)
  }

  /** The guard of the builder's Extract. */
  function ExtractTarget(dest: string, name: string): Option<string>
    requires dest != ""
  {
    var clean := Clean(name);
    if IsAbs(clean) || clean == ".." || "../" <= clean then None else Some(JoinPath(dest, clean))
  }

  /** Inside the directory, or the directory itself. */
  predicate Under(target: string, root: string) { target == root || root + "/" <= target }

  /** Joining a relative path that does not climb appends its names. */
  lemma JoinAppends(dst: string, name: string)
    requires IsAbs(dst) && !IsAbs(name) && ".." !in Names(name)
    ensures JoinPath(dst, Clean(name)) == "/" + Join(Names(dst) + Names(name))
  {
    var c := Clean(name);
    CleanSplits(name);
    NamesAreTidy(name);
    SplitConcat(dst, c);
    FoldConcat(true, [], Split(dst), Split(c));
    assert ".." !in Split(c);
    FoldKeeps(true, Names(dst), Split(c));
    if Names(name) == [] {
      assert Proper(["."]) == [];
    } else {
      ProperIsPlain(Names(name));
    }
  }

  lemma AppendedIsUnder(root: seq<string>, more: seq<string>)
    requires root != []
    ensures Under("/" + Join(root + more), "/" + Join(root))
  {
    if more == [] {
      assert root + more == root;
    } else {
      JoinConcat(root, more);
      assert "/" + Join(root + more) == ("/" + Join(root) + "/") + Join(more);
    }
  }

  lemma {:induction false} ProperHasNoDots(name: string)
    requires !IsAbs(name) && ".." !in Split(name)
    ensures ".." !in Names(name)
  {
    FoldKeeps(false, [], Split(name));
    ProperIsPlain(Split(name));
  }

  /** For an absolute directory other than the root, safeJoin accepts exactly the
      non-empty relative names without a ".." component; its last check never
      fires. */
  lemma SafeJoinAcceptsIff(dst: string, name: string)
    requires IsAbs(dst) && Clean(dst) != "/"
    ensures SafeJoin(dst, name).Some? <==> name != "" && !IsAbs(name) && ".." !in Split(name)
    ensures SafeJoin(dst, name).Some? ==> SafeJoin(dst, name).value == "/" + Join(Names(dst) + Names(name))
  {
    if name != "" && !IsAbs(name) && ".." !in Split(name) {
      ProperHasNoDots(name);
      JoinAppends(dst, name);
      NotRoot(dst);
      AppendedIsUnder(Names(dst), Names(name));
    }
  }

  lemma NotRoot(dst: string)
    requires IsAbs(dst) && Clean(dst) != "/"
    ensures Names(dst) != []
  {
    assert "/" + Join([]) == "/";
  }

  /** Under the root directory the last check does fire: only names that clean to
      the root itself are accepted. */
  lemma SafeJoinAtRootIff(dst: string, name: string)
    requires IsAbs(dst) && Clean(dst) == "/"
    ensures SafeJoin(dst, name).Some? <==> name != "" && !IsAbs(name) && ".." !in Split(name) && Names(name) == []
  {
    if name != "" && !IsAbs(name) && ".." !in Split(name) {
      ProperHasNoDots(name);
      JoinAppends(dst, name);
      RootHasNoNames(dst);
      assert [] + Names(name) == Names(name);
      assert "/" + Join([]) == "/";
      if Names(name) != [] { NotDoubled(name); }
    }
  }

  lemma RootHasNoNames(dst: string)
    requires IsAbs(dst) && Clean(dst) == "/"
    ensures Names(dst) == []
  {
    NamesAreTidy(dst);
    var n := Names(dst);
    assert Clean(dst)[1..] == Join(n) == "";
    if n != [] {
      SplitJoin(n);
    }
  }

  lemma NotDoubled(name: string)
    requires Names(name) != []
    ensures var target := "/" + Join(Names(name)); target != "/" && !("//" <= target)
  {
    NamesAreTidy(name);
    var n := Names(name);
    SplitJoin(n);
    SplitFirst(Join(n));
    assert Plain(n[0]) && n[0] <= Join(n) && n[0][0] in n[0];
    assert ("/" + Join(n))[1] == n[0][0];
  }

  /** What Extract accepts: the name must not climb out, though it may go up and
      down inside. */
  lemma ExtractAcceptsIff(dest: string, name: string)
    requires dest != ""
    ensures ExtractTarget(dest, name).Some? <==> !IsAbs(name) && ".." !in Names(name)
    ensures IsAbs(dest) && ExtractTarget(dest, name).Some? ==>
      ExtractTarget(dest, name).value == "/" + Join(Names(dest) + Names(name))
  {
    if IsAbs(dest) && !IsAbs(name) && ".." !in Names(name) { JoinAppends(dest, name); }
    if IsAbs(name) {
      assert IsAbs(Clean(name));
    } else {
      NamesAreTidy(name);
      CleanSplits(name);
      CleanRelTwice(name);
      var n := Names(name);
      ClimbsIff(Clean(name));
      assert ".." in n <==> n != [] && n[0] == "..";
    }
  }

  /** ".." or "../" in front is a first component "..". */
  lemma ClimbsIff(s: string)
    ensures Split(s)[0] == ".." <==> s == ".." || "../" <= s
  {
    SplitFirst(s);
    if s == ".." { SplitPlain(s); }
    if "../" <= s {
      assert s == ".." + "/" + s[3..];
      SplitConcat("..", s[3..]);
      SplitPlain("..");
    }
  }

  /** Both guards keep their target under the directory. */
  lemma BothContain(dst: string, name: string)
    requires IsAbs(dst) && Clean(dst) != "/"
    ensures SafeJoin(dst, name).Some? ==> Under(SafeJoin(dst, name).value, Clean(dst))
    ensures ExtractTarget(dst, name).Some? ==> Under(ExtractTarget(dst, name).value, Clean(dst))
  {
    ExtractAcceptsIff(dst, name);
    if ExtractTarget(dst, name).Some? {
      JoinAppends(dst, name);
      NotRoot(dst);
      AppendedIsUnder(Names(dst), Names(name));
    }
  }

  /** Whatever safeJoin accepts, Extract accepts with the same target. */
  lemma SafeJoinImpliesExtract(dst: string, name: string)
    requires IsAbs(dst) && SafeJoin(dst, name).Some?
    ensures ExtractTarget(dst, name) == SafeJoin(dst, name)
  {
    ProperHasNoDots(name);
    ExtractAcceptsIff(dst, name);
  }

  /** But not the other way round. */
  lemma ExtractAcceptsMore(dst: string)
    requires IsAbs(dst)
    ensures ExtractTarget(dst, "a/../b").Some? && SafeJoin(dst, "a/../b").None?
    ensures ExtractTarget(dst, "").Some? && SafeJoin(dst, "").None?
  {
    UpAndDown();
    ExtractAcceptsIff(dst, "a/../b");
    assert Split("") == [""];
    assert Names("") == [];
    ExtractAcceptsIff(dst, "");
  }

  lemma UpAndDown()
    ensures !IsAbs("a/../b") && ".." in Split("a/../b") && Names("a/../b") == ["b"]
  {
    var parts := ["a", "..", "b"];
    assert Split("a/../b") == parts by {
      assert Join(["..", "b"]) == "../b" && parts[1..] == ["..", "b"];
      assert Join(parts) == "a/../b";
      SplitJoin(parts);
    }
    assert parts[1] == "..";
    assert parts[1..][1..] == ["b"];
    assert Push(false, ["a"], "..") == [];
    assert Fold(false, [], ["b"]) == ["b"];
  }
}
