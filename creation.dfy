/**
 * `makedir` (riakfs.py:338-396) as a function of the tree: its checks in
 * the order the source makes them, the loop that creates missing
 * ancestors, and what the call leaves behind.
 */
module Creation {
  import opened Wrappers
  import opened Errors
  import opened Records
  import opened Store
  import opened Paths
  import opened Entries
  import opened Tree
  import opened Effects

  /** `segs[:-1]`: every segment but the last, and nothing for no segments. */
  function AllButLast(segs: seq<string>): (r: seq<string>)
    ensures segs != [] ==> r + [segs[|segs| - 1]] == segs
    ensures segs == [] ==> r == []
  {
    if segs == [] then [] else segs[..|segs| - 1]
  }

  /**
   * The ancestor loop of `makedir` (riakfs.py:361-366): walking from `n`,
   * a missing segment ends the walk, a file found on it is
   * `ResourceInvalid`, and a node without a dictionary cannot be searched.
   */
  function AncestorCheck(n: Node, segs: seq<string>): (r: Outcome<FsError>)
    ensures r.Fail? ==> r.error in {ResourceInvalid, TypeFault}
    decreases |segs|
  {
    if segs == [] then Pass
    else if n.contents.NoDict? then Fail(TypeFault)
    else if segs[0] !in n.contents.entries then Pass
    else if n.contents.entries[segs[0]].kind != Dir then Fail(ResourceInvalid)
    else AncestorCheck(n.contents.entries[segs[0]], segs[1..])
  }

  /** Every node the walk along `segs` finds, `n` included, has a dictionary. */
  ghost predicate DirsAlong(n: Node, segs: seq<string>)
    decreases |segs|
  {
    && n.contents.Dict?
    && (segs != [] && segs[0] in n.contents.entries ==> DirsAlong(n.contents.entries[segs[0]], segs[1..]))
  }

  /** The empty directory `_make_dir_entry("dir", name)` creates under a parent with path `parentPath`. */
  function NewDir(parentPath: string, name: string, now: TimeTuple): (d: Node)
    ensures d.kind == Dir && d.contents == Dict(map[])
  {
    ChildEntry(parentPath, Dir, name, NoDict, now)
  }

  /** The child the walk enters at its first segment: the existing one, or a new empty directory. */
  function WalkChild(n: Node, c: string, now: TimeTuple): (child: Node)
    requires n.contents.Dict?
    ensures c in n.contents.entries ==> child == n.contents.entries[c]
    ensures c !in n.contents.entries ==> child == NewDir(n.path, c, now)
  {
    if c in n.contents.entries then n.contents.entries[c] else NewDir(n.path, c, now)
  }

  /**
   * The creation loop of `makedir` (riakfs.py:368-376): walking from `n`,
   * a missing segment is created as an empty directory and the walk goes
   * on into it.
   */
  function EnsureDirs(n: Node, segs: seq<string>, now: TimeTuple): (r: Node)
    requires DirsAlong(n, segs)
    ensures r == n.(contents := r.contents) && r.contents.Dict?
    ensures Lookup(r, segs).Some? && Lookup(r, segs).value.contents.Dict?
    decreases |segs|
  {
    if segs == [] then n
    else
      var c := segs[0];
      var child := WalkChild(n, c, now);
      var built := EnsureDirs(child, segs[1..], now);
      var r := n.(contents := Dict(n.contents.entries[c := built]));
      assert Lookup(r, segs) == Lookup(built, segs[1..]);
      r
  }

  /**
   * The last step of `makedir` (riakfs.py:385-396), at the parent the walk
   * found or built: a parent without a dictionary cannot be searched, an
   * existing directory is `DestinationExists` unless recreating is allowed,
   * an existing file is `ResourceInvalid`, and a missing name is created.
   */
  function FinalStep(tree: Node, objects: map<string, Stored>, dirSegs: seq<string>, name: string,
                     allow: bool, now: TimeTuple): (e: Effect)
    requires Lookup(tree, dirSegs).Some?
    ensures e.outcome.Pass? ==> e.dirtied
    ensures e.outcome.Fail? ==> e.root == tree && !e.dirtied
    ensures e.objects == objects
  {
    var parent := Lookup(tree, dirSegs).value;
    if parent.contents.NoDict? then Effect(Fail(TypeFault), tree, objects, false)
    else if name in parent.contents.entries then
      if parent.contents.entries[name].kind == Dir then
        if allow then Effect(Pass, tree, objects, true) else Effect(Fail(DestinationExists), tree, objects, false)
      else Effect(Fail(ResourceInvalid), tree, objects, false)
    else Effect(Pass, Linked(tree, dirSegs, Dir, name, now), objects, true)
  }

  /** The ancestor check passing, and the parent not being a file, make the creation walk safe. */
  lemma {:induction false} ChecksGiveDirsAlong(n: Node, segs: seq<string>)
    requires WellFormed(n) && n.contents.Dict?
    requires AncestorCheck(n, AllButLast(segs)) == Pass
    requires Lookup(n, segs).Some? ==> Lookup(n, segs).value.kind == Dir
    ensures DirsAlong(n, segs)
    decreases |segs|
  {
    if segs != [] && segs[0] in n.contents.entries {
      var child := n.contents.entries[segs[0]];
      var rest := segs[1..];
      if rest != [] {
        assert AllButLast(segs) == [segs[0]] + AllButLast(rest);
        ChecksGiveDirsAlong(child, rest);
      }
    }
  }

  /**
   * `makedir(path, recursive, allow_recreate)` (riakfs.py:338-396). The
   * bucket is not touched; `objects` is passed through.
   */
  function Makedir(root: Node, objects: map<string, Stored>, path: PathName, recursive: bool, allow: bool,
                   now: TimeTuple): (e: Effect)
    requires WellFormed(root)
    ensures e.objects == objects
  {
    if !path.NonEmpty() && !allow then Refused(root, objects, PathError)
    else if path.segments == [] then
      if allow then Effect(Pass, root, objects, false) else Refused(root, objects, DestinationExists)
    else
      var (dir, name) := path.Split();
      var parent := Lookup(root, dir.segments);
      if recursive then MakedirAlong(root, objects, dir.segments, name, allow, now)
      else if parent.None? then Refused(root, objects, ParentDirectoryMissing)
      else FinalStep(root, objects, dir.segments, name, allow, now)
  }

  /**
   * The recursive mode of `makedir` (riakfs.py:349-378) for the directory
   * `name` under `dirSegs`: the checks on the parent and on the ancestors,
   * then the walk that creates the missing ones, then the last step.
   */
  function MakedirAlong(root: Node, objects: map<string, Stored>, dirSegs: seq<string>, name: string, allow: bool,
                        now: TimeTuple): (e: Effect)
    requires WellFormed(root)
    ensures e.objects == objects
  {
    var parent := Lookup(root, dirSegs);
    if parent.Some? && parent.value.kind == File then Refused(root, objects, ResourceInvalid)
    else if parent.Some? && !allow && parent.value.contents.Dict? && name in parent.value.contents.entries
    then Refused(root, objects, DestinationExists)
    else
      var ancestors := AncestorCheck(root, AllButLast(dirSegs));
      if ancestors.Fail? then Refused(root, objects, ancestors.error)
      else if root.contents.NoDict? then Refused(root, objects, TypeFault)
      else
        ChecksGiveDirsAlong(root, dirSegs);
        FinalStep(EnsureDirs(root, dirSegs, now), objects, dirSegs, name, allow, now)
  }

  /** One step of the walk: the first segment links the walk from its child. */
  lemma EnsureDirsStep(n: Node, segs: seq<string>, now: TimeTuple)
    requires DirsAlong(n, segs) && segs != []
    ensures DirsAlong(WalkChild(n, segs[0], now), segs[1..])
    ensures EnsureDirs(n, segs, now)
              == n.(contents := Dict(n.contents.entries[segs[0] := EnsureDirs(WalkChild(n, segs[0], now), segs[1..], now)]))
  {
  }

  /** The creation walk over a path that already exists creates nothing. */
  lemma {:induction false} EnsureDirsExisting(n: Node, segs: seq<string>, now: TimeTuple)
    requires DirsAlong(n, segs) && Lookup(n, segs).Some?
    ensures EnsureDirs(n, segs, now) == n
    decreases |segs|
  {
    if segs != [] {
      var c := segs[0];
      EnsureDirsStep(n, segs, now);
      EnsureDirsExisting(n.contents.entries[c], segs[1..], now);
      assert n.contents.entries[c := n.contents.entries[c]] == n.contents.entries;
    }
  }

  /** Where the path did not exist, the walk ends at an empty directory it has just made. */
  lemma {:induction false} EnsureDirsFreshEnd(n: Node, segs: seq<string>, now: TimeTuple)
    requires DirsAlong(n, segs) && Lookup(n, segs).None?
    ensures Lookup(EnsureDirs(n, segs, now), segs).value.contents == Dict(map[])
    decreases |segs|
  {
    EnsureDirsStep(n, segs, now);
    var child := WalkChild(n, segs[0], now);
    if segs[1..] != [] {
      EnsureDirsFreshEnd(child, segs[1..], now);
    }
  }

  /** The walk changes nothing off the path it walks. */
  lemma {:induction false} EnsureDirsOffPath(n: Node, segs: seq<string>, now: TimeTuple, t: seq<string>)
    requires DirsAlong(n, segs) && !(t <= segs)
    ensures Lookup(EnsureDirs(n, segs, now), t) == Lookup(n, t)
    decreases |segs|
  {
    if segs != [] {
      var c := segs[0];
      var child := WalkChild(n, c, now);
      EnsureDirsStep(n, segs, now);
      LookupLink(n, c, EnsureDirs(child, segs[1..], now), t);
      if t[0] == c {
        assert !(t[1..] <= segs[1..]);
        EnsureDirsOffPath(child, segs[1..], now, t[1..]);
        if c !in n.contents.entries {
          assert t[1..] != [];
          assert Lookup(child, t[1..]).None?;
        }
      }
    }
  }

  /** Every node the walk passes through exists afterwards and has a dictionary. */
  lemma {:induction false} EnsureDirsChain(n: Node, segs: seq<string>, now: TimeTuple, p: seq<string>)
    requires DirsAlong(n, segs) && p <= segs
    ensures Lookup(EnsureDirs(n, segs, now), p).Some?
    ensures Lookup(EnsureDirs(n, segs, now), p).value.contents.Dict?
    decreases |segs|
  {
    if p != [] {
      var child := WalkChild(n, segs[0], now);
      EnsureDirsStep(n, segs, now);
      LookupLink(n, segs[0], EnsureDirs(child, segs[1..], now), p);
      assert p[1..] <= segs[1..];
      EnsureDirsChain(child, segs[1..], now, p[1..]);
    }
  }

  /** The walk keeps a well-formed tree well formed. */
  lemma {:induction false} EnsureDirsWellFormed(n: Node, segs: seq<string>, now: TimeTuple)
    requires WellFormed(n) && DirsAlong(n, segs)
    ensures WellFormed(EnsureDirs(n, segs, now))
    decreases |segs|
  {
    if segs != [] {
      var c := segs[0];
      var child := WalkChild(n, c, now);
      EnsureDirsStep(n, segs, now);
      ChildEntryWellFormed(n.path, Dir, c, now);
      EnsureDirsWellFormed(child, segs[1..], now);
      LinkWellFormed(n, c, EnsureDirs(child, segs[1..], now));
    }
  }

  /** Walking a path whose extension exists meets only directories. */
  lemma {:induction false} AncestorCheckExisting(n: Node, segs: seq<string>, x: string)
    requires WellFormed(n) && Lookup(n, segs + [x]).Some?
    ensures AncestorCheck(n, segs) == Pass
    decreases |segs|
  {
    if segs != [] {
      assert (segs + [x])[1..] == segs[1..] + [x];
      var child := n.contents.entries[segs[0]];
      LookupWellFormed(n, [segs[0]]);
      AncestorCheckExisting(child, segs[1..], x);
    }
  }

  /** Walking a path through a file fails at that file with `ResourceInvalid`. */
  lemma {:induction false} AncestorCheckFindsFile(n: Node, segs: seq<string>, i: nat)
    requires WellFormed(n) && 1 <= i <= |segs|
    requires Lookup(n, segs[..i]).Some? && Lookup(n, segs[..i]).value.kind == File
    ensures AncestorCheck(n, segs) == Fail(ResourceInvalid)
    decreases |segs|
  {
    var child := n.contents.entries[segs[0]];
    assert segs[..i][1..] == segs[1..][..i - 1];
    if i > 1 {
      LookupWellFormed(n, [segs[0]]);
      AncestorCheckFindsFile(child, segs[1..], i - 1);
    }
  }

  /** The last step keeps a well-formed tree well formed. */
  lemma FinalStepWellFormed(tree: Node, objects: map<string, Stored>, dirSegs: seq<string>, name: string,
                            allow: bool, now: TimeTuple)
    requires WellFormed(tree) && Lookup(tree, dirSegs).Some?
    ensures WellFormed(FinalStep(tree, objects, dirSegs, name, allow, now).root)
  {
    var parent := Lookup(tree, dirSegs).value;
    if parent.contents.Dict? && name !in parent.contents.entries {
      LinkedWellFormed(tree, dirSegs, Dir, name, now);
    }
  }

  /** What `makedir` leaves behind is well formed, whatever the outcome. */
  lemma MakedirWellFormed(root: Node, objects: map<string, Stored>, path: PathName, recursive: bool, allow: bool, now: TimeTuple)
    requires WellFormed(root)
    ensures WellFormed(Makedir(root, objects, path, recursive, allow, now).root)
  {
    if (path.NonEmpty() || allow) && path.segments != [] {
      var (dir, name) := path.Split();
      if recursive {
        MakedirAlongWellFormed(root, objects, dir.segments, name, allow, now);
      } else if Lookup(root, dir.segments).Some? {
        FinalStepWellFormed(root, objects, dir.segments, name, allow, now);
      }
    }
  }

  /** What the recursive mode leaves behind is well formed, whatever the outcome. */
  lemma MakedirAlongWellFormed(root: Node, objects: map<string, Stored>, dirSegs: seq<string>, name: string,
                               allow: bool, now: TimeTuple)
    requires WellFormed(root)
    ensures WellFormed(MakedirAlong(root, objects, dirSegs, name, allow, now).root)
  {
    if AncestorCheck(root, AllButLast(dirSegs)) == Pass && root.contents.Dict?
       && !(Lookup(root, dirSegs).Some? && Lookup(root, dirSegs).value.kind == File) {
      ChecksGiveDirsAlong(root, dirSegs);
      EnsureDirsWellFormed(root, dirSegs, now);
      FinalStepWellFormed(EnsureDirs(root, dirSegs, now), objects, dirSegs, name, allow, now);
    }
  }

  /**
   * `makedir` raises every error before it changes anything: a failed call
   * leaves the tree as it was, and does not mark the journal dirty.
   */
  lemma MakedirFailsCleanly(root: Node, objects: map<string, Stored>, path: PathName, recursive: bool, allow: bool, now: TimeTuple)
    requires WellFormed(root)
    ensures var e := Makedir(root, objects, path, recursive, allow, now);
            e.outcome.Fail? ==> e.root == root && !e.dirtied
  {
    var e := Makedir(root, objects, path, recursive, allow, now);
    if e.outcome.Fail? && path.segments != [] && recursive {
      var (dir, name) := path.Split();
      if AncestorCheck(root, AllButLast(dir.segments)) == Pass && root.contents.Dict?
         && !(Lookup(root, dir.segments).Some? && Lookup(root, dir.segments).value.kind == File) {
        ChecksGiveDirsAlong(root, dir.segments);
        if Lookup(root, dir.segments).Some? {
          EnsureDirsExisting(root, dir.segments, now);
        } else {
          EnsureDirsFreshEnd(root, dir.segments, now);
        }
      }
    }
  }

  /** A path that is empty, or names the root, is refused or accepted without a change. */
  lemma MakedirRootOrEmpty(root: Node, objects: map<string, Stored>, path: PathName, recursive: bool, allow: bool, now: TimeTuple)
    requires WellFormed(root)
    ensures var e := Makedir(root, objects, path, recursive, allow, now);
            && (!path.NonEmpty() && !allow ==> e == Refused(root, objects, PathError))
            && (path.NonEmpty() && path.segments == [] ==>
                  e == if allow then Effect(Pass, root, objects, false) else Refused(root, objects, DestinationExists))
  {
  }

  /**
   * When the named node already exists: a directory is `DestinationExists`
   * unless recreating is allowed, when the call passes and marks the
   * journal dirty without changing the tree; a file is `DestinationExists`
   * for a recursive call that does not allow recreating, and
   * `ResourceInvalid` otherwise.
   */
  lemma MakedirExistingTarget(root: Node, objects: map<string, Stored>, path: PathName, recursive: bool, allow: bool, now: TimeTuple)
    requires WellFormed(root) && path.segments != [] && Lookup(root, path.segments).Some?
    ensures var e := Makedir(root, objects, path, recursive, allow, now);
            && (Lookup(root, path.segments).value.kind == Dir ==>
                  e == if allow then Effect(Pass, root, objects, true) else Refused(root, objects, DestinationExists))
            && (Lookup(root, path.segments).value.kind == File ==>
                  e == Refused(root, objects, if recursive && !allow then DestinationExists else ResourceInvalid))
  {
    var (dir, name) := path.Split();
    LookupConcat(root, dir.segments, [name]);
    LookupWellFormed(root, dir.segments);
    if recursive && dir.segments != [] {
      var ds := dir.segments;
      assert AllButLast(ds) + [ds[|ds| - 1]] == ds;
      AncestorCheckExisting(root, AllButLast(ds), ds[|ds| - 1]);
    }
    if recursive {
      ChecksGiveDirsAlong(root, dir.segments);
      EnsureDirsExisting(root, dir.segments, now);
    }
  }

  /**
   * Without `recursive`, a missing parent is `ParentDirectoryMissing` and a
   * parent that is a file cannot be searched.
   */
  lemma MakedirFlatParent(root: Node, objects: map<string, Stored>, path: PathName, allow: bool, now: TimeTuple)
    requires WellFormed(root) && path.segments != []
    ensures var e := Makedir(root, objects, path, false, allow, now);
            var parent := Lookup(root, path.Split().0.segments);
            && (parent.None? ==> e == Refused(root, objects, ParentDirectoryMissing))
            && (parent.Some? && parent.value.kind == File ==> e == Refused(root, objects, TypeFault))
  {
    if Lookup(root, path.Split().0.segments).Some? {
      LookupWellFormed(root, path.Split().0.segments);
    }
  }

  /** A file met strictly above the named node makes a recursive call fail with `ResourceInvalid`. */
  lemma MakedirFileOnChain(root: Node, objects: map<string, Stored>, path: PathName, allow: bool, now: TimeTuple, i: nat)
    requires WellFormed(root) && 1 <= i < |path.segments|
    requires Lookup(root, path.segments[..i]).Some? && Lookup(root, path.segments[..i]).value.kind == File
    ensures Makedir(root, objects, path, true, allow, now) == Refused(root, objects, ResourceInvalid)
  {
    var segs := path.segments;
    var (dir, name) := path.Split();
    var ds := dir.segments;
    if i < |ds| {
      var f := Lookup(root, segs[..i]).value;
      LookupWellFormed(root, segs[..i]);
      assert ds == segs[..i] + ds[i..];
      LookupConcat(root, segs[..i], ds[i..]);
      assert Lookup(root, ds).None?;
      assert AllButLast(ds)[..i] == segs[..i];
      AncestorCheckFindsFile(root, AllButLast(ds), i);
    } else {
      assert ds == segs[..i];
    }
  }

  /**
   * The last step creating a missing name: the parent gains a new empty
   * directory under that name, and every path that neither leads to nor
   * passes through it walks as before.
   */
  lemma FinalStepCreates(tree: Node, objects: map<string, Stored>, dirSegs: seq<string>, name: string,
                         allow: bool, now: TimeTuple)
    requires Lookup(tree, dirSegs).Some?
    requires Lookup(tree, dirSegs).value.contents.Dict? && name !in Lookup(tree, dirSegs).value.contents.entries
    ensures var r := FinalStep(tree, objects, dirSegs, name, allow, now).root;
            && Lookup(r, dirSegs).Some? && Lookup(r, dirSegs).value.path == Lookup(tree, dirSegs).value.path
            && Lookup(r, dirSegs + [name]) == Some(NewDir(Lookup(tree, dirSegs).value.path, name, now))
    ensures var r := FinalStep(tree, objects, dirSegs, name, allow, now).root;
            forall t :: !(t <= dirSegs + [name]) && !(dirSegs + [name] <= t) ==> Lookup(r, t) == Lookup(tree, t)
  {
    LinkedChild(tree, dirSegs, Dir, name, now);
    forall t | !(t <= dirSegs + [name]) && !(dirSegs + [name] <= t)
      ensures Lookup(FinalStep(tree, objects, dirSegs, name, allow, now).root, t) == Lookup(tree, t)
    {
      LinkedBeside(tree, dirSegs, Dir, name, now, t);
    }
  }

  /** Beside a freshly built chain, one path at a time: see `EnsureDirsBeside`. */
  lemma EnsureDirsBesideFresh(n: Node, ds: seq<string>, name: string, now: TimeTuple, t: seq<string>)
    requires DirsAlong(n, ds) && Lookup(n, ds).None?
    requires !(t <= ds + [name]) && !(ds + [name] <= t)
    ensures Lookup(EnsureDirs(n, ds, now), t) == Lookup(n, t)
  {
    if ds <= t {
      var tree := EnsureDirs(n, ds, now);
      BranchesOff(ds, name, t);
      EnsureDirsFreshEnd(n, ds, now);
      LookupThrough(n, ds, t);
      LookupThrough(tree, ds, t);
    } else {
      EnsureDirsOffPath(n, ds, now, t);
    }
  }

  /**
   * The creation walk towards a missing node's parent leaves that node
   * missing and every path that neither leads to nor passes through it as
   * it was.
   */
  lemma EnsureDirsBeside(n: Node, ds: seq<string>, name: string, now: TimeTuple)
    requires DirsAlong(n, ds) && Lookup(n, ds + [name]).None?
    ensures var tree := EnsureDirs(n, ds, now);
            name !in Lookup(tree, ds).value.contents.entries
    ensures var tree := EnsureDirs(n, ds, now);
            forall t :: !(t <= ds + [name]) && !(ds + [name] <= t) ==> Lookup(tree, t) == Lookup(n, t)
  {
    LookupConcat(n, ds, [name]);
    if Lookup(n, ds).Some? {
      EnsureDirsExisting(n, ds, now);
    } else {
      EnsureDirsFreshEnd(n, ds, now);
      forall t | !(t <= ds + [name]) && !(ds + [name] <= t)
        ensures Lookup(EnsureDirs(n, ds, now), t) == Lookup(n, t)
      {
        EnsureDirsBesideFresh(n, ds, name, now, t);
      }
    }
  }

  /**
   * A call that creates the named directory: afterwards the walk to it
   * finds a new empty directory made under its parent, and every path that
   * neither leads to nor passes through it walks as before.
   */
  lemma MakedirCreates(root: Node, objects: map<string, Stored>, path: PathName, recursive: bool, allow: bool, now: TimeTuple)
    requires WellFormed(root) && path.segments != [] && Lookup(root, path.segments).None?
    requires Makedir(root, objects, path, recursive, allow, now).outcome.Pass?
    ensures var r := Makedir(root, objects, path, recursive, allow, now).root;
            var ds := path.Split().0.segments;
            && Lookup(r, ds).Some?
            && Lookup(r, path.segments) == Some(NewDir(Lookup(r, ds).value.path, path.Split().1, now))
    ensures var r := Makedir(root, objects, path, recursive, allow, now).root;
            forall t :: !(t <= path.segments) && !(path.segments <= t) ==> Lookup(r, t) == Lookup(root, t)
  {
    var (dir, name) := path.Split();
    var ds := dir.segments;
    if recursive {
      MakedirAlongCreates(root, objects, ds, name, allow, now);
    } else {
      LookupConcat(root, ds, [name]);
      FinalStepCreates(root, objects, ds, name, allow, now);
    }
  }

  /** `MakedirCreates` for the recursive mode, where the missing ancestors are made first. */
  lemma MakedirAlongCreates(root: Node, objects: map<string, Stored>, ds: seq<string>, name: string,
                            allow: bool, now: TimeTuple)
    requires WellFormed(root) && Lookup(root, ds + [name]).None?
    requires MakedirAlong(root, objects, ds, name, allow, now).outcome.Pass?
    ensures var r := MakedirAlong(root, objects, ds, name, allow, now).root;
            && Lookup(r, ds).Some?
            && Lookup(r, ds + [name]) == Some(NewDir(Lookup(r, ds).value.path, name, now))
    ensures var r := MakedirAlong(root, objects, ds, name, allow, now).root;
            forall t :: !(t <= ds + [name]) && !(ds + [name] <= t) ==> Lookup(r, t) == Lookup(root, t)
  {
    ChecksGiveDirsAlong(root, ds);
    var tree := EnsureDirs(root, ds, now);
    EnsureDirsBeside(root, ds, name, now);
    FinalStepCreates(tree, objects, ds, name, allow, now);
  }

  /**
   * The creation loop of `makedir` walks down from the root, keeping the
   * tree it has built so far and the node it stands on; what is left to
   * build below that node, put back into the tree, is the whole walk.
   */
  ghost predicate WalkState(root: Node, ds: seq<string>, now: TimeTuple,
                            tree: Node, cur: Node, done: seq<string>, rest: seq<string>)
  {
    && DirsAlong(root, ds)
    && done + rest == ds
    && Lookup(tree, done) == Some(cur)
    && DirsAlong(cur, rest)
    && Update(tree, done, EnsureDirs(cur, rest, now)) == EnsureDirs(root, ds, now)
  }

  /** Stepping into an existing child keeps the walk state. */
  lemma WalkIntoExisting(root: Node, ds: seq<string>, now: TimeTuple,
                         tree: Node, cur: Node, done: seq<string>, rest: seq<string>)
    requires WalkState(root, ds, now, tree, cur, done, rest) && rest != []
    requires rest[0] in cur.contents.entries
    ensures WalkState(root, ds, now, tree, cur.contents.entries[rest[0]], done + [rest[0]], rest[1..])
  {
    var c := rest[0];
    var item := cur.contents.entries[c];
    var below := EnsureDirs(item, rest[1..], now);
    EnsureDirsStep(cur, rest, now);
    assert DirsAlong(item, rest[1..]);
    assert EnsureDirs(cur, rest, now) == cur.(contents := Dict(cur.contents.entries[c := below]));
    LookupConcat(tree, done, [c]);
    LookupChild(cur, c);
    UpdateExtend(tree, done, c, below);
    assert Update(tree, done + [c], below) == Update(tree, done, EnsureDirs(cur, rest, now));
    ShiftSegment(done, rest);
  }

  /** Creating a missing child and stepping into it keeps the walk state. */
  lemma WalkIntoCreated(root: Node, ds: seq<string>, now: TimeTuple,
                        tree: Node, cur: Node, done: seq<string>, rest: seq<string>)
    requires WalkState(root, ds, now, tree, cur, done, rest) && rest != []
    requires rest[0] !in cur.contents.entries
    ensures WalkState(root, ds, now, Linked(tree, done, Dir, rest[0], now), NewDir(cur.path, rest[0], now),
                      done + [rest[0]], rest[1..])
  {
    var c := rest[0];
    var made := NewDir(cur.path, c, now);
    var m := cur.(contents := Dict(cur.contents.entries[c := made]));
    var tree' := Linked(tree, done, Dir, c, now);
    LinkedChild(tree, done, Dir, c, now);
    assert tree' == Update(tree, done, m);
    EnsureDirsStep(cur, rest, now);
    var below := EnsureDirs(made, rest[1..], now);
    UpdateExtend(tree', done, c, below);
    ReplaceTwice(cur.contents.entries, c, made, below);
    UpdateUpdate(tree, done, m, cur.(contents := Dict(cur.contents.entries[c := below])));
    ShiftSegment(done, rest);
  }

  /** The walk state at the end of the loop: the tree built is the whole walk. */
  lemma WalkDone(root: Node, ds: seq<string>, now: TimeTuple, tree: Node, cur: Node, done: seq<string>)
    requires WalkState(root, ds, now, tree, cur, done, [])
    ensures tree == EnsureDirs(root, ds, now) && done == ds && Lookup(tree, ds) == Some(cur)
  {
    assert done + [] == done;
    UpdateSelf(tree, done);
  }
}
