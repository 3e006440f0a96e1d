/**
 * `remove` and `removedir` (riakfs.py:295-336) as functions of the tree
 * and the bucket, and what they delete.
 */
module Removal {
  import opened Wrappers
  import opened Errors
  import opened Records
  import opened Store
  import opened Paths
  import opened Entries
  import opened Tree
  import opened Effects

  /**
   * `self._get_dir_entry(dirSegs).remove(name)`: a missing parent has no
   * `remove` and a file parent has no dictionary (both `TypeFault`), a
   * missing name is a `KeyError`; otherwise the child is unlinked and its
   * store keys deleted.
   */
  ghost function RemoveChildAt(root: Node, objects: map<string, Stored>, dirSegs: seq<string>, name: string): (e: Effect)
    requires WellFormed(root)
    ensures WellFormed(e.root) && !e.dirtied
    ensures e.outcome.Fail? ==> e.outcome.error in {TypeFault, KeyFault}
    ensures e.outcome.Pass? ==> e.root.contents.Dict?
    ensures e.outcome.Pass? && dirSegs == [] ==>
              root.contents.Dict? && |e.root.contents.entries| < |root.contents.entries|
  {
    var parent := Lookup(root, dirSegs);
    if parent.None? || parent.value.contents.NoDict? then Refused(root, objects, TypeFault)
    else if name !in parent.value.contents.entries then Refused(root, objects, KeyFault)
    else
      var dir := parent.value;
      LookupWellFormed(root, dirSegs);
      DroppedWellFormed(dir, name);
      UpdateWellFormed(root, dirSegs, Dropped(dir, name));
      assert dirSegs != [] ==> Lookup(root, dirSegs).Some?;
      assert dirSegs == [] ==> dir.contents.entries.Keys - {name} < dir.contents.entries.Keys;
      Effect(Pass, Update(root, dirSegs, Dropped(dir, name)),
             Purged(objects, dir.path, name, dir.contents.entries[name]), false)
  }

  /** `remove(path)` (riakfs.py:295-309): files only. */
  ghost function RemoveFile(root: Node, objects: map<string, Stored>, path: PathName): (e: Effect)
    requires WellFormed(root)
    ensures WellFormed(e.root)
  {
    var entry := Lookup(root, path.segments);
    if entry.None? then Refused(root, objects, ResourceNotFound)
    else if entry.value.kind == Dir then Refused(root, objects, ResourceInvalid)
    else
      var (dir, name) := path.Split();
      var e := RemoveChildAt(root, objects, dir.segments, name);
      e.(dirtied := e.outcome.Pass?)
  }

  /**
   * The recursive loop of `removedir` (riakfs.py:325-329): split the path,
   * remove its last segment from the node its head names, and go on with
   * the head while it is non-empty. An absolute path keeps "/" as its head,
   * whose last segment is "".
   */
  ghost function RemoveUpward(root: Node, objects: map<string, Stored>, rp: PathName): (e: Effect)
    requires WellFormed(root)
    ensures WellFormed(e.root) && !e.dirtied
    ensures e.outcome.Fail? ==> e.outcome.error in {TypeFault, KeyFault}
    decreases |rp.segments|, if root.contents.Dict? then |root.contents.entries| else 0
  {
    if !rp.NonEmpty() then Effect(Pass, root, objects, false)
    else
      var (up, name) := rp.Split();
      var e := RemoveChildAt(root, objects, up.segments, name);
      if e.outcome.Fail? then e else RemoveUpward(e.root, e.objects, up)
  }

  /** `removedir(path, recursive, force)` (riakfs.py:311-336). */
  ghost function RemoveDir(root: Node, objects: map<string, Stored>, path: PathName, recursive: bool, force: bool): (e: Effect)
    requires WellFormed(root)
    ensures WellFormed(e.root)
  {
    var entry := Lookup(root, path.segments);
    if entry.None? then Refused(root, objects, ResourceNotFound)
    else if entry.value.kind != Dir then Refused(root, objects, ResourceInvalid)
    else if entry.value.HasChildren() && !force then Refused(root, objects, DirectoryNotEmpty)
    else
      var e := if recursive then RemoveUpward(root, objects, path)
               else var (dir, name) := path.Split(); RemoveChildAt(root, objects, dir.segments, name);
      e.(dirtied := e.outcome.Pass?)
  }

  /** Removing a file deletes exactly the key of the parent's path followed by its name. */
  lemma PurgedFile(objects: map<string, Stored>, dirPath: string, name: string, entry: Node)
    requires entry.kind == File
    ensures Purged(objects, dirPath, name, entry) == objects - {dirPath + name}
  {
    assert forall k :: DeletesKey(dirPath, name, entry, k) <==> k == dirPath + name;
  }

  /**
   * Removing a file from its directory unlinks it and deletes exactly the
   * key of its bytes, the directory's path followed by its name.
   */
  lemma RemoveChildFile(root: Node, objects: map<string, Stored>, dirSegs: seq<string>, name: string)
    requires WellFormed(root)
    requires Lookup(root, dirSegs + [name]).Some? && Lookup(root, dirSegs + [name]).value.kind == File
    ensures Lookup(root, dirSegs).Some? && Lookup(root, dirSegs).value.contents.Dict?
    ensures var dir := Lookup(root, dirSegs).value;
            RemoveChildAt(root, objects, dirSegs, name)
              == Effect(Pass, Update(root, dirSegs, Dropped(dir, name)), objects - {dir.path + name}, false)
  {
    LookupConcat(root, dirSegs, [name]);
    var dir := Lookup(root, dirSegs).value;
    PurgedFile(objects, dir.path, name, dir.contents.entries[name]);
  }

  /** Every key a removal deletes starts with '/', so the journal key "__VFS__" is never one of them. */
  lemma {:induction false} DeletedKeysAbsolute(dirPath: string, name: string, entry: Node, key: string)
    requires WellFormed(entry) && |dirPath| > 0 && dirPath[0] == '/'
    requires DeletesKey(dirPath, name, entry, key)
    ensures |key| > 0 && key[0] == '/'
    decreases entry
  {
    if entry.kind == Dir {
      var c :| c in entry.contents.entries && DeletesKey(entry.path, c, entry.contents.entries[c], key);
      DeletedKeysAbsolute(entry.path, c, entry.contents.entries[c], key);
    }
  }

  /**
   * `remove` (riakfs.py:295-309): a missing path is `ResourceNotFound`, a
   * directory `ResourceInvalid`, and a file below the root is unlinked from its parent,
   * its key (the parent's path followed by the file name) deleted and the
   * journal marked dirty.
   */
  lemma RemoveFileOutcome(root: Node, objects: map<string, Stored>, path: PathName)
    requires WellFormed(root)
    ensures var e := RemoveFile(root, objects, path);
            && (Lookup(root, path.segments).None? ==> e == Refused(root, objects, ResourceNotFound))
            && (Lookup(root, path.segments).Some? && Lookup(root, path.segments).value.kind == Dir ==>
                  e == Refused(root, objects, ResourceInvalid))
    ensures var e := RemoveFile(root, objects, path);
            var (dir, name) := path.Split();
            path.segments != [] && Lookup(root, path.segments).Some? && Lookup(root, path.segments).value.kind == File ==>
              && Lookup(root, dir.segments).Some?
              && var parent := Lookup(root, dir.segments).value;
              && parent.contents.Dict?
              && e.outcome == Pass && e.dirtied
              && Lookup(e.root, dir.segments) == Some(Dropped(parent, name))
              && Lookup(e.root, path.segments).None?
              && e.objects == objects - {parent.path + name}
  {
    var entry := Lookup(root, path.segments);
    var (dir, name) := path.Split();
    if path.segments != [] && entry.Some? && entry.value.kind == File {
      LookupConcat(root, dir.segments, [name]);
      var parent := Lookup(root, dir.segments).value;
      PurgedFile(objects, parent.path, name, parent.contents.entries[name]);
      var e := RemoveFile(root, objects, path);
      LookupConcat(e.root, dir.segments, [name]);
    }
  }

  /**
   * Removing a grandchild first and the whole subtree afterwards deletes
   * what removing the subtree at once deletes: a key goes with `Y` exactly
   * when it goes with the child `c` of the node `X` at `q` below `Y`, or
   * with what is left of `Y` once `c` is unlinked.
   */
  lemma {:induction false} DeletesKeyNested(dirPath: string, name: string, y: Node, q: seq<string>, c: string, key: string)
    requires WellFormed(y) && Lookup(y, q).Some?
    requires Lookup(y, q).value.contents.Dict? && c in Lookup(y, q).value.contents.entries
    ensures var x := Lookup(y, q).value;
            DeletesKey(dirPath, name, y, key) <==>
              || DeletesKey(x.path, c, x.contents.entries[c], key)
              || DeletesKey(dirPath, name, Update(y, q, Dropped(x, c)), key)
    decreases |q|
  {
    var x := Lookup(y, q).value;
    var y' := Update(y, q, Dropped(x, c));
    if q == [] {
      if DeletesKey(dirPath, name, y, key) {
        var c' :| c' in y.contents.entries && DeletesKey(y.path, c', y.contents.entries[c'], key);
        if c' != c {
          assert c' in y'.contents.entries;
        }
      }
    } else {
      var q0 := q[0];
      var child := y.contents.entries[q0];
      LookupWellFormed(y, [q0]);
      DeletesKeyNested(y.path, q0, child, q[1..], c, key);
      assert y'.contents.entries[q0] == Update(child, q[1..], Dropped(x, c));
      if DeletesKey(dirPath, name, y, key) {
        var c' :| c' in y.contents.entries && DeletesKey(y.path, c', y.contents.entries[c'], key);
        if c' != q0 {
          assert y'.contents.entries[c'] == y.contents.entries[c'];
        }
      }
      if DeletesKey(dirPath, name, y', key) {
        var c' :| c' in y'.contents.entries && DeletesKey(y.path, c', y'.contents.entries[c'], key);
        if c' != q0 {
          assert y'.contents.entries[c'] == y.contents.entries[c'];
        }
      }
    }
  }

  /** The bucket after the two removals of `DeletesKeyNested` is the bucket after the one. */
  lemma PurgedNested(objects: map<string, Stored>, dirPath: string, name: string, y: Node, q: seq<string>, c: string)
    requires WellFormed(y) && Lookup(y, q).Some?
    requires Lookup(y, q).value.contents.Dict? && c in Lookup(y, q).value.contents.entries
    ensures var x := Lookup(y, q).value;
            Purged(Purged(objects, x.path, c, x.contents.entries[c]), dirPath, name, Update(y, q, Dropped(x, c)))
              == Purged(objects, dirPath, name, y)
  {
    forall key
      ensures var x := Lookup(y, q).value;
              DeletesKey(dirPath, name, y, key) <==>
                || DeletesKey(x.path, c, x.contents.entries[c], key)
                || DeletesKey(dirPath, name, Update(y, q, Dropped(x, c)), key)
    {
      DeletesKeyNested(dirPath, name, y, q, c, key);
    }
  }

  /** One pass of the upward walk over a path of existing nodes: its last segment is unlinked. */
  lemma RemoveUpwardStep(root: Node, objects: map<string, Stored>, absolute: bool, segs: seq<string>)
    requires WellFormed(root) && segs != [] && Lookup(root, segs).Some?
    ensures var up := segs[..|segs| - 1];
            && Lookup(root, up).Some?
            && var x := Lookup(root, up).value;
            && x.contents.Dict? && segs[|segs| - 1] in x.contents.entries
            && RemoveUpward(root, objects, PathName(absolute, segs))
                 == RemoveUpward(Update(root, up, Dropped(x, segs[|segs| - 1])),
                                 Purged(objects, x.path, segs[|segs| - 1], x.contents.entries[segs[|segs| - 1]]),
                                 PathName(absolute, up))
  {
    var up := segs[..|segs| - 1];
    assert segs == up + [segs[|segs| - 1]];
    LookupConcat(root, up, [segs[|segs| - 1]]);
  }

  /**
   * Unlinking a node deep inside the entry `s1` and then `s1` itself
   * leaves the tree and the bucket that unlinking `s1` at once leaves.
   */
  lemma DroppedAfterInner(root: Node, objects: map<string, Stored>, up: seq<string>, name: string)
    requires WellFormed(root) && up != [] && Lookup(root, up).Some?
    requires Lookup(root, up).value.contents.Dict? && name in Lookup(root, up).value.contents.entries
    ensures root.contents.Dict? && up[0] in root.contents.entries
    ensures var x := Lookup(root, up).value;
            var root1 := Update(root, up, Dropped(x, name));
            && root1.contents.Dict? && up[0] in root1.contents.entries
            && Dropped(root1, up[0]) == Dropped(root, up[0])
            && Purged(Purged(objects, x.path, name, x.contents.entries[name]), root1.path, up[0], root1.contents.entries[up[0]])
                 == Purged(objects, root.path, up[0], root.contents.entries[up[0]])
  {
    var s1 := up[0];
    var x := Lookup(root, up).value;
    var root1 := Update(root, up, Dropped(x, name));
    var y := root.contents.entries[s1];
    assert root1.contents.entries[s1] == Update(y, up[1..], Dropped(x, name));
    assert root1.contents.entries - {s1} == root.contents.entries - {s1};
    LookupWellFormed(root, [s1]);
    assert [s1] + up[1..] == up;
    LookupConcat(root, [s1], up[1..]);
    PurgedNested(objects, root.path, s1, y, up[1..], name);
  }

  /**
   * Walking a path of existing nodes upward removes, in the end, the whole
   * subtree of its first segment from the top: each pass unlinks the last
   * segment from its parent, and the last pass unlinks the first segment
   * from the node the walk started at. What remains is the walk from the
   * empty path.
   */
  lemma {:induction false} RemoveUpwardSegments(root: Node, objects: map<string, Stored>, absolute: bool, segs: seq<string>)
    requires WellFormed(root) && segs != [] && Lookup(root, segs).Some?
    ensures root.contents.Dict? && segs[0] in root.contents.entries
    ensures WellFormed(Dropped(root, segs[0]))
    ensures RemoveUpward(root, objects, PathName(absolute, segs))
              == RemoveUpward(Dropped(root, segs[0]),
                              Purged(objects, root.path, segs[0], root.contents.entries[segs[0]]),
                              PathName(absolute, []))
    decreases |segs|
  {
    DroppedWellFormed(root, segs[0]);
    RemoveUpwardStep(root, objects, absolute, segs);
    var up := segs[..|segs| - 1];
    var name := segs[|segs| - 1];
    var x := Lookup(root, up).value;
    var root1 := Update(root, up, Dropped(x, name));
    var objects1 := Purged(objects, x.path, name, x.contents.entries[name]);
    if up != [] {
      LookupWellFormed(root, up);
      DroppedWellFormed(x, name);
      UpdateWellFormed(root, up, Dropped(x, name));
      RemoveUpwardSegments(root1, objects1, absolute, up);
      DroppedAfterInner(root, objects, up, name);
    }
  }

  /**
   * The walk from "/" ends in a `KeyError` on `root.remove('')`: a child
   * named "" is removed by the first pass, and the next pass finds none.
   */
  lemma RemoveUpwardFromSlash(root: Node, objects: map<string, Stored>)
    requires WellFormed(root) && root.contents.Dict?
    ensures RemoveUpward(root, objects, PathName(true, [])).outcome == Fail(KeyFault)
  {
    var slash := PathName(true, []);
    if "" in root.contents.entries {
      var e := RemoveChildAt(root, objects, [], "");
      assert e.root == Dropped(root, "");
      assert RemoveUpward(e.root, e.objects, slash) == Refused(e.root, e.objects, KeyFault);
    }
  }

  /**
   * `removedir` (riakfs.py:311-336) refuses a missing path with
   * `ResourceNotFound`, a file with `ResourceInvalid`, and a directory with
   * children with `DirectoryNotEmpty` unless forced, before touching
   * anything.
   */
  lemma RemoveDirRefusals(root: Node, objects: map<string, Stored>, path: PathName, recursive: bool, force: bool)
    requires WellFormed(root)
    ensures var e := RemoveDir(root, objects, path, recursive, force);
            var entry := Lookup(root, path.segments);
            && (entry.None? <==> e == Refused(root, objects, ResourceNotFound))
            && ((entry.Some? && entry.value.kind == File) <==> e == Refused(root, objects, ResourceInvalid))
            && ((entry.Some? && entry.value.kind == Dir && entry.value.HasChildren() && !force)
                  <==> e == Refused(root, objects, DirectoryNotEmpty))
  {
  }

  /**
   * Without `recursive`, a directory that may go (empty, or any directory
   * when forced) is unlinked from its parent with every file key below it
   * deleted; `force` alone is enough to remove a directory with children.
   */
  lemma RemoveDirFlat(root: Node, objects: map<string, Stored>, path: PathName, force: bool)
    requires WellFormed(root) && path.segments != []
    requires Lookup(root, path.segments).Some? && Lookup(root, path.segments).value.kind == Dir
    requires force || !Lookup(root, path.segments).value.HasChildren()
    ensures var (dir, name) := path.Split();
            && Lookup(root, dir.segments).Some?
            && var parent := Lookup(root, dir.segments).value;
            && parent.contents.Dict? && name in parent.contents.entries
            && RemoveDir(root, objects, path, false, force)
                 == Effect(Pass, Update(root, dir.segments, Dropped(parent, name)),
                           Purged(objects, parent.path, name, parent.contents.entries[name]), true)
  {
    var (dir, name) := path.Split();
    LookupConcat(root, dir.segments, [name]);
  }

  /**
   * With `recursive` and a relative path, the loop goes on unlinking each
   * ancestor in turn, so what goes is the whole top-level entry the path
   * starts with, with every file key below it, and not only the directory
   * the path names.
   */
  lemma RemoveDirRecursiveRelative(root: Node, objects: map<string, Stored>, segs: seq<string>, force: bool)
    requires WellFormed(root) && segs != []
    requires Lookup(root, segs).Some? && Lookup(root, segs).value.kind == Dir
    requires force || !Lookup(root, segs).value.HasChildren()
    ensures root.contents.Dict? && segs[0] in root.contents.entries
    ensures RemoveDir(root, objects, PathName(false, segs), true, force)
              == Effect(Pass, Dropped(root, segs[0]),
                        Purged(objects, root.path, segs[0], root.contents.entries[segs[0]]), true)
  {
    RemoveUpwardSegments(root, objects, false, segs);
  }

  /**
   * With `recursive` and an absolute path, the loop unlinks ancestors up to
   * "/" and then ends in a `KeyError`: the call fails, the journal is not
   * marked dirty, and the top-level entry the path starts with is gone.
   */
  lemma RemoveDirRecursiveAbsolute(root: Node, objects: map<string, Stored>, segs: seq<string>, force: bool)
    requires WellFormed(root) && segs != []
    requires Lookup(root, segs).Some? && Lookup(root, segs).value.kind == Dir
    requires force || !Lookup(root, segs).value.HasChildren()
    ensures var e := RemoveDir(root, objects, PathName(true, segs), true, force);
            && e.outcome == Fail(KeyFault) && !e.dirtied
            && root.contents.Dict? && Lookup(e.root, [segs[0]]).None?
  {
    RemoveUpwardSegments(root, objects, true, segs);
    var r1 := Dropped(root, segs[0]);
    var o1 := Purged(objects, root.path, segs[0], root.contents.entries[segs[0]]);
    RemoveUpwardFromSlash(r1, o1);
    RemoveUpwardRemovesNothingBack(r1, o1, segs[0]);
  }

  /** The walk from "/" only ever unlinks entries, so a name that is gone stays gone. */
  lemma {:induction false} RemoveUpwardRemovesNothingBack(root: Node, objects: map<string, Stored>, gone: string)
    requires WellFormed(root) && root.contents.Dict? && gone !in root.contents.entries
    ensures var e := RemoveUpward(root, objects, PathName(true, []));
            e.root.contents.Dict? && gone !in e.root.contents.entries
    decreases |root.contents.entries|
  {
    var slash := PathName(true, []);
    var e := RemoveChildAt(root, objects, [], "");
    if e.outcome.Pass? {
      RemoveUpwardRemovesNothingBack(e.root, e.objects, gone);
    }
  }
}
