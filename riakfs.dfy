/**
 * The file system object `RiakFS` (riakfs.py:197-471): the namespace tree
 * held in a field, the bucket it stores file bodies and its journal in,
 * and the operations that change both in place. Every operation is proved
 * against the function of the tree and the bucket that states what it
 * does (Removal, Creation, Renaming, Handles), and keeps the tree well
 * formed.
 */
module FileSystem {
  import opened Wrappers
  import opened Errors
  import opened Records
  import opened Store
  import opened Paths
  import opened Entries
  import opened Tree
  import opened Codec
  import opened Dirty
  import opened Effects
  import opened Removal
  import opened Creation
  import opened Renaming
  import opened Handles

  /** The key the journal is stored under (riakfs.py:199). */
  const ROOTKEY: string := "__VFS__"

  /**
   * The `dirty` attribute: the constructor stores a `DirtyFlag` object in
   * the instance, so it is never used as a descriptor, and the operations'
   * `self.dirty = True` replaces it by a plain value.
   */
  datatype DirtySlot = FlagObject(flag: DirtyFlag) | Assigned(value: bool)

  /**
   * What `load` (riakfs.py:214-220) makes of what the bucket holds under
   * the journal key: a journal record is decoded; a missing value or an
   * empty body gives a new empty root directory named after the key; a
   * non-empty body that is not a record cannot be decoded (`TypeFault`).
   */
  function Loaded(objects: map<string, Stored>, now: TimeTuple): (r: Result<Node, FsError>)
    ensures r.Success? ==> WellFormed(r.value)
    ensures r.Failure? ==> r.error == TypeFault
    ensures ROOTKEY !in objects ==> r.Success? && r.value.path == "//__VFS__/" && r.value.kind == Dir
                                    && r.value.contents == Dict(map[])
  {
    match Get(objects, ROOTKEY)
    case Some(Document(d)) =>
      if FromDict(d).Success? then DecodedWellFormed(d); FromDict(d) else FromDict(d)
    case Some(Blob(bytes)) =>
      if |bytes| > 0 then Failure(TypeFault) else Success(EmptyRoot(now))
    case None =>
      Success(EmptyRoot(now))
  }

  /** The new root directory `load` makes when there is no journal: named after the key, empty. */
  function EmptyRoot(now: TimeTuple): (r: Node)
    ensures WellFormed(r) && r.kind == Dir && r.contents == Dict(map[])
    ensures r.path == "//__VFS__/"
  {
    NewNode(Dir, ROOTKEY, None, NoDict, now)
  }

  /**
   * A file made directly under a new root is stored under its own path,
   * "/__VFS__/" followed by its name, because the root's path "//__VFS__/"
   * normalises to "/__VFS__/" as a prefix (riakfs.py:122). `remove`
   * deletes the root's path followed by the name instead (riakfs.py:161),
   * a key with the doubled slash, so the bytes stored under the file's own
   * path outlive the file.
   */
  lemma RemoveRootFileKeepsBytes(now: TimeTuple, name: string, objects: map<string, Stored>)
    ensures var tree := Linked(EmptyRoot(now), [], File, name, now);
            && WellFormed(tree)
            && Lookup(tree, [name]).Some? && Lookup(tree, [name]).value.path == "/__VFS__/" + name
            && RemoveChildAt(tree, objects, [], name).outcome == Pass
            && RemoveChildAt(tree, objects, [], name).objects == objects - {"//__VFS__/" + name}
            && ("/__VFS__/" + name in objects ==> "/__VFS__/" + name in RemoveChildAt(tree, objects, [], name).objects)
  {
    var tree := Linked(EmptyRoot(now), [], File, name, now);
    RootFilePath(now, name);
    var e := RemoveChildAt(tree, objects, [], name);
    assert e.outcome == Pass && e.objects == objects - {"//__VFS__/" + name} by {
      RemoveChildFile(tree, objects, [], name);
      assert Lookup(tree, []).value.path == "//__VFS__/";
    }
    RootFileKeysDiffer(name);
  }

  /** A file made under a new root: the tree stays well formed and the file's path is "/__VFS__/" and its name. */
  lemma RootFilePath(now: TimeTuple, name: string)
    ensures var tree := Linked(EmptyRoot(now), [], File, name, now);
            && WellFormed(tree) && tree.path == "//__VFS__/"
            && Lookup(tree, [] + [name]).Some? && Lookup(tree, [] + [name]).value.kind == File
            && Lookup(tree, [name]).Some? && Lookup(tree, [name]).value.path == "/__VFS__/" + name
  {
    var root := EmptyRoot(now);
    LinkedWellFormed(root, [], File, name, now);
    LinkedChild(root, [], File, name, now);
    var tree := Linked(root, [], File, name, now);
    assert [] + [name] == [name];
    RootPathAsPrefix();
    assert Lookup(tree, [name]).value.path == NormalPrefix(root.path) + name + "";
  }

  /** The key of a root file's bytes and the key `remove` deletes for it differ in their second character. */
  lemma RootFileKeysDiffer(name: string)
    ensures "/__VFS__/" + name != "//__VFS__/" + name
  {
    assert ("/__VFS__/" + name)[1] == '_';
    assert ("//__VFS__/" + name)[1] == '/';
  }

  /** The new root's path, used as a prefix, loses its doubled slash. */
  lemma RootPathAsPrefix()
    ensures NormalPrefix("//__VFS__/") == "/__VFS__/"
  {
    DoubledSlashPrefix("__VFS__");
    assert "//" + "__VFS__" + "/" == "//__VFS__/";
    assert "/" + "__VFS__" + "/" == "/__VFS__/";
  }

  /**
   * `load` fails exactly when the journal key holds a non-empty body, or a
   * record in which some file carries children.
   */
  lemma LoadedFailsIff(objects: map<string, Stored>, now: TimeTuple)
    ensures Loaded(objects, now).Failure? <==>
              ROOTKEY in objects
              && ((objects[ROOTKEY].Blob? && |objects[ROOTKEY].bytes| > 0)
                  || (objects[ROOTKEY].Document? && FileWithChildren(objects[ROOTKEY].doc)))
  {
    if ROOTKEY in objects && objects[ROOTKEY].Document? {
      DecodeFailsIff(objects[ROOTKEY].doc);
    }
  }

  /**
   * What `save` stores, `load` reads back: the tree comes back with the same
   * kinds, names, timestamps, attributes and children, whatever else the
   * bucket holds.
   */
  lemma SaveThenLoad(n: Node, objects: map<string, Stored>, now: TimeTuple)
    requires WellFormed(n)
    ensures Loaded(objects[ROOTKEY := Document(ToDict(n))], now).Success?
    ensures SameShape(Loaded(objects[ROOTKEY := Document(ToDict(n))], now).value, n)
  {
    RoundTrip(n);
  }

  /** The file objects registered with the node at `segs`, if there is one. */
  function OpenFilesAt(root: Node, segs: seq<string>): set<FileHandle> {
    if Lookup(root, segs).Some? then set h | h in Lookup(root, segs).value.openFiles else {}
  }

  class RiakFS {
    const bucket: Bucket
    const autoupdate: bool
    var root: Option<Node>
    var dirty: DirtySlot

    /** The tree is loaded and well formed. */
    ghost predicate Valid()
      reads this
    {
      root.Some? && WellFormed(root.value)
    }

    /**
     * `RiakFS.__init__` (riakfs.py:226-236): no tree until `load`, and a
     * fresh, clean `DirtyFlag` in the instance's `dirty` attribute.
     */
    constructor (bucket: Bucket, autoupdate: bool)
      ensures this.bucket == bucket && this.autoupdate == autoupdate && root.None?
      ensures dirty.FlagObject? && fresh(dirty.flag) && !dirty.flag.isdirty
    {
      var flag := new DirtyFlag();
      this.bucket := bucket;
      this.autoupdate := autoupdate;
      root := None;
      dirty := FlagObject(flag);
    }

    /**
     * `load` (riakfs.py:214-220): the tree becomes what `Loaded` makes of
     * the journal; a journal that cannot be decoded leaves the tree as it
     * was.
     */
    method Load(now: TimeTuple) returns (out: Outcome<FsError>)
      modifies this
      ensures var r := Loaded(bucket.objects, now);
              && (r.Success? ==> out == Pass && root == Some(r.value) && Valid())
              && (r.Failure? ==> out == Fail(r.error) && root == old(root))
      ensures dirty == old(dirty)
    {
      var r := Loaded(bucket.objects, now);
      if r.Failure? {
        return Fail(r.error);
      }
      root := Some(r.value);
      out := Pass;
    }

    /**
     * `save` (riakfs.py:222-224): the encoded tree is stored under the
     * journal key and nothing else changes; with no tree loaded, `to_dict`
     * is called on `None` (`TypeFault`).
     */
    method Save() returns (out: Outcome<FsError>)
      modifies bucket
      ensures root.None? ==> out == Fail(TypeFault) && bucket.objects == old(bucket.objects)
      ensures root.Some? ==> out == Pass && bucket.objects == old(bucket.objects)[ROOTKEY := Document(ToDict(root.value))]
    {
      if root.None? {
        return Fail(TypeFault);
      }
      bucket.Put(ROOTKEY, Document(ToDict(root.value)));
      out := Pass;
    }

    /** `close` (riakfs.py:265-266) saves the journal. */
    method Close() returns (out: Outcome<FsError>)
      modifies bucket
      ensures root.None? ==> out == Fail(TypeFault) && bucket.objects == old(bucket.objects)
      ensures root.Some? ==> out == Pass && bucket.objects == old(bucket.objects)[ROOTKEY := Document(ToDict(root.value))]
    {
      out := Save();
    }

    /**
     * `_get_dir_entry` (riakfs.py:268-279): walk the segments through
     * `contents` from the root, giving up at a file or a missing name.
     */
    method GetDirEntry(segs: seq<string>) returns (r: Option<Node>)
      requires root.Some?
      ensures r == Lookup(root.value, segs)
    {
      var current := root.value;
      var i := 0;
      while i < |segs|
        invariant 0 <= i <= |segs|
        invariant Lookup(root.value, segs) == Lookup(current, segs[i..])
      {
        assert segs[i..][0] == segs[i] && segs[i..][1..] == segs[i + 1..];
        if current.contents.NoDict? || segs[i] !in current.contents.entries {
          return None;
        }
        current := current.contents.entries[segs[i]];
        i := i + 1;
      }
      assert segs[i..] == [];
      r := Some(current);
    }

    /**
     * `parent.remove(name)` with `parent` the node at `dirSegs`: what
     * `RemoveChildAt` says, the journal left alone.
     */
    method RemoveChild(dirSegs: seq<string>, name: string) returns (out: Outcome<FsError>)
      requires Valid()
      modifies this, bucket
      ensures var e := RemoveChildAt(old(root.value), old(bucket.objects), dirSegs, name);
              out == e.outcome && root == Some(e.root) && bucket.objects == e.objects
      ensures Valid() && dirty == old(dirty)
    {
      var parent := GetDirEntry(dirSegs);
      if parent.None? || parent.value.contents.NoDict? {
        return Fail(TypeFault);
      }
      if name !in parent.value.contents.entries {
        return Fail(KeyFault);
      }
      LookupWellFormed(root.value, dirSegs);
      var dir := RemoveEntry(bucket, parent.value, name);
      root := Some(Update(root.value, dirSegs, dir));
      out := Pass;
    }

    /**
     * `_make_dir_entry` called on the directory at `dirSegs`: the tree
     * with the new child linked in.
     */
    method MakeDirEntryAt(dirSegs: seq<string>, kind: Kind, name: string, now: TimeTuple)
      requires Valid() && Lookup(root.value, dirSegs).Some? && Lookup(root.value, dirSegs).value.contents.Dict?
      modifies this
      ensures root == Some(Linked(old(root.value), dirSegs, kind, name, now))
      ensures Valid() && dirty == old(dirty)
    {
      LinkedWellFormed(root.value, dirSegs, kind, name, now);
      var parent := GetDirEntry(dirSegs);
      var (parent', _) := MakeDirEntry(parent.value, kind, name, NoDict, now);
      root := Some(Update(root.value, dirSegs, parent'));
    }

    /**
     * `_on_close_memory_file(h, path)` (riakfs.py:281-291) with `data` the
     * bytes `h` holds: what `CloseHandle` says; the journal is not marked
     * dirty.
     */
    method OnCloseMemoryFile(h: FileHandle, path: PathName, data: Bytes) returns (out: Outcome<FsError>)
      requires Valid()
      modifies this, bucket
      ensures var e := CloseHandle(old(root.value), old(bucket.objects), h, path, data);
              out == e.outcome && root == Some(e.root) && bucket.objects == e.objects
      ensures Valid() && dirty == old(dirty)
    {
      CloseHandleWellFormed(root.value, bucket.objects, h, path, data);
      var entry := GetDirEntry(path.segments);
      if entry.None? {
        return Pass;
      }
      var n := entry.value;
      if |data| > 0 {
        bucket.Put(n.path, Blob(data));
      }
      if h !in n.openFiles {
        return Fail(ValueFault);
      }
      var n' := n.(openFiles := RemoveFirst(n.openFiles, h), memFile := None);
      root := Some(Update(root.value, path.segments, n'));
      out := Pass;
    }

    /** `remove(path)` (riakfs.py:295-309): what `RemoveFile` says. */
    method Remove(path: PathName) returns (out: Outcome<FsError>)
      requires Valid()
      modifies this, bucket
      ensures var e := RemoveFile(old(root.value), old(bucket.objects), path);
              && out == e.outcome && root == Some(e.root) && bucket.objects == e.objects
              && dirty == (if e.dirtied then Assigned(true) else old(dirty))
      ensures Valid()
    {
      var entry := GetDirEntry(path.segments);
      if entry.None? {
        return Fail(ResourceNotFound);
      }
      if entry.value.kind == Dir {
        return Fail(ResourceInvalid);
      }
      var (dir, name) := path.Split();
      out := RemoveChild(dir.segments, name);
      if out.Pass? {
        dirty := Assigned(true);
      }
    }

    /**
     * `removedir(path, recursive, force)` (riakfs.py:311-336): what
     * `RemoveDir` says. The recursive loop removes the last segment from
     * its head until the head is empty.
     */
    method Removedir(path: PathName, recursive: bool, force: bool) returns (out: Outcome<FsError>)
      requires Valid()
      modifies this, bucket
      ensures var e := RemoveDir(old(root.value), old(bucket.objects), path, recursive, force);
              && out == e.outcome && root == Some(e.root) && bucket.objects == e.objects
              && dirty == (if e.dirtied then Assigned(true) else old(dirty))
      ensures Valid()
    {
      var entry := GetDirEntry(path.segments);
      if entry.None? {
        return Fail(ResourceNotFound);
      }
      if entry.value.kind != Dir {
        return Fail(ResourceInvalid);
      }
      if entry.value.HasChildren() && !force {
        return Fail(DirectoryNotEmpty);
      }
      if recursive {
        ghost var goal := RemoveUpward(root.value, bucket.objects, path);
        var rp := path;
        while rp.NonEmpty()
          invariant Valid() && dirty == old(dirty)
          invariant RemoveUpward(root.value, bucket.objects, rp) == goal
          decreases |rp.segments|, if root.value.contents.Dict? then |root.value.contents.entries| else 0
        {
          var (up, name) := rp.Split();
          out := RemoveChild(up.segments, name);
          if out.Fail? {
            return;
          }
          rp := up;
        }
      } else {
        var (dir, name) := path.Split();
        out := RemoveChild(dir.segments, name);
        if out.Fail? {
          return;
        }
      }
      dirty := Assigned(true);
      out := Pass;
    }

    /**
     * `makedir(path, recursive, allow_recreate)` (riakfs.py:338-396): what
     * `Creation.Makedir` says. In recursive mode the ancestors are checked
     * by one loop and the missing ones created by a second.
     */
    method Makedir(path: PathName, recursive: bool, allow: bool, now: TimeTuple) returns (out: Outcome<FsError>)
      requires Valid()
      modifies this
      ensures var e := Creation.Makedir(old(root.value), bucket.objects, path, recursive, allow, now);
              && out == e.outcome && root == Some(e.root)
              && dirty == (if e.dirtied then Assigned(true) else old(dirty))
      ensures Valid()
    {
      MakedirWellFormed(root.value, bucket.objects, path, recursive, allow, now);
      if !path.NonEmpty() && !allow {
        return Fail(PathError);
      }
      if path.segments == [] {
        if allow {
          return Pass;
        }
        return Fail(DestinationExists);
      }
      var (dir, name) := path.Split();
      if recursive {
        out := MakedirAlongAt(dir.segments, name, allow, now);
        return;
      }
      var found := GetDirEntry(dir.segments);
      if found.None? {
        return Fail(ParentDirectoryMissing);
      }
      out := FinalStepAt(dir.segments, found.value, name, allow, now);
    }

    /**
     * The recursive mode of `makedir` (riakfs.py:349-378): the ancestors
     * are checked by one loop and the missing ones created by a second, as
     * `Creation.MakedirAlong` says.
     */
    method MakedirAlongAt(dirSegs: seq<string>, name: string, allow: bool, now: TimeTuple) returns (out: Outcome<FsError>)
      requires Valid()
      modifies this
      ensures var e := MakedirAlong(old(root.value), bucket.objects, dirSegs, name, allow, now);
              && out == e.outcome && root == Some(e.root)
              && dirty == (if e.dirtied then Assigned(true) else old(dirty))
      ensures Valid()
    {
      var found := GetDirEntry(dirSegs);
      if found.Some? && found.value.kind == File {
        return Fail(ResourceInvalid);
      }
      if found.Some? && !allow && found.value.contents.Dict? && name in found.value.contents.entries {
        return Fail(DestinationExists);
      }
      out := CheckAncestors(AllButLast(dirSegs));
      if out.Fail? {
        return;
      }
      if root.value.contents.NoDict? {
        return Fail(TypeFault);
      }
      ChecksGiveDirsAlong(root.value, dirSegs);
      var parent := EnsureDirsAt(dirSegs, now);
      out := FinalStepAt(dirSegs, parent, name, allow, now);
    }

    /**
     * The last step of `makedir` (riakfs.py:385-396) at the directory
     * `parent` the path's head leads to: what `FinalStep` says.
     */
    method FinalStepAt(dirSegs: seq<string>, parent: Node, name: string, allow: bool, now: TimeTuple)
      returns (out: Outcome<FsError>)
      requires Valid() && Lookup(root.value, dirSegs) == Some(parent)
      modifies this
      ensures var e := FinalStep(old(root.value), bucket.objects, dirSegs, name, allow, now);
              && out == e.outcome && root == Some(e.root)
              && dirty == (if e.dirtied then Assigned(true) else old(dirty))
      ensures Valid()
    {
      FinalStepWellFormed(root.value, bucket.objects, dirSegs, name, allow, now);
      if parent.contents.NoDict? {
        return Fail(TypeFault);
      }
      if name in parent.contents.entries {
        if parent.contents.entries[name].kind == Dir {
          if !allow {
            return Fail(DestinationExists);
          }
        } else {
          return Fail(ResourceInvalid);
        }
      } else {
        MakeDirEntryAt(dirSegs, Dir, name, now);
      }
      dirty := Assigned(true);
      out := Pass;
    }

    /**
     * The ancestor loop of `makedir` (riakfs.py:360-366): what
     * `AncestorCheck` says of the walk from the root.
     */
    method CheckAncestors(segs: seq<string>) returns (out: Outcome<FsError>)
      requires root.Some?
      ensures out == AncestorCheck(root.value, segs)
    {
      var current := root.value;
      var i := 0;
      while i < |segs|
        invariant 0 <= i <= |segs|
        invariant AncestorCheck(root.value, segs) == AncestorCheck(current, segs[i..])
      {
        assert segs[i..][0] == segs[i] && segs[i..][1..] == segs[i + 1..];
        if current.contents.NoDict? {
          return Fail(TypeFault);
        }
        if segs[i] !in current.contents.entries {
          return Pass;
        }
        var item := current.contents.entries[segs[i]];
        if item.kind != Dir {
          return Fail(ResourceInvalid);
        }
        current := item;
        i := i + 1;
      }
      assert segs[i..] == [];
      out := Pass;
    }

    /**
     * The creation loop of `makedir` (riakfs.py:368-378): walking from the
     * root, each missing segment is created as an empty directory and the
     * walk goes on into it; the tree becomes `EnsureDirs` of the path, and
     * the directory the walk ends at is returned.
     */
    method EnsureDirsAt(segs: seq<string>, now: TimeTuple) returns (parent: Node)
      requires Valid() && DirsAlong(root.value, segs)
      modifies this
      ensures root == Some(EnsureDirs(old(root.value), segs, now))
      ensures Lookup(root.value, segs) == Some(parent)
      ensures Valid() && dirty == old(dirty)
    {
      EnsureDirsWellFormed(root.value, segs, now);
      ghost var start := root.value;
      var tree := root.value;
      var current := root.value;
      var done: seq<string> := [];
      var rest := segs;
      assert done + rest == segs;
      while rest != []
        invariant WalkState(start, segs, now, tree, current, done, rest)
        invariant root == Some(start) && dirty == old(dirty)
        decreases |rest|
      {
        var c := rest[0];
        if c in current.contents.entries {
          WalkIntoExisting(start, segs, now, tree, current, done, rest);
          current := current.contents.entries[c];
        } else {
          WalkIntoCreated(start, segs, now, tree, current, done, rest);
          tree := Linked(tree, done, Dir, c, now);
          current := NewDir(current.path, c, now);
        }
        done := done + [c];
        rest := rest[1..];
      }
      WalkDone(start, segs, now, tree, current, done);
      root := Some(tree);
      parent := current;
    }

    /**
     * `rename(src, dst)` (riakfs.py:398-430): every file object open on
     * the source is re-pointed at `dst` first, then the tree and the bucket
     * change as `Renaming.Rename` says. `moved` is what `movedir(src, dst)`
     * does when the source is a directory; it is installed after the
     * re-pointing.
     */
    method Rename(src: PathName, dst: PathName, moved: Effect, now: TimeTuple) returns (out: Outcome<FsError>)
      requires Valid()
      requires Lookup(root.value, src.segments).Some? && Lookup(root.value, src.segments).value.kind == Dir
               ==> WellFormed(moved.root)
      modifies this, bucket, OpenFilesAt(root.value, src.segments)
      ensures var e := Renaming.Rename(old(root.value), old(bucket.objects), src, dst, moved, now);
              && out == e.outcome && root == Some(e.root) && bucket.objects == e.objects
              && dirty == (if e.dirtied then Assigned(true) else old(dirty))
      ensures forall h :: h in OpenFilesAt(old(root.value), src.segments) ==> h.path == dst
      ensures Valid()
    {
      var entry := GetDirEntry(src.segments);
      if entry.None? {
        return Fail(ResourceNotFound);
      }
      var files := entry.value.openFiles;
      var i := 0;
      while i < |files|
        invariant 0 <= i <= |files|
        invariant forall j :: 0 <= j < i ==> files[j].path == dst
        modifies set h | h in files
      {
        files[i].path := dst;
        i := i + 1;
      }
      if entry.value.kind == Dir {
        root := Some(moved.root);
        bucket.objects := moved.objects;
        if moved.dirtied {
          dirty := Assigned(true);
        }
        return moved.outcome;
      }
      out := MoveFile(src, dst, moved, now);
    }

    /**
     * The file part of `rename` (riakfs.py:413-430): the destination
     * checks, a new file node linked in under the destination name, and the
     * source unlinked from its parent with its key deleted.
     */
    method MoveFile(src: PathName, dst: PathName, ghost moved: Effect, now: TimeTuple) returns (out: Outcome<FsError>)
      requires Valid() && Lookup(root.value, src.segments).Some? && Lookup(root.value, src.segments).value.kind == File
      modifies this, bucket
      ensures var e := Renaming.Rename(old(root.value), old(bucket.objects), src, dst, moved, now);
              && out == e.outcome && root == Some(e.root) && bucket.objects == e.objects
              && dirty == (if e.dirtied then Assigned(true) else old(dirty))
      ensures Valid()
    {
      RenameWellFormed(root.value, bucket.objects, src, dst, moved, now);
      var found := GetDirEntry(dst.segments);
      if found.Some? {
        return Fail(DestinationExists);
      }
      var (srcDir, srcName) := src.Split();
      var (dstDir, dstName) := dst.Split();
      var dstParent := GetDirEntry(dstDir.segments);
      if dstParent.None? {
        return Fail(ParentDirectoryMissing);
      }
      if dstParent.value.contents.NoDict? {
        return Fail(TypeFault);
      }
      RenameRelinks(root.value, bucket.objects, src, dst, moved, now);
      Relink(src, dst, now);
      out := Pass;
    }

    /**
     * The end of a file `rename` (riakfs.py:424-430): a new file node is
     * linked in under the destination name, then the source is unlinked
     * from its parent and the key of its bytes deleted (riakfs.py:158-167),
     * and the journal is marked dirty.
     */
    method Relink(src: PathName, dst: PathName, now: TimeTuple)
      requires Valid()
      requires Lookup(root.value, src.segments).Some? && Lookup(root.value, src.segments).value.kind == File
      requires Lookup(root.value, dst.segments).None?
      requires Lookup(root.value, dst.Split().0.segments).Some?
      requires Lookup(root.value, dst.Split().0.segments).value.contents.Dict?
      modifies this, bucket
      ensures var e := Relinked(old(root.value), old(bucket.objects), src, dst, now);
              root == Some(e.root) && bucket.objects == e.objects
      ensures dirty == Assigned(true) && Valid()
    {
      RelinkedInSteps(root.value, bucket.objects, src, dst, now);
      MakeDirEntryAt(dst.Split().0.segments, File, dst.Split().1, now);
      var _ := RemoveChild(src.Split().0.segments, src.Split().1);
      dirty := Assigned(true);
    }

    /**
     * `open(path, mode)` (riakfs.py:433-471): `o` is what `Handles.Open`
     * says of the call; the outcome, the journal and the tree are as it
     * says, and when a file object is made, it is new, reports `path`,
     * holds the cached bytes, and is registered with the file's node.
     */
    method Open(path: PathName, mode: string, now: TimeTuple) returns (out: Outcome<FsError>, h: Option<FileHandle>, ghost o: Opening)
      requires Valid()
      modifies this
      ensures o == Handles.Open(old(root.value), bucket.objects, path, mode, now)
      ensures out == o.effect.outcome
      ensures dirty == (if o.effect.dirtied then Assigned(true) else old(dirty))
      ensures o.buffer.None? ==> h.None? && root == Some(o.effect.root)
      ensures o.buffer.Some? ==>
                && h.Some? && fresh(h.value)
                && h.value.path == path && h.value.mode == mode && h.value.buffer == o.buffer.value
                && root == Some(WithHandle(o.effect.root, FileSegs(path), h.value))
      ensures Valid()
    {
      var (dir, name) := path.Split();
      var parent := GetDirEntry(dir.segments);
      if parent.None? || parent.value.kind != Dir {
        OpenWithoutParent(root.value, bucket.objects, path, mode, now);
        o := Opening(Refused(root.value, bucket.objects, ResourceNotFound), None);
        return Fail(ResourceNotFound), None, o;
      }
      if 'r' in mode || 'a' in mode {
        out, h, o := OpenExisting(path, mode, now);
      } else if 'w' in mode {
        out, h, o := OpenForWriting(path, mode, now);
      } else {
        OpenOtherMode(root.value, bucket.objects, path, mode, now);
        o := Opening(Effect(Pass, root.value, bucket.objects, false), None);
        return Pass, None, o;
      }
    }

    /** `open` for reading or appending (riakfs.py:442-455): the file must exist. */
    method OpenExisting(path: PathName, mode: string, now: TimeTuple) returns (out: Outcome<FsError>, h: Option<FileHandle>, ghost o: Opening)
      requires Valid() && Lookup(root.value, path.Split().0.segments).Some?
      requires Lookup(root.value, path.Split().0.segments).value.kind == Dir
      requires 'r' in mode || 'a' in mode
      modifies this
      ensures o == Handles.Open(old(root.value), old(bucket.objects), path, mode, now)
      ensures out == o.effect.outcome
      ensures dirty == (if o.effect.dirtied then Assigned(true) else old(dirty))
      ensures o.buffer.None? ==> h.None? && root == Some(o.effect.root)
      ensures o.buffer.Some? ==>
                && h.Some? && fresh(h.value)
                && h.value.path == path && h.value.mode == mode && h.value.buffer == o.buffer.value
                && root == Some(WithHandle(o.effect.root, FileSegs(path), h.value))
      ensures Valid()
    {
      // the walk to the file meets the same entry as the parent's entry map
      var file := GetDirEntry(FileSegs(path));
      if file.None? || file.value.kind == Dir {
        OpenNeedsFile(root.value, bucket.objects, path, mode, now);
        var err := if file.None? then ResourceNotFound else ResourceInvalid;
        o := Opening(Refused(root.value, bucket.objects, err), None);
        return Fail(err), None, o;
      }
      out, h, o := OpenEntry(path, mode, now);
    }

    /** `open` for writing (riakfs.py:457-468): a missing file is created first. */
    method OpenForWriting(path: PathName, mode: string, now: TimeTuple) returns (out: Outcome<FsError>, h: Option<FileHandle>, ghost o: Opening)
      requires Valid() && Lookup(root.value, path.Split().0.segments).Some?
      requires Lookup(root.value, path.Split().0.segments).value.kind == Dir
      requires !('r' in mode || 'a' in mode) && 'w' in mode
      modifies this
      ensures o == Handles.Open(old(root.value), old(bucket.objects), path, mode, now)
      ensures out == o.effect.outcome
      ensures dirty == (if o.effect.dirtied then Assigned(true) else old(dirty))
      ensures o.buffer.None? ==> h.None? && root == Some(o.effect.root)
      ensures o.buffer.Some? ==>
                && h.Some? && fresh(h.value)
                && h.value.path == path && h.value.mode == mode && h.value.buffer == o.buffer.value
                && root == Some(WithHandle(o.effect.root, FileSegs(path), h.value))
      ensures Valid()
    {
      var (dir, name) := path.Split();
      var parent := GetDirEntry(dir.segments);
      LookupWellFormed(root.value, dir.segments);
      if name !in parent.value.contents.entries {
        out, h, o := CreateAndOpen(path, mode, now);
      } else {
        LookupConcat(root.value, dir.segments, [name]);
        out, h, o := OpenEntry(path, mode, now);
      }
    }

    /**
     * `open` past its checks on a name the directory holds (riakfs.py:450-453,
     * 464-468): no entry is made, and the walk ends at that entry.
     */
    method OpenEntry(path: PathName, mode: string, now: TimeTuple) returns (out: Outcome<FsError>, h: Option<FileHandle>, ghost o: Opening)
      requires Valid() && Lookup(root.value, path.Split().0.segments).Some?
      requires Lookup(root.value, path.Split().0.segments).value.kind == Dir
      requires Lookup(root.value, FileSegs(path)).Some?
      requires ('r' in mode || 'a' in mode) ==> Lookup(root.value, FileSegs(path)).value.kind == File
      requires 'r' in mode || 'a' in mode || 'w' in mode
      modifies this
      ensures o == Handles.Open(old(root.value), old(bucket.objects), path, mode, now)
      ensures out == o.effect.outcome
      ensures !o.effect.dirtied && dirty == old(dirty)
      ensures o.buffer.None? ==> h.None? && root == Some(o.effect.root)
      ensures o.buffer.Some? ==>
                && h.Some? && fresh(h.value)
                && h.value.path == path && h.value.mode == mode && h.value.buffer == o.buffer.value
                && root == Some(WithHandle(o.effect.root, FileSegs(path), h.value))
      ensures Valid()
    {
      OpenEndsAtFile(root.value, bucket.objects, path, mode, now);
      out, h, o := TouchAndRegister(path, FileSegs(path), mode, now, false,
                                    Handles.Open(root.value, bucket.objects, path, mode, now));
    }

    /** `open` for writing a missing file (riakfs.py:458-461, 464-468): it is created, then opened. */
    method CreateAndOpen(path: PathName, mode: string, now: TimeTuple) returns (out: Outcome<FsError>, h: Option<FileHandle>, ghost o: Opening)
      requires Valid() && Lookup(root.value, path.Split().0.segments).Some?
      requires Lookup(root.value, path.Split().0.segments).value.contents.Dict?
      requires path.Split().1 !in Lookup(root.value, path.Split().0.segments).value.contents.entries
      requires !('r' in mode || 'a' in mode) && 'w' in mode
      modifies this
      ensures o == Handles.Open(old(root.value), old(bucket.objects), path, mode, now)
      ensures out == o.effect.outcome
      ensures o.effect.dirtied && dirty == Assigned(true)
      ensures o.buffer.None? ==> h.None? && root == Some(o.effect.root)
      ensures o.buffer.Some? ==>
                && h.Some? && fresh(h.value)
                && h.value.path == path && h.value.mode == mode && h.value.buffer == o.buffer.value
                && root == Some(WithHandle(o.effect.root, FileSegs(path), h.value))
      ensures Valid()
    {
      OpenEndsAtNewFile(root.value, bucket.objects, path, mode, now);
      out, h, o := OpenCreated(path, mode, now, Handles.Open(root.value, bucket.objects, path, mode, now));
    }

    /** A missing file created, then opened (riakfs.py:458-461, 464-468). */
    method OpenCreated(path: PathName, mode: string, now: TimeTuple, ghost want: Opening)
      returns (out: Outcome<FsError>, h: Option<FileHandle>, ghost o: Opening)
      requires Valid() && Lookup(root.value, path.Split().0.segments).Some?
      requires Lookup(root.value, path.Split().0.segments).value.contents.Dict?
      requires path.Split().1 !in Lookup(root.value, path.Split().0.segments).value.contents.entries
      requires Lookup(Linked(root.value, path.Split().0.segments, File, path.Split().1, now), FileSegs(path)).Some?
      requires want == Opened(Linked(root.value, path.Split().0.segments, File, path.Split().1, now),
                              FileSegs(path), bucket.objects, now, true)
      modifies this
      ensures o == want
      ensures out == o.effect.outcome
      ensures o.effect.dirtied && dirty == Assigned(true)
      ensures o.buffer.None? ==> h.None? && root == Some(o.effect.root)
      ensures o.buffer.Some? ==>
                && h.Some? && fresh(h.value)
                && h.value.path == path && h.value.mode == mode && h.value.buffer == o.buffer.value
                && root == Some(WithHandle(o.effect.root, FileSegs(path), h.value))
      ensures Valid()
    {
      var (dir, name) := path.Split();
      ghost var tree, objects := Linked(root.value, dir.segments, File, name, now), bucket.objects;
      MakeDirEntryAt(dir.segments, File, name, now);
      assert root.value == tree && bucket.objects == objects;
      dirty := Assigned(true);
      out, h, o := TouchAndRegister(path, FileSegs(path), mode, now, true, want);
    }

    /**
     * The end of `open` (riakfs.py:450-453, 464-467) at the node `segs`
     * leads to: its access time is set and its cache filled; a file object
     * is made over the cache, or cannot be made over a directory's missing
     * cache (`TypeFault`), and is registered with the node.
     */
    method TouchAndRegister(path: PathName, segs: seq<string>, mode: string, now: TimeTuple, ghost created: bool,
                            ghost want: Opening)
      returns (out: Outcome<FsError>, h: Option<FileHandle>, ghost o: Opening)
      requires Valid() && Lookup(root.value, segs).Some?
      requires want == Opened(root.value, segs, bucket.objects, now, created)
      modifies this
      ensures o == want
      ensures out == o.effect.outcome
      ensures o.buffer.None? ==> h.None? && root == Some(o.effect.root)
      ensures o.buffer.Some? ==>
                && h.Some? && fresh(h.value)
                && h.value.path == path && h.value.mode == mode && h.value.buffer == o.buffer.value
                && root == Some(WithHandle(o.effect.root, segs, h.value))
      ensures Valid() && dirty == old(dirty)
    {
      ghost var tree := root.value;
      TouchedWellFormed(tree, segs, bucket.objects, now);
      o := want;
      var file := GetDirEntry(segs);
      var touched, buffer := MemFile(bucket, Touched(file.value, now));
      root := Some(Update(root.value, segs, touched));
      if buffer.None? {
        return Fail(TypeFault), None, o;
      }
      var handle := new FileHandle(path, mode, buffer.value);
      WithHandleWellFormed(root.value, segs, handle);
      var registered := touched.(openFiles := touched.openFiles + [handle]);
      root := Some(Update(root.value, segs, registered));
      UpdateUpdate(tree, segs, touched, registered);
      return Pass, Some(handle), o;
    }
  }
}
