/**
 * The open-file registry: `open` (riakfs.py:433-471), which hands out a
 * file object over a node's cached bytes and registers it with the node,
 * and `_on_close_memory_file` (riakfs.py:281-291), which stores the bytes
 * a file object held when it was closed and unregisters it.
 *
 * What the file object does with its buffer while it is open (seeking,
 * truncating, writing) belongs to the file object; the bytes it holds when
 * it is closed are a parameter here.
 */
module Handles {
  import opened Wrappers
  import opened Errors
  import opened Records
  import opened Store
  import opened Paths
  import opened Entries
  import opened Tree
  import opened Effects

  /** `accessed_time = datetime.now()`. */
  function Touched(n: Node, now: TimeTuple): (r: Node)
    ensures r == n.(timestamps := r.timestamps)
    ensures r.timestamps.atime == now
    ensures r.timestamps.ctime == n.timestamps.ctime && r.timestamps.mtime == n.timestamps.mtime
  {
    n.(timestamps := n.timestamps.(atime := now))
  }

  /** The tree once the node at `segs` has had its access time set and its cache filled. */
  function TouchedAt(tree: Node, segs: seq<string>, objects: map<string, Stored>, now: TimeTuple): (r: Node)
    requires Lookup(tree, segs).Some?
    ensures Lookup(r, segs) == Some(Cached(Touched(Lookup(tree, segs).value, now), objects))
  {
    Update(tree, segs, Cached(Touched(Lookup(tree, segs).value, now), objects))
  }

  /**
   * The walk `open` reaches its file by: the head of the path, then its last
   * name, which is "" for a path without segments (`pathsplit("/")` gives
   * ("/", "")).
   */
  function FileSegs(path: PathName): (r: seq<string>)
    ensures path.segments != [] ==> r == path.segments
    ensures path.segments == [] ==> r == [""]
  {
    path.Split().0.segments + [path.Split().1]
  }

  /**
   * What `open` leaves behind before the new file object is registered: the
   * effect on the tree and the bucket, and the cached bytes the file object
   * is made over, or nothing when no file object is made.
   */
  datatype Opening = Opening(effect: Effect, buffer: Option<Bytes>)

  /**
   * `open(path, mode)` up to the registration of the file object: a parent
   * that is missing or not a directory is `ResourceNotFound`. A mode with
   * 'r' or 'a' needs an existing file (`ResourceNotFound` when the name is
   * missing, `ResourceInvalid` for a directory); the file's access time is
   * set and its cache filled. Otherwise a mode with 'w' creates a missing
   * file (marking the journal dirty), sets the access time and fills the
   * cache; a directory has no cache, and the file object cannot be made
   * over nothing (`TypeFault`), after the access time was set. Any other
   * mode makes no file object and changes nothing.
   */
  function Open(root: Node, objects: map<string, Stored>, path: PathName, mode: string, now: TimeTuple): (o: Opening)
    requires WellFormed(root)
    ensures o.effect.objects == objects
    ensures o.buffer.Some? ==> o.effect.outcome.Pass?
    ensures o.effect.outcome.Fail? ==> o.buffer.None? && !o.effect.dirtied
    ensures o.effect.outcome.Fail? ==> o.effect.outcome.error in {ResourceNotFound, ResourceInvalid, TypeFault}
  {
    var parent := Lookup(root, path.Split().0.segments);
    if parent.None? || parent.value.kind != Dir then Opening(Refused(root, objects, ResourceNotFound), None)
    else OpenIn(root, objects, path, mode, now)
  }

  /** `open` under a head that names a directory: the choice by mode. */
  function OpenIn(root: Node, objects: map<string, Stored>, path: PathName, mode: string, now: TimeTuple): (o: Opening)
    requires WellFormed(root)
    requires Lookup(root, path.Split().0.segments).Some? && Lookup(root, path.Split().0.segments).value.kind == Dir
    ensures o.effect.objects == objects
    ensures o.buffer.Some? ==> o.effect.outcome.Pass?
    ensures o.effect.outcome.Fail? ==> o.buffer.None? && !o.effect.dirtied
    ensures o.effect.outcome.Fail? ==> o.effect.outcome.error in {ResourceNotFound, ResourceInvalid, TypeFault}
  {
    var dir := path.Split().0.segments;
    var name := path.Split().1;
    var parent := Lookup(root, dir).value;
    LookupWellFormed(root, dir);
    LookupConcat(root, dir, [name]);
    var entries := parent.contents.entries;
    if 'r' in mode || 'a' in mode then
      if name !in entries then Opening(Refused(root, objects, ResourceNotFound), None)
      else if entries[name].kind == Dir then Opening(Refused(root, objects, ResourceInvalid), None)
      else Opened(root, dir + [name], objects, now, false)
    else if 'w' in mode then
      if name !in entries then
        LinkedChild(root, dir, File, name, now);
        Opened(Linked(root, dir, File, name, now), dir + [name], objects, now, true)
      else Opened(root, dir + [name], objects, now, false)
    else Opening(Effect(Pass, root, objects, false), None)
  }

  /**
   * The end of `open` at the node `segs` leads to (riakfs.py:450-452,
   * 464-466): its access time is set and its cache filled, and the file
   * object is made over that cache; a directory has none, and the file
   * object cannot be made over nothing (`TypeFault`). `created` says
   * whether the journal was marked dirty on the way.
   */
  function Opened(tree: Node, segs: seq<string>, objects: map<string, Stored>, now: TimeTuple, created: bool): (o: Opening)
    requires Lookup(tree, segs).Some?
    ensures o.effect.objects == objects && o.effect.dirtied == created
    ensures o.effect.outcome == (if o.buffer.Some? then Pass else Fail(TypeFault))
  {
    var f := Cached(Touched(Lookup(tree, segs).value, now), objects);
    var after := TouchedAt(tree, segs, objects, now);
    if f.memFile.None? then Opening(Effect(Fail(TypeFault), after, objects, created), None)
    else Opening(Effect(Pass, after, objects, created), f.memFile)
  }

  /** `open_files.append(mem_file)` on the node at `segs`. */
  function WithHandle(root: Node, segs: seq<string>, h: FileHandle): (r: Node)
    ensures Lookup(root, segs).None? ==> r == root
    ensures Lookup(root, segs).Some? ==>
              && Lookup(r, segs).Some?
              && Lookup(r, segs).value == Lookup(root, segs).value.(openFiles := Lookup(r, segs).value.openFiles)
              && Lookup(r, segs).value.openFiles == Lookup(root, segs).value.openFiles + [h]
  {
    if Lookup(root, segs).None? then root
    else
      var n := Lookup(root, segs).value;
      Update(root, segs, n.(openFiles := n.openFiles + [h]))
  }

  /** The position of the first occurrence of `h` in `s`. */
  function FirstIndex(s: seq<FileHandle>, h: FileHandle): (i: nat)
    requires h in s
    ensures i < |s| && s[i] == h && h !in s[..i]
  {
    if s[0] == h then 0
    else
      var i := FirstIndex(s[1..], h) + 1;
      assert s[..i] == [s[0]] + s[1..][..i - 1];
      i
  }

  /** `list.remove(h)`: the first occurrence of `h` taken out, the rest kept in order. */
  function RemoveFirst(s: seq<FileHandle>, h: FileHandle): (r: seq<FileHandle>)
    requires h in s
    ensures |r| == |s| - 1
    ensures multiset(r) + multiset{h} == multiset(s)
    ensures r[..FirstIndex(s, h)] == s[..FirstIndex(s, h)]
    ensures r[FirstIndex(s, h)..] == s[FirstIndex(s, h) + 1..]
  {
    var i := FirstIndex(s, h);
    assert s == s[..i] + [h] + s[i + 1..];
    s[..i] + s[i + 1..]
  }

  /**
   * `_on_close_memory_file(h, path)` with `data` the bytes `h` holds: a
   * path that no longer leads to a node does nothing; otherwise non-empty
   * bytes are stored under the node's own path, then `h` is taken out of
   * the node's open files (`ValueFault` when it is not there, after the
   * bytes were stored) and the node's cache dropped. The journal is not
   * marked dirty.
   */
  function CloseHandle(root: Node, objects: map<string, Stored>, h: FileHandle, path: PathName, data: Bytes): (e: Effect)
    ensures !e.dirtied
    ensures e.outcome.Fail? ==> e.outcome.error == ValueFault && e.root == root
  {
    var entry := Lookup(root, path.segments);
    if entry.None? then Effect(Pass, root, objects, false)
    else
      var n := entry.value;
      var stored := if |data| > 0 then objects[n.path := Blob(data)] else objects;
      if h !in n.openFiles then Effect(Fail(ValueFault), root, stored, false)
      else Effect(Pass, Update(root, path.segments, n.(openFiles := RemoveFirst(n.openFiles, h), memFile := None)), stored, false)
  }

  /** The refusals of `open`, in the order the source checks them. */
  lemma OpenRefusals(root: Node, objects: map<string, Stored>, path: PathName, mode: string, now: TimeTuple)
    requires WellFormed(root)
    ensures var o := Open(root, objects, path, mode, now);
            var parent := Lookup(root, path.Split().0.segments);
            var name := path.Split().1;
            && ((parent.None? || parent.value.kind == File) ==>
                  o == Opening(Refused(root, objects, ResourceNotFound), None))
            && ((parent.Some? && parent.value.kind == Dir && parent.value.contents.Dict? && ('r' in mode || 'a' in mode)
                 && name !in parent.value.contents.entries) ==>
                  o == Opening(Refused(root, objects, ResourceNotFound), None))
            && ((parent.Some? && parent.value.kind == Dir && parent.value.contents.Dict? && ('r' in mode || 'a' in mode)
                 && name in parent.value.contents.entries && parent.value.contents.entries[name].kind == Dir) ==>
                  o == Opening(Refused(root, objects, ResourceInvalid), None))
  {
    if Lookup(root, path.Split().0.segments).Some? {
      LookupWellFormed(root, path.Split().0.segments);
    }
  }

  /**
   * Past its checks, `open` on a file that exists ends at that file: for
   * reading or appending, or for writing with no 'r' or 'a' in the mode.
   */
  lemma OpenEndsAtFile(root: Node, objects: map<string, Stored>, path: PathName, mode: string, now: TimeTuple)
    requires WellFormed(root)
    requires Lookup(root, path.Split().0.segments).Some?
    requires Lookup(root, path.Split().0.segments).value.kind == Dir
    requires Lookup(root, FileSegs(path)).Some?
    requires ('r' in mode || 'a' in mode) ==> Lookup(root, FileSegs(path)).value.kind == File
    requires 'r' in mode || 'a' in mode || 'w' in mode
    ensures Open(root, objects, path, mode, now) == Opened(root, FileSegs(path), objects, now, false)
  {
    LookupConcat(root, path.Split().0.segments, [path.Split().1]);
  }

  /**
   * `open` for reading or appending in a directory: a missing name is
   * `ResourceNotFound`, a directory `ResourceInvalid`, and nothing changes.
   */
  lemma OpenNeedsFile(root: Node, objects: map<string, Stored>, path: PathName, mode: string, now: TimeTuple)
    requires WellFormed(root) && ('r' in mode || 'a' in mode)
    requires Lookup(root, path.Split().0.segments).Some?
    requires Lookup(root, path.Split().0.segments).value.kind == Dir
    requires Lookup(root, FileSegs(path)).None? || Lookup(root, FileSegs(path)).value.kind == Dir
    ensures Open(root, objects, path, mode, now)
              == Opening(Refused(root, objects, if Lookup(root, FileSegs(path)).None? then ResourceNotFound else ResourceInvalid), None)
  {
    LookupWellFormed(root, path.Split().0.segments);
    LookupConcat(root, path.Split().0.segments, [path.Split().1]);
  }

  /**
   * `open` for writing a name that is missing from a directory ends at the
   * file it creates there, having marked the journal dirty.
   */
  lemma OpenEndsAtNewFile(root: Node, objects: map<string, Stored>, path: PathName, mode: string, now: TimeTuple)
    requires WellFormed(root) && !('r' in mode || 'a' in mode) && 'w' in mode
    requires Lookup(root, path.Split().0.segments).Some?
    requires Lookup(root, path.Split().0.segments).value.contents.Dict?
    requires path.Split().1 !in Lookup(root, path.Split().0.segments).value.contents.entries
    ensures Lookup(Linked(root, path.Split().0.segments, File, path.Split().1, now), FileSegs(path)).Some?
    ensures Open(root, objects, path, mode, now)
              == Opened(Linked(root, path.Split().0.segments, File, path.Split().1, now), FileSegs(path), objects, now, true)
  {
    LinkedChild(root, path.Split().0.segments, File, path.Split().1, now);
    LookupWellFormed(root, path.Split().0.segments);
  }

  /**
   * Opening an existing file, for reading, appending or writing: the call
   * passes without marking the journal dirty; the file is the same node
   * with its access time set and its cache filled, and the file object is
   * made over that cache: the bytes cached before, or else the bytes stored
   * under the file's own path. For writing, the mode must not also ask for
   * reading or appending, which take the other branch to the same end.
   */
  lemma OpenExistingFile(root: Node, objects: map<string, Stored>, path: PathName, mode: string, now: TimeTuple)
    requires WellFormed(root) && path.segments != []
    requires Lookup(root, path.segments).Some? && Lookup(root, path.segments).value.kind == File
    requires 'r' in mode || 'a' in mode || 'w' in mode
    ensures var o := Open(root, objects, path, mode, now);
            var f := Lookup(root, path.segments).value;
            var cache := if f.memFile.Some? then f.memFile.value else FetchBytes(objects, f.path);
            && o.effect.outcome.Pass? && !o.effect.dirtied && o.effect.objects == objects
            && o.buffer == Some(cache)
            && Lookup(o.effect.root, path.segments)
                 == Some(f.(timestamps := f.timestamps.(atime := now), memFile := Some(cache)))
  {
    var dir, name := path.Split().0.segments, path.Split().1;
    LookupConcat(root, dir, [name]);
    LookupWellFormed(root, dir);
  }

  /**
   * Opening a missing name in a directory for writing creates it: the call
   * passes and marks the journal dirty, the name then leads to a new file
   * node made under the parent, and the file object is made over whatever
   * the bucket holds under the new file's path, which is the empty byte
   * string unless a value was left under that key.
   */
  lemma OpenCreatesFile(root: Node, objects: map<string, Stored>, path: PathName, mode: string, now: TimeTuple)
    requires WellFormed(root) && !('r' in mode || 'a' in mode) && 'w' in mode
    requires Lookup(root, path.Split().0.segments).Some?
    requires Lookup(root, path.Split().0.segments).value.kind == Dir
    requires Lookup(root, path.Split().0.segments).value.contents.Dict?
    requires path.Split().1 !in Lookup(root, path.Split().0.segments).value.contents.entries
    ensures var o := Open(root, objects, path, mode, now);
            var dir, name := path.Split().0.segments, path.Split().1;
            var f := ChildEntry(Lookup(root, dir).value.path, File, name, NoDict, now);
            && o.effect.outcome.Pass? && o.effect.dirtied && o.effect.objects == objects
            && o.buffer == Some(FetchBytes(objects, f.path))
            && Lookup(o.effect.root, dir + [name]) == Some(f.(memFile := Some(FetchBytes(objects, f.path))))
  {
    var dir, name := path.Split().0.segments, path.Split().1;
    LookupWellFormed(root, dir);
    var f := ChildEntry(Lookup(root, dir).value.path, File, name, NoDict, now);
    LinkedChild(root, dir, File, name, now);
    assert Touched(f, now) == f;
  }

  /**
   * Opening a directory for writing fails with `TypeFault`, but only after
   * the directory's access time was set: the tree is changed, the journal
   * is not marked dirty.
   */
  lemma OpenDirectoryForWriting(root: Node, objects: map<string, Stored>, path: PathName, mode: string, now: TimeTuple)
    requires WellFormed(root) && path.segments != [] && !('r' in mode || 'a' in mode) && 'w' in mode
    requires Lookup(root, path.segments).Some? && Lookup(root, path.segments).value.kind == Dir
    requires Lookup(root, path.segments).value.memFile.None?
    ensures var o := Open(root, objects, path, mode, now);
            var d := Lookup(root, path.segments).value;
            && o == Opening(Effect(Fail(TypeFault), o.effect.root, objects, false), None)
            && Lookup(o.effect.root, path.segments) == Some(d.(timestamps := d.timestamps.(atime := now)))
  {
    var dir, name := path.Split().0.segments, path.Split().1;
    LookupConcat(root, dir, [name]);
    LookupWellFormed(root, dir);
  }

  /** A mode with none of 'r', 'a' and 'w' makes no file object and changes nothing. */
  lemma OpenOtherMode(root: Node, objects: map<string, Stored>, path: PathName, mode: string, now: TimeTuple)
    requires WellFormed(root) && !('r' in mode || 'a' in mode || 'w' in mode)
    requires Lookup(root, path.Split().0.segments).Some?
    requires Lookup(root, path.Split().0.segments).value.kind == Dir
    ensures Open(root, objects, path, mode, now) == Opening(Effect(Pass, root, objects, false), None)
  {
  }

  /** Setting a node's access time and filling its cache keep a tree well formed. */
  lemma TouchedWellFormed(tree: Node, segs: seq<string>, objects: map<string, Stored>, now: TimeTuple)
    requires WellFormed(tree) && Lookup(tree, segs).Some?
    ensures WellFormed(TouchedAt(tree, segs, objects, now))
  {
    LookupWellFormed(tree, segs);
    UpdateWellFormed(tree, segs, Cached(Touched(Lookup(tree, segs).value, now), objects));
  }

  /** What `open` leaves behind is well formed, whatever the outcome. */
  lemma OpenWellFormed(root: Node, objects: map<string, Stored>, path: PathName, mode: string, now: TimeTuple)
    requires WellFormed(root)
    ensures WellFormed(Open(root, objects, path, mode, now).effect.root)
  {
    var parent := Lookup(root, path.Split().0.segments);
    if parent.None? || parent.value.kind != Dir {
      OpenWithoutParent(root, objects, path, mode, now);
    } else if 'r' in mode || 'a' in mode {
      OpenExistingWellFormed(root, objects, path, mode, now);
    } else if 'w' in mode {
      OpenForWritingWellFormed(root, objects, path, mode, now);
    } else {
      OpenOtherMode(root, objects, path, mode, now);
    }
  }

  /** `open` for reading or appending leaves a well-formed tree. */
  lemma OpenExistingWellFormed(root: Node, objects: map<string, Stored>, path: PathName, mode: string, now: TimeTuple)
    requires WellFormed(root) && ('r' in mode || 'a' in mode)
    requires Lookup(root, path.Split().0.segments).Some?
    requires Lookup(root, path.Split().0.segments).value.kind == Dir
    ensures WellFormed(Open(root, objects, path, mode, now).effect.root)
  {
    var file := Lookup(root, FileSegs(path));
    if file.None? || file.value.kind == Dir {
      OpenNeedsFile(root, objects, path, mode, now);
    } else {
      OpenEndsAtFile(root, objects, path, mode, now);
      OpenedWellFormed(root, FileSegs(path), objects, now, false);
    }
  }

  /** `open` for writing, with no 'r' or 'a' in the mode, leaves a well-formed tree. */
  lemma OpenForWritingWellFormed(root: Node, objects: map<string, Stored>, path: PathName, mode: string, now: TimeTuple)
    requires WellFormed(root) && !('r' in mode || 'a' in mode) && 'w' in mode
    requires Lookup(root, path.Split().0.segments).Some?
    requires Lookup(root, path.Split().0.segments).value.kind == Dir
    ensures WellFormed(Open(root, objects, path, mode, now).effect.root)
  {
    var dir, name := path.Split().0.segments, path.Split().1;
    LookupWellFormed(root, dir);
    if name in Lookup(root, dir).value.contents.entries {
      LookupConcat(root, dir, [name]);
      OpenEndsAtFile(root, objects, path, mode, now);
      OpenedWellFormed(root, FileSegs(path), objects, now, false);
    } else {
      OpenEndsAtNewFile(root, objects, path, mode, now);
      LinkedChild(root, dir, File, name, now);
      LinkedWellFormed(root, dir, File, name, now);
      OpenedWellFormed(Linked(root, dir, File, name, now), FileSegs(path), objects, now, true);
    }
  }

  /** `open` under a head that is missing or not a directory is `ResourceNotFound` and changes nothing. */
  lemma OpenWithoutParent(root: Node, objects: map<string, Stored>, path: PathName, mode: string, now: TimeTuple)
    requires WellFormed(root)
    requires Lookup(root, path.Split().0.segments).None? || Lookup(root, path.Split().0.segments).value.kind != Dir
    ensures Open(root, objects, path, mode, now) == Opening(Refused(root, objects, ResourceNotFound), None)
  {
  }

  /** The tree `open` leaves at the end of its walk is well formed. */
  lemma OpenedWellFormed(tree: Node, segs: seq<string>, objects: map<string, Stored>, now: TimeTuple, created: bool)
    requires WellFormed(tree) && Lookup(tree, segs).Some?
    ensures WellFormed(Opened(tree, segs, objects, now, created).effect.root)
  {
    TouchedWellFormed(tree, segs, objects, now);
  }

  /** Registering a file object keeps a tree well formed. */
  lemma WithHandleWellFormed(root: Node, segs: seq<string>, h: FileHandle)
    requires WellFormed(root) && Lookup(root, segs).Some?
    ensures WellFormed(WithHandle(root, segs, h))
  {
    LookupWellFormed(root, segs);
    var n := Lookup(root, segs).value;
    UpdateWellFormed(root, segs, n.(openFiles := n.openFiles + [h]));
  }

  /**
   * Closing: a path that leads nowhere changes nothing; otherwise the bytes
   * are stored under the node's path exactly when there are any, the call
   * fails with `ValueFault` exactly when the file object is not registered
   * with the node, and on success it is unregistered once and the node's
   * cache dropped.
   */
  lemma CloseHandleOutcome(root: Node, objects: map<string, Stored>, h: FileHandle, path: PathName, data: Bytes)
    ensures var e := CloseHandle(root, objects, h, path, data);
            Lookup(root, path.segments).None? ==> e == Effect(Pass, root, objects, false)
    ensures var e := CloseHandle(root, objects, h, path, data);
            var entry := Lookup(root, path.segments);
            entry.Some? ==>
              && e.objects == (if |data| > 0 then objects[entry.value.path := Blob(data)] else objects)
              && (e.outcome.Fail? <==> h !in entry.value.openFiles)
              && (e.outcome.Pass? ==>
                    && Lookup(e.root, path.segments).Some?
                    && var n := Lookup(e.root, path.segments).value;
                    && n == entry.value.(openFiles := n.openFiles, memFile := None)
                    && multiset(n.openFiles) + multiset{h} == multiset(entry.value.openFiles))
  {
  }

  /** Unregistering a file object keeps a tree well formed. */
  lemma CloseHandleWellFormed(root: Node, objects: map<string, Stored>, h: FileHandle, path: PathName, data: Bytes)
    requires WellFormed(root)
    ensures WellFormed(CloseHandle(root, objects, h, path, data).root)
  {
    var entry := Lookup(root, path.segments);
    if entry.Some? && h in entry.value.openFiles {
      LookupWellFormed(root, path.segments);
      var n := entry.value;
      UpdateWellFormed(root, path.segments, n.(openFiles := RemoveFirst(n.openFiles, h), memFile := None));
    }
  }

  /**
   * The file found again after a close: the closed node has no cache, so
   * the next open for reading fetches what the bucket holds under the
   * node's path.
   */
  lemma ReopenAfterClose(root: Node, objects: map<string, Stored>, h: FileHandle, path: PathName, data: Bytes,
                         mode: string, now: TimeTuple)
    requires WellFormed(root) && path.segments != []
    requires Lookup(root, path.segments).Some? && Lookup(root, path.segments).value.kind == File
    requires h in Lookup(root, path.segments).value.openFiles
    requires 'r' in mode
    ensures var e := CloseHandle(root, objects, h, path, data);
            WellFormed(e.root)
            && Open(e.root, e.objects, path, mode, now).buffer
                 == Some(FetchBytes(e.objects, Lookup(root, path.segments).value.path))
  {
    var e := CloseHandle(root, objects, h, path, data);
    CloseHandleWellFormed(root, objects, h, path, data);
    OpenExistingFile(e.root, e.objects, path, mode, now);
  }

  /**
   * Bytes written through a file object and closed are what the next open
   * for reading hands out.
   */
  lemma WriteCloseRead(root: Node, objects: map<string, Stored>, h: FileHandle, path: PathName, data: Bytes,
                       now: TimeTuple)
    requires WellFormed(root) && path.segments != []
    requires Lookup(root, path.segments).Some? && Lookup(root, path.segments).value.kind == File
    requires h in Lookup(root, path.segments).value.openFiles
    requires |data| > 0
    ensures var e := CloseHandle(root, objects, h, path, data);
            WellFormed(e.root) && Open(e.root, e.objects, path, "r", now).buffer == Some(data)
  {
    ReopenAfterClose(root, objects, h, path, data, "r", now);
  }

  /**
   * Closing a file object that holds no bytes stores nothing: the next open
   * for reading hands out the bytes stored before, not an empty file.
   */
  lemma EmptyCloseKeepsStoredBytes(root: Node, objects: map<string, Stored>, h: FileHandle, path: PathName, now: TimeTuple)
    requires WellFormed(root) && path.segments != []
    requires Lookup(root, path.segments).Some? && Lookup(root, path.segments).value.kind == File
    requires h in Lookup(root, path.segments).value.openFiles
    ensures var e := CloseHandle(root, objects, h, path, []);
            WellFormed(e.root) && Open(e.root, e.objects, path, "r", now).buffer
              == Some(FetchBytes(objects, Lookup(root, path.segments).value.path))
  {
    ReopenAfterClose(root, objects, h, path, [], "r", now);
  }
}
