/**
 * One node of the namespace tree (`RiakFSObject`): its record, the
 * constructor that derives its path, attaching a child, removing a child
 * together with the store keys of the files below it, and the lazily
 * fetched content cache.
 *
 * Nodes are values; the tree that holds them lives in a field of the file
 * system object, which replaces a node wherever the source mutates it.
 * The bucket a node talks to is passed in where the source uses
 * `self.bucket`.
 */
module Entries {
  import opened Wrappers
  import opened Records
  import opened Store
  import opened Paths

  /**
   * An open file object as the file system sees it: the path it reports
   * when it is closed (which `rename` re-points), its mode, and the buffer
   * it was handed when it was opened.
   */
  class FileHandle {
    var path: PathName
    const mode: string
    const buffer: Bytes

    constructor (path: PathName, mode: string, buffer: Bytes)
      ensures this.path == path && this.mode == mode && this.buffer == buffer
    {
      this.path := path;
      this.mode := mode;
      this.buffer := buffer;
    }
  }

  /** The `contents` attribute: `None` for a file, a dictionary for a directory. */
  datatype Children = NoDict | Dict(entries: map<string, Node>)

  /**
   * The attributes of a `RiakFSObject`. `prefix` exists only on nodes that
   * `update_paths` re-prefixed; `memFile` is the `_mem_file` cache;
   * `hasLock` says whether `lock` holds a lock or None.
   */
  datatype Node = Node(
    kind: Kind,
    name: string,
    path: string,
    prefix: Option<string>,
    contents: Children,
    timestamps: Timestamps,
    xattrs: Xattrs,
    openFiles: seq<FileHandle>,
    memFile: Option<Bytes>,
    hasLock: bool)
  {
    /** Python truthiness of `contents`: a dictionary with at least one entry. */
    predicate HasChildren() {
      contents.Dict? && |contents.entries| > 0
    }
  }

  /** `prefix or '/'`. */
  function PrefixOrRoot(prefix: Option<string>): string {
    if prefix.None? || prefix.value == "" then "/" else prefix.value
  }

  /** Falling back to "/" for an empty prefix yields the same normalised prefix. */
  lemma NormalPrefixOrRoot(p: string)
    ensures NormalPrefix(PrefixOrRoot(Some(p))) == NormalPrefix(p)
  {
    if p == "" {
      RootPrefixDoubled();
      assert StripSlashes(p) == [];
    }
  }

  /**
   * `RiakFSObject.__init__`, with `now` standing for `datetime.now()`.
   * A directory without given contents starts with an empty dictionary, a
   * file keeps what it is given (None in every call the file system makes)
   * and gets a lock.
   */
  function NewNode(kind: Kind, name: string, prefix: Option<string>, contents: Children, now: TimeTuple): (n: Node)
    ensures n.path == NormalPrefix(PrefixOrRoot(prefix)) + name + (if kind == Dir then "/" else "")
    ensures n.path[0] == '/'
    ensures prefix.None? || prefix == Some("/") ==> n.path == "//" + name + (if kind == Dir then "/" else "")
    ensures n.kind == kind && (n.name == [] || n.name[|n.name| - 1] != '/')
    ensures kind == Dir ==> n.contents.Dict? && (contents.NoDict? ==> n.contents.entries == map[])
    ensures kind == File ==> n.contents == contents && n.hasLock
    ensures n.timestamps == Timestamps(now, now, now) && n.xattrs == map[]
    ensures n.openFiles == [] && n.memFile.None? && n.prefix.None?
  {
    RootPrefixDoubled();
    var path := NormalPrefix(PrefixOrRoot(prefix)) + name;
    Node(
      kind := kind,
      name := RStripSlashes(name),
      path := if kind == Dir then path + "/" else path,
      prefix := None,
      contents := if kind == Dir && contents.NoDict? then Dict(map[]) else contents,
      timestamps := Timestamps(now, now, now),
      xattrs := map[],
      openFiles := [],
      memFile := None,
      hasLock := kind == File)
  }

  /**
   * The shape of every node the file system builds: a directory has a
   * dictionary and a file has none, only files hold a lock, paths are
   * absolute and names carry no trailing '/'.
   */
  ghost predicate WellFormed(n: Node)
    decreases n
  {
    && (n.kind == Dir <==> n.contents.Dict?)
    && (n.hasLock <==> n.kind == File)
    && |n.path| > 0 && n.path[0] == '/'
    && (n.name == [] || n.name[|n.name| - 1] != '/')
    && (n.contents.Dict? ==> forall c :: c in n.contents.entries ==> WellFormed(n.contents.entries[c]))
  }

  /**
   * Two nodes agree on everything the journal keeps apart from paths:
   * kind, name, timestamps, extended attributes and, recursively, the names
   * and shapes of their children.
   */
  ghost predicate SameShape(a: Node, b: Node)
    decreases a
  {
    && a.kind == b.kind && a.name == b.name
    && a.timestamps == b.timestamps && a.xattrs == b.xattrs
    && (a.contents.Dict? <==> b.contents.Dict?)
    && (a.contents.Dict? && b.contents.Dict? ==>
          a.contents.entries.Keys == b.contents.entries.Keys
          && forall k :: k in a.contents.entries ==> SameShape(a.contents.entries[k], b.contents.entries[k]))
  }

  /**
   * The paths `update_paths` leaves behind below a prefix: the node's path
   * is the normalised prefix followed by its name (no trailing '/', even for
   * a directory), and its children are prefixed, in turn, by that path.
   */
  ghost predicate PathsFrom(n: Node, prefix: string)
    decreases n
  {
    && n.prefix == Some(NormalPrefix(prefix))
    && n.path == NormalPrefix(prefix) + n.name
    && (n.HasChildren() ==>
          forall k :: k in n.contents.entries ==> PathsFrom(n.contents.entries[k], n.path))
  }

  /** `update_paths` applied to one entry (riakfs.py:144-150). */
  function RelinkNode(e: Node, prefix: string): (r: Node)
    decreases e
  {
    var p := NormalPrefix(prefix);
    var moved := e.(prefix := Some(p), path := p + e.name);
    if e.HasChildren() then
      var kids := map k | k in e.contents.entries :: RelinkNode(e.contents.entries[k], moved.path);
      moved.(contents := Dict(kids))
    else
      moved
  }

  /** Relinking keeps kinds, names, timestamps, attributes and the tree's shape. */
  lemma {:induction false} RelinkKeepsShape(e: Node, prefix: string)
    ensures SameShape(RelinkNode(e, prefix), e)
    decreases e
  {
    var r := RelinkNode(e, prefix);
    assert r.kind == e.kind && r.name == e.name && r.timestamps == e.timestamps && r.xattrs == e.xattrs;
    if e.HasChildren() {
      assert r.contents.Dict? && forall k :: k in r.contents.entries <==> k in e.contents.entries;
      forall k | k in e.contents.entries
        ensures SameShape(r.contents.entries[k], e.contents.entries[k])
      {
        assert r.contents.entries[k] == RelinkNode(e.contents.entries[k], r.path);
        RelinkKeepsShape(e.contents.entries[k], r.path);
      }
      assert r.contents.entries.Keys == e.contents.entries.Keys;
    } else {
      assert r.contents == e.contents;
    }
  }

  /**
   * Relinking re-prefixes the whole subtree: every node's path becomes its
   * parent's path (normalised) followed by its name.
   */
  lemma {:induction false} RelinkSetsPaths(e: Node, prefix: string)
    ensures PathsFrom(RelinkNode(e, prefix), prefix)
    decreases e
  {
    var r := RelinkNode(e, prefix);
    if r.HasChildren() {
      forall k | k in r.contents.entries
        ensures PathsFrom(r.contents.entries[k], r.path)
      {
        RelinkSetsPaths(e.contents.entries[k], r.path);
      }
    }
  }

  /** `update_paths(entries, prefix)` over a whole dictionary: every entry relinked below `prefix`. */
  function UpdatePaths(entries: map<string, Node>, prefix: string): (r: map<string, Node>)
    ensures r.Keys == entries.Keys
  {
    map k | k in entries :: RelinkNode(entries[k], prefix)
  }

  /**
   * `update_paths` keeps the shape of every entry and gives each the paths
   * of its new place below `prefix`.
   */
  lemma UpdatePathsRelinks(entries: map<string, Node>, prefix: string)
    ensures forall k :: k in entries ==> SameShape(UpdatePaths(entries, prefix)[k], entries[k])
    ensures forall k :: k in entries ==> PathsFrom(UpdatePaths(entries, prefix)[k], prefix)
  {
    var r := UpdatePaths(entries, prefix);
    forall k | k in entries
      ensures SameShape(r[k], entries[k])
    {
      RelinkKeepsShape(entries[k], prefix);
    }
    forall k | k in entries
      ensures PathsFrom(r[k], prefix)
    {
      RelinkSetsPaths(entries[k], prefix);
    }
  }

  /**
   * The child `_make_dir_entry` creates (riakfs.py:143-155): given contents
   * are first re-prefixed below the parent's path, then the node is built
   * with the parent's path as its prefix.
   */
  function ChildEntry(parentPath: string, kind: Kind, name: string, contents: Children, now: TimeTuple): (c: Node)
    ensures c.kind == kind && c.name == RStripSlashes(name)
    ensures c.path == NormalPrefix(parentPath) + name + (if kind == Dir then "/" else "")
    ensures c.timestamps == Timestamps(now, now, now) && c.xattrs == map[]
    ensures c.openFiles == [] && c.memFile.None? && c.prefix.None?
    ensures contents.Dict? && |contents.entries| > 0 ==>
              c.contents == Dict(UpdatePaths(contents.entries, parentPath))
    ensures !(contents.Dict? && |contents.entries| > 0) ==>
              c.contents == (if kind == Dir then Dict(map[]) else contents)
  {
    var given := if contents.Dict? && |contents.entries| > 0
                 then Dict(UpdatePaths(contents.entries, parentPath)) else contents;
    NormalPrefixOrRoot(parentPath);
    NewNode(kind, name, Some(parentPath), given, now)
  }

  /**
   * `_make_dir_entry` (riakfs.py:142-156): returns the parent with the new
   * child linked under `name`, and the child. Only a directory can take a
   * child (the source fails on a file's `None` contents).
   */
  function MakeDirEntry(parent: Node, kind: Kind, name: string, contents: Children, now: TimeTuple): (r: (Node, Node))
    requires parent.contents.Dict?
    ensures r.0 == parent.(contents := r.0.contents)
    ensures r.0.contents.Dict? && r.0.contents.entries.Keys == parent.contents.entries.Keys + {name}
    ensures r.0.contents.entries[name] == r.1 == ChildEntry(parent.path, kind, name, contents, now)
    ensures forall k :: k in parent.contents.entries && k != name ==>
              r.0.contents.entries[k] == parent.contents.entries[k]
  {
    var child := ChildEntry(parent.path, kind, name, contents, now);
    (parent.(contents := Dict(parent.contents.entries[name := child])), child)
  }

  /** A child created without contents is well formed. */
  lemma ChildEntryWellFormed(parentPath: string, kind: Kind, name: string, now: TimeTuple)
    ensures WellFormed(ChildEntry(parentPath, kind, name, NoDict, now))
  {
  }

  /** `del self.contents[name]`. */
  function Dropped(parent: Node, name: string): (r: Node)
    requires parent.contents.Dict?
    ensures r == parent.(contents := r.contents)
    ensures r.contents.Dict? && r.contents.entries.Keys == parent.contents.entries.Keys - {name}
    ensures forall k :: k in r.contents.entries ==> r.contents.entries[k] == parent.contents.entries[k]
  {
    parent.(contents := Dict(parent.contents.entries - {name}))
  }

  /** Unlinking a child keeps a well-formed directory well formed. */
  lemma DroppedWellFormed(parent: Node, name: string)
    requires WellFormed(parent) && parent.contents.Dict?
    ensures WellFormed(Dropped(parent, name))
  {
    var r := Dropped(parent, name);
    assert forall k :: k in r.contents.entries ==> r.contents.entries[k] == parent.contents.entries[k];
  }

  /**
   * The store keys `parent.remove(name)` deletes when `entry` is the child
   * under `name` and `dirPath` the parent's path: a file is deleted under
   * the parent's path followed by its name (riakfs.py:161), and a directory
   * deletes, child by child, what removing each of its children deletes.
   */
  ghost predicate DeletesKey(dirPath: string, name: string, entry: Node, key: string)
    decreases entry
  {
    if entry.kind == File then key == dirPath + name
    else entry.contents.Dict? && exists c :: c in entry.contents.entries && DeletesKey(entry.path, c, entry.contents.entries[c], key)
  }

  /** The bucket once every key that removing `entry` deletes is gone. */
  ghost function Purged(objects: map<string, Stored>, dirPath: string, name: string, entry: Node): map<string, Stored> {
    map k | k in objects && !DeletesKey(dirPath, name, entry, k) :: objects[k]
  }

  /** Some child in `done` of directory `dir` deletes `key`. */
  ghost predicate DeletedByAny(dir: Node, done: set<string>, key: string)
    requires dir.contents.Dict?
  {
    exists c :: c in done && c in dir.contents.entries && DeletesKey(dir.path, c, dir.contents.entries[c], key)
  }

  /**
   * `RiakFSObject.remove(name)` (riakfs.py:158-167) for a name that is
   * present: a file child's key is deleted from the bucket; a directory
   * child is emptied first, child by child, each removal deleting the keys
   * of its own subtree; then the entry is unlinked.
   */
  method RemoveEntry(bucket: Bucket, parent: Node, name: string) returns (r: Node)
    requires parent.contents.Dict? && name in parent.contents.entries
    requires WellFormed(parent.contents.entries[name])
    modifies bucket
    decreases parent.contents.entries[name], 1
    ensures r == Dropped(parent, name)
    ensures bucket.objects == Purged(old(bucket.objects), parent.path, name, parent.contents.entries[name])
  {
    var entry := parent.contents.entries[name];
    if entry.kind == File {
      bucket.Delete(parent.path + name);
    } else {
      ghost var before := bucket.objects;
      EmptyDir(bucket, entry);
      forall k | k in before
        ensures DeletedByAny(entry, entry.contents.entries.Keys, k) <==> DeletesKey(parent.path, name, entry, k)
      {
      }
    }
    r := Dropped(parent, name);
  }

  /** A key is deleted by the children in `done` and `c` when it is by those in `done` or by `c`. */
  lemma DeletedByOneMore(dir: Node, done: set<string>, c: string)
    requires dir.contents.Dict? && c in dir.contents.entries
    ensures forall k :: DeletedByAny(dir, done + {c}, k)
                <==> DeletedByAny(dir, done, k) || DeletesKey(dir.path, c, dir.contents.entries[c], k)
  {
    forall k | DeletesKey(dir.path, c, dir.contents.entries[c], k)
      ensures DeletedByAny(dir, done + {c}, k)
    {
      assert c in done + {c};
    }
  }

  /**
   * The loop of `remove` over a directory child (riakfs.py:163-165): each
   * of its names removed in turn, which deletes what removing any of its
   * children deletes, and nothing else.
   */
  method EmptyDir(bucket: Bucket, entry: Node)
    requires entry.contents.Dict? && WellFormed(entry)
    modifies bucket
    decreases entry, 0
    ensures forall k :: k in bucket.objects <==>
              k in old(bucket.objects) && !DeletedByAny(entry, entry.contents.entries.Keys, k)
    ensures forall k :: k in bucket.objects ==> bucket.objects[k] == old(bucket.objects)[k]
  {
    ghost var before := bucket.objects;
    var e := entry;
    var pending := entry.contents.entries.Keys;
    while pending != {}
      invariant pending <= entry.contents.entries.Keys
      invariant e.path == entry.path && e.contents.Dict?
      invariant forall k :: k in pending ==> k in e.contents.entries && e.contents.entries[k] == entry.contents.entries[k]
      invariant forall k :: k in bucket.objects <==>
                  k in before && !DeletedByAny(entry, entry.contents.entries.Keys - pending, k)
      invariant forall k :: k in bucket.objects ==> bucket.objects[k] == before[k]
      decreases pending
    {
      var c :| c in pending;
      e := RemoveEntry(bucket, e, c);
      DeletedByOneMore(entry, entry.contents.entries.Keys - pending, c);
      assert entry.contents.entries.Keys - (pending - {c}) == (entry.contents.entries.Keys - pending) + {c};
      pending := pending - {c};
    }
  }

  /**
   * The node once the `mem_file` getter (riakfs.py:105-114) has run: a
   * file without a cache fetches its bytes from the bucket under its own
   * path and caches them; a cache that is present is kept and the bucket is
   * not read; a directory's cache is left as it is.
   */
  function Cached(n: Node, objects: map<string, Stored>): (r: Node)
    ensures r == n.(memFile := r.memFile)
    ensures n.memFile.Some? ==> r.memFile == n.memFile
    ensures n.kind == File ==> r.memFile.Some?
    ensures n.kind == File && n.memFile.None? ==> r.memFile == Some(FetchBytes(objects, n.path))
    ensures n.kind == Dir ==> r.memFile == n.memFile
  {
    if n.kind == File && n.memFile.None? then n.(memFile := Some(FetchBytes(objects, n.path))) else n
  }

  /**
   * The `mem_file` getter on a node held by the caller: the node with its
   * cache filled in as `Cached` says, and the cache it hands out.
   */
  method MemFile(bucket: Bucket, n: Node) returns (n': Node, buffer: Option<Bytes>)
    ensures n' == Cached(n, bucket.objects) && buffer == n'.memFile
  {
    if n.kind == File && n.memFile.None? {
      var bytes := FetchBytes(bucket.objects, n.path);
      n' := n.(memFile := Some(bytes));
    } else {
      n' := n;
    }
    buffer := n'.memFile;
  }
}
