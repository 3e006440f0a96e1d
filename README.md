# riakfs in Dafny

A model of `riakfs.py`, a PyFilesystem back end that keeps a whole
directory tree in a Riak bucket. The namespace is one journal record stored
under the key `__VFS__`. Each file body is a separate binary object, keyed
by the file's path.

What the model holds:

- **The namespace tree.** `Entries.Node` is a recursive datatype for the
  source's `RiakFSObject`. It carries the kind, name, prefix, path,
  timestamps, extended attributes, children, open file objects and cached
  bytes. `Entries.Children` is either a dictionary of children or none
  (`contents is None`). The file system class `FileSystem.RiakFS` holds the
  tree in its `root` field and replaces it on every change.
- **The bucket.** `Store.Bucket` is a class whose `objects` field is a map
  from keys to stored values. A stored value is either a binary body
  (`Blob`) or the journal record (`Document`).
- **Paths.** `Paths.PathName` is a normalised path: whether it is absolute,
  plus its list of segments. `pathsplit` is `PathName.Split`, and
  `iteratepath` is the segment list.
- **Operations.** Each operation of `RiakFS` has a pure function stating
  what it does to the tree and the bucket: `Removal.RemoveFile`,
  `Removal.RemoveDir`, `Creation.Makedir`, `Renaming.Rename`,
  `Handles.Open` and `Handles.CloseHandle`. Each returns an
  `Effects.Effect`, which holds:
  - the outcome: pass, or the error raised;
  - the new tree;
  - the new bucket contents;
  - whether the call set `self.dirty = True`.

  The methods of `FileSystem.RiakFS` do the work step by step, with the
  source's loops. Each is proved to do exactly what its function says, and
  to keep the tree well formed (`FileSystem.RiakFS.Valid`).
- **Errors.** The exceptions of the fs package are `Errors.FsError`
  values. So are the Python crashes the source can reach:
  - `KeyFault` for a `KeyError`;
  - `TypeFault` for a `TypeError` or `AttributeError` on `None`;
  - `ValueFault` for a `ValueError` from `list.remove`.
- **The journal codec.** `to_dict` and `from_dict` are `Codec.ToDict` and
  `Codec.FromDict`. They are proved to round-trip a tree
  (`Codec.RoundTrip`, `FileSystem.SaveThenLoad`).
- **The dirty flag.** `DirtyFlag` is the class `Dirty.DirtyFlag`, with its
  descriptor methods as `Get` and `Set`.

Where the code departs from what the package documents, the model follows
the code:

- **`removedir(path, recursive=True)`** keeps calling `pathsplit` until
  the path is empty. It unlinks each ancestor in turn, so it removes the
  whole top-level entry the path starts with
  (`Removal.RemoveDirRecursiveRelative`). On an absolute path the loop
  then reaches `/` and ends in a `KeyError` from `root.remove('')`
  (`Removal.RemoveDirRecursiveAbsolute`).
- **A file `rename`** makes a new file node under the destination and
  deletes the source's key. It does not copy the bytes
  (`Renaming.RenameMovesFile`).
- **Paths rebuilt by `from_dict`** get the default prefix, so every
  reloaded node's path is `"//" + name` (`Codec.ReloadedPaths`).
- **`remove`** deletes the key made of the parent's path followed by the
  name (`Removal.PurgedFile`).
- **A file at the top level** is stored under its own path,
  `/__VFS__/` and its name, because the root's path `//__VFS__/` is
  normalised when it serves as a prefix. `remove` instead deletes the root's
  path followed by the name, a key with the doubled slash, so the file's
  bytes outlive it (`FileSystem.RemoveRootFileKeepsBytes`).
- **Opening a directory for writing** sets its access time, then fails
  with `TypeFault` (`Handles.OpenDirectoryForWriting`).
- **Closing an empty file object** stores nothing, so the previously
  stored bytes survive (`Handles.EmptyCloseKeepsStoredBytes`).

## Model

| member | source | states |
|---|---|---|
| Dirty.DirtyFlag.constructor | riakfs.py:35-36 | a new flag is clean |
| Dirty.DirtyFlag.Get | riakfs.py:38-42 | reading the flag gives false under autoupdate and the stored value otherwise, so it is never true under autoupdate |
| Dirty.DirtyFlag.Set | riakfs.py:44-49 | under autoupdate, setting true asks for a save and the stored value stays; otherwise the value is stored and no save is asked; a later read gives true exactly when no autoupdate and true was set |
| Paths.RStripSlashes | riakfs.py:120 | the result is a prefix of the input that does not end in '/', and only slashes were removed |
| Paths.NormalPrefix | riakfs.py:122 | a normalised prefix starts and ends with '/' and is at least two characters long |
| Paths.DoubledSlashPrefix | riakfs.py:122 | a directory path with a doubled leading slash, used as a prefix, loses the doubling |
| Paths.RootPrefixDoubled | riakfs.py:121-122 | the prefix "/" normalises to "//", so paths made at the root start with a doubled slash |
| Paths.PathName.Split | riakfs.py:305 | pathsplit: the head followed by the tail gives the path back; an empty path splits into itself and "" |
| Store.Bucket.Put | riakfs.py:223-224 | storing an object sets that key and changes no other |
| Store.Bucket.Delete | riakfs.py:162-163 | deleting an object removes that key and changes no other |
| Entries.FileHandle.constructor | riakfs.py:452 | a file object records the path, the mode and the buffer it was made over |
| Entries.NewNode | riakfs.py:116-140 | a new node's path is the normalised prefix, then the name, then '/' for a directory; its name has no trailing slash; a directory gets an empty dictionary when given none; a file keeps its contents and gets a lock; all three times are now; no attributes, open files or cache |
| Entries.NormalPrefixOrRoot | riakfs.py:121-122 | a missing prefix counts as "/", and a given one normalises as itself |
| Entries.RelinkKeepsShape | riakfs.py:144-150 | re-prefixing a subtree keeps every node's kind, name, times, attributes and children |
| Entries.RelinkSetsPaths | riakfs.py:144-150 | after re-prefixing, every node's path starts with its parent's path |
| Entries.UpdatePathsRelinks | riakfs.py:144-151 | update_paths over a dictionary keeps its keys, and re-prefixes each entry without changing its shape |
| Entries.ChildEntry | riakfs.py:143-154 | the child made under a parent has the parent's normalised path as prefix, with fresh times and nothing open or cached; non-empty contents handed over are re-prefixed under it |
| Entries.MakeDirEntry | riakfs.py:142-156 | _make_dir_entry adds exactly the new name to the parent's dictionary, maps it to the child it returns, and keeps every other entry and field |
| Entries.ChildEntryWellFormed | riakfs.py:152-154 | a new file or empty directory entry is well formed |
| Entries.Dropped | riakfs.py:167 | deleting a name from a dictionary removes exactly that key and keeps every other entry |
| Entries.DroppedWellFormed | riakfs.py:167 | deleting an entry keeps a node well formed |
| Entries.RemoveEntry | riakfs.py:158-167 | remove(name) unlinks the entry and deletes from the bucket exactly the key of every file below it, each its parent's path followed by its name |
| Entries.EmptyDir | riakfs.py:164-166 | the loop over a directory's children deletes exactly the file keys below it and leaves every other stored value as it was |
| Entries.DeletedByOneMore | riakfs.py:165-166 | one more child handled by the loop adds exactly that child's keys to those deleted |
| Entries.Cached | riakfs.py:105-109 | reading mem_file fills a file's empty cache with the bytes stored under its path, and keeps an existing cache and a directory as they were |
| Entries.MemFile | riakfs.py:105-114 | the mem_file property returns the cache it has filled |
| Tree.Lookup | riakfs.py:268-279 | the walk of no segments finds the node itself, and a successful walk of a non-empty path starts from a dictionary that holds its first segment |
| Tree.LookupConcat | riakfs.py:268-279 | walking a path joined from two parts is walking the first part, then the second from there |
| Tree.Update | riakfs.py:155 | replacing the node a path leads to makes that path find the new node, and changes no field of the root but its children |
| Tree.LookupUpdateOther | riakfs.py:155 | after replacing the node at a path, paths below it walk inside the new node, and paths off it walk as before |
| Tree.UpdateWellFormed | riakfs.py:155 | replacing a node by a well-formed one keeps the tree well formed |
| Tree.LookupWellFormed | riakfs.py:268-279 | every node found in a well-formed tree is well formed |
| Tree.Linked | riakfs.py:142-156 | linking a new child under a directory keeps that directory at its path |
| Tree.LinkedChild | riakfs.py:152-155 | after linking, the new name leads to the child made under the directory's path |
| Tree.LinkedBeside | riakfs.py:155 | linking a child changes no path that neither leads to nor passes through it |
| Tree.LinkedWellFormed | riakfs.py:142-156 | linking a new child keeps the tree well formed |
| Codec.ToDict | riakfs.py:68-81 | the record carries a contents entry exactly when the node has children, with the same names |
| Codec.Rebuilt | riakfs.py:57-62 | a record's node is rebuilt with its kind, name, prefix, times and attributes |
| Codec.FromDict | riakfs.py:54-66 | decoding fails only with TypeFault; a decoded directory has exactly the record's child names, and a decoded file has no dictionary |
| Codec.DecodedNode | riakfs.py:57-64 | a decoded node is the rebuilt record with its decoded children |
| Codec.DecodeFailsIff | riakfs.py:63-64 | decoding fails exactly when some file in the record carries children |
| Codec.DecodedWellFormed | riakfs.py:54-66 | a decoded tree is well formed, with nothing open or cached |
| Codec.EncodedDecodes | riakfs.py:53-81 | the record of a well-formed tree always decodes |
| Codec.RoundTrip | riakfs.py:53-81 | decoding the record of a tree gives back a tree of the same shape |
| Codec.ReloadedPaths | riakfs.py:57-60 | after a round trip, every node's path is "//" followed by its own name |
| Removal.RemoveChildAt | riakfs.py:305-307 | parent.remove(name) fails only with TypeFault or KeyFault and never dirties the journal; on success the root keeps a dictionary, and a removal at the root leaves it with fewer entries; the tree stays well formed |
| Removal.RemoveFile | riakfs.py:295-309 | remove keeps the tree well formed, whatever the outcome |
| Removal.RemoveFileOutcome | riakfs.py:295-309 | a missing path is ResourceNotFound and a directory ResourceInvalid; a file is unlinked from its parent, its key deleted and the call dirties the journal |
| Removal.PurgedFile | riakfs.py:160-163 | removing a file deletes exactly the key made of the parent's path and the file's name |
| Removal.RemoveChildFile | riakfs.py:158-167 | removing a file entry unlinks it from its parent and deletes its one key |
| Removal.DeletedKeysAbsolute | riakfs.py:161 | every key remove deletes starts with '/', so the journal key is never deleted |
| Removal.RemoveUpward | riakfs.py:324-329 | the upward removal loop keeps the tree well formed and fails only with TypeFault or KeyFault |
| Removal.RemoveUpwardStep | riakfs.py:326-329 | one pass of the loop removes the last segment from its parent, then goes on from the parent |
| Removal.DeletesKeyNested | riakfs.py:158-167 | a key deleted with an inner entry is also deleted with any entry that contains it |
| Removal.PurgedNested | riakfs.py:158-167 | removing an entry after one inside it deletes the same keys as removing the outer entry alone |
| Removal.DroppedAfterInner | riakfs.py:326-329 | unlinking an inner entry and then its top-level ancestor leaves the tree as unlinking the ancestor alone |
| Removal.RemoveUpwardSegments | riakfs.py:324-329 | the loop over a path removes the top-level entry the path starts with, and its keys |
| Removal.RemoveUpwardFromSlash | riakfs.py:326-329 | the loop on "/" ends in KeyFault |
| Removal.RemoveUpwardRemovesNothingBack | riakfs.py:326-329 | the loop on "/" never brings back a name already gone |
| Removal.RemoveDir | riakfs.py:311-336 | removedir keeps the tree well formed, whatever the outcome |
| Removal.RemoveDirRefusals | riakfs.py:316-322 | a call is refused with ResourceNotFound exactly when the path is missing, with ResourceInvalid exactly when it names a file, and with DirectoryNotEmpty exactly when the directory has children and force is off |
| Removal.RemoveDirFlat | riakfs.py:331-336 | without recursive, the directory is unlinked from its parent, every file key below it deleted and the journal dirtied |
| Removal.RemoveDirRecursiveRelative | riakfs.py:324-336 | with recursive on a relative path, the whole top-level entry the path starts with goes, with its keys, and the journal is dirtied |
| Removal.RemoveDirRecursiveAbsolute | riakfs.py:324-336 | with recursive on an absolute path, the top-level entry goes and the call then fails with KeyFault without dirtying the journal |
| Creation.AllButLast | riakfs.py:360 | the path without its last segment, which put back gives the path |
| Creation.AncestorCheck | riakfs.py:359-366 | the ancestor walk fails only with ResourceInvalid, or TypeFault on a root without a dictionary |
| Creation.AncestorCheckExisting | riakfs.py:359-366 | the ancestor walk passes along a path that exists |
| Creation.AncestorCheckFindsFile | riakfs.py:359-366 | a file among the ancestors makes the walk fail with ResourceInvalid |
| Creation.NewDir | riakfs.py:372 | a directory made by the walk is empty |
| Creation.WalkChild | riakfs.py:370-376 | the walk steps into an existing child, or into a new directory when the child is missing |
| Creation.EnsureDirs | riakfs.py:368-376 | after the creation walk, the whole path leads to a directory with a dictionary, and the root keeps its fields |
| Creation.EnsureDirsStep | riakfs.py:369-376 | the walk is its first step, followed by the walk from that child |
| Creation.EnsureDirsExisting | riakfs.py:368-376 | the walk along a path that exists changes nothing |
| Creation.EnsureDirsFreshEnd | riakfs.py:368-376 | where the path was missing, the walk ends at a new empty directory |
| Creation.EnsureDirsOffPath | riakfs.py:368-376 | the walk changes nothing off the path it walks |
| Creation.EnsureDirsChain | riakfs.py:368-376 | every prefix of the walked path leads to a directory afterwards |
| Creation.EnsureDirsWellFormed | riakfs.py:368-376 | the walk keeps the tree well formed |
| Creation.EnsureDirsBeside | riakfs.py:368-376 | the walk to a missing node's parent leaves that node missing, and every path that neither leads to nor passes through it as it was |
| Creation.ChecksGiveDirsAlong | riakfs.py:359-376 | the ancestor check passing and the parent not being a file make every node on the walk a directory |
| Creation.FinalStep | riakfs.py:385-396 | the last step fails without changing the tree or dirtying the journal, and passes dirtying it; the bucket is untouched |
| Creation.FinalStepCreates | riakfs.py:393-395 | a missing name gains a new empty directory under its parent, and nothing else moves |
| Creation.FinalStepWellFormed | riakfs.py:385-396 | the last step keeps the tree well formed |
| Creation.Makedir | riakfs.py:338-396 | makedir never touches the bucket |
| Creation.MakedirAlong | riakfs.py:349-378 | the recursive mode never touches the bucket |
| Creation.MakedirWellFormed | riakfs.py:338-396 | makedir keeps the tree well formed, whatever the outcome |
| Creation.MakedirAlongWellFormed | riakfs.py:349-396 | the recursive mode keeps the tree well formed |
| Creation.MakedirFailsCleanly | riakfs.py:338-396 | every refusal comes before any change: a failed call leaves the tree as it was and the journal clean |
| Creation.MakedirRootOrEmpty | riakfs.py:340-346 | an empty path is PathError unless recreating is allowed; "/" passes unchanged when recreating is allowed and is DestinationExists otherwise |
| Creation.MakedirExistingTarget | riakfs.py:350-391 | an existing directory is DestinationExists unless recreating is allowed, when the call passes and dirties the journal; an existing file is DestinationExists in the recursive mode without recreating, and ResourceInvalid otherwise |
| Creation.MakedirFlatParent | riakfs.py:381-383 | without recursive, a missing parent is ParentDirectoryMissing and a parent that is a file TypeFault |
| Creation.MakedirFileOnChain | riakfs.py:359-366 | in the recursive mode, a file above the named node is ResourceInvalid |
| Creation.MakedirCreates | riakfs.py:338-396 | a call that passes on a missing path leaves a new empty directory there, made under its parent, and every path that neither leads to nor passes through it as before |
| Creation.MakedirAlongCreates | riakfs.py:349-396 | the same for the recursive mode, where missing ancestors are made first |
| Creation.WalkIntoExisting | riakfs.py:375-376 | a step into an existing child keeps the loop invariant of the creation walk |
| Creation.WalkIntoCreated | riakfs.py:371-374 | a step that creates a child keeps the loop invariant of the creation walk |
| Creation.WalkDone | riakfs.py:368-378 | when the loop ends, the tree is the creation walk's result and the node reached is at the path |
| Renaming.FileAndFreeName | riakfs.py:414-423 | a file source and a free destination are paths that neither contains |
| Renaming.LinkedKeepsPath | riakfs.py:424 | linking the new node keeps every existing node at its path |
| Renaming.SourceUntouched | riakfs.py:424-429 | linking the new node leaves the source and its parent where they were |
| Renaming.Rename | riakfs.py:398-430 | a directory source ends as movedir's effect; otherwise a failed rename changes nothing and fails only with ResourceNotFound, DestinationExists, ParentDirectoryMissing or TypeFault |
| Renaming.Relinked | riakfs.py:424-430 | a file rename past its checks passes, dirties the journal and only deletes keys |
| Renaming.RelinkedInSteps | riakfs.py:424-430 | the rename is linking the new node, then remove on the source's parent |
| Renaming.RenameRelinks | riakfs.py:414-430 | a file rename past its checks is the relink |
| Renaming.RenameRefusals | riakfs.py:403-423 | in the source's order: a missing source is ResourceNotFound, a directory source ends as movedir's effect, a taken destination is DestinationExists, a missing destination parent is ParentDirectoryMissing, and a file as parent is TypeFault |
| Renaming.RenameMovesFile | riakfs.py:424-430 | the destination becomes a new file node under its parent, the source name is gone, and the only bucket change is deleting the source's key, so the bytes are not moved |
| Renaming.RenameLeavesOthers | riakfs.py:424-430 | every path that neither leads to nor passes through the source or the destination walks as before |
| Renaming.RenameWellFormed | riakfs.py:398-430 | rename keeps the tree well formed, whatever the outcome, as long as movedir leaves a well-formed tree when a directory is renamed |
| Handles.Touched | riakfs.py:450 | setting the access time changes only the access time |
| Handles.TouchedAt | riakfs.py:450-452 | the node at the path gets its access time set and its cache filled |
| Handles.TouchedWellFormed | riakfs.py:450-452 | touching a node keeps the tree well formed |
| Handles.FileSegs | riakfs.py:436 | the segments of the file the call names; "/" names the child "" of the root |
| Handles.Open | riakfs.py:433-471 | open never touches the bucket; a file object comes only with a pass, and a failure makes none and dirties nothing; the errors are ResourceNotFound, ResourceInvalid and TypeFault |
| Handles.OpenIn | riakfs.py:442-468 | the same for a call whose parent is a directory |
| Handles.Opened | riakfs.py:450-453 | the common tail passes exactly when it hands out a buffer and is TypeFault otherwise, never touches the bucket, and dirties the journal exactly when a file was created |
| Handles.WithHandle | riakfs.py:453 | the file object is appended to the open files of the node at the path, which keeps its other fields; a path that leads nowhere changes nothing |
| Handles.WithHandleWellFormed | riakfs.py:453 | registering a file object keeps the tree well formed |
| Handles.OpenRefusals | riakfs.py:439-448 | a missing or file parent is ResourceNotFound; for reading or appending, a missing name is ResourceNotFound and a directory ResourceInvalid, with nothing changed |
| Handles.OpenEndsAtFile | riakfs.py:442-467 | past its checks, open on an existing name ends at that node |
| Handles.OpenNeedsFile | riakfs.py:442-448 | for reading or appending, a missing name or a directory is refused and nothing changes |
| Handles.OpenEndsAtNewFile | riakfs.py:456-460 | for writing a missing name, open ends at the file it creates, dirtying the journal |
| Handles.OpenExistingFile | riakfs.py:442-468 | opening an existing file passes without dirtying; the node gets its access time and cache, and the file object is made over the old cache or the bytes stored under its path |
| Handles.OpenCreatesFile | riakfs.py:456-468 | opening a missing name for writing creates a new file under the parent and dirties the journal; the file object is made over whatever the bucket holds under the new path |
| Handles.OpenDirectoryForWriting | riakfs.py:462-466 | opening a directory for writing fails with TypeFault after setting its access time, without dirtying the journal |
| Handles.OpenOtherMode | riakfs.py:470-471 | a mode with none of 'r', 'a' and 'w' makes no file object and changes nothing |
| Handles.OpenWithoutParent | riakfs.py:439-440 | a missing parent is ResourceNotFound with nothing changed |
| Handles.OpenWellFormed | riakfs.py:433-471 | open keeps the tree well formed, whatever the outcome |
| Handles.OpenExistingWellFormed | riakfs.py:442-454 | the read and append branch keeps the tree well formed |
| Handles.OpenForWritingWellFormed | riakfs.py:456-468 | the write branch keeps the tree well formed |
| Handles.OpenedWellFormed | riakfs.py:450-453 | the common tail keeps the tree well formed |
| Handles.FirstIndex | riakfs.py:289 | the position of the first occurrence of the file object |
| Handles.RemoveFirst | riakfs.py:289 | list.remove takes out exactly the first occurrence and keeps the order of the rest |
| Handles.CloseHandle | riakfs.py:281-291 | closing never dirties the journal, and fails only with ValueFault, leaving the tree as it was |
| Handles.CloseHandleOutcome | riakfs.py:281-291 | a path that leads nowhere changes nothing; otherwise bytes are stored under the node's path exactly when there are any, the call fails exactly when the file object is not registered, and on success it is unregistered once and the cache dropped |
| Handles.CloseHandleWellFormed | riakfs.py:281-291 | closing keeps the tree well formed |
| Handles.ReopenAfterClose | riakfs.py:281-291 | after a close, the next open for reading fetches what the bucket holds under the node's path |
| Handles.WriteCloseRead | riakfs.py:285-288 | bytes written and closed are what the next open for reading hands out |
| Handles.EmptyCloseKeepsStoredBytes | riakfs.py:286 | closing an empty file object stores nothing, so the next read gets the old bytes |
| FileSystem.Loaded | riakfs.py:214-220 | load fails only with TypeFault and gives a well-formed tree; with no journal it makes an empty root directory at "//__VFS__/" |
| FileSystem.EmptyRoot | riakfs.py:220 | the new root is an empty, well-formed directory at "//__VFS__/" |
| FileSystem.RootPathAsPrefix | riakfs.py:122 | the new root's path "//__VFS__/", used as a prefix, is "/__VFS__/" |
| FileSystem.RootFilePath | riakfs.py:114-131 | a file made under a new root keeps the tree well formed and has the path "/__VFS__/" followed by its name |
| FileSystem.RemoveRootFileKeepsBytes | riakfs.py:155-163 | removing that file succeeds but deletes the key "//__VFS__/" followed by its name, so bytes stored under the file's own path stay in the bucket |
| FileSystem.LoadedFailsIff | riakfs.py:214-220 | load fails exactly when the journal key holds a non-empty body, or a record in which some file has children |
| FileSystem.SaveThenLoad | riakfs.py:214-224 | what save stores, load reads back as a tree of the same shape, whatever else the bucket holds |
| FileSystem.RiakFS.constructor | riakfs.py:226-238 | no tree until load, and a fresh, clean DirtyFlag in the dirty attribute |
| FileSystem.RiakFS.Load | riakfs.py:214-220 | the tree becomes what Loaded makes of the journal; a failure leaves it as it was |
| FileSystem.RiakFS.Save | riakfs.py:222-224 | the record of the tree is stored under the journal key and nothing else changes; with no tree, TypeFault |
| FileSystem.RiakFS.Close | riakfs.py:265-266 | close is save |
| FileSystem.RiakFS.GetDirEntry | riakfs.py:268-279 | the loop finds what Lookup finds |
| FileSystem.RiakFS.RemoveChild | riakfs.py:305-307 | the parent's remove does what RemoveChildAt says, and keeps the tree well formed |
| FileSystem.RiakFS.MakeDirEntryAt | riakfs.py:142-156 | _make_dir_entry on the directory at a path links the new child there |
| FileSystem.RiakFS.OnCloseMemoryFile | riakfs.py:281-291 | _on_close_memory_file does what CloseHandle says |
| FileSystem.RiakFS.Remove | riakfs.py:295-309 | remove does what RemoveFile says to the tree, the bucket and the journal flag |
| FileSystem.RiakFS.Removedir | riakfs.py:311-336 | removedir, with its upward loop, does what RemoveDir says |
| FileSystem.RiakFS.Makedir | riakfs.py:338-396 | makedir does what Creation.Makedir says |
| FileSystem.RiakFS.MakedirAlongAt | riakfs.py:349-396 | the recursive mode, with its two loops, does what MakedirAlong says |
| FileSystem.RiakFS.FinalStepAt | riakfs.py:385-396 | the last step does what FinalStep says |
| FileSystem.RiakFS.CheckAncestors | riakfs.py:359-366 | the ancestor loop gives what AncestorCheck says |
| FileSystem.RiakFS.EnsureDirsAt | riakfs.py:368-378 | the creation loop builds what EnsureDirs says, and returns the directory the path then leads to |
| FileSystem.RiakFS.Rename | riakfs.py:398-430 | rename does what Renaming.Rename says, and every file object open on the source now names the destination; for a directory, movedir's effect on the tree, the bucket and the journal flag is installed after that |
| FileSystem.RiakFS.MoveFile | riakfs.py:414-430 | the file part of rename does what Renaming.Rename says |
| FileSystem.RiakFS.Relink | riakfs.py:424-430 | linking the new node and removing the source do what Relinked says |
| FileSystem.RiakFS.Open | riakfs.py:433-471 | open does what Handles.Open says; when it hands out a buffer, it returns a new file object for the path and mode over that buffer, registered with the file's node, and otherwise none |
| FileSystem.RiakFS.OpenExisting | riakfs.py:442-455 | the read and append branch does what Handles.Open says |
| FileSystem.RiakFS.OpenForWriting | riakfs.py:456-468 | the write branch does what Handles.Open says |
| FileSystem.RiakFS.OpenEntry | riakfs.py:446-453 | opening an existing name does what Handles.Open says, without dirtying the journal |
| FileSystem.RiakFS.CreateAndOpen | riakfs.py:456-468 | creating and opening a missing name does what Handles.Open says, and dirties the journal |
| FileSystem.RiakFS.OpenCreated | riakfs.py:458-468 | the new file is linked, then opened as Opened says |
| FileSystem.RiakFS.TouchAndRegister | riakfs.py:450-453 | the access time is set, the cache filled, and a file object made and registered, as Opened says |

## Left out

- The Riak client and the lazily made bucket (riakfs.py:17-31, 240-247) are left out. The bucket is a map held by `Store.Bucket`, and `host`, `port` and `transport` are not modelled.
- Pickling (`__getstate__` and `__setstate__`, riakfs.py:169-195, 257-263) is not modelled.
- The `datetime` conversions of the timestamps (riakfs.py:83-103) are not modelled. Times are opaque tuples, and "now" is a parameter of every operation that reads the clock.
- `@synchronize`, the file locks and thread safety are not modelled. The model is sequential, and a file node only records that it has a lock.
- `MemoryFile` and `StringIO` internals are not modelled. This includes writing through a file object and `flush`. The bytes a file object holds when it is closed are a parameter of `OnCloseMemoryFile`. In the source, a file object and its node share one `StringIO` (riakfs.py:450-452, 464-466), so opening with 'w' truncates the node's cache and writes show through to it. `TouchAndRegister` copies the cached bytes into the handle instead, and the sharing is not modelled.
- `movedir` is part of the fs base class and is not part of this model. What it does to the tree, the bucket and the journal flag is the parameter `moved` of `Renaming.Rename` and `FileSystem.RiakFS.Rename`. Renaming a directory re-points the open file objects, then installs that effect.
- RenameWellFormed: holds for a directory source only when `moved` is a well-formed tree, since what `movedir` does is not part of this model.
- `normpath`, `pathsplit` and `iteratepath` from `fs.path` are not modelled as text functions. Paths are taken already normalised and split into segments (`Paths.PathName`). `remove` (riakfs.py:305) and `makedir` (riakfs.py:347) call `pathsplit` on the argument as given, not on the normalised path, so a trailing slash there ("a/b/") splits off an empty name, and `makedir` can make an entry named "". The model splits the normalised path in both.
- `__str__`, `__repr__` and `__unicode__` are not modelled: they only print.
- The test suite and `setup.py` are not modelled.
- `autoupdate` is not honoured. This follows the source, where the `DirtyFlag` sits in the instance and is never used as a descriptor. So `self.dirty = True` replaces it with a plain value, and no operation saves the journal on its own. The flag's own behaviour is modelled by `Dirty.DirtyFlag`.
- `MemoryFile` construction is reduced to `Entries.FileHandle`. A handle records only its path, mode and buffer.
- One `now` parameter stands for every clock read of an operation. The source calls `datetime.now()` once per node it makes (riakfs.py:131) and again when `open` sets the access time (riakfs.py:450, 464), so those times can differ in the source.
- LoadedFailsIff: is an if-and-only-if only over typed journal records (`Records.Doc`). A record missing `type`, `name`, `xattrs` or `timestamps` is a `KeyError` in `from_dict` (riakfs.py:56-61), and an unknown type is an `AssertionError` (riakfs.py:117). Neither can be written as a `Doc`, so those failures are not modelled.
- Operations before `load` are not modelled. `FileSystem.RiakFS.Valid` asks for a loaded root. In the source, `root` is `None` until `load` (riakfs.py:236), and the walk in `_get_dir_entry` then fails with an `AttributeError` (riakfs.py:271-273).
