/**
 * `rename` (riakfs.py:398-430) as a function of the tree and the bucket,
 * for everything but the re-pointing of open file objects, which the file
 * system object does in place.
 */
module Renaming {
  import opened Wrappers
  import opened Errors
  import opened Records
  import opened Store
  import opened Paths
  import opened Entries
  import opened Tree
  import opened Effects
  import opened Removal

  /**
   * A file and a free name branch apart when the free name's parent is a
   * directory: neither path leads to or passes through the other.
   */
  lemma FileAndFreeName(root: Node, src: seq<string>, dd: seq<string>, dn: string)
    requires Lookup(root, src).Some? && Lookup(root, src).value.contents.NoDict?
    requires Lookup(root, dd).Some? && Lookup(root, dd).value.contents.Dict?
    requires Lookup(root, dd + [dn]).None?
    ensures !(src <= dd + [dn]) && !(dd + [dn] <= src)
  {
    assert !(dd + [dn] <= src) by {
      if dd + [dn] <= src {
        LookupThrough(root, dd + [dn], src);
      }
    }
    assert !(src <= dd + [dn]) by {
      if src <= dd {
        LookupThrough(root, src, dd);
      }
    }
  }

  /** Linking a new child in keeps the path of every directory that was there. */
  lemma LinkedKeepsPath(root: Node, dd: seq<string>, kind: Kind, dn: string, now: TimeTuple, t: seq<string>)
    requires Lookup(root, dd).Some? && Lookup(root, dd).value.contents.Dict?
    requires Lookup(root, dd + [dn]).None? && Lookup(root, t).Some?
    ensures Lookup(Linked(root, dd, kind, dn, now), t).Some?
    ensures Lookup(Linked(root, dd, kind, dn, now), t).value.path == Lookup(root, t).value.path
  {
    var m := MakeDirEntry(Lookup(root, dd).value, kind, dn, NoDict, now).0;
    assert Linked(root, dd, kind, dn, now) == Update(root, dd, m);
    if t <= dd {
      LookupUpdateAbove(root, dd, m, t);
      if |t| == |dd| {
        assert t == dd && dd[|t|..] == [];
      }
    } else {
      assert !(dd + [dn] <= t) by {
        if dd + [dn] <= t {
          LookupThrough(root, dd + [dn], t);
        }
      }
      LinkedBeside(root, dd, kind, dn, now, t);
    }
  }

  /**
   * Linking the new file in leaves the source file where it was, so its
   * parent still has it under its name.
   */
  lemma SourceUntouched(root: Node, sd: seq<string>, sn: string, dd: seq<string>, dn: string, now: TimeTuple)
    requires Lookup(root, sd + [sn]).Some? && Lookup(root, sd + [sn]).value.contents.NoDict?
    requires Lookup(root, dd).Some? && Lookup(root, dd).value.contents.Dict?
    requires Lookup(root, dd + [dn]).None?
    ensures Lookup(root, sd).Some?
    ensures Lookup(Linked(root, dd, File, dn, now), sd + [sn]) == Lookup(root, sd + [sn])
    ensures var p := Lookup(Linked(root, dd, File, dn, now), sd);
            p.Some? && p.value.contents.Dict? && sn in p.value.contents.entries
            && p.value.path == Lookup(root, sd).value.path
  {
    FileAndFreeName(root, sd + [sn], dd, dn);
    LinkedBeside(root, dd, File, dn, now, sd + [sn]);
    LookupConcat(root, sd, [sn]);
    LookupConcat(Linked(root, dd, File, dn, now), sd, [sn]);
    LinkedKeepsPath(root, dd, File, dn, now, sd);
  }

  /**
   * `rename(src, dst)` for everything but open file objects: a missing
   * source is `ResourceNotFound`; a directory is handed to `movedir`, which
   * is not part of this model: `moved` is what that call does to the tree,
   * the bucket and the journal flag, and the call ends with it; for a file, an
   * existing destination is `DestinationExists`, a missing destination
   * parent `ParentDirectoryMissing`, and a destination parent that is a
   * file cannot take an entry (`TypeFault`). Otherwise a new file node is
   * made under the destination name (riakfs.py:424), the source is
   * unlinked from its parent and the key of its bytes, the parent's path
   * followed by its name, deleted (riakfs.py:429, 158-167), and the
   * journal is marked dirty.
   */
  function Rename(root: Node, objects: map<string, Stored>, src: PathName, dst: PathName, moved: Effect,
                  now: TimeTuple): (e: Effect)
    requires WellFormed(root)
    ensures Lookup(root, src.segments).Some? && Lookup(root, src.segments).value.kind == Dir ==> e == moved
    ensures !(Lookup(root, src.segments).Some? && Lookup(root, src.segments).value.kind == Dir) && e.outcome.Fail? ==>
              && e.root == root && e.objects == objects && !e.dirtied
              && e.outcome.error in {ResourceNotFound, DestinationExists, ParentDirectoryMissing, TypeFault}
  {
    var entry := Lookup(root, src.segments);
    if entry.None? then Refused(root, objects, ResourceNotFound)
    else if entry.value.kind == Dir then moved
    else if Lookup(root, dst.segments).Some? then Refused(root, objects, DestinationExists)
    else
      var dd := dst.Split().0.segments;
      var dn := dst.Split().1;
      var dstParent := Lookup(root, dd);
      if dstParent.None? then Refused(root, objects, ParentDirectoryMissing)
      else if dstParent.value.contents.NoDict? then Refused(root, objects, TypeFault)
      else Relinked(root, objects, src, dst, now)
  }

  /**
   * A file `rename` past its checks (riakfs.py:424-430): a new file node
   * under the destination name, the source unlinked from its parent and the
   * key of its bytes deleted; the call passes and marks the journal dirty.
   */
  function Relinked(root: Node, objects: map<string, Stored>, src: PathName, dst: PathName, now: TimeTuple): (e: Effect)
    requires WellFormed(root)
    requires Lookup(root, src.segments).Some? && Lookup(root, src.segments).value.kind == File
    requires Lookup(root, dst.segments).None?
    requires Lookup(root, dst.Split().0.segments).Some? && Lookup(root, dst.Split().0.segments).value.contents.Dict?
    ensures e.outcome == Pass && e.dirtied
    ensures e.objects.Keys <= objects.Keys
  {
    var dd := dst.Split().0.segments;
    var dn := dst.Split().1;
    var sd := src.Split().0.segments;
    var sn := src.Split().1;
    LookupWellFormed(root, src.segments);
    SourceUntouched(root, sd, sn, dd, dn, now);
    var tree := Linked(root, dd, File, dn, now);
    Effect(Pass, Update(tree, sd, Dropped(Lookup(tree, sd).value, sn)),
           objects - {Lookup(root, sd).value.path + sn}, true)
  }

  /**
   * `Relinked` in the order the source takes its steps: the new file node
   * is linked in first, then the source is removed from its parent, which
   * the new node leaves where it was.
   */
  lemma RelinkedInSteps(root: Node, objects: map<string, Stored>, src: PathName, dst: PathName, now: TimeTuple)
    requires WellFormed(root)
    requires Lookup(root, src.segments).Some? && Lookup(root, src.segments).value.kind == File
    requires Lookup(root, dst.segments).None?
    requires Lookup(root, dst.Split().0.segments).Some? && Lookup(root, dst.Split().0.segments).value.contents.Dict?
    ensures WellFormed(Linked(root, dst.Split().0.segments, File, dst.Split().1, now))
    ensures var tree := Linked(root, dst.Split().0.segments, File, dst.Split().1, now);
            var removed := RemoveChildAt(tree, objects, src.Split().0.segments, src.Split().1);
            Relinked(root, objects, src, dst, now) == Effect(Pass, removed.root, removed.objects, true)
  {
    var dd, dn := dst.Split().0.segments, dst.Split().1;
    var sd, sn := src.Split().0.segments, src.Split().1;
    LookupWellFormed(root, src.segments);
    SourceUntouched(root, sd, sn, dd, dn, now);
    LinkedWellFormed(root, dd, File, dn, now);
    RemoveChildFile(Linked(root, dd, File, dn, now), objects, sd, sn);
  }

  /** A file `rename` that passes its checks ends as `Relinked` says. */
  lemma RenameRelinks(root: Node, objects: map<string, Stored>, src: PathName, dst: PathName, moved: Effect, now: TimeTuple)
    requires WellFormed(root)
    requires Lookup(root, src.segments).Some? && Lookup(root, src.segments).value.kind == File
    requires Lookup(root, dst.segments).None?
    requires Lookup(root, dst.Split().0.segments).Some? && Lookup(root, dst.Split().0.segments).value.contents.Dict?
    ensures Rename(root, objects, src, dst, moved, now) == Relinked(root, objects, src, dst, now)
  {
  }

  /**
   * The refusals of `rename`, in the order the source checks them, and the
   * hand-over of a directory source.
   */
  lemma RenameRefusals(root: Node, objects: map<string, Stored>, src: PathName, dst: PathName, moved: Effect, now: TimeTuple)
    requires WellFormed(root)
    ensures var e := Rename(root, objects, src, dst, moved, now);
            var entry := Lookup(root, src.segments);
            var dstParent := Lookup(root, dst.Split().0.segments);
            && (entry.None? ==> e == Refused(root, objects, ResourceNotFound))
            && (entry.Some? && entry.value.kind == Dir ==> e == moved)
            && (entry.Some? && entry.value.kind == File && Lookup(root, dst.segments).Some? ==>
                  e == Refused(root, objects, DestinationExists))
            && (entry.Some? && entry.value.kind == File && Lookup(root, dst.segments).None? && dstParent.None? ==>
                  e == Refused(root, objects, ParentDirectoryMissing))
            && ((entry.Some? && entry.value.kind == File && Lookup(root, dst.segments).None? && dstParent.Some?
                 && dstParent.value.kind == File) ==> e == Refused(root, objects, TypeFault))
  {
    var dstParent := Lookup(root, dst.Split().0.segments);
    if dstParent.Some? {
      LookupWellFormed(root, dst.Split().0.segments);
    }
  }

  /**
   * A file renamed: the destination is a new file node made under the
   * destination parent (fresh timestamps, no attributes, no open files, no
   * cached bytes), the source name is gone, the only store change is the
   * deletion of the source's key, so nothing is stored under the new
   * file's key and the bytes stay behind.
   */
  lemma RenameMovesFile(root: Node, objects: map<string, Stored>, src: PathName, dst: PathName, moved: Effect, now: TimeTuple)
    requires WellFormed(root)
    requires Lookup(root, src.segments).Some? && Lookup(root, src.segments).value.kind == File
    requires Rename(root, objects, src, dst, moved, now).outcome.Pass?
    ensures var e := Rename(root, objects, src, dst, moved, now);
            var sd := src.Split().0.segments;
            var dd := dst.Split().0.segments;
            && src.segments != [] && dst.segments != []
            && Lookup(root, sd).Some? && Lookup(root, dd).Some?
            && e.dirtied
            && e.objects == objects - {Lookup(root, sd).value.path + src.Split().1}
            && Lookup(e.root, dst.segments) == Some(ChildEntry(Lookup(root, dd).value.path, File, dst.Split().1, NoDict, now))
            && Lookup(e.root, src.segments).None?
  {
    var sd, sn := src.Split().0.segments, src.Split().1;
    var dd, dn := dst.Split().0.segments, dst.Split().1;
    LookupWellFormed(root, src.segments);
    SourceUntouched(root, sd, sn, dd, dn, now);
    FileAndFreeName(root, src.segments, dd, dn);
    var tree := Linked(root, dd, File, dn, now);
    LinkedChild(root, dd, File, dn, now);
    var srcParent := Lookup(tree, sd).value;
    var r := Update(tree, sd, Dropped(srcParent, sn));
    assert r == Rename(root, objects, src, dst, moved, now).root;
    DroppedBeside(tree, sd, sn, dst.segments);
    LookupConcat(r, sd, [sn]);
  }

  /** A file rename leaves every path that neither leads to nor passes through the source or the destination walking as before. */
  lemma RenameLeavesOthers(root: Node, objects: map<string, Stored>, src: PathName, dst: PathName, moved: Effect, now: TimeTuple, t: seq<string>)
    requires WellFormed(root)
    requires Lookup(root, src.segments).Some? && Lookup(root, src.segments).value.kind == File
    requires Rename(root, objects, src, dst, moved, now).outcome.Pass?
    requires !(t <= src.segments) && !(src.segments <= t) && !(t <= dst.segments) && !(dst.segments <= t)
    ensures Lookup(Rename(root, objects, src, dst, moved, now).root, t) == Lookup(root, t)
  {
    var sd, sn := src.Split().0.segments, src.Split().1;
    var dd, dn := dst.Split().0.segments, dst.Split().1;
    LookupWellFormed(root, src.segments);
    SourceUntouched(root, sd, sn, dd, dn, now);
    var tree := Linked(root, dd, File, dn, now);
    DroppedBeside(tree, sd, sn, t);
    LinkedBeside(root, dd, File, dn, now, t);
  }

  /**
   * What `rename` leaves behind is well formed, whatever the outcome, as
   * long as `movedir` leaves a well-formed tree when it is called.
   */
  lemma RenameWellFormed(root: Node, objects: map<string, Stored>, src: PathName, dst: PathName, moved: Effect, now: TimeTuple)
    requires WellFormed(root)
    requires Lookup(root, src.segments).Some? && Lookup(root, src.segments).value.kind == Dir ==> WellFormed(moved.root)
    ensures WellFormed(Rename(root, objects, src, dst, moved, now).root)
  {
    var e := Rename(root, objects, src, dst, moved, now);
    var entry := Lookup(root, src.segments);
    if e.outcome.Pass? && entry.Some? && entry.value.kind == File {
      var sd, sn := src.Split().0.segments, src.Split().1;
      var dd, dn := dst.Split().0.segments, dst.Split().1;
      LinkedWellFormed(root, dd, File, dn, now);
      var tree := Linked(root, dd, File, dn, now);
      LookupWellFormed(root, src.segments);
      SourceUntouched(root, sd, sn, dd, dn, now);
      var srcParent := Lookup(tree, sd).value;
      LookupWellFormed(tree, sd);
      DroppedWellFormed(srcParent, sn);
      UpdateWellFormed(tree, sd, Dropped(srcParent, sn));
    }
  }
}
