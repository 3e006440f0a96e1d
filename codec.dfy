/**
 * The journal codec: `to_dict` turns a node and its subtree into journal
 * records, `from_dict` builds fresh nodes back from them
 * (riakfs.py:53-81).
 */
module Codec {
  import opened Wrappers
  import opened Records
  import opened Paths
  import opened Errors
  import opened Entries

  /**
   * `to_dict` (riakfs.py:66-81): every instance attribute except the
   * bucket, the children, the lock, the open files and the private cache,
   * with the children's records under 'contents' only when there are any.
   */
  function ToDict(n: Node): (d: Doc)
    ensures d.contents.Omitted? <==> !n.HasChildren()
    ensures d.contents.Children? ==> d.contents.docs.Keys == n.contents.entries.Keys
    decreases n
  {
    Doc(
      kind := n.kind,
      name := n.name,
      path := n.path,
      prefix := n.prefix,
      timestamps := n.timestamps,
      xattrs := n.xattrs,
      contents :=
        if n.HasChildren()
        then Children(map k | k in n.contents.entries :: ToDict(n.contents.entries[k]))
        else Omitted)
  }

  /** The records below `d`: its 'contents', or none when the key is absent. */
  function ChildDocs(d: Doc): map<string, Doc> {
    if d.contents.Children? then d.contents.docs else map[]
  }

  /**
   * The node `from_dict` builds for one record before its children are
   * added: the constructor run on the stored kind, name and prefix, then
   * the stored timestamps and attributes (riakfs.py:57-62).
   */
  function Rebuilt(d: Doc): (n: Node)
    ensures n.kind == d.kind && n.name == RStripSlashes(d.name)
    ensures n.path == NormalPrefix(PrefixOrRoot(d.prefix)) + d.name + (if d.kind == Dir then "/" else "")
    ensures n.timestamps == d.timestamps && n.xattrs == d.xattrs
    ensures n.prefix.None? && n.openFiles == [] && n.memFile.None? && n.hasLock == (d.kind == File)
    ensures d.kind == Dir ==> n.contents == Dict(map[])
    ensures d.kind == File ==> n.contents.NoDict?
  {
    NewNode(d.kind, d.name, d.prefix, NoDict, d.timestamps.ctime).(timestamps := d.timestamps, xattrs := d.xattrs)
  }

  /**
   * `from_dict` (riakfs.py:55-65): a node is rebuilt through the
   * constructor from the stored kind, name and prefix (the stored path is
   * not read), gets the stored timestamps and attributes, and takes its
   * decoded children. A file record with children fails: the file's
   * contents are `None` and cannot take an entry.
   */
  function FromDict(d: Doc): (r: Result<Node, FsError>)
    ensures r.Failure? ==> r.error == TypeFault
    ensures r.Success? && d.kind == Dir ==>
              r.value.contents.Dict? && r.value.contents.entries.Keys == ChildDocs(d).Keys
    ensures r.Success? && d.kind == File ==> r.value.contents.NoDict?
    decreases d
  {
    var kids := ChildDocs(d);
    if exists k :: k in kids && FromDict(kids[k]).Failure? then Failure(TypeFault)
    else if d.kind == File && kids != map[] then Failure(TypeFault)
    else if d.kind == File then Success(Rebuilt(d))
    else
      var decoded := map k | k in kids :: FromDict(kids[k]).value;
      assert decoded.Keys == kids.Keys;
      Success(Rebuilt(d).(contents := Dict(decoded)))
  }

  /** A decoded node is the rebuilt record with its decoded children as contents. */
  lemma DecodedNode(d: Doc)
    requires FromDict(d).Success?
    ensures FromDict(d).value == Rebuilt(d).(contents := FromDict(d).value.contents)
  {
  }

  /** Somewhere in the records a file record carries children. */
  ghost predicate FileWithChildren(d: Doc)
    decreases d
  {
    || (d.kind == File && ChildDocs(d) != map[])
    || (d.contents.Children? && exists k :: k in d.contents.docs && FileWithChildren(d.contents.docs[k]))
  }

  /** Decoding fails exactly when some file record carries children. */
  lemma {:induction false} DecodeFailsIff(d: Doc)
    ensures FromDict(d).Failure? <==> FileWithChildren(d)
    decreases d
  {
    var kids := ChildDocs(d);
    forall k | k in kids
      ensures FromDict(kids[k]).Failure? <==> FileWithChildren(kids[k])
    {
      DecodeFailsIff(kids[k]);
    }
  }

  /** A decoded node carries no open files, no cache and no prefix, all the way down. */
  ghost predicate Fresh(n: Node)
    decreases n
  {
    && n.openFiles == [] && n.memFile.None? && n.prefix.None?
    && (n.contents.Dict? ==> forall k :: k in n.contents.entries ==> Fresh(n.contents.entries[k]))
  }

  /** What decoding builds is well formed and fresh. */
  lemma {:induction false} DecodedWellFormed(d: Doc)
    requires FromDict(d).Success?
    ensures WellFormed(FromDict(d).value) && Fresh(FromDict(d).value)
    decreases d
  {
    var kids := ChildDocs(d);
    var n := FromDict(d).value;
    DecodedNode(d);
    if n.contents.Dict? {
      forall k | k in n.contents.entries
        ensures WellFormed(n.contents.entries[k]) && Fresh(n.contents.entries[k])
      {
        DecodedWellFormed(kids[k]);
      }
    }
  }

  /**
   * Encoding then decoding a well-formed tree succeeds and gives back its
   * kinds, names, timestamps, attributes and child names all the way down.
   */
  lemma {:induction false} RoundTrip(n: Node)
    requires WellFormed(n)
    ensures FromDict(ToDict(n)).Success?
    ensures SameShape(FromDict(ToDict(n)).value, n)
    decreases n
  {
    var d := ToDict(n);
    EncodedDecodes(n);
    DecodedNode(d);
    if n.HasChildren() {
      forall k | k in n.contents.entries
        ensures SameShape(FromDict(d.contents.docs[k]).value, n.contents.entries[k])
      {
        RoundTrip(n.contents.entries[k]);
      }
    }
  }

  /** The records of a well-formed tree always decode: no file record carries children. */
  lemma {:induction false} EncodedDecodes(n: Node)
    requires WellFormed(n)
    ensures FromDict(ToDict(n)).Success?
    decreases n
  {
    var d := ToDict(n);
    if n.HasChildren() {
      forall k | k in n.contents.entries
        ensures FromDict(d.contents.docs[k]).Success?
      {
        EncodedDecodes(n.contents.entries[k]);
      }
    }
  }

  /** No node of the tree was ever re-prefixed. */
  ghost predicate Unprefixed(n: Node)
    decreases n
  {
    n.prefix.None? && (n.contents.Dict? ==> forall k :: k in n.contents.entries ==> Unprefixed(n.contents.entries[k]))
  }

  /**
   * Every node has the path a node created directly under the root prefix
   * "/" gets: "//" followed by its name, and a '/' after a directory's.
   */
  ghost predicate RootLevelPaths(n: Node)
    decreases n
  {
    && n.path == "//" + n.name + (if n.kind == Dir then "/" else "")
    && (n.contents.Dict? ==> forall k :: k in n.contents.entries ==> RootLevelPaths(n.contents.entries[k]))
  }

  /**
   * Reloading does not restore paths: after an encode and decode every
   * node of a tree without re-prefixed nodes has the path "//" + name,
   * whatever its place in the tree, because the constructor receives no
   * prefix and falls back to "/".
   */
  lemma {:induction false} ReloadedPaths(n: Node)
    requires WellFormed(n) && Unprefixed(n)
    ensures FromDict(ToDict(n)).Success? && RootLevelPaths(FromDict(ToDict(n)).value)
    decreases n
  {
    RoundTrip(n);
    var d := ToDict(n);
    var r := FromDict(d).value;
    DecodedNode(d);
    RootPrefixDoubled();
    assert RStripSlashes(n.name) == n.name;
    if n.HasChildren() {
      forall k | k in r.contents.entries
        ensures RootLevelPaths(r.contents.entries[k])
      {
        ReloadedPaths(n.contents.entries[k]);
      }
    }
  }
}
