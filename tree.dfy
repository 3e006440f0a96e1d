/**
 * Walking the namespace tree by path segments, and replacing the node
 * found at the end of a walk: the value form of reaching a node through
 * `contents` and mutating it in place.
 */
module Tree {
  import opened Wrappers
  import opened Records
  import opened Entries

  /**
   * The walk of `_get_dir_entry` (riakfs.py:268-279): follow each segment
   * through `contents`, giving up as soon as a node has no dictionary (a
   * file) or lacks the segment.
   */
  function Lookup(n: Node, segs: seq<string>): (r: Option<Node>)
    ensures segs == [] ==> r == Some(n)
    ensures segs != [] && r.Some? ==>
              n.contents.Dict? && segs[0] in n.contents.entries
    decreases |segs|
  {
    if segs == [] then Some(n)
    else if n.contents.NoDict? || segs[0] !in n.contents.entries then None
    else Lookup(n.contents.entries[segs[0]], segs[1..])
  }

  /**
   * The node at `segs` replaced by `m`, every node above it rebuilt around
   * it: afterwards the walk to `segs` finds `m`, and the node at the top
   * keeps its own fields.
   */
  function Update(n: Node, segs: seq<string>, m: Node): (r: Node)
    requires Lookup(n, segs).Some?
    ensures Lookup(r, segs) == Some(m)
    ensures segs != [] ==> r == n.(contents := r.contents) && r.contents.Dict?
                           && r.contents.entries.Keys == n.contents.entries.Keys
    decreases |segs|
  {
    if segs == [] then m
    else
      n.(contents := Dict(n.contents.entries[segs[0] :=
           Update(n.contents.entries[segs[0]], segs[1..], m)]))
  }

  /** A walk through a longer path is a walk to its head, then on from there. */
  lemma {:induction false} LookupConcat(n: Node, p: seq<string>, q: seq<string>)
    ensures Lookup(n, p + q) == if Lookup(n, p).Some? then Lookup(Lookup(n, p).value, q) else None
    decreases |p|
  {
    if p == [] {
      assert p + q == q;
    } else {
      assert (p + q)[0] == p[0] && (p + q)[1..] == p[1..] + q;
      if n.contents.Dict? && p[0] in n.contents.entries {
        LookupConcat(n.contents.entries[p[0]], p[1..], q);
      }
    }
  }

  /** A walk of one segment finds the child under that name. */
  lemma LookupChild(n: Node, c: string)
    requires n.contents.Dict? && c in n.contents.entries
    ensures Lookup(n, [c]) == Some(n.contents.entries[c])
  {
    assert [c][1..] == [];
  }

  /** A walk through a longer path passes through each of its prefixes. */
  lemma LookupThrough(n: Node, p: seq<string>, t: seq<string>)
    requires p <= t
    ensures Lookup(n, t) == if Lookup(n, p).Some? then Lookup(Lookup(n, p).value, t[|p|..]) else None
  {
    assert t == p + t[|p|..];
    LookupConcat(n, p, t[|p|..]);
  }

  /**
   * An update is seen below the updated path through the new node, and
   * leaves every path that branches off it as it was.
   */
  lemma {:induction false} LookupUpdateOther(n: Node, segs: seq<string>, m: Node, t: seq<string>)
    requires Lookup(n, segs).Some?
    ensures segs <= t ==> Lookup(Update(n, segs, m), t) == Lookup(m, t[|segs|..])
    ensures !(segs <= t) && !(t <= segs) ==> Lookup(Update(n, segs, m), t) == Lookup(n, t)
    decreases |segs|
  {
    if segs != [] && t != [] {
      var c := segs[0];
      if t[0] == c {
        assert segs <= t ==> segs[1..] <= t[1..];
        assert !(segs <= t) && !(t <= segs) ==> !(segs[1..] <= t[1..]) && !(t[1..] <= segs[1..]);
        LookupUpdateOther(n.contents.entries[c], segs[1..], m, t[1..]);
      }
    }
  }

  /**
   * A node above the updated path is seen rebuilt around the update: its
   * own fields are kept and the update is made below it.
   */
  lemma {:induction false} LookupUpdateAbove(n: Node, segs: seq<string>, m: Node, t: seq<string>)
    requires Lookup(n, segs).Some? && t <= segs
    ensures Lookup(n, t).Some? && Lookup(Lookup(n, t).value, segs[|t|..]).Some?
    ensures Lookup(Update(n, segs, m), t) == Some(Update(Lookup(n, t).value, segs[|t|..], m))
    decreases |t|
  {
    if t != [] {
      assert t[1..] <= segs[1..];
      LookupUpdateAbove(n.contents.entries[segs[0]], segs[1..], m, t[1..]);
    }
  }

  /**
   * Replacing the node one segment below `p` is replacing the node at `p`
   * by itself with that one child replaced.
   */
  lemma {:induction false} UpdateExtend(n: Node, p: seq<string>, c: string, y: Node)
    requires Lookup(n, p + [c]).Some?
    ensures Lookup(n, p).Some? && Lookup(n, p).value.contents.Dict?
    ensures Update(n, p + [c], y)
              == Update(n, p, Lookup(n, p).value.(contents := Dict(Lookup(n, p).value.contents.entries[c := y])))
    decreases |p|
  {
    LookupConcat(n, p, [c]);
    if p == [] {
      assert p + [c] == [c];
    } else {
      assert (p + [c])[0] == p[0] && (p + [c])[1..] == p[1..] + [c];
      UpdateExtend(n.contents.entries[p[0]], p[1..], c, y);
    }
  }

  /** Updating the same path twice keeps only the second node. */
  lemma {:induction false} UpdateUpdate(n: Node, segs: seq<string>, m1: Node, m2: Node)
    requires Lookup(n, segs).Some?
    ensures Update(Update(n, segs, m1), segs, m2) == Update(n, segs, m2)
    decreases |segs|
  {
    if segs != [] {
      UpdateUpdate(n.contents.entries[segs[0]], segs[1..], m1, m2);
    }
  }

  /** Putting back the node that is already there changes nothing. */
  lemma {:induction false} UpdateSelf(n: Node, segs: seq<string>)
    requires Lookup(n, segs).Some?
    ensures Update(n, segs, Lookup(n, segs).value) == n
    decreases |segs|
  {
    if segs != [] {
      UpdateSelf(n.contents.entries[segs[0]], segs[1..]);
      assert n.contents.entries[segs[0] := n.contents.entries[segs[0]]] == n.contents.entries;
    }
  }

  /** Every node found in a well-formed tree is well formed. */
  lemma {:induction false} LookupWellFormed(n: Node, segs: seq<string>)
    requires WellFormed(n) && Lookup(n, segs).Some?
    ensures WellFormed(Lookup(n, segs).value)
    decreases |segs|
  {
    if segs != [] {
      LookupWellFormed(n.contents.entries[segs[0]], segs[1..]);
    }
  }

  /** After a child is linked into a directory, a walk through that child goes on in the new one. */
  lemma LookupLink(n: Node, c: string, m: Node, t: seq<string>)
    requires n.contents.Dict? && t != []
    ensures Lookup(n.(contents := Dict(n.contents.entries[c := m])), t)
              == if t[0] == c then Lookup(m, t[1..]) else Lookup(n, t)
  {
  }

  /** Linking a well-formed child into a well-formed directory keeps it well formed. */
  lemma LinkWellFormed(n: Node, c: string, m: Node)
    requires WellFormed(n) && n.contents.Dict? && WellFormed(m)
    ensures WellFormed(n.(contents := Dict(n.contents.entries[c := m])))
  {
    var r := n.(contents := Dict(n.contents.entries[c := m]));
    forall k | k in r.contents.entries
      ensures WellFormed(r.contents.entries[k])
    {
      if k != c {
        assert r.contents.entries[k] == n.contents.entries[k];
      }
    }
  }

  /** Replacing a node of a well-formed tree by a well-formed node keeps the tree well formed. */
  lemma {:induction false} UpdateWellFormed(n: Node, segs: seq<string>, m: Node)
    requires WellFormed(n) && Lookup(n, segs).Some? && WellFormed(m)
    ensures WellFormed(Update(n, segs, m))
    decreases |segs|
  {
    if segs != [] {
      var c := segs[0];
      UpdateWellFormed(n.contents.entries[c], segs[1..], m);
      LinkWellFormed(n, c, Update(n.contents.entries[c], segs[1..], m));
    }
  }
  /** A path that extends `p` but neither leads to nor passes through `p + [x]` goes on from `p` by another name. */
  lemma BranchesOff(p: seq<string>, x: string, t: seq<string>)
    requires p <= t && !(t <= p + [x]) && !(p + [x] <= t)
    ensures |t| > |p| && t[|p|] != x
  {
  }

  /**
   * Replacing the directory at `ds` by one that differs from it at most
   * under the name `c` leaves every path that neither leads to nor passes
   * through `ds + [c]` walking as before.
   */
  lemma UpdateBeside(n: Node, ds: seq<string>, c: string, d: Node, t: seq<string>)
    requires Lookup(n, ds).Some? && Lookup(n, ds).value.contents.Dict? && d.contents.Dict?
    requires forall k :: k != c ==> (k in d.contents.entries <==> k in Lookup(n, ds).value.contents.entries)
    requires forall k :: k != c && k in d.contents.entries ==> d.contents.entries[k] == Lookup(n, ds).value.contents.entries[k]
    requires !(t <= ds + [c]) && !(ds + [c] <= t)
    ensures Lookup(Update(n, ds, d), t) == Lookup(n, t)
  {
    LookupUpdateOther(n, ds, d, t);
    if ds <= t {
      BranchesOff(ds, c, t);
      LookupThrough(n, ds, t);
    }
  }

  /** Unlinking `c` from the directory at `ds` leaves every path that neither leads to nor passes through `ds + [c]` walking as before. */
  lemma DroppedBeside(n: Node, ds: seq<string>, c: string, t: seq<string>)
    requires Lookup(n, ds).Some? && Lookup(n, ds).value.contents.Dict?
    requires !(t <= ds + [c]) && !(ds + [c] <= t)
    ensures Lookup(Update(n, ds, Dropped(Lookup(n, ds).value, c)), t) == Lookup(n, t)
  {
    UpdateBeside(n, ds, c, Dropped(Lookup(n, ds).value, c), t);
  }

  /**
   * The directory at `dd` with a new child of kind `kind` linked in under
   * `dn` (`_make_dir_entry`, riakfs.py:142-156): the new child is what
   * the walk to `dd + [dn]` then finds, and the directory keeps its path.
   */
  function Linked(root: Node, dd: seq<string>, kind: Kind, dn: string, now: TimeTuple): (r: Node)
    requires Lookup(root, dd).Some? && Lookup(root, dd).value.contents.Dict?
    ensures Lookup(r, dd).Some? && Lookup(r, dd).value.path == Lookup(root, dd).value.path
  {
    Update(root, dd, MakeDirEntry(Lookup(root, dd).value, kind, dn, NoDict, now).0)
  }

  /** The walk to `dd + [dn]` in the linked tree finds the new child. */
  lemma LinkedChild(root: Node, dd: seq<string>, kind: Kind, dn: string, now: TimeTuple)
    requires Lookup(root, dd).Some? && Lookup(root, dd).value.contents.Dict?
    ensures Lookup(Linked(root, dd, kind, dn, now), dd + [dn])
              == Some(ChildEntry(Lookup(root, dd).value.path, kind, dn, NoDict, now))
  {
    LookupConcat(Linked(root, dd, kind, dn, now), dd, [dn]);
  }

  /** Linking a child in leaves every path that neither leads to nor passes through it walking as before. */
  lemma LinkedBeside(root: Node, dd: seq<string>, kind: Kind, dn: string, now: TimeTuple, t: seq<string>)
    requires Lookup(root, dd).Some? && Lookup(root, dd).value.contents.Dict?
    requires !(t <= dd + [dn]) && !(dd + [dn] <= t)
    ensures Lookup(Linked(root, dd, kind, dn, now), t) == Lookup(root, t)
  {
    UpdateBeside(root, dd, dn, MakeDirEntry(Lookup(root, dd).value, kind, dn, NoDict, now).0, t);
  }

  /** Linking a new child into a well-formed tree keeps it well formed. */
  lemma LinkedWellFormed(root: Node, dd: seq<string>, kind: Kind, dn: string, now: TimeTuple)
    requires WellFormed(root) && Lookup(root, dd).Some? && Lookup(root, dd).value.contents.Dict?
    ensures WellFormed(Linked(root, dd, kind, dn, now))
  {
    var parent := Lookup(root, dd).value;
    var (parent', child) := MakeDirEntry(parent, kind, dn, NoDict, now);
    LookupWellFormed(root, dd);
    ChildEntryWellFormed(parent.path, kind, dn, now);
    LinkWellFormed(parent, dn, child);
    assert parent' == parent.(contents := Dict(parent.contents.entries[dn := child]));
    UpdateWellFormed(root, dd, parent');
  }

  /** Moving the first segment of what is left onto what is done. */
  lemma ShiftSegment(done: seq<string>, rest: seq<string>)
    requires rest != []
    ensures done + [rest[0]] + rest[1..] == done + rest
  {
  }

  /** A child replaced twice keeps only the second replacement. */
  lemma ReplaceTwice(m: map<string, Node>, c: string, a: Node, b: Node)
    ensures m[c := a][c := b] == m[c := b]
  {
  }
}
