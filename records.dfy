/**
 * The values a node record carries that are also written to the journal:
 * its kind, its timestamps and its extended attributes, and the journal
 * record itself (the dictionary `to_dict` builds).
 */
module Records {
  import opened Wrappers

  /** The node's `type`: "dir" or "file". */
  datatype Kind = Dir | File

  /** `list(datetime.timetuple())`; opaque to the model. */
  type TimeTuple = seq<int>

  /** The `timestamps` dictionary with keys 'ctime', 'mtime' and 'atime'. */
  datatype Timestamps = Timestamps(ctime: TimeTuple, mtime: TimeTuple, atime: TimeTuple)

  /** Extended attributes: opaque keys and values. */
  type Xattrs = map<string, string>

  /**
   * One journal record: the instance attributes `to_dict` keeps. `prefix`
   * is present only on nodes that `update_paths` re-prefixed; `contents` is
   * present only for a node that has children.
   */
  datatype Doc = Doc(
    kind: Kind,
    name: string,
    path: string,
    prefix: Option<string>,
    timestamps: Timestamps,
    xattrs: Xattrs,
    contents: DocContents)

  datatype DocContents = Omitted | Children(docs: map<string, Doc>)
}
