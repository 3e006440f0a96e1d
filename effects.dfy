/**
 * What one file system operation does, as a value: how it ended, the tree
 * and the bucket it left behind, and whether it marked the journal dirty.
 */
module Effects {
  import opened Wrappers
  import opened Errors
  import opened Store
  import opened Entries

  datatype Effect = Effect(outcome: Outcome<FsError>, root: Node, objects: map<string, Stored>, dirtied: bool)

  /** The operation raised `err` before touching anything. */
  function Refused(root: Node, objects: map<string, Stored>, err: FsError): (e: Effect)
    ensures e.outcome == Fail(err) && e.root == root && e.objects == objects && !e.dirtied
  {
    Effect(Fail(err), root, objects, false)
  }
}
