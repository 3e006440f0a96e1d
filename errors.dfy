/**
 * How an operation of the file system can fail: the `fs.errors`
 * exceptions it raises on purpose, and the Python errors it runs into
 * where the code does not guard against a case.
 */
module Errors {
  datatype FsError =
    | PathError
    | ResourceNotFound
    | ResourceInvalid
    | DestinationExists
    | ParentDirectoryMissing
    | DirectoryNotEmpty
      /** `KeyError`: a dictionary lookup or `del` of a missing name. */
    | KeyFault
      /** `AttributeError` or `TypeError`: a method or subscript used on `None`. */
    | TypeFault
      /** `ValueError`: `list.remove` of an element that is not in the list. */
    | ValueFault
}
