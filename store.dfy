/**
 * The Riak bucket, reduced to what the file system asks of it: a map from
 * key to stored value with get, put and delete. File bodies are binary
 * values stored under the file's path; the journal is one structured value
 * stored under the root key.
 */
module Store {
  import opened Wrappers
  import opened Records

  type Bytes = seq<bv8>

  datatype Stored = Blob(bytes: Bytes) | Document(doc: Doc)

  function Get(objects: map<string, Stored>, key: string): Option<Stored> {
    if key in objects then Some(objects[key]) else None
  }

  /**
   * `bucket.get_binary(key).get_data()` as the content cache sees it: a key
   * with no binary value reads as the empty byte string (the client returns
   * no data and the buffer built from it is empty).
   */
  function FetchBytes(objects: map<string, Stored>, key: string): Bytes {
    if key in objects && objects[key].Blob? then objects[key].bytes else []
  }

  class Bucket {
    var objects: map<string, Stored>

    constructor (objects: map<string, Stored>)
      ensures this.objects == objects
    {
      this.objects := objects;
    }

    /** `bucket.new(key, value).store()`: overwrite or create. */
    method Put(key: string, value: Stored)
      modifies this
      ensures objects == old(objects)[key := value]
    {
      objects := objects[key := value];
    }

    /** `bucket.get(key).delete()`: idempotent, a missing key is no error. */
    method Delete(key: string)
      modifies this
      ensures objects == old(objects) - {key}
    {
      objects := objects - {key};
    }
  }
}
