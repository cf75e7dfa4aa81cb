/** One object-store bucket, as the handlers see it: a map from key to content. */
module Storage {
  import opened Events

  /** The destination bucket that staging, relocation and copying work on. */
  class Bucket {
    var objects: map<string, Blob>

    constructor (initial: map<string, Blob>)
      ensures objects == initial
    {
      objects := initial;
    }

    /** `upload_file`/`put`: the key now holds `content`, whatever it held before. */
    method Upload(key: string, content: Blob)
      modifies this
      ensures objects == old(objects)[key := content]
    {
      objects := objects[key := content];
    }

    /** `copy`: copies the source object over the destination key; fails when the source is absent. */
    method Copy(source: string, destination: string) returns (ok: bool)
      modifies this
      ensures ok == (source in old(objects))
      ensures ok ==> objects == old(objects)[destination := old(objects)[source]]
      ensures !ok ==> objects == old(objects)
    {
      ok := source in objects;
      if ok {
        objects := objects[destination := objects[source]];
      }
    }

    /**
     * `copy` with a copy source in another bucket: the source bucket's object is copied over
     * the destination key here; fails when the source is absent. The source bucket is only read.
     */
    method CopyFrom(source: Bucket, key: string, destination: string) returns (ok: bool)
      modifies this
      ensures ok == (key in old(source.objects))
      ensures ok ==> objects == old(objects)[destination := old(source.objects)[key]]
      ensures !ok ==> objects == old(objects)
    {
      ok := key in source.objects;
      if ok {
        objects := objects[destination := source.objects[key]];
      }
    }

    /** `delete_object`: the key is gone afterwards; deleting an absent key is not an error. */
    method Delete(key: string)
      modifies this
      ensures objects == old(objects) - {key}
    {
      objects := objects - {key};
    }
  }
}
