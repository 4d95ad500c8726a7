/**
 * The object-storage adapter, reduced to what the pipeline can observe: a log
 * of successful puts, each with its key, its document and the content-type
 * and content-encoding tags the adapter sets. Which puts fail (network,
 * credentials, storage faults) is not decided here: the store is given the
 * set of keys whose put raises.
 */
module Storage {
  import opened FeedValues

  const JsonContentType: string := "application/json"
  const GzipEncoding: string := "gzip"

  /** One `put_object` that succeeded. The body is kept as the document it
      encodes; the JSON text and its gzip compression are not modelled. */
  datatype Upload = Upload(key: string, document: Json, contentType: string, contentEncoding: Option<string>)

  class FeedStorage {
    /** Keys whose upload raises. */
    const faults: set<string>
    /** Successful uploads, oldest first. */
    var uploads: seq<Upload>

    constructor (faults: set<string>)
      ensures this.faults == faults && uploads == []
    {
      this.faults := faults;
      uploads := [];
    }

    /** `upload_feed_file`: JSON, gzip-encoded. `ok` is false where the
        adapter raises. */
    method UploadFeedFile(fileName: string, content: Json) returns (ok: bool)
      modifies this
      ensures ok <==> fileName !in faults
      ensures uploads == old(uploads)
                + (if ok then [Upload(fileName, content, JsonContentType, Some(GzipEncoding))] else [])
    {
      ok := fileName !in faults;
      if ok {
        uploads := uploads + [Upload(fileName, content, JsonContentType, Some(GzipEncoding))];
      }
    }

    /** `upload_metadata_file`: JSON, no content encoding. */
    method UploadMetadataFile(fileName: string, content: Json) returns (ok: bool)
      modifies this
      ensures ok <==> fileName !in faults
      ensures uploads == old(uploads)
                + (if ok then [Upload(fileName, content, JsonContentType, None)] else [])
    {
      ok := fileName !in faults;
      if ok {
        uploads := uploads + [Upload(fileName, content, JsonContentType, None)];
      }
    }
  }
}
