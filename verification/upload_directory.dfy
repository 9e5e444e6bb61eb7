/** The `upload_directory` function: uploads the files of a local directory and indexes them. */
module UploadDirectoryHandler {
  import opened Common
  import opened Json
  import opened BlobStorage
  import opened Search
  import opened Responses

  const NoDirectoryPath: string := "No directory path provided"
  const UploadDirectoryFailed: string := "Failed to upload directory: "
  const IndexingFailed: string := "Failed to index some uploaded files: "

  /** What the handler does with the upload's result map before returning it. */
  datatype Indexing =
    | Skip          // the upload did not report success, or uploaded nothing
    | Reindex         // the indexer is run, and its result is not looked at
    | CastFailed    // `successfulUploads` is not a list: the cast throws and an indexing status is added

  /** The decision on `result`: only a `success` of TRUE and a non-empty list of uploads lead to indexing. */
  function IndexingOf(result: map<string, JsonValue>): Indexing
  {
    if !("success" in result && result["success"] == JBool(true)) then Skip
    else if "successfulUploads" !in result || result["successfulUploads"] == JNull then Skip
    else if !result["successfulUploads"].JArray? then CastFailed
    else if result["successfulUploads"].items == [] then Skip
    else Reindex
  }

  /** The reply for the upload's outcome: its result map, with the indexing status added when the cast failed. */
  function Reply(summary: Outcome<Option<map<string, JsonValue>>>): Response
  {
    match summary
    case Threw(m) => Failure(UploadDirectoryFailed + m)
    case Returned(None) => Failure(UploadDirectoryFailed + NullDereference)
    case Returned(Some(result)) =>
      if IndexingOf(result) == CastFailed then result["indexingStatus" := JString(IndexingFailed + NotAList)]
      else result
  }

  /**
   * The indexer is run only after a successful upload that lists some uploaded blobs;
   * the result map is returned as it came, except for an added indexing status when
   * the list of uploads cannot be read; an exception or a null result is a failure.
   */
  lemma ReplySpec(summary: Outcome<Option<map<string, JsonValue>>>)
    ensures summary.Returned? && summary.value.Some? ==>
      var result := summary.value.value;
      && (IndexingOf(result) == Reindex <==>
            && "success" in result && result["success"] == JBool(true)
            && "successfulUploads" in result && result["successfulUploads"].JArray?
            && result["successfulUploads"].items != [])
      && (forall k :: k in result && k != "indexingStatus" ==> k in Reply(summary) && Reply(summary)[k] == result[k])
      && (IndexingOf(result) != CastFailed ==> Reply(summary) == result)
      && (IndexingOf(result) == CastFailed ==> Reply(summary).Keys == result.Keys + {"indexingStatus"})
    ensures summary.Threw? ==> Reply(summary) == Failure(UploadDirectoryFailed + summary.message)
  {
  }

  /**
   * `execute(args)`: the path defaults to "", pattern and prefix to null, and `recursive`
   * is on only when given and true. An empty path is a failure with no upload; otherwise
   * the directory is uploaded with these settings and the indexer is run exactly when
   * `IndexingOf` says so.
   */
  method Execute(blobClient: BlobClient, searchClient: AzureSearchClient, args: Args) returns (response: Response)
    modifies blobClient, searchClient
    ensures TextOr(args, "directoryPath", "") == [] ==>
      response == Failure(NoDirectoryPath) && unchanged(blobClient) && unchanged(searchClient)
    ensures TextOr(args, "directoryPath", "") != [] ==>
      && |blobClient.log| == |old(blobClient.log)| + 1
      && blobClient.log[..|old(blobClient.log)|] == old(blobClient.log)
      && blobClient.log[|old(blobClient.log)|].UploadDir?
      && blobClient.log[|old(blobClient.log)|].path == TextOr(args, "directoryPath", "")
      && blobClient.log[|old(blobClient.log)|].pattern == TextOrNull(args, "pattern")
      && blobClient.log[|old(blobClient.log)|].recursive == BoolOr(args, "recursive", false)
      && blobClient.log[|old(blobClient.log)|].blobPrefix == TextOrNull(args, "blobPrefix")
    ensures TextOr(args, "directoryPath", "") != [] ==>
      var summary := blobClient.log[|old(blobClient.log)|].summary;
      && response == Reply(summary)
      && (summary.Returned? && summary.value.Some? && IndexingOf(summary.value.value) == Reindex
          <==> IndexerRan(old(searchClient.log), searchClient.log))
      && (!IndexerRan(old(searchClient.log), searchClient.log) ==> searchClient.log == old(searchClient.log))
  {
    var directoryPath := TextOr(args, "directoryPath", "");
    var pattern := TextOrNull(args, "pattern");
    var recursive := BoolOr(args, "recursive", false);
    var blobPrefix := TextOrNull(args, "blobPrefix");
    if directoryPath == [] {
      return Failure(NoDirectoryPath);
    }
    var uploaded := blobClient.UploadDirectory(directoryPath, pattern, recursive, blobPrefix);
    if uploaded.Threw? {
      return Failure(UploadDirectoryFailed + uploaded.message);
    }
    if uploaded.value.None? {
      return Failure(UploadDirectoryFailed + NullDereference);
    }
    var result := uploaded.value.value;
    if "success" in result && result["success"] == JBool(true) {
      var successfulUploads := if "successfulUploads" in result then result["successfulUploads"] else JNull;
      if successfulUploads != JNull && !successfulUploads.JArray? {
        result := result["indexingStatus" := JString(IndexingFailed + NotAList)];
      } else if successfulUploads.JArray? && successfulUploads.items != [] {
        var _ := searchClient.RunIndexer();
      }
    }
    response := result;
  }
}
