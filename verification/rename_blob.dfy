/** The `rename_blob` function: renames a blob by copy and delete, then updates the search index. */
module RenameBlobHandler {
  import opened Json
  import opened BlobStorage
  import opened Search
  import opened Responses

  const MissingNames: string := "Missing required parameters: sourceBlobName and/or destinationBlobName"

  function RenamedMessage(source: string, destination: string): string
  {
    "Blob renamed successfully from '" + source + "' to '" + destination + "'"
  }

  function NotRenamedMessage(source: string, destination: string): string
  {
    "Failed to rename blob from '" + source + "' to '" + destination + "'"
  }

  /**
   * `execute(args)`. When either name is missing or empty the reply is a failure and no
   * client is called. Otherwise `success` is the rename's result; the indexer is run
   * exactly when the rename succeeded and `indexerRun` is its result; a failed rename
   * adds only an error naming both blobs. A copy that could not be started is a failure
   * that left the container as it was; a copy that started and a delete that failed may
   * leave the destination holding the source's content; a successful rename removed the
   * source, and the destination may hold its content.
   */
  method Execute(blobClient: BlobClient, searchClient: AzureSearchClient, args: Args) returns (response: Response)
    modifies blobClient, searchClient
    ensures TextOr(args, "sourceBlobName", "") == [] || TextOr(args, "destinationBlobName", "") == [] ==>
      response == Failure(MissingNames) && unchanged(blobClient) && unchanged(searchClient)
    ensures TextOr(args, "sourceBlobName", "") != [] && TextOr(args, "destinationBlobName", "") != [] ==>
      "success" in response && (response["success"] == JBool(true) <==> IndexerRan(old(searchClient.log), searchClient.log))
    ensures TextOr(args, "sourceBlobName", "") != [] && TextOr(args, "destinationBlobName", "") != [] ==>
      var source := TextOr(args, "sourceBlobName", "");
      var destination := TextOr(args, "destinationBlobName", "");
      var success := response["success"] == JBool(true);
      && response == OperationResponse(success, RenamedMessage(source, destination), NotRenamedMessage(source, destination),
                                       success && searchClient.log[|old(searchClient.log)|].ok)
      && (!success ==> searchClient.log == old(searchClient.log))
      && (blobClient.log == old(blobClient.log) + [BeginCopy(source, destination, false)]
          || blobClient.log == old(blobClient.log) + [BeginCopy(source, destination, true), Remove(source, success)])
      && (blobClient.log[|old(blobClient.log)|] == BeginCopy(source, destination, false) ==>
            !success && blobClient.blobs == old(blobClient.blobs))
      && (blobClient.log[|old(blobClient.log)|] == BeginCopy(source, destination, true) && !success ==>
            && source in old(blobClient.blobs)
            && (blobClient.blobs == old(blobClient.blobs)
                || blobClient.blobs == old(blobClient.blobs)[destination := old(blobClient.blobs)[source]]))
      && (success ==> source in old(blobClient.blobs) && source !in blobClient.blobs)
      && (success ==>
            || blobClient.blobs == old(blobClient.blobs) - {source}
            || (source != destination
                && blobClient.blobs == (old(blobClient.blobs) - {source})[destination := old(blobClient.blobs)[source]]))
  {
    var sourceBlobName := TextOr(args, "sourceBlobName", "");
    var destinationBlobName := TextOr(args, "destinationBlobName", "");
    if sourceBlobName == [] || destinationBlobName == [] {
      response := map["success" := JBool(false)];
      response := response["error" := JString(MissingNames)];
      return;
    }
    var success := blobClient.RenameBlob(sourceBlobName, destinationBlobName);
    response := map["success" := JBool(success)];
    if success {
      response := response["message" := JString(RenamedMessage(sourceBlobName, destinationBlobName))];
      var indexerSuccess := searchClient.RunIndexer();
      if indexerSuccess {
        response := response["indexerRun" := JBool(true)];
        response := response["indexerMessage" := JString(IndexerUpdated)];
      } else {
        response := response["indexerRun" := JBool(false)];
        response := response["indexerMessage" := JString(IndexerNotUpdated)];
      }
    } else {
      response := response["error" := JString(NotRenamedMessage(sourceBlobName, destinationBlobName))];
    }
  }
}
