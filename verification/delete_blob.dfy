/** The `delete_blob` function: deletes one blob and then updates the search index. */
module DeleteBlobHandler {
  import opened Json
  import opened BlobStorage
  import opened Search
  import opened Responses

  const NoBlobName: string := "No blob name provided"
  const Deleted: string := "Blob deleted successfully: "
  const NotDeleted: string := "Failed to delete blob: "

  /**
   * `execute(args)`. A missing or empty `blobName` is answered with a failure before any
   * client is called. Otherwise `success` is the delete's result, which is false for a
   * blob that did not exist; the indexer is run exactly when the delete succeeded and
   * `indexerRun` is its result; a failed delete adds only the error.
   */
  method Execute(blobClient: BlobClient, searchClient: AzureSearchClient, args: Args) returns (response: Response)
    modifies blobClient, searchClient
    ensures TextOr(args, "blobName", "") == [] ==>
      response == Failure(NoBlobName) && unchanged(blobClient) && unchanged(searchClient)
    ensures TextOr(args, "blobName", "") != [] ==>
      "success" in response && (response["success"] == JBool(true) <==> IndexerRan(old(searchClient.log), searchClient.log))
    ensures TextOr(args, "blobName", "") != [] ==>
      var blobName := TextOr(args, "blobName", "");
      var success := response["success"] == JBool(true);
      && response == OperationResponse(success, Deleted + blobName, NotDeleted + blobName,
                                       success && searchClient.log[|old(searchClient.log)|].ok)
      && (!success ==> searchClient.log == old(searchClient.log))
      && blobClient.log == old(blobClient.log) + [Remove(blobName, success)]
      && (success ==> blobName in old(blobClient.blobs))
      && blobClient.blobs == if success then old(blobClient.blobs) - {blobName} else old(blobClient.blobs)
  {
    var blobName := TextOr(args, "blobName", "");
    if blobName == [] {
      response := map["success" := JBool(false)];
      response := response["error" := JString(NoBlobName)];
      return;
    }
    var success := blobClient.DeleteBlob(blobName);
    response := map["success" := JBool(success)];
    if success {
      response := response["message" := JString(Deleted + blobName)];
      var indexerSuccess := searchClient.RunIndexer();
      if indexerSuccess {
        response := response["indexerRun" := JBool(true)];
        response := response["indexerMessage" := JString(IndexerUpdated)];
      } else {
        response := response["indexerRun" := JBool(false)];
        response := response["indexerMessage" := JString(IndexerNotUpdated)];
      }
    } else {
      response := response["error" := JString(NotDeleted + blobName)];
    }
  }
}
