/** The `upload_file` function: uploads one file or URL and then updates the search index. */
module UploadFileHandler {
  import opened Json
  import opened BlobStorage
  import opened Search
  import opened Responses

  const NoFilePath: string := "No file path provided"
  const Uploaded: string := "File uploaded successfully: "
  const NotUploaded: string := "Failed to upload file: "

  /**
   * `execute(args)`. A missing or empty `filePath` is answered with a failure before any
   * client is called. Otherwise `success` is the upload's result; the indexer is run
   * exactly when the upload succeeded and `indexerRun` is its result; a failed upload
   * adds only the error and leaves the container as it was. A successful upload changed
   * only the blob named after the file, and a local file's blob holds its content.
   */
  method Execute(blobClient: BlobClient, searchClient: AzureSearchClient, args: Args) returns (response: Response)
    modifies blobClient, searchClient
    ensures TextOr(args, "filePath", "") == [] ==>
      response == Failure(NoFilePath) && unchanged(blobClient) && unchanged(searchClient)
    ensures TextOr(args, "filePath", "") != [] ==>
      "success" in response && (response["success"] == JBool(true) <==> IndexerRan(old(searchClient.log), searchClient.log))
    ensures TextOr(args, "filePath", "") != [] ==>
      var filePath := TextOr(args, "filePath", "");
      var success := response["success"] == JBool(true);
      && response == OperationResponse(success, Uploaded + filePath, NotUploaded + filePath,
                                       success && searchClient.log[|old(searchClient.log)|].ok)
      && (!success ==> searchClient.log == old(searchClient.log))
      && (success ==> blobClient.log == old(blobClient.log) + UploadTrace(filePath))
      && (success ==>
            && BlobNameOf(filePath) in blobClient.blobs
            && blobClient.blobs == old(blobClient.blobs)[BlobNameOf(filePath) := blobClient.blobs[BlobNameOf(filePath)]])
      && (success && !IsUrl(filePath) ==>
            && filePath in blobClient.localFiles
            && blobClient.blobs == old(blobClient.blobs)[BlobNameOf(filePath) := blobClient.localFiles[filePath]])
      && (!success ==> |blobClient.log| >= |old(blobClient.log)|
                       && FailedUploadTrace(filePath, blobClient.log[|old(blobClient.log)|..])
                       && blobClient.blobs == old(blobClient.blobs))
  {
    var filePath := TextOr(args, "filePath", "");
    if filePath == [] {
      response := map["success" := JBool(false)];
      response := response["error" := JString(NoFilePath)];
      return;
    }
    var success := blobClient.UploadFile(filePath);
    response := map["success" := JBool(success)];
    if success {
      response := response["message" := JString(Uploaded + filePath)];
      var indexerSuccess := searchClient.RunIndexer();
      if indexerSuccess {
        response := response["indexerRun" := JBool(true)];
        response := response["indexerMessage" := JString(IndexerUpdated)];
      } else {
        response := response["indexerRun" := JBool(false)];
        response := response["indexerMessage" := JString(IndexerNotUpdated)];
      }
    } else {
      response := response["error" := JString(NotUploaded + filePath)];
    }
  }
}
