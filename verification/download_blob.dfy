/** The `download_blob` function: downloads one blob to a local path. */
module DownloadBlobHandler {
  import opened Json
  import opened BlobStorage
  import opened Responses

  const MissingArguments: string := "Missing required parameters: blobName and/or destinationPath"

  function DownloadedMessage(blobName: string, destinationPath: string): string
  {
    "Blob '" + blobName + "' downloaded successfully to: " + destinationPath
  }

  /**
   * `execute(args)`. When either argument is missing or empty the reply is a failure and
   * the client is not called. Otherwise the download is attempted, and since the client
   * swallows every exception of its own, the reply is a success naming the blob and the
   * destination whether or not the file was written. The only local file that can change
   * is the download's target: a logged successful download wrote the blob's content
   * there, and a logged failure left the local files as they were. The error reply for
   * an exception from the download cannot be reached.
   */
  method Execute(blobClient: BlobClient, args: Args) returns (response: Response)
    modifies blobClient
    ensures TextOr(args, "blobName", "") == [] || TextOr(args, "destinationPath", "") == [] ==>
      response == Failure(MissingArguments) && unchanged(blobClient)
    ensures TextOr(args, "blobName", "") != [] && TextOr(args, "destinationPath", "") != [] ==>
      var blobName := TextOr(args, "blobName", "");
      var destinationPath := TextOr(args, "destinationPath", "");
      var target := DownloadTarget(destinationPath, old(blobClient.IsDirectory(destinationPath)), blobName);
      && response == map["success" := JBool(true), "message" := JString(DownloadedMessage(blobName, destinationPath))]
      && (blobClient.log == old(blobClient.log) + [Get(blobName, target, true)]
          || blobClient.log == old(blobClient.log) + [Get(blobName, target, false)])
      && blobClient.blobs == old(blobClient.blobs)
      && (blobClient.localFiles == old(blobClient.localFiles)
          || (blobName in blobClient.blobs
              && blobClient.localFiles == old(blobClient.localFiles)[target := blobClient.blobs[blobName]]))
      && (blobClient.log == old(blobClient.log) + [Get(blobName, target, true)] ==>
            blobName in blobClient.blobs
            && blobClient.localFiles == old(blobClient.localFiles)[target := blobClient.blobs[blobName]])
      && (blobClient.log == old(blobClient.log) + [Get(blobName, target, false)] ==>
            blobClient.localFiles == old(blobClient.localFiles))
  {
    var blobName := TextOr(args, "blobName", "");
    var destinationPath := TextOr(args, "destinationPath", "");
    if blobName == [] || destinationPath == [] {
      response := map["success" := JBool(false)];
      response := response["error" := JString(MissingArguments)];
      return;
    }
    ghost var before := blobClient.log;
    ghost var target := DownloadTarget(destinationPath, blobClient.IsDirectory(destinationPath), blobName);
    blobClient.DownloadBlob(blobName, destinationPath);
    // The two possible logs differ in their last event, so at most one of them is the log.
    assert (before + [Get(blobName, target, true)])[|before|] != (before + [Get(blobName, target, false)])[|before|];
    response := map["success" := JBool(true)];
    response := response["message" := JString(DownloadedMessage(blobName, destinationPath))];
  }
}
