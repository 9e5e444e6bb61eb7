/**
 * The `batch_download` function: downloads several blobs into a local directory and
 * reports how many of them arrived.
 */
module BatchDownloadHandler {
  import opened Common
  import opened Strings
  import opened Json
  import opened BlobStorage
  import opened Responses

  const BlobNamesInvalid: string := "Missing or invalid 'blobNames' argument. Expected a non-empty array of blob names."
  const DestinationInvalid: string := "Missing or invalid 'destinationDir' argument. Expected a valid directory path."
  const BatchDownloadFailed: string := "Failed to perform batch download: "

  /**
   * The arguments, checked in the source's order: the names first, then the directory.
   * The names are the text of each element of the array, in order.
   */
  function Validate(args: Args): Outcome<(seq<string>, string)>
  {
    match NonEmptyArray(args, "blobNames")
    case None => Threw(BlobNamesInvalid)
    case Some(items) =>
      match TextOrNull(args, "destinationDir")
      case None => Threw(DestinationInvalid)
      case Some(dir) => if dir == [] then Threw(DestinationInvalid) else Returned((Texts(items), dir))
  }

  /**
   * A rejected names argument is reported whatever the directory is; a missing or empty
   * directory is reported only once the names pass; valid arguments give the names in
   * array order and the directory as given.
   */
  lemma ValidateSpec(args: Args)
    ensures NonEmptyArray(args, "blobNames").None? ==> Validate(args) == Threw(BlobNamesInvalid)
    ensures NonEmptyArray(args, "blobNames").Some? ==>
      (Validate(args) == Threw(DestinationInvalid) <==> TextOr(args, "destinationDir", "") == "")
    ensures Validate(args).Returned? ==>
      var (names, dir) := Validate(args).value;
      && |names| == |args["blobNames"].items| >= 1
      && (forall i :: 0 <= i < |names| ==> names[i] == AsText(args["blobNames"].items[i]))
      && dir == AsText(args["destinationDir"]) && dir != []
  {
  }

  /** The reply once the download returned the names it downloaded. */
  function DownloadReport(requested: nat, dir: string, downloadedBlobs: seq<string>): Response
  {
    map["message" := JString("Successfully downloaded " + NatToText(|downloadedBlobs|) + "/" + NatToText(requested)
                             + " blobs to " + dir),
        "downloadedBlobs" := TextArray(downloadedBlobs)]
  }

  /** The reply counts the downloads against the number of names asked for, and lists the downloads in the order returned. */
  lemma DownloadReportSpec(requested: nat, dir: string, downloadedBlobs: seq<string>)
    ensures var r := DownloadReport(requested, dir, downloadedBlobs);
      && r.Keys == {"message", "downloadedBlobs"}
      && r["downloadedBlobs"].items == seq(|downloadedBlobs|, i requires 0 <= i < |downloadedBlobs| => JString(downloadedBlobs[i]))
      && "Successfully downloaded " + NatToText(|downloadedBlobs|) + "/" + NatToText(requested) <= r["message"].s
  {
  }

  /**
   * `execute(args)`. Invalid arguments are answered with an error before the client is
   * called; otherwise the names go to the batch download in array order, and an
   * exception from it becomes an error reply.
   */
  method Execute(blobClient: BlobClient, args: Args) returns (response: Response)
    modifies blobClient
    ensures Validate(args).Threw? ==> response == ErrorResponse(Validate(args).message) && unchanged(blobClient)
    ensures Validate(args).Returned? ==>
      var (names, dir) := Validate(args).value;
      && |blobClient.log| == |old(blobClient.log)| + 1
      && blobClient.log[..|old(blobClient.log)|] == old(blobClient.log)
      && blobClient.log[|old(blobClient.log)|].BatchDownload?
      && blobClient.log[|old(blobClient.log)|].names == names
      && blobClient.log[|old(blobClient.log)|].dir == dir
      && response == match blobClient.log[|old(blobClient.log)|].downloaded
                     case Threw(m) => ErrorResponse(BatchDownloadFailed + m)
                     case Returned(downloadedBlobs) => DownloadReport(|names|, dir, downloadedBlobs)
  {
    var blobNamesNode := NonEmptyArray(args, "blobNames");
    if blobNamesNode.None? {
      return ErrorResponse(BlobNamesInvalid);
    }
    var destinationDir := TextOrNull(args, "destinationDir");
    if destinationDir.None? || destinationDir.value == [] {
      return ErrorResponse(DestinationInvalid);
    }
    var blobNames := ArrayTexts(blobNamesNode.value);
    var downloadedBlobs := blobClient.BatchDownloadBlobs(blobNames, destinationDir.value);
    if downloadedBlobs.Threw? {
      return ErrorResponse(BatchDownloadFailed + downloadedBlobs.message);
    }
    response := DownloadReport(|blobNames|, destinationDir.value, downloadedBlobs.value);
  }
}
