/** The `create_snapshot` function: takes a snapshot of one blob. */
module CreateSnapshotHandler {
  import opened Common
  import opened Json
  import opened BlobStorage
  import opened Responses

  const BlobNameInvalid: string := "Missing or invalid 'blobName' argument. Please specify a valid blob name."
  const SnapshotFailed: string := "Failed to create snapshot: "

  /** The reply once `createSnapshot` returned a description, null, or threw. */
  function Reply(blobName: string, info: Outcome<Option<map<string, JsonValue>>>): Response
  {
    match info
    case Returned(Some(snapshotInfo)) => snapshotInfo
    case Returned(None) => ErrorResponse("Failed to create snapshot of blob '" + blobName + "'")
    case Threw(m) => ErrorResponse(SnapshotFailed + m)
  }

  /**
   * A description is passed on unchanged; a null one becomes an error naming the blob;
   * an exception becomes an error carrying its message.
   */
  lemma ReplySpec(blobName: string, info: Outcome<Option<map<string, JsonValue>>>)
    ensures info.Returned? && info.value.Some? ==> Reply(blobName, info) == info.value.value
    ensures info == Returned(None) ==>
      Reply(blobName, info).Keys == {"error"}
      && Reply(blobName, info)["error"] == JString("Failed to create snapshot of blob '" + blobName + "'")
    ensures info.Threw? ==> Reply(blobName, info) == map["error" := JString(SnapshotFailed + info.message)]
  {
  }

  /** `execute(args)`: a missing or empty `blobName` is rejected without calling the client. */
  method Execute(blobClient: BlobClient, args: Args) returns (response: Response)
    modifies blobClient
    ensures TextOr(args, "blobName", "") == [] ==> response == ErrorResponse(BlobNameInvalid) && unchanged(blobClient)
    ensures TextOr(args, "blobName", "") != [] ==>
      && |blobClient.log| == |old(blobClient.log)| + 1
      && blobClient.log[..|old(blobClient.log)|] == old(blobClient.log)
      && blobClient.log[|old(blobClient.log)|].Snapshot?
      && blobClient.log[|old(blobClient.log)|].name == AsText(args["blobName"])
      && response == Reply(AsText(args["blobName"]), blobClient.log[|old(blobClient.log)|].info)
  {
    var blobName := TextOrNull(args, "blobName");
    if blobName.None? || blobName.value == [] {
      return ErrorResponse(BlobNameInvalid);
    }
    var snapshotInfo := blobClient.CreateSnapshot(blobName.value);
    response := Reply(blobName.value, snapshotInfo);
  }
}
