/** The `copy_blob` function: copies one blob to another name. */
module CopyBlobHandler {
  import opened Common
  import opened Json
  import opened BlobStorage
  import opened Responses

  const SourceInvalid: string := "Missing or invalid 'sourceBlobName' argument. Please specify a valid blob name."
  const DestinationInvalid: string :=
    "Missing or invalid 'destinationBlobName' argument. Please specify a valid destination blob name."
  const CopyFailed: string := "Failed to copy blob: "

  /** The two names, the source checked first; a missing or empty one is rejected. */
  function Validate(args: Args): Outcome<(string, string)>
  {
    match TextOrNull(args, "sourceBlobName")
    case None => Threw(SourceInvalid)
    case Some(source) =>
      if source == [] then Threw(SourceInvalid)
      else
        match TextOrNull(args, "destinationBlobName")
        case None => Threw(DestinationInvalid)
        case Some(destination) =>
          if destination == [] then Threw(DestinationInvalid) else Returned((source, destination))
  }

  /**
   * A bad source is reported whatever the destination is; a bad destination only once
   * the source passes; valid arguments are the two texts as given.
   */
  lemma ValidateSpec(args: Args)
    ensures TextOr(args, "sourceBlobName", "") == [] <==> Validate(args) == Threw(SourceInvalid)
    ensures Validate(args) == Threw(DestinationInvalid)
            <==> TextOr(args, "sourceBlobName", "") != [] && TextOr(args, "destinationBlobName", "") == []
    ensures Validate(args).Returned? <==>
            TextOr(args, "sourceBlobName", "") != [] && TextOr(args, "destinationBlobName", "") != []
    ensures Validate(args).Returned? ==>
            Validate(args).value == (AsText(args["sourceBlobName"]), AsText(args["destinationBlobName"]))
  {
  }

  /** The reply once `copyBlob` returned or threw. */
  function Reply(source: string, destination: string, copied: Outcome<bool>): Response
  {
    match copied
    case Returned(true) =>
      map["message" := JString("Successfully copied blob from '" + source + "' to '" + destination + "'"),
          "sourceBlobName" := JString(source),
          "destinationBlobName" := JString(destination)]
    case Returned(false) =>
      ErrorResponse("Failed to copy blob from '" + source + "' to '" + destination + "'")
    case Threw(m) => ErrorResponse(CopyFailed + m)
  }

  /** A copy that succeeded echoes both names and carries no error; any other outcome is an error alone. */
  lemma ReplySpec(source: string, destination: string, copied: Outcome<bool>)
    ensures var r := Reply(source, destination, copied);
      && ("error" in r <==> copied != Returned(true))
      && ("error" in r ==> r.Keys == {"error"})
      && (copied == Returned(true) ==>
            r["sourceBlobName"] == JString(source) && r["destinationBlobName"] == JString(destination))
  {
  }

  /** `execute(args)`: invalid arguments are rejected without calling the client. */
  method Execute(blobClient: BlobClient, args: Args) returns (response: Response)
    modifies blobClient
    ensures Validate(args).Threw? ==> response == ErrorResponse(Validate(args).message) && unchanged(blobClient)
    ensures Validate(args).Returned? ==>
      var (source, destination) := Validate(args).value;
      && |blobClient.log| == |old(blobClient.log)| + 1
      && blobClient.log[..|old(blobClient.log)|] == old(blobClient.log)
      && blobClient.log[|old(blobClient.log)|].Copy?
      && blobClient.log[|old(blobClient.log)|].source == source
      && blobClient.log[|old(blobClient.log)|].destination == destination
      && response == Reply(source, destination, blobClient.log[|old(blobClient.log)|].copied)
  {
    var valid := Validate(args);
    if valid.Threw? {
      return ErrorResponse(valid.message);
    }
    var (source, destination) := valid.value;
    var copied := blobClient.CopyBlob(source, destination);
    response := Reply(source, destination, copied);
  }
}
