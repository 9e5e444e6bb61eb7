/** The `generate_sas_url` function: a time-limited shared-access URL for one blob. */
module GenerateSasUrlHandler {
  import opened Common
  import opened Strings
  import opened Json
  import opened BlobStorage
  import opened Responses

  const BlobNameInvalid: string := "Missing or invalid 'blobName' argument. Please specify a valid blob name."
  const DurationInvalid: string := "Invalid 'durationHours' value. Duration must be between 1 and 168 hours."
  const SasFailed: string := "Failed to generate SAS URL: "

  /** The longest validity a URL may be asked for: seven days. */
  const MaxDurationHours: int := 168
  const DefaultDurationHours: int := 24

  /** What a valid call asks the client to sign. */
  datatype SasRequest = SasRequest(blobName: string, durationHours: int, read: bool, write: bool, delete: bool)

  /**
   * The arguments with their defaults (24 hours, read only), checked in the source's
   * order: the blob name first, then the duration.
   */
  function Parse(args: Args): Outcome<SasRequest>
  {
    var blobName := TextOrNull(args, "blobName");
    var durationHours := IntOr(args, "durationHours", DefaultDurationHours);
    var readPermission := BoolOr(args, "readPermission", true);
    var writePermission := BoolOr(args, "writePermission", false);
    var deletePermission := BoolOr(args, "deletePermission", false);
    if blobName.None? || blobName.value == [] then Threw(BlobNameInvalid)
    else if durationHours <= 0 || durationHours > MaxDurationHours then Threw(DurationInvalid)
    else Returned(SasRequest(blobName.value, durationHours, readPermission, writePermission, deletePermission))
  }

  /**
   * A missing or empty blob name is reported whatever the duration; a duration outside
   * 1..168 is reported exactly when the name is good; a request that passes holds the
   * name as given and a duration within the bound.
   */
  lemma ParseValidation(args: Args)
    ensures Parse(args) == Threw(BlobNameInvalid) <==> TextOr(args, "blobName", "") == []
    ensures Parse(args) == Threw(DurationInvalid) <==>
      TextOr(args, "blobName", "") != [] && !(1 <= IntOr(args, "durationHours", DefaultDurationHours) <= MaxDurationHours)
    ensures Parse(args).Returned? ==>
      && Parse(args).value.blobName == AsText(args["blobName"]) != []
      && 1 <= Parse(args).value.durationHours <= MaxDurationHours
  {
  }

  /** Absent arguments mean 24 hours, read allowed, write and delete not. */
  lemma ParseDefaults(args: Args)
    requires "blobName" in args && AsText(args["blobName"]) != []
    requires "durationHours" !in args && "readPermission" !in args
    requires "writePermission" !in args && "deletePermission" !in args
    ensures Parse(args) == Returned(SasRequest(AsText(args["blobName"]), 24, true, false, false))
  {
  }

  /** The reply once the client returned a URL, null, or threw. */
  function Reply(request: SasRequest, url: Outcome<Option<string>>): Response
  {
    match url
    case Returned(Some(sasUrl)) =>
      map["message" := JString("Successfully generated SAS URL for blob '" + request.blobName + "', valid for "
                               + IntToText(request.durationHours) + " hours"),
          "blobName" := JString(request.blobName),
          "durationHours" := JInt(request.durationHours),
          "permissions" := JObject(map["read" := JBool(request.read), "write" := JBool(request.write),
                                       "delete" := JBool(request.delete)]),
          "sasUrl" := JString(sasUrl)]
    case Returned(None) => ErrorResponse("Failed to generate SAS URL for blob '" + request.blobName + "'")
    case Threw(m) => ErrorResponse(SasFailed + m)
  }

  /**
   * A URL comes back with exactly the name, duration and permissions that were signed;
   * a null URL is an error naming the blob.
   */
  lemma ReplySpec(request: SasRequest, url: Outcome<Option<string>>)
    ensures var r := Reply(request, url);
      && ("sasUrl" in r <==> url.Returned? && url.value.Some?)
      && ("error" in r <==> !("sasUrl" in r))
      && ("sasUrl" in r ==>
            && r["sasUrl"] == JString(url.value.value)
            && r["blobName"] == JString(request.blobName)
            && r["durationHours"] == JInt(request.durationHours)
            && r["permissions"].fields["read"] == JBool(request.read)
            && r["permissions"].fields["write"] == JBool(request.write)
            && r["permissions"].fields["delete"] == JBool(request.delete))
      && (url == Returned(None) ==> r["error"] == JString("Failed to generate SAS URL for blob '" + request.blobName + "'"))
  {
  }

  /** `execute(args)`: a request that does not pass is answered without calling the client. */
  method Execute(blobClient: BlobClient, args: Args) returns (response: Response)
    modifies blobClient
    ensures Parse(args).Threw? ==> response == ErrorResponse(Parse(args).message) && unchanged(blobClient)
    ensures Parse(args).Returned? ==>
      var request := Parse(args).value;
      && |blobClient.log| == |old(blobClient.log)| + 1
      && blobClient.log[..|old(blobClient.log)|] == old(blobClient.log)
      && blobClient.log[|old(blobClient.log)|].SasUrl?
      && blobClient.log[|old(blobClient.log)|].name == request.blobName
      && blobClient.log[|old(blobClient.log)|].hours == request.durationHours
      && blobClient.log[|old(blobClient.log)|].read == request.read
      && blobClient.log[|old(blobClient.log)|].write == request.write
      && blobClient.log[|old(blobClient.log)|].delete == request.delete
      && response == Reply(request, blobClient.log[|old(blobClient.log)|].sasUrl)
  {
    var request := Parse(args);
    if request.Threw? {
      return ErrorResponse(request.message);
    }
    var r := request.value;
    var sasUrl := blobClient.GenerateSasUrl(r.blobName, r.durationHours, r.read, r.write, r.delete);
    response := Reply(r, sasUrl);
  }
}
