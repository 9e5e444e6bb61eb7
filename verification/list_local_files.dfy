/** The `list_local_files` function: lists the files, and optionally the directories, under a local path. */
module ListLocalFilesHandler {
  import opened Common
  import opened Strings
  import opened Json
  import opened BlobStorage
  import opened Responses

  const NoDirectoryPath: string := "No directory path provided"
  const ListFilesFailed: string := "Failed to list files: "

  /**
   * The reply for a listing of `directoryPath`: the counts in the message, the files,
   * the directories only when they were asked for, and the path and total only when
   * something was found. A listing without its "files" or "directories" entry makes
   * `size()` dereference null.
   */
  function Reply(directoryPath: string, includeDirectories: bool, listing: Outcome<Option<map<string, seq<string>>>>): Response
  {
    match listing
    case Threw(m) => Failure(ListFilesFailed + m)
    case Returned(None) => Failure(ListFilesFailed + NullDereference)
    case Returned(Some(lists)) =>
      if "files" !in lists || "directories" !in lists then Failure(ListFilesFailed + NullDereference)
      else
        var files := lists["files"];
        var directories := lists["directories"];
        var response := map[
          "success" := JBool(true),
          "message" := JString("Found " + NatToText(|files|) + " files and " + NatToText(|directories|)
                               + " directories in " + directoryPath),
          "files" := TextArray(files)];
        var response := if includeDirectories then response["directories" := TextArray(directories)] else response;
        if files != [] || directories != [] then
          response["path" := JString(directoryPath)]["totalItems" := JInt(|files| + |directories|)]
        else response
  }

  /**
   * A complete listing is a success; `directories` is there exactly when asked for;
   * `path` and `totalItems` exactly when something was found, the total being files
   * plus directories; anything else is a failure.
   */
  lemma ReplySpec(directoryPath: string, includeDirectories: bool, listing: Outcome<Option<map<string, seq<string>>>>)
    ensures var r := Reply(directoryPath, includeDirectories, listing);
      var complete := listing.Returned? && listing.value.Some?
                      && "files" in listing.value.value && "directories" in listing.value.value;
      && r["success"] == JBool(complete)
      && (!complete ==> "error" in r && r.Keys == {"success", "error"})
      && (complete ==>
            var files := listing.value.value["files"];
            var directories := listing.value.value["directories"];
            && r["files"] == TextArray(files)
            && ("directories" in r <==> includeDirectories)
            && (includeDirectories ==> r["directories"] == TextArray(directories))
            && ("path" in r <==> files != [] || directories != [])
            && ("totalItems" in r <==> files != [] || directories != [])
            && ("totalItems" in r ==> r["totalItems"] == JInt(|files| + |directories|) && r["path"] == JString(directoryPath)))
  {
  }

  /**
   * `execute(args)`: the path defaults to "", the pattern to null, and directories are
   * included unless `includeDirectories` is given and false. An empty path is a failure
   * with no listing.
   */
  method Execute(blobClient: BlobClient, args: Args) returns (response: Response)
    modifies blobClient
    ensures TextOr(args, "directoryPath", "") == [] ==> response == Failure(NoDirectoryPath) && unchanged(blobClient)
    ensures TextOr(args, "directoryPath", "") != [] ==>
      && |blobClient.log| == |old(blobClient.log)| + 1
      && blobClient.log[..|old(blobClient.log)|] == old(blobClient.log)
      && blobClient.log[|old(blobClient.log)|].ListLocal?
      && blobClient.log[|old(blobClient.log)|].path == TextOr(args, "directoryPath", "")
      && blobClient.log[|old(blobClient.log)|].pattern == TextOrNull(args, "pattern")
      && blobClient.log[|old(blobClient.log)|].includeDirectories == BoolOr(args, "includeDirectories", true)
      && response == Reply(TextOr(args, "directoryPath", ""), BoolOr(args, "includeDirectories", true),
                           blobClient.log[|old(blobClient.log)|].listing)
  {
    var directoryPath := TextOr(args, "directoryPath", "");
    var pattern := TextOrNull(args, "pattern");
    var includeDirectories := BoolOr(args, "includeDirectories", true);
    if directoryPath == [] {
      response := map["success" := JBool(false)];
      response := response["error" := JString(NoDirectoryPath)];
      return;
    }
    var listing := blobClient.ListLocalFilesAndDirs(directoryPath, pattern, includeDirectories);
    if listing.Threw? {
      return Failure(ListFilesFailed + listing.message);
    }
    if listing.value.None? || "files" !in listing.value.value || "directories" !in listing.value.value {
      return Failure(ListFilesFailed + NullDereference);
    }
    var files := listing.value.value["files"];
    var directories := listing.value.value["directories"];
    response := map["success" := JBool(true)];
    response := response["message" := JString("Found " + NatToText(|files|) + " files and " + NatToText(|directories|)
                                              + " directories in " + directoryPath)];
    response := response["files" := TextArray(files)];
    if includeDirectories {
      response := response["directories" := TextArray(directories)];
    }
    if files != [] || directories != [] {
      response := response["path" := JString(directoryPath)];
      response := response["totalItems" := JInt(|files| + |directories|)];
    }
  }
}
