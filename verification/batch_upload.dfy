/**
 * The `batch_upload` function: uploads several files in one call, works out which of
 * them failed from the names of the blobs that were uploaded, and updates the search
 * index when anything was uploaded.
 */
module BatchUploadHandler {
  import opened Common
  import opened Strings
  import opened Json
  import opened BlobStorage
  import opened Search
  import opened Responses

  const FilePathsInvalid: string := "Missing or invalid 'filePaths' argument. Expected a non-empty array of file paths."
  const BatchUploadFailed: string := "Failed to perform batch upload: "

  /**
   * The name a path is compared under with the uploaded blob names: what follows its
   * last '/', or failing that its last '\', or the whole path.
   */
  function ComparedName(filePath: string): string
  {
    if '/' in filePath then AfterLast(filePath, '/')
    else if '\\' in filePath then AfterLast(filePath, '\\')
    else filePath
  }

  /** The compared name is a suffix of the path holding no separator of the kind the path was cut at. */
  lemma ComparedNameSpec(filePath: string)
    ensures var name := ComparedName(filePath);
      && |name| <= |filePath| && name == filePath[|filePath| - |name|..]
      && '/' !in name
      && ('/' !in filePath ==> '\\' !in name)
      && ('/' !in filePath && '\\' !in filePath ==> name == filePath)
      && ('/' in filePath ==> filePath[|filePath| - |name| - 1] == '/')
  {
    if '/' in filePath {
      AfterLastSpec(filePath, '/');
    } else if '\\' in filePath {
      AfterLastSpec(filePath, '\\');
      var name := AfterLast(filePath, '\\');
      assert forall k :: 0 <= k < |name| ==> name[k] == filePath[|filePath| - |name| + k];
    }
  }

  /** The paths that failed: those whose compared name is none of the uploaded names, in input order. */
  function Failed(filePaths: seq<string>, uploadedBlobs: seq<string>): seq<string>
    decreases |filePaths|
  {
    if filePaths == [] then []
    else
      var path := filePaths[|filePaths| - 1];
      Failed(filePaths[..|filePaths| - 1], uploadedBlobs)
      + (if ComparedName(path) in uploadedBlobs then [] else [path])
  }

  /** A path is reported as failed exactly when it was given and its name was not uploaded. */
  lemma {:induction false} FailedMembership(filePaths: seq<string>, uploadedBlobs: seq<string>, path: string)
    ensures path in Failed(filePaths, uploadedBlobs) <==> path in filePaths && ComparedName(path) !in uploadedBlobs
    decreases |filePaths|
  {
    if filePaths != [] {
      var init := filePaths[..|filePaths| - 1];
      FailedMembership(init, uploadedBlobs, path);
      assert filePaths == init + [filePaths[|filePaths| - 1]];
    }
  }

  /** The failures are a subsequence of the paths given, in the order given. */
  lemma {:induction false} FailedInOrder(filePaths: seq<string>, uploadedBlobs: seq<string>)
    ensures IsSubsequence(Failed(filePaths, uploadedBlobs), filePaths)
    decreases |filePaths|
  {
    if filePaths != [] {
      var init := filePaths[..|filePaths| - 1];
      var path := filePaths[|filePaths| - 1];
      FailedInOrder(init, uploadedBlobs);
      assert filePaths == init + [path];
      if ComparedName(path) in uploadedBlobs {
        SubsequenceAppendRight(Failed(init, uploadedBlobs), init, path);
        assert Failed(filePaths, uploadedBlobs) == Failed(init, uploadedBlobs);
      } else {
        SubsequenceAppendBoth(Failed(init, uploadedBlobs), init, path);
      }
    }
  }

  /**
   * The loop that collects the failures: for each path, its compared name is looked for
   * among the uploaded names, stopping at the first match.
   */
  method FailedUploads(filePaths: seq<string>, uploadedBlobs: seq<string>) returns (failedUploads: seq<string>)
    ensures failedUploads == Failed(filePaths, uploadedBlobs)
  {
    failedUploads := [];
    for i := 0 to |filePaths|
      invariant failedUploads == Failed(filePaths[..i], uploadedBlobs)
    {
      var filePath := filePaths[i];
      var fileName := filePath;
      if '/' in filePath {
        fileName := filePath[LastIndexOf(filePath, '/') + 1..];
      } else if '\\' in filePath {
        fileName := filePath[LastIndexOf(filePath, '\\') + 1..];
      }
      assert fileName == ComparedName(filePath);
      var uploaded := false;
      var j := 0;
      while j < |uploadedBlobs|
        invariant 0 <= j <= |uploadedBlobs|
        invariant !uploaded && forall k :: 0 <= k < j ==> uploadedBlobs[k] != fileName
      {
        if uploadedBlobs[j] == fileName {
          uploaded := true;
          break;
        }
        j := j + 1;
      }
      assert uploaded <==> fileName in uploadedBlobs;
      if !uploaded {
        failedUploads := failedUploads + [filePath];
      }
      assert filePaths[..i + 1][..i] == filePaths[..i];
    }
    assert filePaths[..|filePaths|] == filePaths;
  }

  /** The reply once the upload returned the names of the blobs it uploaded. */
  function UploadReport(uploadedBlobs: seq<string>, failedUploads: seq<string>, indexUpdated: bool): Response
  {
    BatchReport("uploaded", "Uploaded", "files", "uploadedBlobs", "failedUploads", uploadedBlobs, failedUploads, indexUpdated)
  }

  /**
   * The reply for paths `filePaths` whose upload returned `uploadedBlobs`: `success` when
   * something was uploaded, the warning when the indexer was run and failed, and the
   * failures exactly when a path's name is missing from the uploaded names.
   */
  lemma UploadReportSpec(filePaths: seq<string>, uploadedBlobs: seq<string>, indexerOk: bool)
    ensures var indexUpdated := uploadedBlobs == [] || indexerOk;
      var r := UploadReport(uploadedBlobs, Failed(filePaths, uploadedBlobs), indexUpdated);
      && r["success"] == JBool(uploadedBlobs != [])
      && r["indexUpdated"] == JBool(indexUpdated)
      && r["uploadedBlobs"] == TextArray(uploadedBlobs)
      && ("failedUploads" in r <==> exists i :: 0 <= i < |filePaths| && ComparedName(filePaths[i]) !in uploadedBlobs)
      && (EndsWith(r["message"].s, IndexWarning) <==> uploadedBlobs != [] && !indexerOk)
      && ("Successfully " <= r["message"].s <==> "failedUploads" !in r)
  {
    var failed := Failed(filePaths, uploadedBlobs);
    var indexUpdated := uploadedBlobs == [] || indexerOk;
    BatchReportFields("uploaded", "Uploaded", "files", "uploadedBlobs", "failedUploads", uploadedBlobs, failed, indexUpdated);
    BatchSummaryWarning("uploaded", "Uploaded", "files", |uploadedBlobs|, |failed|, indexUpdated);
    BatchSummaryAll("uploaded", "Uploaded", "files", |uploadedBlobs|, |failed|, indexUpdated);
    if failed != [] {
      FailedMembership(filePaths, uploadedBlobs, failed[0]);
    }
    if i :| 0 <= i < |filePaths| && ComparedName(filePaths[i]) !in uploadedBlobs {
      FailedMembership(filePaths, uploadedBlobs, filePaths[i]);
    }
  }

  /**
   * `execute(args)`. A `filePaths` argument that is missing, not an array or empty is
   * answered with an error before any client is called. Otherwise the paths go to the
   * batch upload in order; an exception from it becomes an error reply; and the indexer
   * is run exactly when some blob was uploaded.
   */
  method Execute(blobClient: BlobClient, searchClient: AzureSearchClient, args: Args) returns (response: Response)
    modifies blobClient, searchClient
    ensures NonEmptyArray(args, "filePaths").None? ==>
      response == ErrorResponse(FilePathsInvalid) && unchanged(blobClient) && unchanged(searchClient)
    ensures NonEmptyArray(args, "filePaths").Some? ==>
      && |blobClient.log| == |old(blobClient.log)| + 1
      && blobClient.log[..|old(blobClient.log)|] == old(blobClient.log)
      && blobClient.log[|old(blobClient.log)|].BatchUpload?
      && blobClient.log[|old(blobClient.log)|].paths == Texts(NonEmptyArray(args, "filePaths").value)
    ensures NonEmptyArray(args, "filePaths").Some? ==>
      match blobClient.log[|old(blobClient.log)|].uploaded
      case Threw(m) =>
        response == ErrorResponse(BatchUploadFailed + m) && searchClient.log == old(searchClient.log)
      case Returned(uploadedBlobs) =>
        && (uploadedBlobs != [] <==> IndexerRan(old(searchClient.log), searchClient.log))
        && (uploadedBlobs == [] ==> searchClient.log == old(searchClient.log))
        && response == UploadReport(uploadedBlobs,
                                    Failed(Texts(NonEmptyArray(args, "filePaths").value), uploadedBlobs),
                                    uploadedBlobs == [] || searchClient.log[|old(searchClient.log)|].ok)
  {
    var filePathsNode := NonEmptyArray(args, "filePaths");
    if filePathsNode.None? {
      return ErrorResponse(FilePathsInvalid);
    }
    var filePaths := ArrayTexts(filePathsNode.value);
    var uploadedBlobs := blobClient.BatchUploadFiles(filePaths);
    if uploadedBlobs.Threw? {
      return ErrorResponse(BatchUploadFailed + uploadedBlobs.message);
    }
    var failedUploads := FailedUploads(filePaths, uploadedBlobs.value);
    var indexerRunSuccess := true;
    if uploadedBlobs.value != [] {
      indexerRunSuccess := searchClient.RunIndexer();
    }
    response := UploadReport(uploadedBlobs.value, failedUploads, indexerRunSuccess);
  }
}
