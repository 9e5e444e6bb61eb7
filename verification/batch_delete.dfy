/**
 * The `batch_delete` function: deletes several blobs in one call, reports the names
 * that were not deleted, and updates the search index when anything was deleted.
 */
module BatchDeleteHandler {
  import opened Common
  import opened Json
  import opened BlobStorage
  import opened Search
  import opened Responses

  const BlobNamesInvalid: string := "Missing or invalid 'blobNames' argument. Expected a non-empty array of blob names."
  const BatchDeleteFailed: string := "Failed to perform batch delete: "

  /** The names that were not deleted, in the order given. */
  function NotDeleted(blobNames: seq<string>, deletedBlobs: seq<string>): seq<string>
    decreases |blobNames|
  {
    if blobNames == [] then []
    else
      var name := blobNames[|blobNames| - 1];
      NotDeleted(blobNames[..|blobNames| - 1], deletedBlobs) + (if name in deletedBlobs then [] else [name])
  }

  /** A name is reported as failed exactly when it was asked for and is not among the deleted ones. */
  lemma {:induction false} NotDeletedMembership(blobNames: seq<string>, deletedBlobs: seq<string>, name: string)
    ensures name in NotDeleted(blobNames, deletedBlobs) <==> name in blobNames && name !in deletedBlobs
    decreases |blobNames|
  {
    if blobNames != [] {
      var init := blobNames[..|blobNames| - 1];
      NotDeletedMembership(init, deletedBlobs, name);
      assert blobNames == init + [blobNames[|blobNames| - 1]];
    }
  }

  /** The failures keep the order of the names asked for. */
  lemma {:induction false} NotDeletedInOrder(blobNames: seq<string>, deletedBlobs: seq<string>)
    ensures IsSubsequence(NotDeleted(blobNames, deletedBlobs), blobNames)
    decreases |blobNames|
  {
    if blobNames != [] {
      var init := blobNames[..|blobNames| - 1];
      var name := blobNames[|blobNames| - 1];
      NotDeletedInOrder(init, deletedBlobs);
      assert blobNames == init + [name];
      if name in deletedBlobs {
        SubsequenceAppendRight(NotDeleted(init, deletedBlobs), init, name);
        assert NotDeleted(blobNames, deletedBlobs) == NotDeleted(init, deletedBlobs);
      } else {
        SubsequenceAppendBoth(NotDeleted(init, deletedBlobs), init, name);
      }
    }
  }

  /** The loop that collects the names that were not deleted. */
  method FailedDeletes(blobNames: seq<string>, deletedBlobs: seq<string>) returns (failedBlobs: seq<string>)
    ensures failedBlobs == NotDeleted(blobNames, deletedBlobs)
  {
    failedBlobs := [];
    for i := 0 to |blobNames|
      invariant failedBlobs == NotDeleted(blobNames[..i], deletedBlobs)
    {
      if blobNames[i] !in deletedBlobs {
        failedBlobs := failedBlobs + [blobNames[i]];
      }
      assert blobNames[..i + 1][..i] == blobNames[..i];
    }
    assert blobNames[..|blobNames|] == blobNames;
  }

  /** The reply once the delete returned the names of the blobs it deleted. */
  function DeleteReport(deletedBlobs: seq<string>, failedBlobs: seq<string>, indexUpdated: bool): Response
  {
    BatchReport("deleted", "Deleted", "blobs", "deletedBlobs", "failedBlobs", deletedBlobs, failedBlobs, indexUpdated)
  }

  /**
   * The reply for names `blobNames` whose delete returned `deletedBlobs`: `success` when
   * something was deleted, the warning when the indexer was run and failed, and the
   * failures exactly when some name asked for was not deleted.
   */
  lemma DeleteReportSpec(blobNames: seq<string>, deletedBlobs: seq<string>, indexerOk: bool)
    ensures var indexUpdated := deletedBlobs == [] || indexerOk;
      var r := DeleteReport(deletedBlobs, NotDeleted(blobNames, deletedBlobs), indexUpdated);
      && r["success"] == JBool(deletedBlobs != [])
      && r["indexUpdated"] == JBool(indexUpdated)
      && r["deletedBlobs"] == TextArray(deletedBlobs)
      && ("failedBlobs" in r <==> exists i :: 0 <= i < |blobNames| && blobNames[i] !in deletedBlobs)
      && (EndsWith(r["message"].s, IndexWarning) <==> deletedBlobs != [] && !indexerOk)
      && ("Successfully " <= r["message"].s <==> "failedBlobs" !in r)
  {
    var failed := NotDeleted(blobNames, deletedBlobs);
    var indexUpdated := deletedBlobs == [] || indexerOk;
    BatchReportFields("deleted", "Deleted", "blobs", "deletedBlobs", "failedBlobs", deletedBlobs, failed, indexUpdated);
    BatchSummaryWarning("deleted", "Deleted", "blobs", |deletedBlobs|, |failed|, indexUpdated);
    BatchSummaryAll("deleted", "Deleted", "blobs", |deletedBlobs|, |failed|, indexUpdated);
    if failed != [] {
      NotDeletedMembership(blobNames, deletedBlobs, failed[0]);
    }
    if i :| 0 <= i < |blobNames| && blobNames[i] !in deletedBlobs {
      NotDeletedMembership(blobNames, deletedBlobs, blobNames[i]);
    }
  }

  /**
   * `execute(args)`. A `blobNames` argument that is missing, not an array or empty is
   * answered with an error before any client is called. Otherwise the names go to the
   * batch delete in order; an exception from it becomes an error reply; and the indexer
   * is run exactly when some blob was deleted.
   */
  method Execute(blobClient: BlobClient, searchClient: AzureSearchClient, args: Args) returns (response: Response)
    modifies blobClient, searchClient
    ensures NonEmptyArray(args, "blobNames").None? ==>
      response == ErrorResponse(BlobNamesInvalid) && unchanged(blobClient) && unchanged(searchClient)
    ensures NonEmptyArray(args, "blobNames").Some? ==>
      && |blobClient.log| == |old(blobClient.log)| + 1
      && blobClient.log[..|old(blobClient.log)|] == old(blobClient.log)
      && blobClient.log[|old(blobClient.log)|].BatchDelete?
      && blobClient.log[|old(blobClient.log)|].names == Texts(NonEmptyArray(args, "blobNames").value)
    ensures NonEmptyArray(args, "blobNames").Some? ==>
      match blobClient.log[|old(blobClient.log)|].deleted
      case Threw(m) =>
        response == ErrorResponse(BatchDeleteFailed + m) && searchClient.log == old(searchClient.log)
      case Returned(deletedBlobs) =>
        && (deletedBlobs != [] <==> IndexerRan(old(searchClient.log), searchClient.log))
        && (deletedBlobs == [] ==> searchClient.log == old(searchClient.log))
        && response == DeleteReport(deletedBlobs,
                                    NotDeleted(Texts(NonEmptyArray(args, "blobNames").value), deletedBlobs),
                                    deletedBlobs == [] || searchClient.log[|old(searchClient.log)|].ok)
  {
    var blobNamesNode := NonEmptyArray(args, "blobNames");
    if blobNamesNode.None? {
      return ErrorResponse(BlobNamesInvalid);
    }
    var blobNames := ArrayTexts(blobNamesNode.value);
    var deletedBlobs := blobClient.BatchDeleteBlobs(blobNames);
    if deletedBlobs.Threw? {
      return ErrorResponse(BatchDeleteFailed + deletedBlobs.message);
    }
    var failedBlobs := FailedDeletes(blobNames, deletedBlobs.value);
    var indexerRunSuccess := true;
    if deletedBlobs.value != [] {
      indexerRunSuccess := searchClient.RunIndexer();
    }
    response := DeleteReport(deletedBlobs.value, failedBlobs, indexerRunSuccess);
  }
}
