/**
 * What the function-call handlers reply: the JSON object each one serialises, and the
 * pieces several of them share.
 */
module Responses {
  import opened Common
  import opened Strings
  import opened Json
  import opened Search

  /** A handler's reply, before serialisation: its fields by key. */
  type Response = map<string, JsonValue>

  /** `Map.of("error", message)`. */
  function ErrorResponse(message: string): Response
  {
    map["error" := JString(message)]
  }

  /** A reply with `success` false and an error message, and nothing else. */
  function Failure(message: string): Response
  {
    map["success" := JBool(false), "error" := JString(message)]
  }

  /** A JSON array of texts, in the given order. */
  function TextArray(texts: seq<string>): (v: JsonValue)
    ensures v.JArray? && |v.items| == |texts|
    ensures forall i :: 0 <= i < |texts| ==> v.items[i] == JString(texts[i])
  {
    JArray(seq(|texts|, i requires 0 <= i < |texts| => JString(texts[i])))
  }

  /**
   * The JVM's message for a dereference of a missing value and for a failed cast. The
   * handlers put `e.getMessage()` into their error texts; the JVM's own wording is not
   * part of this model, so these stand for it.
   */
  const NullDereference: string := "null"
  const NotAList: string := "not a list"

  const IndexerUpdated: string := "Search index updated successfully"
  const IndexerNotUpdated: string := "Failed to update search index"

  /**
   * The reply of the upload, delete and rename handlers once their arguments are
   * valid: on success a message and the indexer's result, otherwise only the error.
   */
  function OperationResponse(success: bool, message: string, error: string, indexerRun: bool): Response
  {
    if success then
      map["success" := JBool(true), "message" := JString(message), "indexerRun" := JBool(indexerRun),
          "indexerMessage" := JString(if indexerRun then IndexerUpdated else IndexerNotUpdated)]
    else
      map["success" := JBool(false), "error" := JString(error)]
  }

  /**
   * `success` reports the operation's result; the indexer fields are there exactly when
   * it succeeded and report the indexer's result; a failure carries the error alone.
   */
  lemma OperationResponseFields(success: bool, message: string, error: string, indexerRun: bool)
    ensures var r := OperationResponse(success, message, error, indexerRun);
      && r["success"] == JBool(success)
      && ("indexerRun" in r <==> success) && ("indexerMessage" in r <==> success)
      && (success ==> r["indexerRun"] == JBool(indexerRun) && r["message"] == JString(message) && "error" !in r)
      && (!success ==> r == Failure(error))
  {
  }

  /** `after` is `before` with exactly one indexer run appended to it. */
  ghost predicate IndexerRan(before: seq<SearchCall>, after: seq<SearchCall>)
  {
    |after| == |before| + 1 && after[..|before|] == before && after[|before|].TriggerIndexer?
  }

  // ---- The summary of a batch upload or a batch delete ----

  const IndexWarning: string := ". Warning: Search index update failed."

  /** Whether `s` ends with `suffix`. */
  predicate EndsWith(s: string, suffix: string)
  {
    |suffix| <= |s| && s[|s| - |suffix|..] == suffix
  }

  /**
   * The summary message of a batch of `done` successes and `failed` failures: "all"
   * when nothing failed, otherwise done out of done + failed; then the warning when the
   * indexer failed after something was done. `verb` is the past tense in lower case,
   * `Verb` capitalised, `noun` the plural of what was processed.
   */
  function BatchSummary(verb: string, Verb: string, noun: string, done: nat, failed: nat, indexUpdated: bool): string
  {
    (if failed == 0 then "Successfully " + verb + " all " + NatToText(done) + " " + noun
     else Verb + " " + NatToText(done) + "/" + NatToText(done + failed) + " " + noun + ". "
          + NatToText(failed) + " operations failed")
    + (if !indexUpdated && done > 0 then IndexWarning else "")
  }

  /** The warning ends the summary exactly when the indexer failed after something was done. */
  lemma BatchSummaryWarning(verb: string, Verb: string, noun: string, done: nat, failed: nat, indexUpdated: bool)
    requires noun != [] && noun[|noun| - 1] != '.'
    ensures EndsWith(BatchSummary(verb, Verb, noun, done, failed, indexUpdated), IndexWarning)
            <==> !indexUpdated && done > 0
  {
    var base := if failed == 0 then "Successfully " + verb + " all " + NatToText(done) + " " + noun
                else Verb + " " + NatToText(done) + "/" + NatToText(done + failed) + " " + noun + ". "
                     + NatToText(failed) + " operations failed";
    assert base != [] && base[|base| - 1] != '.';
    if !(!indexUpdated && done > 0) {
      assert BatchSummary(verb, Verb, noun, done, failed, indexUpdated) == base;
      assert IndexWarning[|IndexWarning| - 1] == '.';
      if |IndexWarning| <= |base| {
        assert base[|base| - |IndexWarning|..][|IndexWarning| - 1] == base[|base| - 1];
      }
    }
  }

  /** The summary opens with "Successfully" exactly when nothing failed. */
  lemma BatchSummaryAll(verb: string, Verb: string, noun: string, done: nat, failed: nat, indexUpdated: bool)
    requires Verb != [] && Verb[0] != 'S'
    ensures "Successfully " <= BatchSummary(verb, Verb, noun, done, failed, indexUpdated) <==> failed == 0
  {
    var s := BatchSummary(verb, Verb, noun, done, failed, indexUpdated);
    if failed != 0 {
      assert s[0] == Verb[0];
    }
  }

  /**
   * The reply of a batch upload or delete: the summary, `success` when anything was
   * done, the indexer flag, the names done in the order given, and the failures only
   * when there are some.
   */
  function BatchReport(verb: string, Verb: string, noun: string, doneKey: string, failedKey: string,
                       done: seq<string>, failed: seq<string>, indexUpdated: bool): Response
  {
    var response := map[
      "message" := JString(BatchSummary(verb, Verb, noun, |done|, |failed|, indexUpdated)),
      "success" := JBool(done != []),
      "indexUpdated" := JBool(indexUpdated),
      doneKey := TextArray(done)];
    if failed == [] then response else response[failedKey := TextArray(failed)]
  }

  /** Which fields a batch reply holds, and what they say. */
  lemma BatchReportFields(verb: string, Verb: string, noun: string, doneKey: string, failedKey: string,
                          done: seq<string>, failed: seq<string>, indexUpdated: bool)
    requires doneKey !in {"message", "success", "indexUpdated"}
    requires failedKey !in {"message", "success", "indexUpdated", doneKey}
    ensures var r := BatchReport(verb, Verb, noun, doneKey, failedKey, done, failed, indexUpdated);
      && r["success"] == JBool(done != [])
      && r["indexUpdated"] == JBool(indexUpdated)
      && r["message"] == JString(BatchSummary(verb, Verb, noun, |done|, |failed|, indexUpdated))
      && r[doneKey] == TextArray(done)
      && (failedKey in r <==> failed != [])
      && (failed != [] ==> r[failedKey] == TextArray(failed))
      && r.Keys <= {"message", "success", "indexUpdated", doneKey, failedKey}
  {
  }
}
