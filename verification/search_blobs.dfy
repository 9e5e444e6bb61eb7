/**
 * The `search_blobs` function: runs a search and reshapes each hit, renaming the
 * index's fields to shorter keys and keeping only those with a value.
 */
module SearchBlobsHandler {
  import opened Common
  import opened Json
  import opened Search
  import opened Responses

  const DefaultMaxResults: int := 5

  /** How much of a document's text a summary keeps. */
  const SummaryLength: nat := 300

  /** `addIfExists`: copies the value under `sourceKey` to `targetKey` when there is one and it is not null. */
  function AddIfExists(source: Document, target: Document, sourceKey: string, targetKey: string): Document
  {
    if sourceKey in source && source[sourceKey] != JNull then target[targetKey := source[sourceKey]] else target
  }

  /**
   * `truncateContent`: null becomes the empty text, a text within `maxLength` is kept,
   * and a longer one keeps its first `maxLength` characters followed by "...".
   */
  function TruncateContent(content: Option<string>, maxLength: nat): (summary: string)
    ensures content.None? ==> summary == ""
    ensures content.Some? && |content.value| <= maxLength ==> summary == content.value
    ensures content.Some? && |content.value| > maxLength ==>
      |summary| == maxLength + 3 && summary[..maxLength] == content.value[..maxLength] && summary[maxLength..] == "..."
    ensures |summary| <= maxLength + 3
  {
    if content.None? then ""
    else if |content.value| <= maxLength then content.value
    else content.value[..maxLength] + "..."
  }

  /** The pairs of source field and output key that are copied, in the order they are copied. */
  const Renames: seq<(string, string)> := [
    ("metadata_storage_name", "name"), ("metadata_storage_path", "path"), ("metadata_storage_size", "size"),
    ("metadata_storage_last_modified", "lastModified"), ("metadata_storage_content_type", "contentType"),
    ("@search.score", "relevanceScore"), ("people", "people"), ("organizations", "organizations"),
    ("locations", "locations"), ("keyphrases", "keyphrases")]

  /** `addIfExists` applied, in order, for each pair of `renames`, starting from an empty document. */
  function RenamedBy(hit: Document, renames: seq<(string, string)>): Document
  {
    if renames == [] then map[]
    else
      var last := renames[|renames| - 1];
      AddIfExists(hit, RenamedBy(hit, renames[..|renames| - 1]), last.0, last.1)
  }

  /** The fields of a hit that are copied, under their output keys. */
  function Renamed(hit: Document): Document
  {
    RenamedBy(hit, Renames)
  }

  /** No two pairs write the same output key. */
  predicate DistinctTargets(renames: seq<(string, string)>)
  {
    forall a, b :: 0 <= a < b < |renames| ==> renames[a].1 != renames[b].1
  }

  /**
   * With distinct output keys, each output key is there exactly when its source field is
   * there and not null, it then holds that field's value, and no other key is produced.
   */
  lemma {:induction false} RenamedByKeys(hit: Document, renames: seq<(string, string)>)
    requires DistinctTargets(renames)
    ensures forall i :: 0 <= i < |renames| ==>
      (renames[i].1 in RenamedBy(hit, renames) <==> renames[i].0 in hit && hit[renames[i].0] != JNull)
    ensures forall i :: 0 <= i < |renames| && renames[i].1 in RenamedBy(hit, renames) ==>
      RenamedBy(hit, renames)[renames[i].1] == hit[renames[i].0]
    ensures forall k :: k in RenamedBy(hit, renames) ==> exists i :: 0 <= i < |renames| && renames[i].1 == k
  {
    if renames != [] {
      var front := renames[..|renames| - 1];
      RenamedByKeys(hit, front);
      var r := RenamedBy(hit, renames);
      forall k | k in r
        ensures exists i :: 0 <= i < |renames| && renames[i].1 == k
      {
        if k != renames[|renames| - 1].1 {
          assert k in RenamedBy(hit, front);
          var i :| 0 <= i < |front| && front[i].1 == k;
          assert renames[i].1 == k;
        }
      }
    }
  }

  lemma RenamesDistinct()
    ensures DistinctTargets(Renames)
  {
  }

  /**
   * The output key of each renamed pair is there exactly when its source field is there
   * and not null, and then it holds that field's value; no other key is produced.
   */
  lemma RenamedSpec(hit: Document)
    ensures forall i :: 0 <= i < |Renames| ==>
      (Renames[i].1 in Renamed(hit) <==> Renames[i].0 in hit && hit[Renames[i].0] != JNull)
    ensures forall i :: 0 <= i < |Renames| && Renames[i].1 in Renamed(hit) ==>
      Renamed(hit)[Renames[i].1] == hit[Renames[i].0]
    ensures forall k :: k in Renamed(hit) ==> exists i :: 0 <= i < |Renames| && Renames[i].1 == k
  {
    RenamesDistinct();
    RenamedByKeys(hit, Renames);
  }

  /**
   * The output for one hit: the renamed fields; a summary of `merged_content` when
   * content is asked for and the field is there; the captions when they are a non-empty
   * list. A `merged_content` field holding null makes `toString` throw.
   */
  function Filtered(hit: Document, includeContent: bool): Outcome<Document>
  {
    var renamed := Renamed(hit);
    if includeContent && "merged_content" in hit && hit["merged_content"] == JNull then Threw(NullDereference)
    else
      var withSummary :=
        if includeContent && "merged_content" in hit
        then renamed["contentSummary" := JString(TruncateContent(Some(AsText(hit["merged_content"])), SummaryLength))]
        else renamed;
      if "@search.captions" in hit && hit["@search.captions"].JArray? && hit["@search.captions"].items != []
      then Returned(withSummary["highlight" := hit["@search.captions"]])
      else Returned(withSummary)
  }

  /**
   * A summary is there exactly when content was asked for and the hit has a
   * `merged_content` field, and it is that field's text truncated, at most 303 characters
   * long; a highlight exactly when the captions are a non-empty list, and it is that
   * list; the renamed fields are kept, and no other key is added.
   */
  lemma FilteredSpec(hit: Document, includeContent: bool)
    requires Filtered(hit, includeContent).Returned?
    ensures var out := Filtered(hit, includeContent).value;
      && ("contentSummary" in out <==> includeContent && "merged_content" in hit)
      && ("contentSummary" in out ==> out["contentSummary"].JString? && |out["contentSummary"].s| <= SummaryLength + 3)
      && ("contentSummary" in out ==>
            out["contentSummary"] == JString(TruncateContent(Some(AsText(hit["merged_content"])), SummaryLength)))
      && ("highlight" in out <==> "@search.captions" in hit && hit["@search.captions"].JArray? && hit["@search.captions"].items != [])
      && ("highlight" in out ==> out["highlight"] == hit["@search.captions"])
      && (forall k :: k in Renamed(hit) ==> k in out && out[k] == Renamed(hit)[k])
      && out.Keys <= Renamed(hit).Keys + {"contentSummary", "highlight"}
  {
    RenamedSpec(hit);
    assert forall i :: 0 <= i < |Renames| ==> Renames[i].1 != "contentSummary" && Renames[i].1 != "highlight";
  }

  /** The outputs of all hits in order, or the exception of the first that throws. */
  function FilterAll(hits: seq<Document>, includeContent: bool): Outcome<seq<Document>>
  {
    if forall i :: 0 <= i < |hits| ==> Filtered(hits[i], includeContent).Returned?
    then Returned(seq(|hits|, i requires 0 <= i < |hits| => Filtered(hits[i], includeContent).value))
    else Threw(NullDereference)
  }

  /** The loop over the hits: one output per hit, in the order of the hits. */
  method FilterResults(searchResults: seq<Document>, includeContent: bool) returns (filtered: Outcome<seq<Document>>)
    ensures filtered.Returned? <==> forall i :: 0 <= i < |searchResults| ==> Filtered(searchResults[i], includeContent).Returned?
    ensures filtered.Threw? ==> filtered.message == NullDereference
    ensures filtered.Returned? ==>
      |filtered.value| == |searchResults|
      && forall i :: 0 <= i < |searchResults| ==> Returned(filtered.value[i]) == Filtered(searchResults[i], includeContent)
  {
    var filteredBlobs: seq<Document> := [];
    for i := 0 to |searchResults|
      invariant |filteredBlobs| == i
      invariant forall j :: 0 <= j < i ==> Returned(filteredBlobs[j]) == Filtered(searchResults[j], includeContent)
    {
      var blob := Filtered(searchResults[i], includeContent);
      if blob.Threw? {
        return Threw(blob.message);
      }
      filteredBlobs := filteredBlobs + [blob.value];
    }
    filtered := Returned(filteredBlobs);
  }

  /** The reply: the outputs in order, their number, and the query as given. */
  function SearchReply(query: string, filteredBlobs: seq<Document>): Response
  {
    map["results" := JArray(seq(|filteredBlobs|, i requires 0 <= i < |filteredBlobs| => JObject(filteredBlobs[i]))),
        "count" := JInt(|filteredBlobs|),
        "query" := JString(query)]
  }

  /** The reply holds one output per hit, in order, counts them, and echoes the query. */
  lemma SearchReplySpec(query: string, hits: seq<Document>, includeContent: bool)
    requires FilterAll(hits, includeContent).Returned?
    ensures var r := SearchReply(query, FilterAll(hits, includeContent).value);
      && r.Keys == {"results", "count", "query"}
      && r["count"] == JInt(|hits|) && r["query"] == JString(query)
      && |r["results"].items| == |hits|
      && forall i :: 0 <= i < |hits| ==> Returned(r["results"].items[i].fields) == Filtered(hits[i], includeContent)
  {
  }

  /**
   * `execute(args)`: the query defaults to "", the number of results to 5 and content to
   * off. The search itself never throws; the exception of a null `merged_content`
   * leaves `execute`.
   */
  method Execute(searchClient: AzureSearchClient, args: Args) returns (response: Outcome<Response>)
    modifies searchClient
    ensures |searchClient.log| == |old(searchClient.log)| + 1
    ensures searchClient.log[..|old(searchClient.log)|] == old(searchClient.log)
    ensures searchClient.log[|old(searchClient.log)|].Query?
    ensures searchClient.log[|old(searchClient.log)|].query == TextOr(args, "query", "")
    ensures searchClient.log[|old(searchClient.log)|].top == PageSize(IntOr(args, "maxResults", DefaultMaxResults))
    ensures searchClient.log[|old(searchClient.log)|].skip == 0
    ensures response == match FilterAll(searchClient.log[|old(searchClient.log)|].delivered,
                                        BoolOr(args, "includeContent", false))
                        case Returned(filteredBlobs) => Returned(SearchReply(TextOr(args, "query", ""), filteredBlobs))
                        case Threw(m) => Threw(m)
  {
    var query := TextOr(args, "query", "");
    var maxResults := IntOr(args, "maxResults", DefaultMaxResults);
    var includeContent := BoolOr(args, "includeContent", false);
    var searchResults := searchClient.Search(query, maxResults);
    var filteredBlobs := FilterResults(searchResults, includeContent);
    if filteredBlobs.Returned? {
      var expected := FilterAll(searchResults, includeContent).value;
      forall i | 0 <= i < |searchResults|
        ensures filteredBlobs.value[i] == expected[i]
      {
        assert Returned(filteredBlobs.value[i]) == Filtered(searchResults[i], includeContent);
      }
      assert filteredBlobs.value == expected;
    }
    if filteredBlobs.Threw? {
      return Threw(filteredBlobs.message);
    }
    response := Returned(SearchReply(query, filteredBlobs.value));
  }
}
