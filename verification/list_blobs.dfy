/** The `list_blobs` function: lists the blobs that match a prefix or a pattern, with their properties. */
module ListBlobsHandler {
  import opened Common
  import opened Strings
  import opened Json
  import opened BlobStorage
  import opened Responses

  const ListFailed: string := "Failed to list blobs: "

  /** The metadata object of a listed blob: every entry, its value as text. */
  method MetadataNode(metadata: map<string, string>) returns (node: map<string, JsonValue>)
    ensures node.Keys == metadata.Keys
    ensures forall k :: k in metadata ==> node[k] == JString(metadata[k])
  {
    node := map[];
    var rest := metadata.Keys;
    while rest != {}
      invariant rest <= metadata.Keys
      invariant node.Keys == metadata.Keys - rest
      invariant forall k :: k in node ==> node[k] == JString(metadata[k])
      decreases |rest|
    {
      var k :| k in rest;
      node := node[k := JString(metadata[k])];
      rest := rest - {k};
    }
  }

  /** A present value as JSON, a missing one as null. */
  function TextOrNullNode(v: Option<string>): JsonValue
  {
    if v.Some? then JString(v.value) else JNull
  }

  function SizeNode(v: Option<int>): JsonValue
  {
    if v.Some? then JInt(v.value) else JNull
  }

  /**
   * The node of one listed blob: name, size, content type and last-modified time, and
   * the metadata when there is any. A blob without a last-modified time makes
   * `toString` dereference null, and the listing fails.
   */
  function BlobNode(record: BlobRecord): Outcome<JsonValue>
  {
    if record.lastModified.None? then Threw(NullDereference)
    else
      var node := map[
        "name" := TextOrNullNode(record.name),
        "size" := SizeNode(record.size),
        "contentType" := TextOrNullNode(record.contentType),
        "lastModified" := JString(record.lastModified.value)];
      if record.metadata.Some? && record.metadata.value != map[] then
        Returned(JObject(node["metadata" := JObject(map k | k in record.metadata.value :: JString(record.metadata.value[k]))]))
      else Returned(JObject(node))
  }

  /**
   * A listed blob carries its four properties, and its metadata exactly when it has a
   * non-empty map of it, with every entry copied.
   */
  lemma BlobNodeSpec(record: BlobRecord)
    requires record.lastModified.Some?
    ensures BlobNode(record).Returned? && BlobNode(record).value.JObject?
    ensures var fields := BlobNode(record).value.fields;
      && fields["name"] == TextOrNullNode(record.name)
      && fields["size"] == SizeNode(record.size)
      && fields["contentType"] == TextOrNullNode(record.contentType)
      && fields["lastModified"] == JString(record.lastModified.value)
      && ("metadata" in fields <==> record.metadata.Some? && record.metadata.value != map[])
      && ("metadata" in fields ==>
            && fields["metadata"].JObject?
            && fields["metadata"].fields.Keys == record.metadata.value.Keys
            && forall k :: k in record.metadata.value ==> fields["metadata"].fields[k] == JString(record.metadata.value[k]))
  {
  }

  /**
   * The loop over the listing: one node per blob, in listing order; the first blob
   * without a last-modified time ends it with an exception.
   */
  method BlobNodes(records: seq<BlobRecord>) returns (nodes: Outcome<seq<JsonValue>>)
    ensures nodes.Returned? <==> forall i :: 0 <= i < |records| ==> records[i].lastModified.Some?
    ensures nodes.Threw? ==> nodes.message == NullDereference
    ensures nodes.Returned? ==>
      |nodes.value| == |records| && forall i :: 0 <= i < |records| ==> Returned(nodes.value[i]) == BlobNode(records[i])
  {
    var blobsNode: seq<JsonValue> := [];
    for i := 0 to |records|
      invariant |blobsNode| == i
      invariant forall j :: 0 <= j < i ==> records[j].lastModified.Some? && Returned(blobsNode[j]) == BlobNode(records[j])
    {
      var record := records[i];
      if record.lastModified.None? {
        return Threw(NullDereference);
      }
      var blobNode := map[
        "name" := TextOrNullNode(record.name),
        "size" := SizeNode(record.size),
        "contentType" := TextOrNullNode(record.contentType),
        "lastModified" := JString(record.lastModified.value)];
      if record.metadata.Some? && record.metadata.value != map[] {
        var metadataNode := MetadataNode(record.metadata.value);
        assert metadataNode == map k | k in record.metadata.value :: JString(record.metadata.value[k]);
        blobNode := blobNode["metadata" := JObject(metadataNode)];
      }
      blobsNode := blobsNode + [JObject(blobNode)];
    }
    nodes := Returned(blobsNode);
  }

  /** The reply for a listing: its size in the message and one node per blob. */
  function ListReply(nodes: seq<JsonValue>): Response
  {
    map["message" := JString("Found " + NatToText(|nodes|) + " blob(s)"), "blobs" := JArray(nodes)]
  }

  /**
   * `execute(args)`: no prefix, no pattern and a limit of 0 unless given; the listing is
   * asked for with these, and an exception from it, or from a blob without a
   * last-modified time, becomes an error reply.
   */
  method Execute(blobClient: BlobClient, args: Args) returns (response: Response)
    modifies blobClient
    ensures |blobClient.log| == |old(blobClient.log)| + 1
    ensures blobClient.log[..|old(blobClient.log)|] == old(blobClient.log)
    ensures blobClient.log[|old(blobClient.log)|].ListFiltered?
    ensures blobClient.log[|old(blobClient.log)|].prefix == TextOrNull(args, "prefix")
    ensures blobClient.log[|old(blobClient.log)|].regex == TextOrNull(args, "regex")
    ensures blobClient.log[|old(blobClient.log)|].maxResults == IntOr(args, "maxResults", 0)
    ensures match blobClient.log[|old(blobClient.log)|].records
      case Threw(m) => response == ErrorResponse(ListFailed + m)
      case Returned(records) =>
        if forall i :: 0 <= i < |records| ==> records[i].lastModified.Some? then
          && "blobs" in response && response["blobs"].JArray?
          && |response["blobs"].items| == |records|
          && (forall i :: 0 <= i < |records| ==> Returned(response["blobs"].items[i]) == BlobNode(records[i]))
          && response == ListReply(response["blobs"].items)
        else response == ErrorResponse(ListFailed + NullDereference)
  {
    var prefix := TextOrNull(args, "prefix");
    var regex := TextOrNull(args, "regex");
    var maxResults := IntOr(args, "maxResults", 0);
    var blobs := blobClient.ListBlobsMatching(prefix, regex, maxResults);
    if blobs.Threw? {
      return ErrorResponse(ListFailed + blobs.message);
    }
    var nodes := BlobNodes(blobs.value);
    if nodes.Threw? {
      return ErrorResponse(ListFailed + nodes.message);
    }
    response := ListReply(nodes.value);
  }
}
