# SmartBlobExplorer core, modelled in Dafny

SmartBlobExplorer is a console assistant for an Azure Blob Storage container. A language
model replies to the user's chat. It calls "functions" (upload, download, delete, rename,
copy, snapshot, shared-access URL, list, search, batch operations and local directory
operations). A registry dispatches each call to a handler. Each handler reads its JSON
arguments, calls the blob client or the search client, and answers with a JSON object.
After a change to the container, a handler runs the search indexer.

This project models that core:

- **The blob client** (`BlobStorage.BlobClient`). It holds the container as a map from
  blob name to content, the local file system as a map and a set of directories, and a
  log of the storage calls it made.
- **The search client** (`Search.AzureSearchClient`). It holds its set of provisioned
  search resources and a log of the service calls.
- **The registry** (`Registry.FunctionCallRegistry`).
- **The fourteen handlers**, one module each. Each has pure functions for argument
  validation and for the reply, lemmas about those functions, and an `Execute` method
  that makes the client calls.
- **The interactive chat loop** (`Chat`).

JSON objects are `map<string, JsonValue>`. A Java exception is an `Outcome` with
`Threw(message)`, and a Java `null` is `Option`'s `None`.

Calls into the Azure SDK, the network and the disk are methods with arbitrary results.
Each records its call, and what it gave back, in the client's `log`. A handler's
contract then names the result it got from the log.

The blob client also offers batch and listing operations that the handlers call:
`batchUploadFiles`, `batchDeleteBlobs`, `batchDownloadBlobs`, `copyBlob`,
`createSnapshot`, `generateSasUrl`, `listBlobs` with filters, `uploadDirectory` and
`listLocalFilesAndDirs`. Their code is not part of this model. They appear only as such
recorded calls, and their results are arbitrary.

## Model

| member | source | states |
|---|---|---|
| Strings.LastIndexOfSpec | src/main/java/io/github/ritwickrajmakhal/handlers/BatchUploadHandler.java:90 | the index is -1 exactly when the character is absent; otherwise it holds the character and no later position does |
| Strings.AfterLastSpec | src/main/java/io/github/ritwickrajmakhal/handlers/BatchUploadHandler.java:89-93 | the text after the last separator is a suffix free of the separator, preceded by it when present, and the whole text when it is absent |
| Strings.TrimSpec | src/main/java/io/github/ritwickrajmakhal/Main.java:71 | a trimmed line is one slice of the input: everything before and after it is a space or control character, and the slice neither starts nor ends with one |
| Strings.TrimStartSpec | src/main/java/io/github/ritwickrajmakhal/Main.java:71 | trimming the front drops only spaces and control characters and leaves a suffix that does not start with one |
| Strings.TrimEndSpec | src/main/java/io/github/ritwickrajmakhal/Main.java:71 | trimming the end drops only spaces and control characters and leaves a prefix that does not end with one |
| Json.Texts | src/main/java/io/github/ritwickrajmakhal/handlers/BatchUploadHandler.java:76-79 | one text per array element, in order, each the element's `asText` |
| Json.ArrayTexts | src/main/java/io/github/ritwickrajmakhal/handlers/BatchUploadHandler.java:76-79 | the conversion loop yields exactly `Texts` of the array |
| Json.ToInt32 | src/main/java/io/github/ritwickrajmakhal/handlers/GenerateSasUrlHandler.java:62 | `asInt` gives a 32-bit value congruent to the number modulo 2^32, and the number itself when it fits |
| Responses.TextArray | src/main/java/io/github/ritwickrajmakhal/handlers/BatchUploadHandler.java:146-148 | the JSON array holds the texts one for one, in order |
| Responses.OperationResponseFields | src/main/java/io/github/ritwickrajmakhal/handlers/UploadFileHandler.java:94-111 | success carries the message and the indexer flags and no error; failure is exactly `success: false` plus the error |
| Responses.BatchSummaryWarning | src/main/java/io/github/ritwickrajmakhal/handlers/BatchUploadHandler.java:137-139 | the summary ends with the index warning exactly when something was done and the indexer failed |
| Responses.BatchSummaryAll | src/main/java/io/github/ritwickrajmakhal/handlers/BatchUploadHandler.java:129-135 | the summary starts "Successfully" exactly when nothing failed |
| Responses.BatchReportFields | src/main/java/io/github/ritwickrajmakhal/handlers/BatchUploadHandler.java:141-155 | success is "something was done"; the failed list is present exactly when non-empty; no other keys |
| BlobStorage.NormalizePathSpec | src/main/java/io/github/ritwickrajmakhal/BlobClient.java:62-63 | a normalised path is empty only for the empty path and has no trailing slash unless it is the root |
| BlobStorage.NormalizePathNoTrailing | src/main/java/io/github/ritwickrajmakhal/BlobClient.java:62-63 | a path without a trailing slash is already normal |
| BlobStorage.FileNameSpec | src/main/java/io/github/ritwickrajmakhal/BlobClient.java:63 | `getName` is a slash-free suffix of the normalised path |
| BlobStorage.BlobNameIsFlat | src/main/java/io/github/ritwickrajmakhal/BlobClient.java:52-64 | the blob name chosen for any source contains no slash |
| BlobStorage.UrlPathSpec | src/main/java/io/github/ritwickrajmakhal/BlobClient.java:54-55 | the path of a URL is empty or starts with a slash |
| BlobStorage.LocalBlobName | src/main/java/io/github/ritwickrajmakhal/BlobClient.java:60-64 | a local file is uploaded under its own file name |
| BlobStorage.UrlBlobName | src/main/java/io/github/ritwickrajmakhal/BlobClient.java:52-56 | an http or https URL's file is uploaded under the last segment of its path, whatever query or fragment follows |
| BlobStorage.DirectoryTargetKeepsBlobName | src/main/java/io/github/ritwickrajmakhal/BlobClient.java:89-92 | downloading into a directory writes a file named after the blob, inside that directory |
| BlobStorage.PlainDestinationUnchanged | src/main/java/io/github/ritwickrajmakhal/BlobClient.java:88-94 | a destination that is not a directory is used as given |
| BlobStorage.BlobClient.ListBlobs | src/main/java/io/github/ritwickrajmakhal/BlobClient.java:35-44 | one description per listed blob, in listing order |
| BlobStorage.BlobClient.UploadFile | src/main/java/io/github/ritwickrajmakhal/BlobClient.java:47-83 | on success, the container gains the blob under the source's name (the local file's content for a local path) and the temporary file is removed for a URL; on failure, the container is unchanged |
| BlobStorage.BlobClient.DownloadBlob | src/main/java/io/github/ritwickrajmakhal/BlobClient.java:86-98 | a logged successful read wrote the blob's content to the resolved target, and a logged failure left the local files as they were; errors are swallowed |
| BlobStorage.BlobClient.DeleteBlob | src/main/java/io/github/ritwickrajmakhal/BlobClient.java:101-109 | true removes exactly that blob, which existed; false changes nothing |
| BlobStorage.BlobClient.RenameBlob | src/main/java/io/github/ritwickrajmakhal/BlobClient.java:112-124 | a copy that did not start changes nothing; a started copy followed by a failed delete leaves the source and may set the destination to its content; true means the source existed and is gone, and the destination holds its content once the copy lands |
| Search.PageSizeSpec | src/main/java/io/github/ritwickrajmakhal/AzureSearchClient.java:319 | a page size is positive, and a positive request is kept |
| Search.PageOffsetSpec | src/main/java/io/github/ritwickrajmakhal/AzureSearchClient.java:320 | an offset is never negative, and a non-negative request is kept |
| Search.CeilDiv | src/main/java/io/github/ritwickrajmakhal/AzureSearchClient.java:388 | the fewest pages of the given size that cover the count |
| Search.CeilDivSpec | src/main/java/io/github/ritwickrajmakhal/AzureSearchClient.java:388 | the integer formula for the ceiling covers the count with no page to spare |
| Search.PaginateOutcome | src/main/java/io/github/ritwickrajmakhal/AzureSearchClient.java:382-404 | a negative count gives only the error; otherwise the count and the effective page size are reported |
| Search.PagesCoverCount | src/main/java/io/github/ritwickrajmakhal/AzureSearchClient.java:387-388 | the pages cover the count without an empty one, and there are none exactly when the count is 0 |
| Search.CurrentPageClamped | src/main/java/io/github/ritwickrajmakhal/AzureSearchClient.java:389 | the current page lies among the pages (or is 0); a valid request is kept; others go to the nearest end |
| Search.NavigationFlags | src/main/java/io/github/ritwickrajmakhal/AzureSearchClient.java:395-396 | next exists exactly when a later page does, previous exactly when the page is not the first |
| Search.AzureSearchClient.SearchPage | src/main/java/io/github/ritwickrajmakhal/AzureSearchClient.java:315-338 | queries with the clamped size and offset and returns what was delivered, at most one page; a failure while reading returns the hits read so far |
| Search.AzureSearchClient.Search | src/main/java/io/github/ritwickrajmakhal/AzureSearchClient.java:298-300 | the first page of the given size |
| Search.AzureSearchClient.GetSearchResultCount | src/main/java/io/github/ritwickrajmakhal/AzureSearchClient.java:349-362 | the service's total, or -1 when the count fails |
| Search.AzureSearchClient.GetSearchPaginationInfo | src/main/java/io/github/ritwickrajmakhal/AzureSearchClient.java:375-404 | the pagination of the counted total, or the error when the count fails |
| Search.AzureSearchClient.RunIndexer | src/main/java/io/github/ritwickrajmakhal/AzureSearchClient.java:415-426 | one indexer trigger is recorded and its success returned; it never throws |
| Search.AzureSearchClient.CleanUp | src/main/java/io/github/ritwickrajmakhal/AzureSearchClient.java:436-460 | deletes data source, index, skillset and indexer in that order, stopping at the first failure; exactly the deleted ones are no longer live |
| Registry.RegisteredIsLastRegistration | src/main/java/io/github/ritwickrajmakhal/FunctionCallRegistry.java:19-21 | after a series of registrations, a name maps to the handler of its last registration |
| Registry.FunctionCallRegistry.RegisterHandler | src/main/java/io/github/ritwickrajmakhal/FunctionCallRegistry.java:19-21 | binds the name to the handler and changes no other binding |
| Registry.FunctionCallRegistry.HasHandler | src/main/java/io/github/ritwickrajmakhal/FunctionCallRegistry.java:41-43 | true exactly when the name is registered |
| Registry.FunctionCallRegistry.ExecuteFunction | src/main/java/io/github/ritwickrajmakhal/FunctionCallRegistry.java:26-36 | an unknown name gives the error object; malformed arguments propagate the parse error; otherwise the registered handler gets the parsed arguments |
| Chat.StartInteractiveChat | src/main/java/io/github/ritwickrajmakhal/Main.java:57-113 | the loop ends with the history, unread input and exit flag that `Converse` gives from the initial history |
| Chat.BoundKeepsEnds | src/main/java/io/github/ritwickrajmakhal/Main.java:101-105 | trimming drops the oldest two messages after the system prompt and keeps the prompt and the newest message |
| Chat.TurnKeepsShape | src/main/java/io/github/ritwickrajmakhal/Main.java:84-108 | a turn keeps the system prompt first and only user messages after it, and the newest is the prompt just sent |
| Chat.UnansweredTurnKeepsEverything | src/main/java/io/github/ritwickrajmakhal/Main.java:97-111 | without choices, or after an exception, the user turn stays and nothing is trimmed |
| Chat.ConverseKeepsShape | src/main/java/io/github/ritwickrajmakhal/Main.java:69-112 | a whole session keeps the history's shape |
| Chat.AnsweredTurnBounded | src/main/java/io/github/ritwickrajmakhal/Main.java:102-105 | an answered turn keeps the history within 21 messages |
| Chat.AnsweredSessionBounded | src/main/java/io/github/ritwickrajmakhal/Main.java:69-112 | when every request is answered, the history never exceeds 21 messages |
| Chat.ExitStops | src/main/java/io/github/ritwickrajmakhal/Main.java:74-77 | `/exit` or `/quit` ends the session, leaving the history as it was and the rest of the input unread |
| Chat.HelpIgnored | src/main/java/io/github/ritwickrajmakhal/Main.java:78-81 | `/?` or `/help` changes nothing |
| Chat.NoExitReadsAll | src/main/java/io/github/ritwickrajmakhal/Main.java:69-81 | without an exit command, all input is read and the session does not quit |
| Chat.CommandsIgnoreCase | src/main/java/io/github/ritwickrajmakhal/Main.java:71-81 | lines equal after trimming and ignoring case are the same kind of command |
| BatchUploadHandler.ComparedNameSpec | src/main/java/io/github/ritwickrajmakhal/handlers/BatchUploadHandler.java:86-93 | the compared name is the suffix after the last '/', else after the last '\\', else the whole path |
| BatchUploadHandler.FailedMembership | src/main/java/io/github/ritwickrajmakhal/handlers/BatchUploadHandler.java:85-107 | a path is reported failed exactly when it was requested and its file name is not among the uploaded blobs |
| BatchUploadHandler.FailedInOrder | src/main/java/io/github/ritwickrajmakhal/handlers/BatchUploadHandler.java:85-107 | the failed paths keep the order of the request |
| BatchUploadHandler.FailedUploads | src/main/java/io/github/ritwickrajmakhal/handlers/BatchUploadHandler.java:85-107 | the nested loop with early exit computes exactly `Failed` |
| BatchUploadHandler.UploadReportSpec | src/main/java/io/github/ritwickrajmakhal/handlers/BatchUploadHandler.java:124-155 | success iff something was uploaded; `failedUploads` present iff some path's name is missing; warning iff uploads happened and the indexer failed; "Successfully" iff nothing failed |
| BatchUploadHandler.Execute | src/main/java/io/github/ritwickrajmakhal/handlers/BatchUploadHandler.java:61-122 | a missing or empty path array is refused without any call; otherwise one batch upload of the texts; the indexer runs iff something was uploaded; an exception gives the error reply |
| BatchDeleteHandler.NotDeletedMembership | src/main/java/io/github/ritwickrajmakhal/handlers/BatchDeleteHandler.java:84-88 | a name is reported failed exactly when it was requested and not deleted |
| BatchDeleteHandler.NotDeletedInOrder | src/main/java/io/github/ritwickrajmakhal/handlers/BatchDeleteHandler.java:84-88 | the failed names keep the order of the request |
| BatchDeleteHandler.FailedDeletes | src/main/java/io/github/ritwickrajmakhal/handlers/BatchDeleteHandler.java:84-88 | the loop computes exactly `NotDeleted` |
| BatchDeleteHandler.DeleteReportSpec | src/main/java/io/github/ritwickrajmakhal/handlers/BatchDeleteHandler.java:106-136 | success iff something was deleted; `failedBlobs` present iff a name was not deleted; warning iff deletions happened and the indexer failed; "Successfully" iff nothing failed |
| BatchDeleteHandler.Execute | src/main/java/io/github/ritwickrajmakhal/handlers/BatchDeleteHandler.java:60-103 | a missing or empty name array is refused without any call; otherwise one batch delete; the indexer runs iff something was deleted |
| BatchDownloadHandler.ValidateSpec | src/main/java/io/github/ritwickrajmakhal/handlers/BatchDownloadHandler.java:57-73 | the names are checked before the directory; a valid call has the names' texts and a non-empty directory |
| BatchDownloadHandler.DownloadReportSpec | src/main/java/io/github/ritwickrajmakhal/handlers/BatchDownloadHandler.java:78-85 | the message reports downloaded over requested, and the array lists the downloaded blobs in order |
| BatchDownloadHandler.Execute | src/main/java/io/github/ritwickrajmakhal/handlers/BatchDownloadHandler.java:52-93 | an invalid call makes no download; otherwise one batch download of the names into the directory, and its result or exception is reported |
| UploadFileHandler.Execute | src/main/java/io/github/ritwickrajmakhal/handlers/UploadFileHandler.java:82-114 | an empty path uploads nothing; success iff the upload succeeded, which is iff the indexer is triggered; on failure the container is unchanged; on success only the file's blob changed, and a local file's blob holds its content |
| DeleteBlobHandler.Execute | src/main/java/io/github/ritwickrajmakhal/handlers/DeleteBlobHandler.java:82-114 | an empty name deletes nothing; success iff the blob was removed, which is iff the indexer is triggered |
| RenameBlobHandler.Execute | src/main/java/io/github/ritwickrajmakhal/handlers/RenameBlobHandler.java:87-123 | a missing name renames nothing; success iff the source was copied and deleted, which is iff the indexer is triggered; a copy that did not start is a failure that changes nothing; on success the source is gone and the destination may hold its content |
| DownloadBlobHandler.Execute | src/main/java/io/github/ritwickrajmakhal/handlers/DownloadBlobHandler.java:79-103 | with both arguments it always reports success, whether or not the download happened; the container is untouched; a logged successful download wrote the blob's content to the target, and a logged failure changed no local file |
| CopyBlobHandler.ValidateSpec | src/main/java/io/github/ritwickrajmakhal/handlers/CopyBlobHandler.java:53-66 | the source is checked before the destination, and a valid call keeps both names |
| CopyBlobHandler.ReplySpec | src/main/java/io/github/ritwickrajmakhal/handlers/CopyBlobHandler.java:72-88 | an error exactly when the copy did not return true, and then nothing else; a copy names source and destination |
| CopyBlobHandler.Execute | src/main/java/io/github/ritwickrajmakhal/handlers/CopyBlobHandler.java:48-89 | an invalid call copies nothing; otherwise one copy of source to destination, answered by `Reply` |
| CreateSnapshotHandler.ReplySpec | src/main/java/io/github/ritwickrajmakhal/handlers/CreateSnapshotHandler.java:48-72 | the snapshot information is returned as it came; null and exceptions are errors naming the blob or the message |
| CreateSnapshotHandler.Execute | src/main/java/io/github/ritwickrajmakhal/handlers/CreateSnapshotHandler.java:48-72 | an empty name makes no snapshot; otherwise one snapshot of that blob, answered by `Reply` |
| GenerateSasUrlHandler.ParseValidation | src/main/java/io/github/ritwickrajmakhal/handlers/GenerateSasUrlHandler.java:61-76 | a bad name is reported whatever the duration; a duration outside 1..168 is reported exactly when the name is good |
| GenerateSasUrlHandler.ParseDefaults | src/main/java/io/github/ritwickrajmakhal/handlers/GenerateSasUrlHandler.java:61-65 | absent arguments mean 24 hours, read only |
| GenerateSasUrlHandler.ReplySpec | src/main/java/io/github/ritwickrajmakhal/handlers/GenerateSasUrlHandler.java:83-102 | a URL comes back with exactly the signed name, duration and permissions; null and exceptions are errors |
| GenerateSasUrlHandler.Execute | src/main/java/io/github/ritwickrajmakhal/handlers/GenerateSasUrlHandler.java:56-103 | an invalid request signs nothing; otherwise the client is asked for exactly the parsed request |
| ListBlobsHandler.MetadataNode | src/main/java/io/github/ritwickrajmakhal/handlers/ListBlobsHandler.java:79-87 | the metadata object has the same keys, each value as text |
| ListBlobsHandler.BlobNodeSpec | src/main/java/io/github/ritwickrajmakhal/handlers/ListBlobsHandler.java:70-87 | a listed blob carries its four properties, and metadata exactly when it has some |
| ListBlobsHandler.BlobNodes | src/main/java/io/github/ritwickrajmakhal/handlers/ListBlobsHandler.java:68-91 | one node per blob in order, or the null-dereference exception when some blob has no last-modified time |
| ListBlobsHandler.Execute | src/main/java/io/github/ritwickrajmakhal/handlers/ListBlobsHandler.java:52-99 | lists with the given prefix, pattern and limit; the reply holds one node per blob, or the error of the listing |
| SearchBlobsHandler.TruncateContent | src/main/java/io/github/ritwickrajmakhal/handlers/SearchBlobsHandler.java:89-93 | null gives "", short text is kept, longer text keeps its first characters and gets "..." |
| SearchBlobsHandler.RenamedByKeys | src/main/java/io/github/ritwickrajmakhal/handlers/SearchBlobsHandler.java:78-87 | copying fields with distinct output keys: each output key is present iff its source is present and not null, holding the same value, and nothing else is produced |
| SearchBlobsHandler.RenamesDistinct | src/main/java/io/github/ritwickrajmakhal/handlers/SearchBlobsHandler.java:41-52 | the ten output keys are distinct |
| SearchBlobsHandler.RenamedSpec | src/main/java/io/github/ritwickrajmakhal/handlers/SearchBlobsHandler.java:41-52 | every hit's renamed fields are exactly its non-null index fields, under their short keys |
| SearchBlobsHandler.FilteredSpec | src/main/java/io/github/ritwickrajmakhal/handlers/SearchBlobsHandler.java:38-66 | a summary iff content was asked for and present, holding the truncated content text of at most 303 characters; a highlight iff the captions are a non-empty list, holding them; the renamed fields are kept and no other key is added |
| SearchBlobsHandler.FilterResults | src/main/java/io/github/ritwickrajmakhal/handlers/SearchBlobsHandler.java:37-69 | one output per hit in order, or the exception of a null content |
| SearchBlobsHandler.SearchReplySpec | src/main/java/io/github/ritwickrajmakhal/handlers/SearchBlobsHandler.java:71-73 | the reply lists the outputs in order, counts them and echoes the query |
| SearchBlobsHandler.Execute | src/main/java/io/github/ritwickrajmakhal/handlers/SearchBlobsHandler.java:25-76 | one search for the query with at most `PageSize(maxResults)` hits (5 by default; a non-positive value means 50); the reply is built from all the hits, or the exception propagates |
| UploadDirectoryHandler.ReplySpec | src/main/java/io/github/ritwickrajmakhal/handlers/UploadDirectoryHandler.java:106-133 | the indexer is due iff the upload succeeded with a non-empty list; the result comes back unchanged except for an indexing status when the list cannot be read; null and exceptions are failures |
| UploadDirectoryHandler.Execute | src/main/java/io/github/ritwickrajmakhal/handlers/UploadDirectoryHandler.java:89-134 | an empty path uploads nothing; otherwise one directory upload with the given settings, and the indexer runs iff it is due |
| ListLocalFilesHandler.ReplySpec | src/main/java/io/github/ritwickrajmakhal/handlers/ListLocalFilesHandler.java:100-133 | a complete listing succeeds; directories appear iff asked for; path and total (files plus directories) iff something was found; anything else fails |
| ListLocalFilesHandler.Execute | src/main/java/io/github/ritwickrajmakhal/handlers/ListLocalFilesHandler.java:85-134 | an empty path lists nothing; otherwise one listing with the given settings, answered by `Reply` |

## Left out

- The Azure SDK, HTTP downloads, local disk access, logging and console output are not modelled. They become recorded calls with arbitrary results, or are dropped.
- The bodies of the blob client's batch, copy, snapshot, SAS, filtered-listing, directory-upload and local-listing operations are not part of this model. Only their recorded calls and results are.
- The JSON text layer is not modelled: `readTree` is the `parse` parameter of `ExecuteFunction`, and `writeValueAsString` is the identity on response maps. The fallback replies for failed serialisation are left out.
- Jackson's conversions are modelled for plain values only. Float-to-int truncation and number formats beyond plain decimal integers are left out.
- JVM exception messages are abstract. A null dereference is reported with the constant `NullDereference` and a failed cast with `NotAList`, not with the JVM's own text.
- `java.io.File` is modelled only as far as `getName`, a trailing slash and joining a child. Duplicate slashes, `getAbsolutePath` and platform separators are left out.
- `equalsIgnoreCase` folds ASCII letters only.
- The `FunctionHandler` interface is not modelled. The registry is generic over its handler type, and dispatch returns the handler and arguments instead of calling it.
- The chat service and the console are parameters of `Chat.StartInteractiveChat`. The request options (model, tokens, temperature) and the help text are left out.
- `Search.AzureSearchClient` construction (creating data source, index, skillset and indexer) is reduced to a set of provisioned resources. The index, skillset and indexer definitions are not modelled.
- Search.CeilDiv: computes the page count with exact integers. It does not model the `double` division or the overflow of the `int` cast for counts beyond 2^31.
- BatchUploadHandler.UploadReportSpec: counts are unbounded integers, so a Java `int` overflow in the counts is not modelled.
- UploadDirectoryHandler.Execute: assumes a search client is present, which is always so in the application. It does not model a `put` into an immutable result map.
- SearchBlobsHandler.TruncateContent: lengths are counted in Unicode characters, not in Java's UTF-16 code units. Java can cut a surrogate pair in half at the 300th unit, and the model cannot. The 303 bound of `SearchBlobsHandler.FilteredSpec` is in characters too.
- Search.AzureSearchClient.SearchPage: the page bound assumes that the search service honours `setTop`. The Java client does not count the hits it reads.
- SearchBlobsHandler.Filtered: a non-text `merged_content` is rendered by `AsText`, not by Java's `toString` of a list or map.
- BlobStorage.BlobClient.RenameBlob: with equal source and destination names, the blob is deleted after copying onto itself. The contract allows that outcome, as the code does.
- BlobStorage.BlobClient.DownloadBlob: errors are swallowed, so the caller learns nothing from the return. The logged result records which of the two outcomes happened.
