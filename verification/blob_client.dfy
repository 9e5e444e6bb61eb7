/**
 * The blob client: naming rules for uploads and downloads, and the single-blob
 * operations, over an in-memory container (a map from blob name to contents) and an
 * in-memory local disk. Every call into the storage SDK, the network or the disk is
 * recorded in a ghost log, with whether it succeeded.
 */
module BlobStorage {
  import opened Common
  import opened Strings
  import opened Json

  type Bytes = seq<bv8>

  /** What the storage SDK lists for one blob. */
  datatype BlobItem = BlobItem(name: string, contentLength: int, lastModified: string)

  /**
   * One entry of the listing behind the `list_blobs` function: a map whose entries
   * may be missing (None); `lastModified` is its `toString()` rendering.
   */
  datatype BlobRecord = BlobRecord(
    name: Option<string>,
    size: Option<int>,
    contentType: Option<string>,
    lastModified: Option<string>,
    metadata: Option<map<string, string>>)

  /** One call out of the client. */
  datatype BlobCall =
    | StageFromUrl(url: string, tempCreated: bool, fetched: bool)
    | Put(name: string, ok: bool)
    | RemoveTemp
    | Get(name: string, target: string, ok: bool)
    | Remove(name: string, ok: bool)
    | BeginCopy(source: string, destination: string, ok: bool)
    | List(items: seq<BlobItem>)
    // the calls below are not part of this model; each records what it gave back
    | BatchUpload(paths: seq<string>, uploaded: Outcome<seq<string>>)
    | BatchDelete(names: seq<string>, deleted: Outcome<seq<string>>)
    | BatchDownload(names: seq<string>, dir: string, downloaded: Outcome<seq<string>>)
    | Copy(source: string, destination: string, copied: Outcome<bool>)
    | Snapshot(name: string, info: Outcome<Option<map<string, JsonValue>>>)
    | SasUrl(name: string, hours: int, read: bool, write: bool, delete: bool, sasUrl: Outcome<Option<string>>)
    | ListFiltered(prefix: Option<string>, regex: Option<string>, maxResults: int, records: Outcome<seq<BlobRecord>>)
    | UploadDir(path: string, pattern: Option<string>, recursive: bool, blobPrefix: Option<string>,
                summary: Outcome<Option<map<string, JsonValue>>>)
    | ListLocal(path: string, pattern: Option<string>, includeDirectories: bool,
                listing: Outcome<Option<map<string, seq<string>>>>)

  /** An upload source is fetched from the web iff it starts with one of the two schemes, in lower case. */
  predicate IsUrl(source: string)
  {
    StartsWith(source, "http://") || StartsWith(source, "https://")
  }

  predicate StartsWith(s: string, prefix: string)
  {
    prefix <= s
  }

  /** `new URL(url).getPath()`: after the scheme and the authority, up to the query or the fragment. */
  function UrlPath(url: string): string
    requires IsUrl(url)
  {
    FromFirst(BeforeFirst(BeforeFirst(UrlRest(url), '#'), '?'), '/')
  }

  /** What follows the scheme of a URL: the authority, the path, the query and the fragment. */
  function UrlRest(url: string): string
    requires IsUrl(url)
  {
    if StartsWith(url, "http://") then url[7..] else url[8..]
  }

  /** `java.io.File`'s normalisation of a path's end: trailing separators go, except for the root itself. */
  function NormalizePath(p: string): string
  {
    var t := StripTrailing(p, '/');
    if t == [] && p != [] then "/" else t
  }

  /** `new File(p).getName()`: the last component of the path. */
  function FileName(p: string): string
  {
    AfterLast(NormalizePath(p), '/')
  }

  /** The path that names an upload: the URL's path for a URL, the local path otherwise. */
  function SourcePath(source: string): string
  {
    if IsUrl(source) then UrlPath(source) else source
  }

  /** The name `uploadFile` gives the blob: the last component of the URL's path, or of the local path. */
  function BlobNameOf(source: string): string
  {
    FileName(SourcePath(source))
  }

  /** `new File(parent, child).getPath()` on a Unix file system. */
  function ResolvePath(parent: string, child: string): string
  {
    var p := NormalizePath(parent);
    var c := NormalizePath(child);
    if c == [] then p
    else if c[0] == '/' then (if p == "/" then c else p + c)
    else if p == "/" then p + c
    else p + "/" + c
  }

  /** Where `downloadBlob` writes: inside the destination when it is a directory, else the destination itself. */
  function DownloadTarget(destination: string, isDirectory: bool, blobName: string): string
  {
    if isDirectory then ResolvePath(destination, blobName) else destination
  }

  /** What `listBlobs()` reports for one blob. */
  function Describe(item: BlobItem): string
  {
    "Name: " + item.name + ", Size: " + IntToText(item.contentLength) + ", Last Modified: " + item.lastModified
  }

  /** The calls a successful `uploadFile` makes, in order. */
  function UploadTrace(source: string): seq<BlobCall>
  {
    if IsUrl(source) then [StageFromUrl(source, true, true), Put(BlobNameOf(source), true), RemoveTemp]
    else [Put(BlobNameOf(source), true)]
  }

  /**
   * The calls of an `uploadFile` that returns false: the staging or the reading of the
   * source failed, or the upload itself; the staging file is never removed then.
   */
  predicate FailedUploadTrace(source: string, calls: seq<BlobCall>)
  {
    if IsUrl(source) then
      calls == [StageFromUrl(source, false, false)]
      || calls == [StageFromUrl(source, true, false)]
      || calls == [StageFromUrl(source, true, true), Put(BlobNameOf(source), false)]
    else
      calls == [] || calls == [Put(BlobNameOf(source), false)]
  }

  /** A normalised path is empty only for the empty path, and ends in a separator only when it is the root. */
  lemma NormalizePathSpec(p: string)
    ensures NormalizePath(p) == "/" || NormalizePath(p) == [] || NormalizePath(p)[|NormalizePath(p)| - 1] != '/'
    ensures NormalizePath(p) == [] <==> p == []
  {
    StripTrailingSpec(p, '/');
  }

  /** A path with no separator at its end is already normalised. */
  lemma NormalizePathNoTrailing(p: string)
    requires p != [] && p[|p| - 1] != '/'
    ensures NormalizePath(p) == p
  {
  }

  /** A file name has no separator and is the end of the normalised path. */
  lemma FileNameSpec(p: string)
    ensures '/' !in FileName(p)
    ensures |FileName(p)| <= |NormalizePath(p)|
    ensures FileName(p) == NormalizePath(p)[|NormalizePath(p)| - |FileName(p)|..]
  {
    AfterLastSpec(NormalizePath(p), '/');
  }

  /** Whatever the source, the blob name `uploadFile` derives never holds a separator: uploads land at the container's top level. */
  lemma BlobNameIsFlat(source: string)
    ensures '/' !in BlobNameOf(source)
  {
    FileNameSpec(SourcePath(source));
  }

  /** The path of a URL is empty or starts with a separator. */
  lemma UrlPathSpec(url: string)
    requires IsUrl(url)
    ensures UrlPath(url) == [] || UrlPath(url)[0] == '/'
  {
    FromFirstSpec(BeforeFirst(BeforeFirst(UrlRest(url), '#'), '?'), '/');
  }

  /** The last component of `x + "/" + y` is `y` when `y` holds no separator. */
  lemma AfterLastOfJoin(x: string, y: string)
    requires '/' !in y
    ensures AfterLast(x + "/" + y, '/') == y
  {
    var s := x + "/" + y;
    LastIndexOfSpec(s, '/');
    assert s[|x|] == '/';
    forall j | |x| < j < |s|
      ensures s[j] != '/'
    {
      assert s[j] == y[j - |x| - 1];
    }
    assert LastIndexOf(s, '/') == |x|;
    assert s[|x| + 1..] == y;
  }

  /** A non-empty name without separators is its own last component. */
  lemma FileNameOfName(name: string)
    requires name != [] && '/' !in name
    ensures NormalizePath(name) == name && FileName(name) == name
  {
    assert name[|name| - 1] in name;
    AfterLastSpec(name, '/');
  }

  /**
   * Downloading into a directory: the target is the directory, a separator and the blob
   * name, so its last component is the blob name again.
   */
  lemma DirectoryTargetKeepsBlobName(dir: string, blobName: string)
    requires blobName != [] && '/' !in blobName
    ensures NormalizePath(dir) != "/" ==> DownloadTarget(dir, true, blobName) == NormalizePath(dir) + "/" + blobName
    ensures NormalizePath(dir) == "/" ==> DownloadTarget(dir, true, blobName) == "/" + blobName
    ensures FileName(DownloadTarget(dir, true, blobName)) == blobName
  {
    FileNameOfName(blobName);
    var p := NormalizePath(dir);
    var t := DownloadTarget(dir, true, blobName);
    assert blobName[|blobName| - 1] in blobName;
    assert t[|t| - 1] == blobName[|blobName| - 1];
    NormalizePathNoTrailing(t);
    if p == "/" {
      assert t == "" + "/" + blobName;
      AfterLastOfJoin("", blobName);
    } else {
      AfterLastOfJoin(p, blobName);
    }
  }

  /** Any other destination is used as given. */
  lemma PlainDestinationUnchanged(destination: string, blobName: string)
    ensures DownloadTarget(destination, false, blobName) == destination
  {
  }

  /** A local upload is named after the last component of its path. */
  lemma LocalBlobName(dir: string, name: string)
    requires name != [] && '/' !in name && !IsUrl(dir + "/" + name)
    ensures BlobNameOf(dir + "/" + name) == name
  {
    var s := dir + "/" + name;
    assert name[|name| - 1] in name;
    assert s[|s| - 1] == name[|name| - 1];
    NormalizePathNoTrailing(s);
    AfterLastOfJoin(dir, name);
  }

  /**
   * A URL upload is named after the last component of the URL's path, over either scheme:
   * a query or a fragment after the path plays no part.
   */
  lemma UrlBlobName(scheme: string, host: string, dir: string, name: string, tail: string)
    requires scheme == "http://" || scheme == "https://"
    requires '/' !in host && '?' !in host && '#' !in host
    requires '?' !in dir && '#' !in dir
    requires name != [] && '/' !in name && '?' !in name && '#' !in name
    requires tail == [] || tail[0] == '?' || tail[0] == '#'
    ensures BlobNameOf(scheme + host + dir + "/" + name + tail) == name
  {
    var url := scheme + host + dir + "/" + name + tail;
    var whole := dir + "/" + name;
    var beforeQuery := host + whole;
    assert url == scheme + (beforeQuery + tail);
    assert IsUrl(url) by {
      assert url[..|scheme|] == scheme;
    }
    assert UrlRest(url) == beforeQuery + tail by {
      if scheme == "http://" {
        assert url[..7] == "http://";
      } else {
        assert url[..8] == "https://";
        assert url[4] == 's';
      }
    }
    // The fragment cut stops at the start of the tail at the latest, and the query cut there.
    BeforeFirstAppend(beforeQuery, tail, '#');
    var t := BeforeFirst(tail, '#');
    assert t == [] || t[0] == '?';
    BeforeFirstAppend(beforeQuery, t, '?');
    assert BeforeFirst(t, '?') == [];
    assert BeforeFirst(BeforeFirst(UrlRest(url), '#'), '?') == beforeQuery;
    FromFirstAfter(host, whole, '/');
    var p := UrlPath(url);
    assert p == FromFirst(whole, '/');
    // The first separator of dir + "/" + name is at or before the one that precedes the name.
    FromFirstSpec(whole, '/');
    assert whole[|dir|] == '/';
    assert |p| > |name|;
    assert p[|p| - |name|..] == name;
    assert p[|p| - |name| - 1] == whole[|dir|];
    assert p[|p| - 1] == name[|name| - 1] by { assert name[|name| - 1] in name; }
    NormalizePathNoTrailing(p);
    AfterLastSuffix(p, name);
  }

  /** Cutting before the first `c` of `x + y`, when `x` holds no `c`, cuts inside `y`. */
  lemma {:induction false} BeforeFirstAppend(x: string, y: string, c: char)
    requires c !in x
    ensures BeforeFirst(x + y, c) == x + BeforeFirst(y, c)
    decreases |x|
  {
    if x == [] {
      assert x + y == y;
    } else {
      assert (x + y)[0] == x[0] && x[0] in x;
      assert (x + y)[1..] == x[1..] + y;
      assert c !in x[1..];
      BeforeFirstAppend(x[1..], y, c);
      calc {
        BeforeFirst(x + y, c);
        [x[0]] + BeforeFirst((x + y)[1..], c);
        [x[0]] + (x[1..] + BeforeFirst(y, c));
        { assert x == [x[0]] + x[1..]; }
        x + BeforeFirst(y, c);
      }
    }
  }

  /** The suffix from the first `c` of `x + y`, when `x` holds no `c`, is the suffix from the first `c` of `y`. */
  lemma {:induction false} FromFirstAfter(x: string, y: string, c: char)
    requires c !in x
    ensures FromFirst(x + y, c) == FromFirst(y, c)
    decreases |x|
  {
    if x == [] {
      assert x + y == y;
    } else {
      assert (x + y)[0] == x[0] && x[0] in x;
      assert (x + y)[1..] == x[1..] + y;
      assert c !in x[1..];
      FromFirstAfter(x[1..], y, c);
      assert FromFirst(x + y, c) == FromFirst((x + y)[1..], c);
    }
  }

  /** The last component of a path that ends in a separator and a name is that name. */
  lemma AfterLastSuffix(p: string, name: string)
    requires '/' !in name && |p| > |name| && p[|p| - |name| - 1] == '/' && p[|p| - |name|..] == name
    ensures AfterLast(p, '/') == name
  {
    var x := p[..|p| - |name| - 1];
    assert p == x + "/" + name;
    AfterLastOfJoin(x, name);
  }

  /** The SDK client of one container, and the local disk the client reads and writes. */
  class BlobClient {
    /** The container: blob name to contents. */
    var blobs: map<string, Bytes>
    /** Regular files of the local disk, by path. */
    var localFiles: map<string, Bytes>
    /** Directories of the local disk, by normalised path. */
    var localDirs: set<string>
    /** Every call made outside the client, in order. */
    ghost var log: seq<BlobCall>

    constructor (container: map<string, Bytes>, files: map<string, Bytes>, dirs: set<string>)
      ensures blobs == container && localFiles == files && localDirs == dirs && log == []
    {
      blobs, localFiles, localDirs := container, files, dirs;
      log := [];
    }

    /** `new File(p).isDirectory()`. */
    predicate IsDirectory(p: string)
      reads this
    {
      NormalizePath(p) in localDirs
    }

    // ---- The storage SDK, the network and the disk: outcomes are not determined by the model ----

    /** `File.createTempFile` and the copy of the URL's stream into it; either step may throw. */
    method StageUrl(url: string) returns (tempCreated: bool, content: Option<Bytes>)
      modifies this`log
      ensures content.Some? ==> tempCreated
      ensures log == old(log) + [StageFromUrl(url, tempCreated, content.Some?)]
    {
      tempCreated := *;
      content := *;
      if !tempCreated {
        content := None;
      }
      log := log + [StageFromUrl(url, tempCreated, content.Some?)];
    }

    /** `Files.newInputStream` on a local path: the file's contents, unless opening it throws. */
    method ReadLocalFile(path: string) returns (content: Option<Bytes>)
      ensures content.Some? ==> path in localFiles && content.value == localFiles[path]
    {
      content := None;
      if path in localFiles {
        if * {
          content := Some(localFiles[path]);
        }
      }
    }

    /** `BlockBlobClient.upload(stream, length, true)`: overwrites the blob, unless it throws. */
    method PutBlob(name: string, content: Bytes) returns (ok: bool)
      modifies this`blobs, this`log
      ensures blobs == if ok then old(blobs)[name := content] else old(blobs)
      ensures log == old(log) + [Put(name, ok)]
    {
      ok := *;
      if ok {
        blobs := blobs[name := content];
      }
      log := log + [Put(name, ok)];
    }

    /** `file.delete()` on the staging file; it reports failure by its result, which the source ignores. */
    method RemoveTempFile()
      modifies this`log
      ensures log == old(log) + [RemoveTemp]
    {
      log := log + [RemoveTemp];
    }

    /** `BlobClient.delete()`: removes the blob; throws when it does not exist, or on a transport error. */
    method DeleteFromContainer(name: string) returns (ok: bool)
      modifies this`blobs, this`log
      ensures ok ==> name in old(blobs)
      ensures blobs == if ok then old(blobs) - {name} else old(blobs)
      ensures log == old(log) + [Remove(name, ok)]
    {
      ok := *;
      if ok && name in blobs {
        blobs := blobs - {name};
      } else {
        ok := false;
      }
      log := log + [Remove(name, ok)];
    }

    /**
     * `BlockBlobClient.beginCopy(sourceUrl, null)`: starts a server-side copy and returns
     * at once; when it returns the copy may have completed or may still be pending.
     */
    method StartCopy(source: string, destination: string) returns (ok: bool)
      modifies this`blobs, this`log
      ensures ok ==> source in old(blobs)
      ensures ok ==> blobs == old(blobs) || blobs == old(blobs)[destination := old(blobs)[source]]
      ensures !ok ==> blobs == old(blobs)
      ensures log == old(log) + [BeginCopy(source, destination, ok)]
    {
      ok := *;
      if ok && source in blobs {
        if * {
          blobs := blobs[destination := blobs[source]];
        }
      } else {
        ok := false;
      }
      log := log + [BeginCopy(source, destination, ok)];
    }

    /** `BlockBlobClient.downloadToFile(path, true)`: overwrites the local file, unless it throws. */
    method DownloadToFile(name: string, target: string) returns (ok: bool)
      modifies this`localFiles, this`log
      ensures ok ==> name in blobs && localFiles == old(localFiles)[target := blobs[name]]
      ensures !ok ==> localFiles == old(localFiles)
      ensures log == old(log) + [Get(name, target, ok)]
    {
      ok := *;
      if ok && name in blobs {
        localFiles := localFiles[target := blobs[name]];
      } else {
        ok := false;
      }
      log := log + [Get(name, target, ok)];
    }

    /** `BlobContainerClient.listBlobs()`: the items the service lists. */
    method ListContainer() returns (items: seq<BlobItem>)
      modifies this`log
      ensures log == old(log) + [List(items)]
    {
      items := *;
      log := log + [List(items)];
    }

    // ---- The client's own operations ----

    /** `listBlobs()`: one description per listed blob, in listing order. */
    method ListBlobs() returns (blobDetails: seq<string>)
      modifies this`log
      ensures |log| == |old(log)| + 1 && log[..|old(log)|] == old(log) && log[|old(log)|].List?
      ensures |blobDetails| == |log[|old(log)|].items|
      ensures forall i :: 0 <= i < |blobDetails| ==> blobDetails[i] == Describe(log[|old(log)|].items[i])
    {
      var items := ListContainer();
      blobDetails := [];
      for i := 0 to |items|
        invariant |blobDetails| == i
        invariant forall j :: 0 <= j < i ==> blobDetails[j] == Describe(items[j])
      {
        blobDetails := blobDetails + [Describe(items[i])];
      }
    }

    /**
     * `uploadFile(filePath)`: stages a URL source in a temporary file or reads the local
     * file, uploads it under its derived name, and removes the staging file. Any
     * exception gives false, and then the staging file is left behind.
     */
    method UploadFile(filePath: string) returns (ok: bool)
      modifies this`blobs, this`log
      ensures |log| >= |old(log)| && log[..|old(log)|] == old(log)
      ensures ok ==> log == old(log) + UploadTrace(filePath)
      ensures !ok ==> FailedUploadTrace(filePath, log[|old(log)|..])
      ensures ok ==> BlobNameOf(filePath) in blobs && blobs == old(blobs)[BlobNameOf(filePath) := blobs[BlobNameOf(filePath)]]
      ensures ok && !IsUrl(filePath) ==> filePath in localFiles && blobs == old(blobs)[BlobNameOf(filePath) := localFiles[filePath]]
      ensures !ok ==> blobs == old(blobs)
    {
      ghost var log0 := log;
      var name := BlobNameOf(filePath);
      if IsUrl(filePath) {
        var created, content := StageUrl(filePath);
        if content.None? {
          assert log[|log0|..] == [StageFromUrl(filePath, created, false)];
          return false;
        }
        ok := PutBlob(name, content.value);
        if ok {
          RemoveTempFile();
          assert log == log0 + [StageFromUrl(filePath, true, true), Put(name, true), RemoveTemp];
        } else {
          assert log[|log0|..] == [StageFromUrl(filePath, true, true), Put(name, false)];
        }
      } else {
        var content := ReadLocalFile(filePath);
        if content.None? {
          assert log[|log0|..] == [];
          return false;
        }
        ok := PutBlob(name, content.value);
        assert log[|log0|..] == [Put(name, ok)];
      }
    }

    /**
     * `downloadBlob(blobName, destinationPath)`: writes the blob to the resolved target.
     * It returns nothing and swallows every exception, so a caller cannot observe failure.
     */
    method DownloadBlob(blobName: string, destinationPath: string)
      modifies this`localFiles, this`log
      ensures var target := DownloadTarget(destinationPath, old(IsDirectory(destinationPath)), blobName);
        log == old(log) + [Get(blobName, target, true)] || log == old(log) + [Get(blobName, target, false)]
      ensures var target := DownloadTarget(destinationPath, old(IsDirectory(destinationPath)), blobName);
        localFiles == old(localFiles) || (blobName in blobs && localFiles == old(localFiles)[target := blobs[blobName]])
      ensures var target := DownloadTarget(destinationPath, old(IsDirectory(destinationPath)), blobName);
        || (log == old(log) + [Get(blobName, target, true)]
            && blobName in blobs && localFiles == old(localFiles)[target := blobs[blobName]])
        || (log == old(log) + [Get(blobName, target, false)] && localFiles == old(localFiles))
    {
      var target := DownloadTarget(destinationPath, IsDirectory(destinationPath), blobName);
      var _ := DownloadToFile(blobName, target);
    }

    /** `deleteBlob(blobName)`: true iff the delete did not throw; a blob that does not exist is a failure. */
    method DeleteBlob(blobName: string) returns (ok: bool)
      modifies this`blobs, this`log
      ensures blobName !in old(blobs) ==> !ok
      ensures blobs == if ok then old(blobs) - {blobName} else old(blobs)
      ensures log == old(log) + [Remove(blobName, ok)]
    {
      ok := DeleteFromContainer(blobName);
    }

    /**
     * `renameBlob(source, destination)`: starts a copy and, once `beginCopy` has returned,
     * deletes the source without waiting for the copy to finish. False on any exception.
     */
    method RenameBlob(sourceBlobName: string, destinationBlobName: string) returns (ok: bool)
      modifies this`blobs, this`log
      ensures log == old(log) + [BeginCopy(sourceBlobName, destinationBlobName, false)]
           || log == old(log) + [BeginCopy(sourceBlobName, destinationBlobName, true), Remove(sourceBlobName, ok)]
      ensures log[|old(log)|] == BeginCopy(sourceBlobName, destinationBlobName, false) ==> !ok && blobs == old(blobs)
      ensures ok ==> sourceBlobName in old(blobs) && sourceBlobName !in blobs
      ensures ok ==> (blobs == old(blobs) - {sourceBlobName}
                      || (sourceBlobName != destinationBlobName
                          && blobs == (old(blobs) - {sourceBlobName})[destinationBlobName := old(blobs)[sourceBlobName]]))
      ensures log[|old(log)|] == BeginCopy(sourceBlobName, destinationBlobName, true) && !ok ==>
        && sourceBlobName in old(blobs)
        && (blobs == old(blobs) || blobs == old(blobs)[destinationBlobName := old(blobs)[sourceBlobName]])
    {
      var copied := StartCopy(sourceBlobName, destinationBlobName);
      if !copied {
        return false;
      }
      ok := DeleteFromContainer(sourceBlobName);
    }

    // ---- Operations the handlers call whose bodies are not part of this model ----

    /** `batchUploadFiles(filePaths)`: the names of the blobs it uploaded, or an exception. */
    method BatchUploadFiles(filePaths: seq<string>) returns (r: Outcome<seq<string>>)
      modifies this
      ensures log == old(log) + [BatchUpload(filePaths, r)]
    {
      blobs := *;
      r := *;
      log := log + [BatchUpload(filePaths, r)];
    }

    /** `batchDeleteBlobs(blobNames)`: the names it deleted, or an exception. */
    method BatchDeleteBlobs(blobNames: seq<string>) returns (r: Outcome<seq<string>>)
      modifies this
      ensures log == old(log) + [BatchDelete(blobNames, r)]
    {
      blobs := *;
      r := *;
      log := log + [BatchDelete(blobNames, r)];
    }

    /** `batchDownloadBlobs(blobNames, destinationDir)`: the names it downloaded, or an exception. */
    method BatchDownloadBlobs(blobNames: seq<string>, destinationDir: string) returns (r: Outcome<seq<string>>)
      modifies this
      ensures log == old(log) + [BatchDownload(blobNames, destinationDir, r)]
    {
      localFiles := *;
      r := *;
      log := log + [BatchDownload(blobNames, destinationDir, r)];
    }

    /** `copyBlob(source, destination)`: whether the copy succeeded, or an exception. */
    method CopyBlob(source: string, destination: string) returns (r: Outcome<bool>)
      modifies this
      ensures log == old(log) + [Copy(source, destination, r)]
    {
      blobs := *;
      r := *;
      log := log + [Copy(source, destination, r)];
    }

    /** `createSnapshot(blobName)`: a description of the snapshot, null, or an exception. */
    method CreateSnapshot(blobName: string) returns (r: Outcome<Option<map<string, JsonValue>>>)
      modifies this
      ensures log == old(log) + [Snapshot(blobName, r)]
    {
      r := *;
      log := log + [Snapshot(blobName, r)];
    }

    /** `generateSasUrl(...)`: the URL, null, or an exception. */
    method GenerateSasUrl(blobName: string, durationHours: int, read: bool, write: bool, delete: bool)
      returns (r: Outcome<Option<string>>)
      modifies this
      ensures log == old(log) + [SasUrl(blobName, durationHours, read, write, delete, r)]
    {
      r := *;
      log := log + [SasUrl(blobName, durationHours, read, write, delete, r)];
    }

    /** `listBlobs(prefix, regex, maxResults)`: the matching blobs, or an exception. */
    method ListBlobsMatching(prefix: Option<string>, regex: Option<string>, maxResults: int)
      returns (r: Outcome<seq<BlobRecord>>)
      modifies this
      ensures log == old(log) + [ListFiltered(prefix, regex, maxResults, r)]
    {
      r := *;
      log := log + [ListFiltered(prefix, regex, maxResults, r)];
    }

    /** `uploadDirectory(...)`: a result map (possibly null), or an exception. */
    method UploadDirectory(path: string, pattern: Option<string>, recursive: bool, blobPrefix: Option<string>)
      returns (r: Outcome<Option<map<string, JsonValue>>>)
      modifies this
      ensures log == old(log) + [UploadDir(path, pattern, recursive, blobPrefix, r)]
    {
      blobs := *;
      r := *;
      log := log + [UploadDir(path, pattern, recursive, blobPrefix, r)];
    }

    /** `listLocalFilesAndDirs(...)`: lists keyed "files" and "directories" (possibly absent, or a null map), or an exception. */
    method ListLocalFilesAndDirs(path: string, pattern: Option<string>, includeDirectories: bool)
      returns (r: Outcome<Option<map<string, seq<string>>>>)
      modifies this
      ensures log == old(log) + [ListLocal(path, pattern, includeDirectories, r)]
    {
      r := *;
      log := log + [ListLocal(path, pattern, includeDirectories, r)];
    }
  }
}
