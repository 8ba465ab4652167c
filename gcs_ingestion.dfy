/**
 * The name building of the ingestion step: the object name a local file gets
 * in the bucket, the `gs://` URI returned for it, the dotted BigQuery
 * dataset and table references, and the directory upload that collects one
 * URI per regular file.
 */
module GcsIngestion {
  import opened Wrappers
  import opened Text

  // ---------------------------------------------------------------------
  // Object names
  // ---------------------------------------------------------------------

  /** `f"{prefix}/{rel}".lstrip('/')`. */
  function BlobName(prefix: string, rel: string): (blob: string)
    ensures blob == [] || blob[0] != '/'
  {
    LStrip(prefix + "/" + rel, '/')
  }

  /** A string made only of slashes, the empty string included. */
  predicate AllSlashes(s: string) {
    forall i :: 0 <= i < |s| ==> s[i] == '/'
  }

  /** Stripping leading `c` from a concatenation only reaches into `b` once `a` is used up. */
  lemma {:induction false} LStripAppend(a: string, b: string, c: char)
    ensures LStrip(a, c) != [] ==> LStrip(a + b, c) == LStrip(a, c) + b
    ensures LStrip(a, c) == [] ==> LStrip(a + b, c) == LStrip(b, c)
    decreases |a|
  {
    if a != [] && a[0] == c {
      assert (a + b)[1..] == a[1..] + b;
      LStripAppend(a[1..], b, c);
    } else if a == [] {
      assert a + b == b;
    }
  }

  lemma {:induction false} StripsToEmpty(s: string)
    ensures LStrip(s, '/') == [] <==> AllSlashes(s)
    decreases |s|
  {
    if s != [] && s[0] == '/' {
      StripsToEmpty(s[1..]);
      assert AllSlashes(s) <==> AllSlashes(s[1..]) by {
        forall i | 0 < i < |s| ensures s[i] == s[1..][i - 1] { }
      }
    }
  }

  /** A leading slash is stripped like the slashes after it. */
  lemma StripSlash(rel: string)
    ensures LStrip(['/'] + rel, '/') == LStrip(rel, '/')
  {
    assert (['/'] + rel)[1..] == rel;
  }

  /**
   * Only leading slashes go: a prefix with some other character keeps every
   * slash after its first such character, the separator included.
   */
  lemma BlobNameKeepsSlashes(prefix: string, rel: string)
    requires !AllSlashes(prefix)
    ensures BlobName(prefix, rel) == LStrip(prefix, '/') + "/" + rel
  {
    StripsToEmpty(prefix);
    var tail := ['/'] + rel;
    assert prefix + "/" + rel == prefix + tail;
    LStripAppend(prefix, tail, '/');
    var kept := LStrip(prefix, '/');
    assert kept + tail == kept + "/" + rel;
  }

  /** A prefix of slashes only, the default empty one among them, disappears together with the separator. */
  lemma BlobNameDropsPrefix(prefix: string, rel: string)
    requires AllSlashes(prefix)
    ensures BlobName(prefix, rel) == LStrip(rel, '/')
  {
    StripsToEmpty(prefix);
    assert prefix + "/" + rel == prefix + (['/'] + rel);
    LStripAppend(prefix, ['/'] + rel, '/');
    StripSlash(rel);
  }

  /** With the default empty prefix the object name is the relative path without leading slashes. */
  lemma DefaultPrefixBlobName(rel: string)
    ensures BlobName("", rel) == LStrip(rel, '/')
  {
    BlobNameDropsPrefix("", rel);
  }

  /** Interior slashes stay: the prefix "x/" yields "x//" followed by the relative path. */
  lemma TrailingSlashPrefix(rel: string)
    ensures BlobName("x/", rel) == "x//" + rel
  {
    var prefix := ['x', '/'];
    assert prefix[0] != '/';
    BlobNameKeepsSlashes(prefix, rel);
    assert LStrip(prefix, '/') == prefix;
  }

  // ---------------------------------------------------------------------
  // URIs and BigQuery references
  // ---------------------------------------------------------------------

  /** `f"gs://{bucket}/{blob}"`. */
  function GcsUri(bucket: string, blob: string): (uri: string)
    ensures |uri| == 5 + |bucket| + 1 + |blob|
    ensures uri[..5] == "gs://" && uri[5..5 + |bucket|] == bucket
    ensures uri[5 + |bucket|] == '/' && uri[6 + |bucket|..] == blob
  {
    var uri := "gs://" + bucket + "/" + blob;
    assert uri[..5] == "gs://" && uri[5..5 + |bucket|] == bucket && uri[6 + |bucket|..] == blob;
    uri
  }

  /** Reads a URI back into its bucket and object name: the bucket ends at the first slash. */
  function ParseGcsUri(uri: string): (r: Option<(string, string)>)
    ensures r.Some? ==> GcsUri(r.value.0, r.value.1) == uri
  {
    if |uri| < 5 || uri[..5] != "gs://" then None
    else
      var rest := uri[5..];
      var k := FirstIndexOf(rest, '/');
      if k == |rest| then None
      else
        assert uri == uri[..5] + rest;
        assert rest == rest[..k] + "/" + rest[k + 1..];
        Some((rest[..k], rest[k + 1..]))
  }

  /** A bucket name without a slash is recovered from the URI together with the object name. */
  lemma GcsUriRoundTrip(bucket: string, blob: string)
    requires '/' !in bucket
    ensures ParseGcsUri(GcsUri(bucket, blob)) == Some((bucket, blob))
  {
    var uri := GcsUri(bucket, blob);
    var rest := bucket + "/" + blob;
    assert uri[..5] == "gs://";
    assert uri[5..] == rest;
    assert rest == bucket + ['/'] + blob;
    SplitJoined(bucket, blob, '/');
    assert FirstIndexOf(rest, '/') == |bucket| by {
      assert rest[|bucket|] == '/';
      forall i | 0 <= i < |bucket| ensures rest[i] != '/' {
        assert rest[i] == bucket[i];
      }
      FirstIndexOfIs(rest, '/', |bucket|);
    }
    assert rest[..|bucket|] == bucket;
    assert rest[|bucket| + 1..] == blob;
  }

  lemma {:induction false} FirstIndexOfIs(s: string, c: char, k: nat)
    requires k < |s| && s[k] == c
    requires forall i :: 0 <= i < k ==> s[i] != c
    ensures FirstIndexOf(s, c) == k
    decreases k
  {
    if k > 0 {
      FirstIndexOfIs(s[1..], c, k - 1);
    }
  }

  /** `f"{project_id}.{dataset_id}"`. */
  function DatasetRef(projectId: string, datasetId: string): (ref: string)
    ensures |ref| == |projectId| + 1 + |datasetId|
    ensures ref[..|projectId|] == projectId && ref[|projectId|] == '.'
    ensures ref[|projectId| + 1..] == datasetId
  {
    var ref := projectId + "." + datasetId;
    assert ref[..|projectId|] == projectId && ref[|projectId| + 1..] == datasetId;
    ref
  }

  /** `f"{project_id}.{dataset_id}.{table_id}"`. */
  function TableRef(projectId: string, datasetId: string, tableId: string): (ref: string)
    ensures |ref| == |projectId| + 1 + |datasetId| + 1 + |tableId|
    ensures ref[..|projectId|] == projectId && ref[|projectId|] == '.'
    ensures ref[|projectId| + 1..|projectId| + 1 + |datasetId|] == datasetId
    ensures ref[|projectId| + 1 + |datasetId|] == '.' && ref[|projectId| + |datasetId| + 2..] == tableId
  {
    var ref := projectId + "." + datasetId + "." + tableId;
    assert ref[..|projectId|] == projectId;
    assert ref[|projectId| + 1..|projectId| + 1 + |datasetId|] == datasetId;
    assert ref[|projectId| + |datasetId| + 2..] == tableId;
    ref
  }

  /** A table reference extends the reference of its dataset. */
  lemma TableInDataset(projectId: string, datasetId: string, tableId: string)
    ensures TableRef(projectId, datasetId, tableId) == DatasetRef(projectId, datasetId) + "." + tableId
  {
  }

  /** With dot-free parts, splitting a table reference at the dots gives back project, dataset and table. */
  lemma TableRefRoundTrip(projectId: string, datasetId: string, tableId: string)
    requires '.' !in projectId && '.' !in datasetId && '.' !in tableId
    ensures Split(TableRef(projectId, datasetId, tableId), '.') == [projectId, datasetId, tableId]
  {
    assert TableRef(projectId, datasetId, tableId) == projectId + ['.'] + (datasetId + ['.'] + tableId);
    SplitJoined(projectId, datasetId + ['.'] + tableId, '.');
    SplitJoined(datasetId, tableId, '.');
    SplitPlain(tableId, '.');
  }

  /** With dot-free parts, splitting a dataset reference at the dot gives back project and dataset. */
  lemma DatasetRefRoundTrip(projectId: string, datasetId: string)
    requires '.' !in projectId && '.' !in datasetId
    ensures Split(DatasetRef(projectId, datasetId), '.') == [projectId, datasetId]
  {
    assert DatasetRef(projectId, datasetId) == projectId + ['.'] + datasetId;
    SplitJoined(projectId, datasetId, '.');
    SplitPlain(datasetId, '.');
  }

  // ---------------------------------------------------------------------
  // Directory upload
  // ---------------------------------------------------------------------

  /** One path met by the recursive walk: its path relative to the walked directory, and whether it is a file. */
  datatype PathEntry = PathEntry(relativePath: string, isFile: bool)

  /** The regular files among the entries, in walk order. */
  function Files(entries: seq<PathEntry>): (files: seq<PathEntry>)
    ensures |files| <= |entries|
    ensures forall k :: 0 <= k < |files| ==> files[k].isFile && files[k] in entries
  {
    if entries == [] then []
    else
      var last := entries[|entries| - 1];
      Files(entries[..|entries| - 1]) + (if last.isFile then [last] else [])
  }

  /** Walking one list after another selects the files of the first, then those of the second. */
  lemma {:induction false} FilesAppend(a: seq<PathEntry>, b: seq<PathEntry>)
    ensures Files(a + b) == Files(a) + Files(b)
    decreases |b|
  {
    if b == [] {
      assert a + b == a;
    } else {
      var init, last := b[..|b| - 1], b[|b| - 1];
      var tail := if last.isFile then [last] else [];
      FilesAppend(a, init);
      assert (a + b)[..|a + b| - 1] == a + init && (a + b)[|a + b| - 1] == last;
      assert Files(a + b) == Files(a + init) + tail;
      assert Files(b) == Files(init) + tail;
      assert Files(a + b) == Files(a) + (Files(init) + tail);
    }
  }

  /** A single entry is selected exactly when it is a regular file. */
  lemma FilesSingle(e: PathEntry)
    ensures Files([e]) == if e.isFile then [e] else []
  {
    assert [e][..0] == [];
  }

  /** Every regular file is among the selected ones, so only directories are skipped. */
  lemma {:induction false} FilesComplete(entries: seq<PathEntry>)
    ensures forall e :: e in entries && e.isFile ==> e in Files(entries)
    decreases |entries|
  {
    if entries != [] {
      var init := entries[..|entries| - 1];
      FilesComplete(init);
      assert entries == init + [entries[|entries| - 1]];
    }
  }

  /** How many entries are regular files. */
  function FileCount(entries: seq<PathEntry>): nat {
    if entries == [] then 0
    else FileCount(entries[1..]) + (if entries[0].isFile then 1 else 0)
  }

  lemma {:induction false} FileCountAppend(a: seq<PathEntry>, b: seq<PathEntry>)
    ensures FileCount(a + b) == FileCount(a) + FileCount(b)
    decreases |a|
  {
    if a != [] {
      assert (a + b)[1..] == a[1..] + b;
      FileCountAppend(a[1..], b);
    } else {
      assert a + b == b;
    }
  }

  /** One URI per regular file. */
  lemma {:induction false} FilesCounted(entries: seq<PathEntry>)
    ensures |Files(entries)| == FileCount(entries)
    decreases |entries|
  {
    if entries != [] {
      var init := entries[..|entries| - 1];
      FilesCounted(init);
      FileCountAppend(init, [entries[|entries| - 1]]);
      assert entries == init + [entries[|entries| - 1]];
    }
  }

  /** The URIs the directory upload returns: the `k`-th is that of the `k`-th regular file. */
  function DirectoryUris(bucket: string, prefix: string, entries: seq<PathEntry>): (uris: seq<string>)
    ensures |uris| == |Files(entries)|
    ensures forall k :: 0 <= k < |uris| ==>
              uris[k] == GcsUri(bucket, BlobName(prefix, Files(entries)[k].relativePath))
  {
    var files := Files(entries);
    seq(|files|, k requires 0 <= k < |files| => GcsUri(bucket, BlobName(prefix, files[k].relativePath)))
  }

  class GcpDataIngestion {
    const projectId: string
    const bucketName: string

    constructor(projectId: string, bucketName: string)
      ensures this.projectId == projectId && this.bucketName == bucketName
    {
      this.projectId := projectId;
      this.bucketName := bucketName;
    }

    /**
     * Uploads the local file under `destinationBlobName` and returns its URI,
     * from which the bucket and the object name can be read back.
     */
    method UploadFile(sourceFilePath: string, destinationBlobName: string) returns (uri: string)
      ensures uri == GcsUri(bucketName, destinationBlobName)
      ensures '/' !in bucketName ==> ParseGcsUri(uri) == Some((bucketName, destinationBlobName))
    {
      uri := "gs://" + bucketName + "/" + destinationBlobName;
      if '/' !in bucketName {
        GcsUriRoundTrip(bucketName, destinationBlobName);
      }
    }

    /**
     * Walks the entries in order, uploading each regular file under its
     * prefixed relative path; the result has one URI per file, in walk order.
     */
    method UploadDirectory(sourceDir: string, entries: seq<PathEntry>, destinationPrefix: string := "")
      returns (uploadedFiles: seq<string>)
      ensures uploadedFiles == DirectoryUris(bucketName, destinationPrefix, entries)
      ensures |uploadedFiles| == FileCount(entries)
    {
      uploadedFiles := [];
      var i := 0;
      while i < |entries|
        invariant 0 <= i <= |entries|
        invariant uploadedFiles == DirectoryUris(bucketName, destinationPrefix, entries[..i])
      {
        var entry := entries[i];
        assert entries[..i + 1][..i] == entries[..i];
        if entry.isFile {
          var destinationBlob := BlobName(destinationPrefix, entry.relativePath);
          var gcsUri := UploadFile(sourceDir + "/" + entry.relativePath, destinationBlob);
          uploadedFiles := uploadedFiles + [gcsUri];
        }
        i := i + 1;
      }
      assert entries[..i] == entries;
      FilesCounted(entries);
    }
  }
}
