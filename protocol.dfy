/**
  The transfer protocol shared by every sender and receiver: the frame kinds,
  the chunking of a file's bytes, the two text markers, and the effect a
  transfer is meant to have on the receiving side's files.
 */
module Protocol {
  import opened Chunks
  import opened KotlinStrings
  import opened Files

  /** A websocket frame; `Other` is any control frame (close, ping, pong). */
  datatype Frame = Binary(data: seq<Byte>) | Text(text: string) | Other

  /** One file to send: its path relative to the sync root and its bytes. */
  datatype FileEntry = FileEntry(rel: string, bytes: seq<Byte>)

  /** The largest payload of one binary frame: 16 KiB. */
  const ChunkSize: nat := 16 * 1024

  const PathPrefix: string := "FilePath:"
  const EmptySuffix: string := ":empty"

  /** The frame that ends a non-empty file. */
  function PathMarker(rel: string): string
  {
    PathPrefix + rel
  }

  /** The only frame of a zero-length file. */
  function EmptyMarker(rel: string): string
  {
    PathPrefix + rel + EmptySuffix
  }

  /** Kotlin's `x.coerceAtMost(maximum)`. */
  function CoerceAtMost(x: int, maximum: int): int
  {
    if x > maximum then maximum else x
  }

  /** Kotlin's `bytes.chunked(ChunkSize)`: consecutive slices of at most `ChunkSize` bytes. */
  function Chunked(bytes: seq<Byte>): seq<seq<Byte>>
    decreases |bytes|
  {
    if bytes == [] then []
    else
      var n := CoerceAtMost(ChunkSize, |bytes|);
      [bytes[..n]] + Chunked(bytes[n..])
  }

  /** One binary frame per chunk, in order. */
  function Binaries(chunks: seq<seq<Byte>>): seq<Frame>
  {
    if chunks == [] then [] else [Binary(chunks[0])] + Binaries(chunks[1..])
  }

  /** The frames a sender emits for one file. */
  function FileFrames(e: FileEntry): seq<Frame>
  {
    if |e.bytes| == 0 then [Text(EmptyMarker(e.rel))]
    else Binaries(Chunked(e.bytes)) + [Text(PathMarker(e.rel))]
  }

  /** The frames a sender emits for a list of files, file after file. */
  function Encode(entries: seq<FileEntry>): seq<Frame>
  {
    if entries == [] then [] else FileFrames(entries[0]) + Encode(entries[1..])
  }

  /** The frames of two file lists in turn are the frames of their concatenation. */
  lemma {:induction false} EncodeAppend(a: seq<FileEntry>, b: seq<FileEntry>)
    ensures Encode(a + b) == Encode(a) + Encode(b)
  {
    if a == [] {
      assert a + b == b;
    } else {
      assert (a + b)[0] == a[0];
      assert (a + b)[1..] == a[1..] + b;
      EncodeAppend(a[1..], b);
    }
  }

  /** N bytes give ceil(N / 16384) chunks. */
  lemma {:induction false} ChunkedCount(bytes: seq<Byte>)
    ensures |Chunked(bytes)| == (|bytes| + ChunkSize - 1) / ChunkSize
    decreases |bytes|
  {
    if bytes != [] {
      var n := CoerceAtMost(ChunkSize, |bytes|);
      ChunkedCount(bytes[n..]);
      if |bytes| > ChunkSize {
        assert (|bytes| + ChunkSize - 1) / ChunkSize == 1 + (|bytes| - ChunkSize + ChunkSize - 1) / ChunkSize;
      }
    }
  }

  /** Every chunk holds 1 to 16384 bytes, and every one but the last exactly 16384. */
  lemma {:induction false} ChunkedSizes(bytes: seq<Byte>)
    ensures forall i :: 0 <= i < |Chunked(bytes)| ==> 0 < |Chunked(bytes)[i]| <= ChunkSize
    ensures forall i :: 0 <= i < |Chunked(bytes)| - 1 ==> |Chunked(bytes)[i]| == ChunkSize
    decreases |bytes|
  {
    if bytes != [] {
      var n := CoerceAtMost(ChunkSize, |bytes|);
      var rest := Chunked(bytes[n..]);
      ChunkedSizes(bytes[n..]);
      assert Chunked(bytes) == [bytes[..n]] + rest;
      if rest != [] {
        assert |bytes[n..]| > 0;
        assert n == ChunkSize;
      }
    }
  }

  /** The chunks together are the bytes, in order. */
  lemma {:induction false} ChunkedFlatten(bytes: seq<Byte>)
    ensures Flatten(Chunked(bytes)) == bytes
    decreases |bytes|
  {
    if bytes != [] {
      var n := CoerceAtMost(ChunkSize, |bytes|);
      var rest := Chunked(bytes[n..]);
      ChunkedFlatten(bytes[n..]);
      assert Chunked(bytes) == [bytes[..n]] + rest;
      assert Flatten(Chunked(bytes)) == bytes[..n] + Flatten(rest);
      assert bytes[..n] + bytes[n..] == bytes;
    }
  }

  /**
    N bytes give ceil(N / 16384) chunks; each holds 1 to 16384 bytes, every one
    but the last exactly 16384, and together they are the bytes in order.
   */
  lemma ChunkedSpec(bytes: seq<Byte>)
    ensures |Chunked(bytes)| == (|bytes| + ChunkSize - 1) / ChunkSize
    ensures forall i :: 0 <= i < |Chunked(bytes)| ==> 0 < |Chunked(bytes)[i]| <= ChunkSize
    ensures forall i :: 0 <= i < |Chunked(bytes)| - 1 ==> |Chunked(bytes)[i]| == ChunkSize
    ensures Flatten(Chunked(bytes)) == bytes
  {
    ChunkedCount(bytes);
    ChunkedSizes(bytes);
    ChunkedFlatten(bytes);
  }

  /** 40000 bytes travel as 16384, 16384 and 7232 bytes. */
  lemma FortyThousandBytes(bytes: seq<Byte>)
    requires |bytes| == 40000
    ensures |Chunked(bytes)| == 3
    ensures |Chunked(bytes)[0]| == 16384 && |Chunked(bytes)[1]| == 16384 && |Chunked(bytes)[2]| == 7232
  {
    var r1 := bytes[16384..];
    var r2 := r1[16384..];
    assert Chunked(r2[7232..]) == [];
    assert Chunked(r2) == [r2[..7232]];
    assert Chunked(r1) == [r1[..16384]] + Chunked(r2);
    assert Chunked(bytes) == [bytes[..16384]] + Chunked(r1);
  }

  lemma {:induction false} BinariesShape(chunks: seq<seq<Byte>>)
    ensures |Binaries(chunks)| == |chunks|
    ensures forall i :: 0 <= i < |chunks| ==> Binaries(chunks)[i] == Binary(chunks[i])
  {
    if chunks != [] {
      BinariesShape(chunks[1..]);
    }
  }

  /**
    A zero-length file is one empty marker and no binary frame; a file of N > 0
    bytes is ceil(N / 16384) binary frames of at most 16384 bytes whose payloads
    concatenate to the file, then exactly one path marker.
   */
  lemma FileFramesShape(e: FileEntry)
    ensures |e.bytes| == 0 ==> FileFrames(e) == [Text(EmptyMarker(e.rel))]
    ensures |e.bytes| > 0 ==>
      var frames := FileFrames(e);
      var cs := Chunked(e.bytes);
      && |frames| == (|e.bytes| + ChunkSize - 1) / ChunkSize + 1
      && |cs| == |frames| - 1
      && (forall i :: 0 <= i < |frames| - 1 ==> frames[i] == Binary(cs[i]) && 0 < |cs[i]| <= ChunkSize)
      && Flatten(cs) == e.bytes
      && frames[|frames| - 1] == Text(PathMarker(e.rel))
  {
    if |e.bytes| > 0 {
      ChunkedSpec(e.bytes);
      BinariesShape(Chunked(e.bytes));
    }
  }

  /**
    The sender loop of App.kt and Synchronization.kt: slices `[offset, end)` with
    `end = min(offset + 16384, size)`, one binary frame each, until `offset == size`.
    It emits exactly the frames of Kotlin's `chunked` that SyncManager.kt uses.
   */
  method SendChunks(bytes: seq<Byte>) returns (frames: seq<Frame>)
    ensures frames == Binaries(Chunked(bytes))
  {
    frames := [];
    var offset := 0;
    while offset < |bytes|
      invariant 0 <= offset <= |bytes|
      invariant frames + Binaries(Chunked(bytes[offset..])) == Binaries(Chunked(bytes))
      decreases |bytes| - offset
    {
      var end := CoerceAtMost(offset + ChunkSize, |bytes|);
      var chunk := bytes[offset..end];
      ghost var rest := bytes[offset..];
      assert rest[..end - offset] == chunk;
      assert rest[end - offset..] == bytes[end..];
      assert Chunked(rest) == [chunk] + Chunked(bytes[end..]);
      assert Binaries(Chunked(rest)) == [Binary(chunk)] + Binaries(Chunked(bytes[end..]));
      frames := frames + [Binary(chunk)];
      offset := end;
    }
    assert bytes[offset..] == [];
  }

  /**
    `File(path)` for each path to send: its relative path, and the bytes
    stored at the path as `java.io.File` normalises it.
   */
  function Outgoing(root: string, t: Tree, paths: seq<string>): (r: seq<FileEntry>)
    ensures |r| == |paths|
  {
    if paths == [] then []
    else [FileEntry(SubstringAfter(paths[0], root), Content(t, Normalize(paths[0])))] + Outgoing(root, t, paths[1..])
  }

  /**
    The `i`-th entry sent is the `i`-th path with everything up to the first
    occurrence of the root removed, with the bytes that file reads as.
   */
  lemma {:induction false} OutgoingAt(root: string, t: Tree, paths: seq<string>, i: nat)
    requires i < |paths|
    ensures Outgoing(root, t, paths)[i] == FileEntry(SubstringAfter(paths[i], root), Content(t, Normalize(paths[i])))
    decreases i
  {
    if i > 0 {
      OutgoingAt(root, t, paths[1..], i - 1);
    }
  }

  /** An instance of `OutgoingAt`: a path with a doubled '/' reads the file that `java.io.File` resolves it to. */
  lemma DoubledSlashReadsNormalisedFile()
    ensures Outgoing("/r", Tree(map["/r/a" := [1]], {}), ["/r//a"])[0].bytes == [1]
  {
    assert CollapseSlashes("//a") == CollapseSlashes("/a");
    assert CollapseSlashes("/r//a") == "/r/a";
    OutgoingAt("/r", Tree(map["/r/a" := [1]], {}), ["/r//a"], 0);
  }

  /** The entries for one more path are the earlier entries, then that path's entry. */
  lemma {:induction false} OutgoingSnoc(root: string, t: Tree, paths: seq<string>, p: string)
    ensures Outgoing(root, t, paths + [p])
         == Outgoing(root, t, paths) + [FileEntry(SubstringAfter(p, root), Content(t, Normalize(p)))]
    decreases |paths|
  {
    if paths == [] {
      assert [p][1..] == [];
    } else {
      assert (paths + [p])[0] == paths[0];
      assert (paths + [p])[1..] == paths[1..] + [p];
      OutgoingSnoc(root, t, paths[1..], p);
    }
  }

  /** Encoding one more file appends exactly that file's frames. */
  lemma EncodeSnoc(entries: seq<FileEntry>, e: FileEntry)
    ensures Encode(entries + [e]) == Encode(entries) + FileFrames(e)
  {
    EncodeAppend(entries, [e]);
    assert [e][1..] == [];
    assert Encode([e]) == FileFrames(e) + Encode([]);
  }

  /** Sending one more path appends exactly that file's frames. */
  lemma SendStep(root: string, t: Tree, paths: seq<string>, p: string)
    ensures Encode(Outgoing(root, t, paths + [p]))
         == Encode(Outgoing(root, t, paths)) + FileFrames(FileEntry(SubstringAfter(p, root), Content(t, Normalize(p))))
  {
    OutgoingSnoc(root, t, paths, p);
    EncodeSnoc(Outgoing(root, t, paths), FileEntry(SubstringAfter(p, root), Content(t, Normalize(p))));
  }

  /**
    A file can be told apart from an empty marker by any receiver that checks the
    suffix of the path: its relative path does not itself end in ":empty".
   */
  predicate Unambiguous(e: FileEntry)
  {
    |e.bytes| == 0 || !EndsWith(e.rel, EmptySuffix)
  }

  /** What receiving one file is meant to do: write its bytes, or create it empty. */
  function Store(root: string, t: Tree, e: FileEntry): Tree
  {
    if |e.bytes| == 0 then AfterCreateEmptyFile(t, root, e.rel)
    else AfterWriteFile(t, root, e.rel, e.bytes)
  }

  /** What receiving a list of files is meant to do: store each in order. */
  function Deliver(root: string, t: Tree, entries: seq<FileEntry>): Tree
    decreases |entries|
  {
    if entries == [] then t else Deliver(root, Store(root, t, entries[0]), entries[1..])
  }

  /** Delivery never touches a path that no entry resolves to. */
  lemma {:induction false} DeliverElsewhere(root: string, t: Tree, entries: seq<FileEntry>, f: string)
    requires forall i :: 0 <= i < |entries| ==> Resolve(root, entries[i].rel) != f
    ensures f in Deliver(root, t, entries).files <==> f in t.files
    ensures f in t.files ==> Deliver(root, t, entries).files[f] == t.files[f]
    decreases |entries|
  {
    if entries != [] {
      var t1 := Store(root, t, entries[0]);
      assert Resolve(root, entries[0].rel) != f;
      assert f in t1.files <==> f in t.files;
      assert f in t.files ==> t1.files[f] == t.files[f];
      DeliverElsewhere(root, t1, entries[1..], f);
    }
  }

  /**
    When the entries resolve to distinct paths, each non-empty file ends up with
    exactly its bytes, and each empty one exists and keeps any earlier content.
   */
  lemma {:induction false} DeliverPlacesFiles(root: string, t: Tree, entries: seq<FileEntry>, i: nat)
    requires i < |entries|
    requires forall j, k :: 0 <= j < k < |entries| ==> Resolve(root, entries[j].rel) != Resolve(root, entries[k].rel)
    ensures var f := Resolve(root, entries[i].rel);
      && f in Deliver(root, t, entries).files
      && Deliver(root, t, entries).files[f] ==
           (if |entries[i].bytes| > 0 then entries[i].bytes else Content(t, f))
    decreases |entries|
  {
    var f := Resolve(root, entries[i].rel);
    var t1 := Store(root, t, entries[0]);
    if i == 0 {
      DeliverElsewhere(root, t1, entries[1..], f);
    } else {
      assert Resolve(root, entries[0].rel) != f;
      assert Content(t1, f) == Content(t, f);
      DeliverPlacesFiles(root, t1, entries[1..], i - 1);
    }
  }

  /** Reading the empty marker back yields the path it was built from, whatever the path. */
  lemma EmptyMarkerParts(rel: string)
    ensures StartsWith(EmptyMarker(rel), PathPrefix)
    ensures RemovePrefix(EmptyMarker(rel), PathPrefix) == rel + EmptySuffix
    ensures EndsWith(EmptyMarker(rel), EmptySuffix)
    ensures RemoveSuffix(rel + EmptySuffix, EmptySuffix) == rel
  {
    assert EmptyMarker(rel) == PathPrefix + (rel + EmptySuffix);
    StartsWithConcat(PathPrefix, rel + EmptySuffix);
    EndsWithConcat(PathPrefix + rel, EmptySuffix);
    EndsWithConcat(rel, EmptySuffix);
  }

  /** Reading the path marker back yields its path, when that path does not end in ":empty". */
  lemma PathMarkerParts(rel: string)
    requires !EndsWith(rel, EmptySuffix)
    ensures StartsWith(PathMarker(rel), PathPrefix)
    ensures RemovePrefix(PathMarker(rel), PathPrefix) == rel
    ensures RemoveSuffix(rel, EmptySuffix) == rel
  {
    StartsWithConcat(PathPrefix, rel);
  }

  /**
    A path marker ends in ":empty" exactly when its path does, or when its path is
    "empty" itself: the ':' that closes "FilePath:" completes the suffix.
   */
  lemma PathMarkerEndsWithEmpty(rel: string)
    ensures EndsWith(PathMarker(rel), EmptySuffix) <==> EndsWith(rel, EmptySuffix) || rel == "empty"
  {
    var m := PathMarker(rel);
    assert |m| == 9 + |rel|;
    if |rel| >= 6 {
      assert m[|m| - 6..] == rel[|rel| - 6..];
    } else if |rel| == 5 {
      assert m[|m| - 6..] == [':'] + rel;
      assert rel == "empty" ==> [':'] + rel == EmptySuffix;
      assert [':'] + rel == EmptySuffix ==> rel == EmptySuffix[1..];
    } else {
      assert m[|m| - 6] == PathPrefix[3 + |rel|];
      assert PathPrefix[3 + |rel|] != ':';
    }
  }
}
