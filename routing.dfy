/**
  The server (Routing.kt): `/tree` reports the store with paths made relative,
  and `/upload` receives frames into a chunk buffer and a sticky current path.
 */
module Server {
  import opened Wrappers
  import opened Chunks
  import opened KotlinStrings
  import opened Models
  import opened Files
  import opened Protocol
  import Manager

  // ------------------------------------------------------------------ /tree

  /** `/tree`: every listed node with its path cut after the first occurrence of the store folder. */
  function TreeListing(store: string, nodes: seq<DirectoryTreeNode>): (r: seq<DirectoryTreeNode>)
    ensures |r| == |nodes|
    ensures forall i :: 0 <= i < |r| ==>
      && r[i].name == nodes[i].name
      && r[i].dateCreated == nodes[i].dateCreated
      && r[i].dateModified == nodes[i].dateModified
      && EndsWith(nodes[i].path, r[i].path)
  {
    seq(|nodes|, i requires 0 <= i < |nodes| => nodes[i].(path := SubstringAfter(nodes[i].path, store)))
  }

  /** A file stored under the store folder is reported by its path relative to that folder. */
  lemma TreeListingIsRelative(store: string, nodes: seq<DirectoryTreeNode>, i: nat, rel: string)
    requires i < |nodes| && nodes[i].path == store + rel
    ensures TreeListing(store, nodes)[i].path == rel
  {
    SubstringAfterLeading(store, rel);
  }

  // ---------------------------------------------------------------- /upload

  /**
    The `/upload` loop's variables: the chunk buffer, `currentFilePath`, the
    store on disk, and whether a control frame ended the loop.
   */
  datatype ServerState = ServerState(chunks: seq<seq<Byte>>, current: Option<string>, tree: Tree, aborted: bool)

  /**
    A text frame. A "FilePath:" message replaces the current path by the rest of
    the message; if that rest ends in ":empty" the suffix is dropped and the
    file is created. Then, whatever the message, a non-empty buffer is written
    to the current path, if there is one, and cleared.
   */
  function OnText(store: string, s: ServerState, message: string): ServerState
  {
    var s1 :=
      if StartsWith(message, PathPrefix) then
        var path := RemovePrefix(message, PathPrefix);
        if EndsWith(path, EmptySuffix) then
          var name := RemoveSuffix(path, EmptySuffix);
          s.(current := Some(name), tree := AfterCreateEmptyFile(s.tree, store, name))
        else s.(current := Some(path))
      else s;
    if s1.chunks != [] && s1.current.Some?
    then s1.(chunks := [], tree := AfterWriteFile(s1.tree, store, s1.current.value, Flatten(s1.chunks)))
    else s1
  }

  /** One frame: binary data is buffered, text is handled, a control frame aborts. */
  function Step(store: string, s: ServerState, frame: Frame): ServerState
  {
    match frame
    case Binary(data) => s.(chunks := s.chunks + [data])
    case Text(message) => OnText(store, s, message)
    case Other => s.(aborted := true)
  }

  /** The loop over the incoming frames, which stops at the first control frame. */
  function Receive(store: string, s: ServerState, frames: seq<Frame>): ServerState
    decreases |frames|
  {
    if frames == [] || s.aborted then s else Receive(store, Step(store, s, frames[0]), frames[1..])
  }

  /** Once aborted, no further frame is read. */
  lemma AbortStops(store: string, s: ServerState, rest: seq<Frame>)
    requires !s.aborted
    ensures Receive(store, s, [Other] + rest) == s.(aborted := true)
  {
    assert ([Other] + rest)[1..] == rest;
  }

  /** A text frame that is not "FilePath:" flushes a non-empty buffer to the previous path. */
  lemma StrayTextFlushes(store: string, s: ServerState, message: string)
    requires !StartsWith(message, PathPrefix)
    ensures s.chunks != [] && s.current.Some? ==>
      OnText(store, s, message)
        == s.(chunks := [], tree := AfterWriteFile(s.tree, store, s.current.value, Flatten(s.chunks)))
    ensures s.chunks == [] || s.current.None? ==> OnText(store, s, message) == s
  {
  }

  /**
    An empty marker makes its path current and creates the file; a non-empty
    buffer is then written over it and cleared.
   */
  lemma EmptyMarkerCreatesThenFlushes(store: string, s: ServerState, rel: string)
    ensures OnText(store, s, EmptyMarker(rel)).current == Some(rel)
    ensures s.chunks == [] ==>
      OnText(store, s, EmptyMarker(rel)) == s.(current := Some(rel), tree := AfterCreateEmptyFile(s.tree, store, rel))
    ensures s.chunks != [] ==>
      OnText(store, s, EmptyMarker(rel))
        == s.(chunks := [], current := Some(rel),
              tree := AfterWriteFile(AfterCreateEmptyFile(s.tree, store, rel), store, rel, Flatten(s.chunks)))
  {
    EmptyMarkerParts(rel);
    EndsWithConcat(rel, EmptySuffix);
  }

  /** A path marker that meets an empty buffer only changes the current path. */
  lemma MarkerWithEmptyBuffer(store: string, s: ServerState, rel: string)
    requires s.chunks == [] && !EndsWith(rel, EmptySuffix)
    ensures OnText(store, s, PathMarker(rel)) == s.(current := Some(rel))
  {
    PathMarkerParts(rel);
  }

  lemma {:induction false} ReceiveAppend(store: string, s: ServerState, a: seq<Frame>, b: seq<Frame>)
    ensures Receive(store, s, a + b) == Receive(store, Receive(store, s, a), b)
    decreases |a|
  {
    if a == [] {
      assert a + b == b;
    } else if !s.aborted {
      assert (a + b)[0] == a[0];
      assert (a + b)[1..] == a[1..] + b;
      ReceiveAppend(store, Step(store, s, a[0]), a[1..], b);
    }
  }

  /** Frames that are neither "FilePath:" messages nor control frames. */
  predicate Quiet(frames: seq<Frame>)
  {
    forall i :: 0 <= i < |frames| ==> !frames[i].Other? && (frames[i].Text? ==> !StartsWith(frames[i].text, PathPrefix))
  }

  /** With no current path, binary data stays buffered and nothing is written. */
  lemma {:induction false} NoPathKeepsBuffering(store: string, s: ServerState, frames: seq<Frame>)
    requires s.current.None? && !s.aborted && Quiet(frames)
    ensures Receive(store, s, frames) == s.(chunks := s.chunks + Manager.Payloads(frames))
    decreases |frames|
  {
    if frames != [] {
      assert Quiet(frames[1..]) by {
        forall i | 0 <= i < |frames[1..]|
          ensures !frames[1..][i].Other? && (frames[1..][i].Text? ==> !StartsWith(frames[1..][i].text, PathPrefix))
        {
          assert frames[1..][i] == frames[i + 1];
        }
      }
      assert !frames[0].Other?;
      NoPathKeepsBuffering(store, Step(store, s, frames[0]), frames[1..]);
      if frames[0].Binary? {
        assert s.chunks + [frames[0].data] + Manager.Payloads(frames[1..]) == s.chunks + Manager.Payloads(frames);
      } else {
        assert Manager.Payloads(frames) == Manager.Payloads(frames[1..]);
      }
    }
  }

  /** Binary frames append their payloads in arrival order. */
  lemma {:induction false} ReceiveBinaries(store: string, s: ServerState, chunks: seq<seq<Byte>>)
    requires !s.aborted
    ensures Receive(store, s, Binaries(chunks)) == s.(chunks := s.chunks + chunks)
    decreases |chunks|
  {
    if chunks != [] {
      var frames := Binaries(chunks);
      var s1 := s.(chunks := s.chunks + [chunks[0]]);
      assert frames[0] == Binary(chunks[0]) && frames[1..] == Binaries(chunks[1..]);
      assert Step(store, s, frames[0]) == s1;
      assert Receive(store, s, frames) == Receive(store, s1, Binaries(chunks[1..]));
      ReceiveBinaries(store, s1, chunks[1..]);
      assert s.chunks + [chunks[0]] + chunks[1..] == s.chunks + chunks;
    }
  }

  /** One file's frames, from an empty buffer, store the file and make its path current. */
  lemma ReceiveFile(store: string, current: Option<string>, t: Tree, e: FileEntry)
    requires Unambiguous(e)
    ensures Receive(store, ServerState([], current, t, false), FileFrames(e))
         == ServerState([], Some(e.rel), Store(store, t, e), false)
  {
    var s := ServerState([], current, t, false);
    if |e.bytes| == 0 {
      EmptyMarkerCreatesThenFlushes(store, s, e.rel);
      assert FileFrames(e)[1..] == [];
    } else {
      PathMarkerParts(e.rel);
      ChunkedSpec(e.bytes);
      var cs := Chunked(e.bytes);
      ReceiveBinaries(store, s, cs);
      ReceiveAppend(store, s, Binaries(cs), [Text(PathMarker(e.rel))]);
      assert [] + cs == cs;
      assert [Text(PathMarker(e.rel))][1..] == [];
    }
  }

  /**
    The round trip: from an empty buffer, whatever the current path, the
    sender's frames store every file as the sender had it, provided no non-empty
    file's path ends in ":empty". The buffer ends empty and the loop is not aborted.
   */
  lemma {:induction false} RoundTrip(store: string, current: Option<string>, t: Tree, entries: seq<FileEntry>)
    requires forall i :: 0 <= i < |entries| ==> Unambiguous(entries[i])
    ensures var r := Receive(store, ServerState([], current, t, false), Encode(entries));
      r.chunks == [] && r.tree == Deliver(store, t, entries) && !r.aborted
    decreases |entries|
  {
    if entries != [] {
      var s := ServerState([], current, t, false);
      ReceiveAppend(store, s, FileFrames(entries[0]), Encode(entries[1..]));
      ReceiveFile(store, current, t, entries[0]);
      RoundTrip(store, Some(entries[0].rel), Store(store, t, entries[0]), entries[1..]);
    }
  }

  /** An empty file uploaded over an existing one leaves the old bytes: `createNewFile` does not truncate. */
  lemma EmptyFileKeepsOldBytes(store: string, current: Option<string>, t: Tree, rel: string)
    requires Resolve(store, rel) in t.files
    ensures var r := Receive(store, ServerState([], current, t, false), Encode([FileEntry(rel, [])])).tree;
      Resolve(store, rel) in r.files && r.files[Resolve(store, rel)] == t.files[Resolve(store, rel)]
  {
    RoundTrip(store, current, t, [FileEntry(rel, [])]);
    assert [FileEntry(rel, [])][1..] == [];
  }

  /**
    `/upload`: the loop keeps the buffer and `currentFilePath` in local
    variables and writes through the disk; a control frame ends it, which the
    result reports as not completed.
   */
  method UploadFiles(storeFolder: string, disk: Disk, incoming: seq<Frame>) returns (completed: bool)
    modifies disk
    ensures var r := Receive(storeFolder, ServerState([], None, old(disk.tree), false), incoming);
      disk.tree == r.tree && completed == !r.aborted
  {
    var receivedChunks: seq<seq<Byte>> := [];
    var currentFilePath: Option<string> := None;
    completed := true;
    var i := 0;
    while i < |incoming| && completed
      invariant 0 <= i <= |incoming|
      invariant Receive(storeFolder, ServerState(receivedChunks, currentFilePath, disk.tree, !completed), incoming[i..])
             == Receive(storeFolder, ServerState([], None, old(disk.tree), false), incoming)
    {
      assert incoming[i..][0] == incoming[i] && incoming[i..][1..] == incoming[i + 1..];
      match incoming[i] {
        case Binary(data) =>
          receivedChunks := receivedChunks + [data];
        case Text(message) =>
          if StartsWith(message, PathPrefix) {
            var path := RemovePrefix(message, PathPrefix);
            currentFilePath := Some(path);
            if EndsWith(path, EmptySuffix) {
              var name := RemoveSuffix(path, EmptySuffix);
              currentFilePath := Some(name);
              var file := Resolve(storeFolder, name);
              disk.Mkdirs(file);
              disk.CreateNewFile(file);
            }
          }
          if |receivedChunks| != 0 && currentFilePath.Some? {
            var fileBytes := FlattenToBytes(receivedChunks);
            var file := Resolve(storeFolder, currentFilePath.value);
            disk.Mkdirs(file);
            disk.WriteBytes(file, fileBytes);
            receivedChunks := [];
          }
        case Other =>
          completed := false;
      }
      i := i + 1;
    }
    if completed {
      assert incoming[i..] == [];
    }
  }
}
