/**
  The newest client (SyncManager.kt): the planner that splits the two listings
  into uploads and pulls, the chunked sender, and the receiver that rebuilds
  pulled files from the frames of the download channel.
 */
module Manager {
  import opened Wrappers
  import opened Chunks
  import opened KotlinStrings
  import opened KotlinCollections
  import opened Models
  import opened Files
  import opened Protocol

  // ---------------------------------------------------------------- planner

  /** A local file's path with everything up to the first occurrence of the root removed. */
  function RelPath(root: string, e: FsEntry): string
  {
    SubstringAfter(e.path, root)
  }

  /** `{ it.path == rel }` over the remote listing. */
  function RemoteAt(rel: string): DirectoryTreeNode -> bool
  {
    (n: DirectoryTreeNode) => n.path == rel
  }

  /** `{ it.path.substringAfter(root) == path }` over the local files. */
  function LocalAt(root: string, path: string): FsEntry -> bool
  {
    (e: FsEntry) => RelPath(root, e) == path
  }

  /** The `forUpload` filter: no remote entry has the path, or the file is newer than the first that has. */
  function UploadWanted(root: string, remote: seq<DirectoryTreeNode>): FsEntry -> bool
  {
    (e: FsEntry) =>
      var at := RemoteAt(RelPath(root, e));
      !Any(remote, at) || IsNewerThan(e, First(remote, at))
  }

  /** The `forPull` filter: no local file has the path, or the first that has is not newer. */
  function PullWanted(root: string, local: seq<FsEntry>): DirectoryTreeNode -> bool
  {
    (n: DirectoryTreeNode) =>
      var at := LocalAt(root, n.path);
      !Any(local, at) || !IsNewerThan(First(local, at), n)
  }

  function ForUpload(root: string, local: seq<FsEntry>, remote: seq<DirectoryTreeNode>): seq<FsEntry>
  {
    Filter(local, UploadWanted(root, remote))
  }

  function ForPull(root: string, local: seq<FsEntry>, remote: seq<DirectoryTreeNode>): seq<DirectoryTreeNode>
  {
    Filter(remote, PullWanted(root, local))
  }

  /** What one pass decided: local files to upload and remote files to pull. */
  datatype Plan = Plan(forUpload: seq<FsEntry>, forPull: seq<DirectoryTreeNode>)

  function MakePlan(root: string, local: seq<FsEntry>, remote: seq<DirectoryTreeNode>): Plan
  {
    Plan(ForUpload(root, local, remote), ForPull(root, local, remote))
  }

  /** `forUpload.map { it.path }`: full local paths. */
  function UploadPaths(p: Plan): seq<string>
  {
    seq(|p.forUpload|, i requires 0 <= i < |p.forUpload| => p.forUpload[i].path)
  }

  /** `forPull.map { it.path }`: paths relative to the remote store. */
  function PullPaths(p: Plan): seq<string>
  {
    seq(|p.forPull|, i requires 0 <= i < |p.forPull| => p.forPull[i].path)
  }

  /**
    The paths `sync` hands on: a full local path is uploaded exactly when some local
    file has it and the upload filter keeps that file, and a relative path is pulled
    exactly when some remote entry has it and the pull filter keeps that entry.
   */
  lemma PlanPaths(root: string, local: seq<FsEntry>, remote: seq<DirectoryTreeNode>, x: string)
    ensures x in UploadPaths(MakePlan(root, local, remote))
      <==> exists e :: e in local && e.path == x && UploadWanted(root, remote)(e)
    ensures x in PullPaths(MakePlan(root, local, remote))
      <==> exists n :: n in remote && n.path == x && PullWanted(root, local)(n)
  {
    UploadPathsOf(ForUpload(root, local, remote), local, UploadWanted(root, remote), x);
    PullPathsOf(ForPull(root, local, remote), remote, PullWanted(root, local), x);
  }

  lemma UploadPathsOf(up: seq<FsEntry>, local: seq<FsEntry>, wanted: FsEntry -> bool, x: string)
    requires forall e :: e in up <==> e in local && wanted(e)
    ensures x in UploadPaths(Plan(up, [])) <==> exists e :: e in local && e.path == x && wanted(e)
  {
    var ups := UploadPaths(Plan(up, []));
    if x in ups {
      var i :| 0 <= i < |ups| && ups[i] == x;
      assert up[i] in up;
    }
    if exists e :: e in local && e.path == x && wanted(e) {
      var e :| e in local && e.path == x && wanted(e);
      var i :| 0 <= i < |up| && up[i] == e;
      assert ups[i] == x;
    }
  }

  lemma PullPathsOf(pull: seq<DirectoryTreeNode>, remote: seq<DirectoryTreeNode>, wanted: DirectoryTreeNode -> bool, x: string)
    requires forall n :: n in pull <==> n in remote && wanted(n)
    ensures x in PullPaths(Plan([], pull)) <==> exists n :: n in remote && n.path == x && wanted(n)
  {
    var pulls := PullPaths(Plan([], pull));
    if x in pulls {
      var i :| 0 <= i < |pulls| && pulls[i] == x;
      assert pull[i] in pull;
    }
    if exists n :: n in remote && n.path == x && wanted(n) {
      var n :| n in remote && n.path == x && wanted(n);
      var i :| 0 <= i < |pull| && pull[i] == n;
      assert pulls[i] == x;
    }
  }

  /** No two local files share a root-stripped path. */
  predicate UniqueLocal(root: string, local: seq<FsEntry>)
  {
    forall i, j :: 0 <= i < |local| && 0 <= j < |local| && RelPath(root, local[i]) == RelPath(root, local[j]) ==> i == j
  }

  /** No two remote entries share a path. */
  predicate UniqueRemote(remote: seq<DirectoryTreeNode>)
  {
    forall i, j :: 0 <= i < |remote| && 0 <= j < |remote| && remote[i].path == remote[j].path ==> i == j
  }

  /**
    A path on one side only: the local file is uploaded, the remote entry is pulled.
   */
  lemma OneSidedPaths(root: string, local: seq<FsEntry>, remote: seq<DirectoryTreeNode>, e: FsEntry, n: DirectoryTreeNode)
    ensures e in local && (forall m :: m in remote ==> m.path != RelPath(root, e)) ==> e in ForUpload(root, local, remote)
    ensures n in remote && (forall l :: l in local ==> RelPath(root, l) != n.path) ==> n in ForPull(root, local, remote)
  {
    if e in local && (forall m :: m in remote ==> m.path != RelPath(root, e)) {
      assert !Any(remote, RemoteAt(RelPath(root, e))) by {
        forall i | 0 <= i < |remote| ensures !RemoteAt(RelPath(root, e))(remote[i]) {
          assert remote[i] in remote;
        }
      }
    }
    if n in remote && (forall l :: l in local ==> RelPath(root, l) != n.path) {
      assert !Any(local, LocalAt(root, n.path)) by {
        forall i | 0 <= i < |local| ensures !LocalAt(root, n.path)(local[i]) {
          assert local[i] in local;
        }
      }
    }
  }

  /**
    A path on both sides (each listing holding it once) is uploaded exactly when
    the local copy is strictly newer and pulled exactly when it is not, so it lands
    in exactly one list and equal instants go to the pull side.
   */
  lemma SharedPath(root: string, local: seq<FsEntry>, remote: seq<DirectoryTreeNode>, i: nat, j: nat)
    requires UniqueLocal(root, local) && UniqueRemote(remote)
    requires i < |local| && j < |remote| && RelPath(root, local[i]) == remote[j].path
    ensures local[i] in ForUpload(root, local, remote) <==> remote[j].dateModified < local[i].modified
    ensures remote[j] in ForPull(root, local, remote) <==> !(remote[j].dateModified < local[i].modified)
  {
    var e, n := local[i], remote[j];
    FirstOfUnique(remote, RemoteAt(RelPath(root, e)), j);
    FirstOfUnique(local, LocalAt(root, n.path), i);
    assert UploadWanted(root, remote)(e) == IsNewerThan(e, n);
    assert PullWanted(root, local)(n) == !IsNewerThan(e, n);
  }

  /** Equal instants on both sides: the file is pulled and not uploaded. */
  lemma TieGoesToPull(root: string, local: seq<FsEntry>, remote: seq<DirectoryTreeNode>, i: nat, j: nat)
    requires UniqueLocal(root, local) && UniqueRemote(remote)
    requires i < |local| && j < |remote| && RelPath(root, local[i]) == remote[j].path
    requires local[i].modified == remote[j].dateModified
    ensures local[i] !in ForUpload(root, local, remote)
    ensures remote[j] in ForPull(root, local, remote)
  {
    SharedPath(root, local, remote, i, j);
  }

  /** Both lists keep the order of the listing they are taken from. */
  lemma PlanKeepsOrder(root: string, local: seq<FsEntry>, remote: seq<DirectoryTreeNode>,
                       a: seq<FsEntry>, b: seq<FsEntry>, c: seq<DirectoryTreeNode>, d: seq<DirectoryTreeNode>)
    ensures ForUpload(root, a + b, remote) == ForUpload(root, a, remote) + ForUpload(root, b, remote)
    ensures ForPull(root, local, c + d) == ForPull(root, local, c) + ForPull(root, local, d)
  {
    FilterAppend(a, b, UploadWanted(root, remote));
    FilterAppend(c, d, PullWanted(root, local));
  }

  // --------------------------------------------------------------- receiver

  /** The receiver's chunk buffer and the files on the client's disk. */
  datatype ClientState = ClientState(chunks: seq<seq<Byte>>, tree: Tree)

  /**
    The clients' reading of a text frame: the path between "FilePath:" and an
    optional ":empty", or null when the frame does not start with "FilePath:".
   */
  function MarkerPath(message: string): Option<string>
  {
    if StartsWith(message, PathPrefix)
    then Some(RemoveSuffix(RemovePrefix(message, PathPrefix), EmptySuffix))
    else None
  }

  /** `handleTextFrame`: the empty test looks at the whole message. */
  function HandleText(root: string, s: ClientState, message: string): ClientState
  {
    match MarkerPath(message)
    case None => s
    case Some(rel) =>
      if EndsWith(message, EmptySuffix) then s.(tree := AfterCreateEmptyFile(s.tree, root, rel))
      else if s.chunks != [] then ClientState([], AfterWriteFile(s.tree, root, rel, Flatten(s.chunks)))
      else s
  }

  /** One frame of the `/download` loop. */
  function Step(root: string, s: ClientState, frame: Frame): ClientState
  {
    match frame
    case Binary(data) => s.(chunks := s.chunks + [data])
    case Text(message) => HandleText(root, s, message)
    case Other => s
  }

  /** The `/download` loop over the frames, in arrival order. */
  function Receive(root: string, s: ClientState, frames: seq<Frame>): ClientState
    decreases |frames|
  {
    if frames == [] then s else Receive(root, Step(root, s, frames[0]), frames[1..])
  }

  /** The payloads of the binary frames, in order. */
  function Payloads(frames: seq<Frame>): seq<seq<Byte>>
  {
    if frames == [] then []
    else (if frames[0].Binary? then [frames[0].data] else []) + Payloads(frames[1..])
  }

  /** Frames that are not "FilePath:" messages. */
  predicate NoMarkers(frames: seq<Frame>)
  {
    forall i :: 0 <= i < |frames| && frames[i].Text? ==> !StartsWith(frames[i].text, PathPrefix)
  }

  lemma {:induction false} ReceiveAppend(root: string, s: ClientState, a: seq<Frame>, b: seq<Frame>)
    ensures Receive(root, s, a + b) == Receive(root, Receive(root, s, a), b)
    decreases |a|
  {
    if a == [] {
      assert a + b == b;
    } else {
      assert (a + b)[0] == a[0];
      assert (a + b)[1..] == a[1..] + b;
      ReceiveAppend(root, Step(root, s, a[0]), a[1..], b);
    }
  }

  /**
    Binary frames are appended to the buffer in arrival order; every other
    text frame, "End" included, and every control frame changes nothing.
   */
  lemma {:induction false} NoMarkersOnlyBuffer(root: string, s: ClientState, frames: seq<Frame>)
    requires NoMarkers(frames)
    ensures Receive(root, s, frames) == s.(chunks := s.chunks + Payloads(frames))
    decreases |frames|
  {
    if frames != [] {
      assert NoMarkers(frames[1..]) by {
        forall i | 0 <= i < |frames[1..]| && frames[1..][i].Text?
          ensures !StartsWith(frames[1..][i].text, PathPrefix)
        {
          assert frames[1..][i] == frames[i + 1];
        }
      }
      var s1 := Step(root, s, frames[0]);
      NoMarkersOnlyBuffer(root, s1, frames[1..]);
      if frames[0].Binary? {
        assert s.chunks + [frames[0].data] + Payloads(frames[1..]) == s.chunks + Payloads(frames);
      } else {
        assert Payloads(frames) == Payloads(frames[1..]);
      }
    }
  }

  /** An empty marker creates the file and leaves a non-empty buffer untouched. */
  lemma EmptyMarkerKeepsBuffer(root: string, s: ClientState, rel: string)
    ensures HandleText(root, s, EmptyMarker(rel)) == s.(tree := AfterCreateEmptyFile(s.tree, root, rel))
  {
    EmptyMarkerParts(rel);
  }

  /** A path marker that arrives with an empty buffer writes nothing. */
  lemma MarkerWithEmptyBuffer(root: string, t: Tree, message: string)
    requires !EndsWith(message, EmptySuffix)
    ensures HandleText(root, ClientState([], t), message) == ClientState([], t)
  {
  }

  /** A file the receiver reads back correctly: its path marker does not look like an empty marker. */
  predicate Readable(e: FileEntry)
  {
    |e.bytes| == 0 || !EndsWith(PathMarker(e.rel), EmptySuffix)
  }

  /** Readable is Unambiguous with one more exclusion: a non-empty file named "empty". */
  lemma ReadableIff(e: FileEntry)
    ensures Readable(e) <==> Unambiguous(e) && (|e.bytes| == 0 || e.rel != "empty")
  {
    PathMarkerEndsWithEmpty(e.rel);
  }

  lemma ReceiveBinaries(root: string, s: ClientState, chunks: seq<seq<Byte>>)
    ensures Receive(root, s, Binaries(chunks)) == s.(chunks := s.chunks + chunks)
  {
    BinariesShape(chunks);
    assert NoMarkers(Binaries(chunks));
    NoMarkersOnlyBuffer(root, s, Binaries(chunks));
    PayloadsOfBinaries(chunks);
  }

  lemma {:induction false} PayloadsOfBinaries(chunks: seq<seq<Byte>>)
    ensures Payloads(Binaries(chunks)) == chunks
  {
    if chunks != [] {
      var fs := Binaries(chunks);
      assert fs[0] == Binary(chunks[0]) && fs[1..] == Binaries(chunks[1..]);
      PayloadsOfBinaries(chunks[1..]);
    }
  }

  /** Receiving one file's frames from an empty buffer stores that file and empties the buffer. */
  lemma ReceiveFile(root: string, t: Tree, e: FileEntry)
    requires Readable(e)
    ensures Receive(root, ClientState([], t), FileFrames(e)) == ClientState([], Store(root, t, e))
  {
    var s := ClientState([], t);
    if |e.bytes| == 0 {
      EmptyMarkerParts(e.rel);
      assert FileFrames(e)[1..] == [];
    } else {
      PathMarkerEndsWithEmpty(e.rel);
      PathMarkerParts(e.rel);
      ChunkedSpec(e.bytes);
      var cs := Chunked(e.bytes);
      ReceiveAppend(root, s, Binaries(cs), [Text(PathMarker(e.rel))]);
      ReceiveBinaries(root, s, cs);
      assert cs != [];
      assert [] + cs == cs;
    }
  }

  /**
    The round trip: the frames the sender makes for a list of files, read by this
    receiver from an empty buffer, store every file as the sender had it, provided
    no non-empty file's marker ends in ":empty".
   */
  lemma {:induction false} RoundTrip(root: string, t: Tree, entries: seq<FileEntry>)
    requires forall i :: 0 <= i < |entries| ==> Readable(entries[i])
    ensures Receive(root, ClientState([], t), Encode(entries)) == ClientState([], Deliver(root, t, entries))
    decreases |entries|
  {
    if entries != [] {
      var s := ClientState([], t);
      ReceiveAppend(root, s, FileFrames(entries[0]), Encode(entries[1..]));
      ReceiveFile(root, t, entries[0]);
      RoundTrip(root, Store(root, t, entries[0]), entries[1..]);
    }
  }

  /**
    Per file: with distinct targets, each readable non-empty file ends with
    exactly its bytes, and each empty one exists with whatever it held before.
   */
  lemma RoundTripPlacesFiles(root: string, t: Tree, entries: seq<FileEntry>, i: nat)
    requires forall j :: 0 <= j < |entries| ==> Readable(entries[j])
    requires forall j, k :: 0 <= j < k < |entries| ==> Resolve(root, entries[j].rel) != Resolve(root, entries[k].rel)
    requires i < |entries|
    ensures var f := Resolve(root, entries[i].rel);
      var r := Receive(root, ClientState([], t), Encode(entries)).tree;
      && f in r.files
      && r.files[f] == (if |entries[i].bytes| > 0 then entries[i].bytes else Content(t, f))
  {
    RoundTrip(root, t, entries);
    DeliverPlacesFiles(root, t, entries, i);
  }

  /** An empty file sent over an existing one leaves the old bytes: `createNewFile` does not truncate. */
  lemma EmptyFileKeepsOldBytes(root: string, t: Tree, rel: string)
    requires Resolve(root, rel) in t.files
    ensures var r := Receive(root, ClientState([], t), Encode([FileEntry(rel, [])])).tree;
      Resolve(root, rel) in r.files && r.files[Resolve(root, rel)] == t.files[Resolve(root, rel)]
  {
    RoundTrip(root, t, [FileEntry(rel, [])]);
    assert [FileEntry(rel, [])][1..] == [];
  }

  /**
    A non-empty file whose relative path is exactly "empty" is misread: its path
    marker "FilePath:empty" ends in ":empty", so the file is created empty and its
    bytes stay in the buffer, where the next file's chunks would join them.
   */
  lemma FileNamedEmptyIsMisread(root: string, t: Tree, bytes: seq<Byte>)
    requires |bytes| > 0 && Resolve(root, "empty") !in t.files
    ensures var r := Receive(root, ClientState([], t), FileFrames(FileEntry("empty", bytes)));
      && r.chunks == Chunked(bytes) && r.chunks != []
      && Resolve(root, "empty") in r.tree.files && r.tree.files[Resolve(root, "empty")] == []
      && Resolve(root, "empty") in Deliver(root, t, [FileEntry("empty", bytes)]).files
      && Deliver(root, t, [FileEntry("empty", bytes)]).files[Resolve(root, "empty")] == bytes
  {
    var s := ClientState([], t);
    var cs := Chunked(bytes);
    ChunkedSpec(bytes);
    PathMarkerEndsWithEmpty("empty");
    assert StartsWith(PathMarker("empty"), PathPrefix) by { StartsWithConcat(PathPrefix, "empty"); }
    assert RemovePrefix(PathMarker("empty"), PathPrefix) == "empty";
    assert !EndsWith("empty", EmptySuffix);
    ReceiveAppend(root, s, Binaries(cs), [Text(PathMarker("empty"))]);
    ReceiveBinaries(root, s, cs);
    assert [] + cs == cs;
    assert [FileEntry("empty", bytes)][1..] == [];
  }

  /**
    The misread file's bytes are not lost but mis-filed: the next non-empty file's
    chunks join them in the buffer, and that file is written with both.
   */
  lemma MisreadBytesJoinNextFile(root: string, t: Tree, a: seq<Byte>, rel: string, b: seq<Byte>)
    requires |a| > 0 && |b| > 0 && Readable(FileEntry(rel, b))
    ensures var r := Receive(root, ClientState([], t), Encode([FileEntry("empty", a), FileEntry(rel, b)]));
      && r.chunks == []
      && Resolve(root, rel) in r.tree.files && r.tree.files[Resolve(root, rel)] == a + b
  {
    var s := ClientState([], t);
    var ca, cb := Chunked(a), Chunked(b);
    var e1, e2 := FileEntry("empty", a), FileEntry(rel, b);
    ChunkedSpec(a);
    ChunkedSpec(b);
    PathMarkerEndsWithEmpty("empty");
    assert StartsWith(PathMarker("empty"), PathPrefix) by { StartsWithConcat(PathPrefix, "empty"); }
    ReceiveAppend(root, s, Binaries(ca), [Text(PathMarker("empty"))]);
    ReceiveBinaries(root, s, ca);
    assert [] + ca == ca;
    var s1 := Receive(root, s, FileFrames(e1));
    assert s1.chunks == ca;
    PathMarkerEndsWithEmpty(rel);
    PathMarkerParts(rel);
    ReceiveAppend(root, s1, Binaries(cb), [Text(PathMarker(rel))]);
    ReceiveBinaries(root, s1, cb);
    FlattenAppend(ca, cb);
    var s2 := Receive(root, s1, FileFrames(e2));
    assert s2 == ClientState([], AfterWriteFile(s1.tree, root, rel, a + b));
    assert Encode([e1, e2]) == FileFrames(e1) + FileFrames(e2) by {
      assert [e1, e2][1..] == [e2];
      assert [e2][1..] == [];
      assert Encode([e2]) == FileFrames(e2) + Encode([]);
      assert FileFrames(e2) + [] == FileFrames(e2);
    }
    ReceiveAppend(root, s, FileFrames(e1), FileFrames(e2));
  }

  // ---------------------------------------------------------------- session

  /** The effect of `pullFiles(files)` on the client's files. */
  function PullEffect(root: string, t: Tree, files: seq<string>, incoming: seq<Frame>): Tree
  {
    if files == [] then t else Receive(root, ClientState([], t), incoming).tree
  }

  /** `SyncManager`: one client working on the files of its `FileService`. */
  class SyncManager {
    const fileService: FileService

    constructor (fileService: FileService)
      ensures this.fileService == fileService
    {
      this.fileService := fileService;
    }

    /** `sendFileInChunks`: one binary frame per `chunked` slice, then the path marker. */
    method SendFileInChunks(bytes: seq<Byte>, relativePath: string) returns (sent: seq<Frame>)
      ensures sent == Binaries(Chunked(bytes)) + [Text(PathMarker(relativePath))]
    {
      var chunks := Chunked(bytes);
      sent := [];
      for k := 0 to |chunks|
        invariant sent + Binaries(chunks[k..]) == Binaries(chunks)
      {
        assert chunks[k..][0] == chunks[k] && chunks[k..][1..] == chunks[k + 1..];
        sent := sent + [Binary(chunks[k])];
      }
      assert chunks[|chunks|..] == [];
      sent := sent + [Text(PathMarker(relativePath))];
    }

    /**
      `uploadFiles`: the frames sent on `/upload` for the given full local paths,
      read from the disk as it is when the upload runs.
     */
    method UploadFiles(files: seq<string>) returns (sent: seq<Frame>)
      ensures sent == Encode(Outgoing(fileService.rootFolder, fileService.disk.tree, files))
    {
      sent := [];
      if |files| == 0 {
        return;
      }
      var root, tree := fileService.rootFolder, fileService.disk.tree;
      for i := 0 to |files|
        invariant sent == Encode(Outgoing(root, tree, files[..i]))
      {
        var filePath := files[i];
        var relativePath := SubstringAfter(filePath, root);
        var bytes := Content(tree, Normalize(filePath));
        var frames;
        if |bytes| == 0 {
          frames := [Text(EmptyMarker(relativePath))];
        } else {
          frames := SendFileInChunks(bytes, relativePath);
        }
        assert files[..i + 1] == files[..i] + [filePath];
        SendStep(root, tree, files[..i], filePath);
        assert frames == FileFrames(FileEntry(relativePath, bytes));
        sent := sent + frames;
      }
      assert files[..|files|] == files;
    }

    /** `handleTextFrame`, with the chunk buffer passed in and handed back. */
    method HandleTextFrame(message: string, chunks: seq<seq<Byte>>) returns (remaining: seq<seq<Byte>>)
      modifies fileService.disk
      ensures ClientState(remaining, fileService.disk.tree)
           == HandleText(fileService.rootFolder, ClientState(chunks, old(fileService.disk.tree)), message)
    {
      remaining := chunks;
      var relativePath := MarkerPath(message);
      if relativePath.Some? {
        if EndsWith(message, EmptySuffix) {
          fileService.CreateEmptyFile(relativePath.value);
        } else if |chunks| != 0 {
          var bytes := FlattenToBytes(chunks);
          fileService.WriteFile(relativePath.value, bytes);
          remaining := [];
        }
      }
    }

    /** `pullFiles`: nothing for an empty list, else the receiver loop over the incoming frames. */
    method PullFiles(files: seq<string>, incoming: seq<Frame>)
      modifies fileService.disk
      ensures fileService.disk.tree == PullEffect(fileService.rootFolder, old(fileService.disk.tree), files, incoming)
    {
      if |files| == 0 {
        return;
      }
      var chunks: seq<seq<Byte>> := [];
      var i := 0;
      while i < |incoming|
        invariant 0 <= i <= |incoming|
        invariant Receive(fileService.rootFolder, ClientState(chunks, fileService.disk.tree), incoming[i..])
               == Receive(fileService.rootFolder, ClientState([], old(fileService.disk.tree)), incoming)
      {
        assert incoming[i..][0] == incoming[i] && incoming[i..][1..] == incoming[i + 1..];
        match incoming[i] {
          case Binary(data) =>
            chunks := chunks + [data];
          case Text(message) =>
            chunks := HandleTextFrame(message, chunks);
          case Other =>
        }
        i := i + 1;
      }
      assert incoming[i..] == [];
    }

    /**
      `sync`: without a remote listing nothing happens; otherwise the plan is made
      from the filtered local walk, the pull runs first, and the upload then reads
      the files as the pull left them.
     */
    method Sync(remote: Option<seq<DirectoryTreeNode>>, walk: seq<FsEntry>, incoming: seq<Frame>)
      returns (plan: Option<Plan>, sent: seq<Frame>)
      modifies fileService.disk
      ensures remote.None? ==>
        plan == None && sent == [] && fileService.disk.tree == old(fileService.disk.tree)
      ensures remote.Some? ==>
        var p := MakePlan(fileService.rootFolder, LocalFiles(walk), remote.value);
        && plan == Some(p)
        && fileService.disk.tree == PullEffect(fileService.rootFolder, old(fileService.disk.tree), PullPaths(p), incoming)
        && sent == Encode(Outgoing(fileService.rootFolder, fileService.disk.tree, UploadPaths(p)))
    {
      plan, sent := None, [];
      if remote.Some? {
        var local := LocalFiles(walk);
        var p := MakePlan(fileService.rootFolder, local, remote.value);
        PullFiles(PullPaths(p), incoming);
        sent := UploadFiles(UploadPaths(p));
        plan := Some(p);
      }
    }
  }
}
