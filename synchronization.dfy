/**
  The older client (Synchronization.kt): the planner written with comparison
  predicates, and a receiver whose text handler returns the marker's path and
  flushes the buffer after an empty marker too. Its `sync` only pulls.
 */
module LegacySync {
  import opened Wrappers
  import opened Chunks
  import opened KotlinStrings
  import opened KotlinCollections
  import opened Models
  import opened Files
  import opened Protocol
  import Manager
  import App

  // ---------------------------------------------------------------- planner

  /** The predicate sees each local file with the first remote entry at its path, or null. */
  function WithRemote(root: string, remoteFiles: seq<DirectoryTreeNode>,
                      accept: (FsEntry, Option<DirectoryTreeNode>) -> bool): FsEntry -> bool
  {
    (l: FsEntry) => accept(l, Find(remoteFiles, Manager.RemoteAt(Manager.RelPath(root, l))))
  }

  /** The predicate sees each remote entry with the first local file at its path, or null. */
  function WithLocal(root: string, localFiles: seq<FsEntry>,
                     accept: (Option<FsEntry>, DirectoryTreeNode) -> bool): DirectoryTreeNode -> bool
  {
    (r: DirectoryTreeNode) => accept(Find(localFiles, Manager.LocalAt(root, r.path)), r)
  }

  /** `localRemoteCompare`: the local files the predicate accepts, in order. */
  function LocalRemoteCompare(root: string, localFiles: seq<FsEntry>, remoteFiles: seq<DirectoryTreeNode>,
                              accept: (FsEntry, Option<DirectoryTreeNode>) -> bool): seq<FsEntry>
  {
    Filter(localFiles, WithRemote(root, remoteFiles, accept))
  }

  /** `remoteLocalCompare`: the remote entries the predicate accepts, in order. */
  function RemoteLocalCompare(root: string, localFiles: seq<FsEntry>, remoteFiles: seq<DirectoryTreeNode>,
                              accept: (Option<FsEntry>, DirectoryTreeNode) -> bool): seq<DirectoryTreeNode>
  {
    Filter(remoteFiles, WithLocal(root, localFiles, accept))
  }

  /** The upload predicate of `sync`: no remote entry, or the local file is newer. */
  function UploadPredicate(): (FsEntry, Option<DirectoryTreeNode>) -> bool
  {
    (l: FsEntry, r: Option<DirectoryTreeNode>) => if r.None? then true else IsNewerThan(l, r.value)
  }

  /** The pull predicate of `sync`: no local file, or the local file is not newer. */
  function PullPredicate(): (Option<FsEntry>, DirectoryTreeNode) -> bool
  {
    (l: Option<FsEntry>, r: DirectoryTreeNode) => if l.None? then true else !IsNewerThan(l.value, r)
  }

  /** The plan `sync` computes; its upload half is never used. */
  function MakePlan(root: string, local: seq<FsEntry>, remote: seq<DirectoryTreeNode>): Manager.Plan
  {
    Manager.Plan(LocalRemoteCompare(root, local, remote, UploadPredicate()),
                 RemoteLocalCompare(root, local, remote, PullPredicate()))
  }

  lemma UploadPredicateAgrees(root: string, remote: seq<DirectoryTreeNode>, l: FsEntry)
    ensures WithRemote(root, remote, UploadPredicate())(l) == Manager.UploadWanted(root, remote)(l)
  {
    var at := Manager.RemoteAt(Manager.RelPath(root, l));
    var found := Find(remote, at);
    assert WithRemote(root, remote, UploadPredicate())(l) == UploadPredicate()(l, found);
  }

  lemma PullPredicateAgrees(root: string, local: seq<FsEntry>, r: DirectoryTreeNode)
    ensures WithLocal(root, local, PullPredicate())(r) == Manager.PullWanted(root, local)(r)
  {
    var at := Manager.LocalAt(root, r.path);
    var found := Find(local, at);
    assert WithLocal(root, local, PullPredicate())(r) == PullPredicate()(found, r);
  }

  /**
    The predicate form and the newer `none`/`first` form choose the same files in
    the same order, so everything proved about the newer planner holds here.
   */
  lemma PlansAgree(root: string, local: seq<FsEntry>, remote: seq<DirectoryTreeNode>)
    ensures MakePlan(root, local, remote) == Manager.MakePlan(root, local, remote)
  {
    forall l | l in local
      ensures WithRemote(root, remote, UploadPredicate())(l) == Manager.UploadWanted(root, remote)(l)
    {
      UploadPredicateAgrees(root, remote, l);
    }
    FilterCongruent(local, WithRemote(root, remote, UploadPredicate()), Manager.UploadWanted(root, remote));
    forall r | r in remote
      ensures WithLocal(root, local, PullPredicate())(r) == Manager.PullWanted(root, local)(r)
    {
      PullPredicateAgrees(root, local, r);
    }
    FilterCongruent(remote, WithLocal(root, local, PullPredicate()), Manager.PullWanted(root, local));
  }

  // --------------------------------------------------------------- receiver

  /** The state after a text frame, and the path `handleTextFrame` returns. */
  datatype Handled = Handled(state: Manager.ClientState, filePath: Option<string>)

  /**
    `handleTextFrame`: a "FilePath:" message creates the parent directories and,
    if the whole message ends in ":empty", the file; then a non-empty buffer is
    written to that path and cleared, whichever marker it was.
   */
  function HandleText(root: string, s: Manager.ClientState, message: string): Handled
  {
    var filePath := Manager.MarkerPath(message);
    var t :=
      match filePath
      case None => s.tree
      case Some(path) =>
        var file := Resolve(root, path);
        var made := AfterMkdirs(s.tree, file);
        if EndsWith(message, EmptySuffix) then AfterCreateNewFile(made, file) else made;
    if s.chunks != [] && filePath.Some?
    then Handled(Manager.ClientState([], AfterWriteFile(t, root, filePath.value, Flatten(s.chunks))), filePath)
    else Handled(Manager.ClientState(s.chunks, t), filePath)
  }

  /** One frame of the `/download` loop. */
  function Step(root: string, s: Manager.ClientState, frame: Frame): Manager.ClientState
  {
    match frame
    case Binary(data) => s.(chunks := s.chunks + [data])
    case Text(message) => HandleText(root, s, message).state
    case Other => s
  }

  /** The `/download` loop over the frames, in arrival order. */
  function Receive(root: string, s: Manager.ClientState, frames: seq<Frame>): Manager.ClientState
    decreases |frames|
  {
    if frames == [] then s else Receive(root, Step(root, s, frames[0]), frames[1..])
  }

  /**
    `handleTextFrame` returns the marker's path with "FilePath:" and ":empty"
    removed, and null, with no effect at all, for any other message.
   */
  lemma HandledPath(root: string, s: Manager.ClientState, rel: string, message: string)
    ensures HandleText(root, s, EmptyMarker(rel)).filePath == Some(rel)
    ensures !EndsWith(rel, EmptySuffix) ==> HandleText(root, s, PathMarker(rel)).filePath == Some(rel)
    ensures !StartsWith(message, PathPrefix) ==> HandleText(root, s, message) == Handled(s, None)
  {
    EmptyMarkerParts(rel);
    if !EndsWith(rel, EmptySuffix) {
      PathMarkerParts(rel);
    }
  }

  /**
    An empty marker that meets a non-empty buffer creates the file, then
    overwrites it with the buffer and clears the buffer.
   */
  lemma EmptyMarkerFlushes(root: string, s: Manager.ClientState, rel: string)
    requires s.chunks != []
    ensures HandleText(root, s, EmptyMarker(rel)).state
         == Manager.ClientState([], AfterWriteFile(AfterCreateEmptyFile(s.tree, root, rel), root, rel, Flatten(s.chunks)))
  {
    EmptyMarkerParts(rel);
  }

  /** A path marker that meets an empty buffer only creates the parent directories. */
  lemma MarkerWithEmptyBuffer(root: string, t: Tree, rel: string)
    requires !EndsWith(PathMarker(rel), EmptySuffix)
    ensures HandleText(root, Manager.ClientState([], t), PathMarker(rel)).state
         == Manager.ClientState([], AfterMkdirs(t, Resolve(root, rel)))
  {
    PathMarkerEndsWithEmpty(rel);
    PathMarkerParts(rel);
  }

  /**
    The same fold law as the newest client's, restated here because this
    `Receive` folds a different `Step` (the one that writes after an empty marker).
   */
  lemma {:induction false} ReceiveAppend(root: string, s: Manager.ClientState, a: seq<Frame>, b: seq<Frame>)
    ensures Receive(root, s, a + b) == Receive(root, Receive(root, s, a), b)
    decreases |a|
  {
    if a == [] {
      assert a + b == b;
    } else {
      assert (a + b)[0] == a[0];
      assert (a + b)[1..] == a[1..] + b;
      ReceiveAppend(root, Step(root, s, a[0]), a[1..], b);
    }
  }

  /** Binary frames fill the buffer in arrival order; other non-marker frames change nothing. */
  lemma {:induction false} NoMarkersOnlyBuffer(root: string, s: Manager.ClientState, frames: seq<Frame>)
    requires Manager.NoMarkers(frames)
    ensures Receive(root, s, frames) == s.(chunks := s.chunks + Manager.Payloads(frames))
    decreases |frames|
  {
    if frames != [] {
      assert Manager.NoMarkers(frames[1..]) by {
        forall i | 0 <= i < |frames[1..]| && frames[1..][i].Text?
          ensures !StartsWith(frames[1..][i].text, PathPrefix)
        {
          assert frames[1..][i] == frames[i + 1];
        }
      }
      var s1 := Step(root, s, frames[0]);
      NoMarkersOnlyBuffer(root, s1, frames[1..]);
      if frames[0].Binary? {
        assert s.chunks + [frames[0].data] + Manager.Payloads(frames[1..]) == s.chunks + Manager.Payloads(frames);
      } else {
        assert Manager.Payloads(frames) == Manager.Payloads(frames[1..]);
      }
    }
  }

  /** Receiving one file's frames from an empty buffer stores that file and empties the buffer. */
  lemma ReceiveFile(root: string, t: Tree, e: FileEntry)
    requires Unambiguous(e)
    ensures Receive(root, Manager.ClientState([], t), FileFrames(e)) == Manager.ClientState([], Store(root, t, e))
  {
    var s := Manager.ClientState([], t);
    if |e.bytes| == 0 {
      EmptyMarkerParts(e.rel);
      assert FileFrames(e)[1..] == [];
    } else {
      PathMarkerParts(e.rel);
      ChunkedSpec(e.bytes);
      var cs := Chunked(e.bytes);
      var f := Resolve(root, e.rel);
      BinariesShape(cs);
      assert Manager.NoMarkers(Binaries(cs));
      NoMarkersOnlyBuffer(root, s, Binaries(cs));
      Manager.PayloadsOfBinaries(cs);
      ReceiveAppend(root, s, Binaries(cs), [Text(PathMarker(e.rel))]);
      assert [] + cs == cs;
      var made := AfterMkdirs(t, f);
      var t1 := if EndsWith(PathMarker(e.rel), EmptySuffix) then AfterCreateNewFile(made, f) else made;
      assert HandleText(root, Manager.ClientState(cs, t), PathMarker(e.rel)).state
          == Manager.ClientState([], AfterWriteFile(t1, root, e.rel, e.bytes));
      assert AfterWriteFile(t1, root, e.rel, e.bytes).files == AfterWriteFile(t, root, e.rel, e.bytes).files;
    }
  }

  /**
    The round trip: the sender's frames, read from an empty buffer, store every
    file as the sender had it, provided no non-empty file's path ends in ":empty".
    Unlike the newest client, a non-empty file named "empty" is read correctly.
   */
  lemma {:induction false} RoundTrip(root: string, t: Tree, entries: seq<FileEntry>)
    requires forall i :: 0 <= i < |entries| ==> Unambiguous(entries[i])
    ensures Receive(root, Manager.ClientState([], t), Encode(entries)) == Manager.ClientState([], Deliver(root, t, entries))
    decreases |entries|
  {
    if entries != [] {
      var s := Manager.ClientState([], t);
      ReceiveAppend(root, s, FileFrames(entries[0]), Encode(entries[1..]));
      ReceiveFile(root, t, entries[0]);
      RoundTrip(root, Store(root, t, entries[0]), entries[1..]);
    }
  }

  /** An empty file sent over an existing one leaves the old bytes: `createNewFile` does not truncate. */
  lemma EmptyFileKeepsOldBytes(root: string, t: Tree, rel: string)
    requires Resolve(root, rel) in t.files
    ensures var r := Receive(root, Manager.ClientState([], t), Encode([FileEntry(rel, [])])).tree;
      Resolve(root, rel) in r.files && r.files[Resolve(root, rel)] == t.files[Resolve(root, rel)]
  {
    RoundTrip(root, t, [FileEntry(rel, [])]);
    assert [FileEntry(rel, [])][1..] == [];
  }

  // ---------------------------------------------------------------- session

  /** `Synchronization`: the client bound to one sync folder on one disk. */
  class Synchronization {
    const syncFolder: string
    const disk: Disk

    constructor (syncFolder: string, disk: Disk)
      ensures this.syncFolder == syncFolder && this.disk == disk
    {
      this.syncFolder := syncFolder;
      this.disk := disk;
    }

    /** `uploadFiles`: the same per-file offset loop as App.kt's `sendFiles`. */
    method UploadFiles(files: seq<string>) returns (sent: seq<Frame>)
      ensures sent == Encode(Outgoing(syncFolder, disk.tree, files))
    {
      sent := App.SendFiles(syncFolder, disk, files);
    }

    /** `handleTextFrame`, with the chunk buffer passed in and handed back. */
    method HandleTextFrame(message: string, chunks: seq<seq<Byte>>)
      returns (remaining: seq<seq<Byte>>, filePath: Option<string>)
      modifies disk
      ensures Handled(Manager.ClientState(remaining, disk.tree), filePath)
           == HandleText(syncFolder, Manager.ClientState(chunks, old(disk.tree)), message)
    {
      remaining := chunks;
      if StartsWith(message, PathPrefix) {
        var path := RemoveSuffix(RemovePrefix(message, PathPrefix), EmptySuffix);
        var file := Resolve(syncFolder, path);
        disk.Mkdirs(file);
        if EndsWith(message, EmptySuffix) {
          disk.CreateNewFile(file);
        }
        filePath := Some(path);
      } else {
        filePath := None;
      }
      if |chunks| != 0 && filePath.Some? {
        var file := Resolve(syncFolder, filePath.value);
        disk.Mkdirs(file);
        var bytes := FlattenToBytes(chunks);
        disk.WriteBytes(file, bytes);
        remaining := [];
      }
    }

    /** `pullFiles`: the receiver loop runs whatever the list, empty or not. */
    method PullFiles(files: seq<string>, incoming: seq<Frame>)
      modifies disk
      ensures disk.tree == Receive(syncFolder, Manager.ClientState([], old(disk.tree)), incoming).tree
    {
      var chunks: seq<seq<Byte>> := [];
      var i := 0;
      while i < |incoming|
        invariant 0 <= i <= |incoming|
        invariant Receive(syncFolder, Manager.ClientState(chunks, disk.tree), incoming[i..])
               == Receive(syncFolder, Manager.ClientState([], old(disk.tree)), incoming)
      {
        assert incoming[i..][0] == incoming[i] && incoming[i..][1..] == incoming[i + 1..];
        match incoming[i] {
          case Binary(data) =>
            chunks := chunks + [data];
          case Text(message) =>
            var returned;
            chunks, returned := HandleTextFrame(message, chunks);
          case Other =>
        }
        i := i + 1;
      }
      assert incoming[i..] == [];
    }

    /**
      `sync`: without a remote listing nothing happens; otherwise both halves of
      the plan are computed, the pull runs, and nothing is uploaded.
     */
    method Sync(remote: Option<seq<DirectoryTreeNode>>, local: seq<FsEntry>, incoming: seq<Frame>)
      returns (plan: Option<Manager.Plan>)
      modifies disk
      ensures remote.None? ==> plan == None && disk.tree == old(disk.tree)
      ensures remote.Some? ==>
        && plan == Some(MakePlan(syncFolder, local, remote.value))
        && disk.tree == Receive(syncFolder, Manager.ClientState([], old(disk.tree)), incoming).tree
    {
      plan := None;
      if remote.Some? {
        var p := MakePlan(syncFolder, local, remote.value);
        PullFiles(Manager.PullPaths(p), incoming);
        plan := Some(p);
      }
    }
  }
}
