/**
  The first client (App.kt): it uploads every local file whose relative path the
  server does not list, whatever the timestamps.
 */
module App {
  import opened KotlinStrings
  import opened KotlinCollections
  import opened Files
  import opened Protocol

  /** `filterNot { it.substringAfter(syncFolder) in remote.files }`: keep what the server lacks. */
  function MissingRemotely(syncFolder: string, remote: seq<string>): string -> bool
  {
    (p: string) => SubstringAfter(p, syncFolder) !in remote
  }

  /** `remoteLocalCompare`: the local paths whose relative form the server does not list. */
  function RemoteLocalCompare(syncFolder: string, local: seq<string>, remote: seq<string>): (r: seq<string>)
    ensures |r| <= |local|
    ensures forall p :: p in r <==> p in local && SubstringAfter(p, syncFolder) !in remote
  {
    Filter(local, MissingRemotely(syncFolder, remote))
  }

  /** A file under the sync folder is selected exactly when its relative path is not listed remotely. */
  lemma SelectedIffNotListed(syncFolder: string, rel: string, local: seq<string>, remote: seq<string>)
    requires syncFolder + rel in local
    ensures syncFolder + rel in RemoteLocalCompare(syncFolder, local, remote) <==> rel !in remote
  {
    SubstringAfterLeading(syncFolder, rel);
  }

  /** Selection keeps the local order: selecting from two lists in turn is selecting from both. */
  lemma SelectionKeepsOrder(syncFolder: string, a: seq<string>, b: seq<string>, remote: seq<string>)
    ensures RemoteLocalCompare(syncFolder, a + b, remote)
         == RemoteLocalCompare(syncFolder, a, remote) + RemoteLocalCompare(syncFolder, b, remote)
  {
    FilterAppend(a, b, MissingRemotely(syncFolder, remote));
  }

  /**
    `sendFiles`: for each path, a zero-length file is one empty marker; any
    other is sent by the offset loop and followed by its path marker.
   */
  method SendFiles(syncFolder: string, disk: Disk, files: seq<string>) returns (sent: seq<Frame>)
    ensures sent == Encode(Outgoing(syncFolder, disk.tree, files))
  {
    sent := [];
    var tree := disk.tree;
    for i := 0 to |files|
      invariant sent == Encode(Outgoing(syncFolder, tree, files[..i]))
    {
      var filePath := files[i];
      var substringPath := SubstringAfter(filePath, syncFolder);
      var fileBytes := Content(tree, Normalize(filePath));
      var frames;
      if |fileBytes| == 0 {
        frames := [Text(EmptyMarker(substringPath))];
      } else {
        var chunks := SendChunks(fileBytes);
        frames := chunks + [Text(PathMarker(substringPath))];
      }
      assert files[..i + 1] == files[..i] + [filePath];
      SendStep(syncFolder, tree, files[..i], filePath);
      assert frames == FileFrames(FileEntry(substringPath, fileBytes));
      sent := sent + frames;
    }
    assert files[..|files|] == files;
  }

  /** `syncDirectory`: send what the server lacks. */
  method SyncDirectory(syncFolder: string, disk: Disk, local: seq<string>, remote: seq<string>)
    returns (sent: seq<Frame>)
    ensures sent == Encode(Outgoing(syncFolder, disk.tree, RemoteLocalCompare(syncFolder, local, remote)))
  {
    sent := SendFiles(syncFolder, disk, RemoteLocalCompare(syncFolder, local, remote));
  }
}
