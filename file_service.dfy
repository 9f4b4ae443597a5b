/**
  The client's file service (FileService.kt) and the java.io.File operations the
  receivers use, over a model of one filesystem: a map from normalised paths to
  file contents, and the set of directories that exist.
 */
module Files {
  import opened Chunks
  import opened KotlinCollections
  import opened Models

  /** Collapses every run of '/' into one '/'. */
  function CollapseSlashes(s: string): (r: string)
    ensures |r| <= |s|
    ensures |s| > 0 ==> |r| > 0 && r[0] == s[0]
    ensures forall i :: 0 <= i < |r| - 1 ==> !(r[i] == '/' && r[i + 1] == '/')
    decreases |s|
  {
    if |s| < 2 then s
    else if s[0] == '/' && s[1] == '/' then CollapseSlashes(s[1..])
    else [s[0]] + CollapseSlashes(s[1..])
  }

  /** How `java.io.File` normalises a Unix path: no doubled '/', no trailing '/'. */
  function Normalize(path: string): (r: string)
    ensures forall i :: 0 <= i < |r| - 1 ==> !(r[i] == '/' && r[i + 1] == '/')
    ensures |r| > 1 ==> r[|r| - 1] != '/'
  {
    var c := CollapseSlashes(path);
    if |c| > 1 && c[|c| - 1] == '/' then c[..|c| - 1] else c
  }

  /** `File("$root/$relativePath")`. */
  function Resolve(root: string, rel: string): string
  {
    Normalize(root + "/" + rel)
  }

  /** The directories above `path`: each of its prefixes that ends just before a '/'. */
  function Ancestors(path: string): set<string>
  {
    set i | 0 < i < |path| && path[i] == '/' :: path[..i]
  }

  /** Regular files with their contents, and the directories that exist. */
  datatype Tree = Tree(files: map<string, seq<Byte>>, dirs: set<string>)

  /** `file.parentFile.mkdirs()`: creates every missing directory above `path`. */
  function AfterMkdirs(t: Tree, path: string): Tree
  {
    t.(dirs := t.dirs + Ancestors(path))
  }

  /** `file.writeBytes(bytes)`: the whole content is replaced; nothing is appended. */
  function AfterWriteBytes(t: Tree, path: string, bytes: seq<Byte>): Tree
  {
    t.(files := t.files[path := bytes])
  }

  /** `file.createNewFile()`: creates an empty file only if none exists; never truncates. */
  function AfterCreateNewFile(t: Tree, path: string): Tree
  {
    if path in t.files then t else t.(files := t.files[path := []])
  }

  /** `file.length()` and `readBytes()`: a missing file reads as zero bytes. */
  function Content(t: Tree, path: string): seq<Byte>
  {
    if path in t.files then t.files[path] else []
  }

  /** `FileService.writeFile`: parents are created, then `rel` under `root` holds exactly `bytes`. */
  function AfterWriteFile(t: Tree, root: string, rel: string, bytes: seq<Byte>): (r: Tree)
    ensures var f := Resolve(root, rel);
      && f in r.files && r.files[f] == bytes
      && r.files - {f} == t.files - {f}
      && r.dirs == t.dirs + Ancestors(f)
  {
    var f := Resolve(root, rel);
    AfterWriteBytes(AfterMkdirs(t, f), f, bytes)
  }

  /**
    `FileService.createEmptyFile`: parents are created, then `rel` under `root`
    exists; an existing file keeps its content, a new one is empty.
   */
  function AfterCreateEmptyFile(t: Tree, root: string, rel: string): (r: Tree)
    ensures var f := Resolve(root, rel);
      && f in r.files && r.files[f] == Content(t, f)
      && r.files - {f} == t.files - {f}
      && r.dirs == t.dirs + Ancestors(f)
  {
    var f := Resolve(root, rel);
    AfterCreateNewFile(AfterMkdirs(t, f), f)
  }

  /** Creating the parent directories twice is the same as once. */
  lemma MkdirsIdempotent(t: Tree, path: string)
    ensures AfterMkdirs(AfterMkdirs(t, path), path) == AfterMkdirs(t, path)
  {
  }

  /** The filesystem as a mutable object, with the java.io.File operations on it. */
  class Disk {
    var tree: Tree

    constructor (initial: Tree)
      ensures tree == initial
    {
      tree := initial;
    }

    method Mkdirs(path: string)
      modifies this
      ensures tree == AfterMkdirs(old(tree), path)
    {
      tree := AfterMkdirs(tree, path);
    }

    method WriteBytes(path: string, bytes: seq<Byte>)
      modifies this
      ensures tree == AfterWriteBytes(old(tree), path, bytes)
    {
      tree := AfterWriteBytes(tree, path, bytes);
    }

    method CreateNewFile(path: string)
      modifies this
      ensures tree == AfterCreateNewFile(old(tree), path)
    {
      tree := AfterCreateNewFile(tree, path);
    }
  }

  /** One entry of a directory walk, with its last-modified instant. */
  datatype FsEntry = FsEntry(path: string, name: string, isFile: bool, modified: int)

  /** The names the client never syncs. */
  const IgnoreFiles: seq<string> := ["node_modules"]

  /** The `localFiles` filter: regular files whose own name is not ignored. */
  function KeepLocal(e: FsEntry): bool
  {
    e.isFile && e.name !in IgnoreFiles
  }

  /** `FileService.localFiles`: the walk's regular files whose own name is not ignored, in walk order. */
  function LocalFiles(walk: seq<FsEntry>): (r: seq<FsEntry>)
    ensures forall e :: e in r <==> e in walk && e.isFile && e.name !in IgnoreFiles
  {
    Filter(walk, KeepLocal)
  }

  /** The filter keeps walk order: the files of two walk segments come out segment by segment. */
  lemma LocalFilesAppend(a: seq<FsEntry>, b: seq<FsEntry>)
    ensures LocalFiles(a + b) == LocalFiles(a) + LocalFiles(b)
  {
    FilterAppend(a, b, KeepLocal);
  }

  /** `isNewerThan`: the local instant is strictly after the remote one. */
  predicate IsNewerThan(local: FsEntry, remote: DirectoryTreeNode)
  {
    remote.dateModified < local.modified
  }

  /** Equal instants are never newer, in either direction. */
  lemma NewerIsStrict(local: FsEntry, remote: DirectoryTreeNode)
    requires local.modified == remote.dateModified
    ensures !IsNewerThan(local, remote)
  {
  }

  /** `FileService`: a root folder on one disk. */
  class FileService {
    const rootFolder: string
    const disk: Disk

    constructor (rootFolder: string, disk: Disk)
      ensures this.rootFolder == rootFolder && this.disk == disk
    {
      this.rootFolder := rootFolder;
      this.disk := disk;
    }

    method WriteFile(relativePath: string, bytes: seq<Byte>)
      modifies disk
      ensures disk.tree == AfterWriteFile(old(disk.tree), rootFolder, relativePath, bytes)
    {
      var file := Resolve(rootFolder, relativePath);
      disk.Mkdirs(file);
      disk.WriteBytes(file, bytes);
    }

    method CreateEmptyFile(relativePath: string)
      modifies disk
      ensures disk.tree == AfterCreateEmptyFile(old(disk.tree), rootFolder, relativePath)
    {
      var file := Resolve(rootFolder, relativePath);
      disk.Mkdirs(file);
      disk.CreateNewFile(file);
    }
  }
}
