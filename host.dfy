/** The host the servers run on, reduced to what their request handlers ask of
    it: a file system of files and directories, addressed by absolute normalised
    paths. A file can exist and still fail to read (no permission, a read
    error). */
module Host {
  import opened Paths

  datatype Option<T> = None | Some(value: T)

  datatype FileSystem = FileSystem(files: map<string, string>, dirs: set<string>, unreadable: set<string>)

  /** The path with one trailing `/` removed, except for the root `/`. */
  function Untrailed(p: string): (r: string)
    ensures HasTrailingSlash(p) && p != "/" ==> r == p[..|p| - 1]
    ensures !(HasTrailingSlash(p) && p != "/") ==> r == p
  {
    if HasTrailingSlash(p) && p != "/" then p[..|p| - 1] else p
  }

  /** A path ending in `/` names a directory; only a directory can be looked up
      through it. */
  predicate IsDirectory(fs: FileSystem, p: string)
  {
    Untrailed(p) in fs.dirs
  }

  /** `existsSync(p)`. */
  predicate Exists(fs: FileSystem, p: string)
  {
    IsDirectory(fs, p) || (!HasTrailingSlash(p) && p in fs.files)
  }

  /** `fs.readFile(p)`: the contents of a readable file; reading a directory, a
      missing path or an unreadable file fails. */
  function ReadFile(fs: FileSystem, p: string): (r: Option<string>)
    ensures r.Some? ==> Exists(fs, p) && !IsDirectory(fs, p) && r.value == fs.files[p]
  {
    if !HasTrailingSlash(p) && p in fs.files && p !in fs.unreadable && p !in fs.dirs then Some(fs.files[p])
    else None
  }
}
