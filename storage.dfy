/**
  The local filesystem the file operations act on: regular files by path,
  each with its text and its status-change time, and the set of existing
  directories. The current directory (the empty path) and the root always
  exist. The clock is an input of every operation that creates a file.
 */
module Storage {
  import opened Wrappers
  import opened Errors
  import opened Paths

  /** A regular file: its text and its `st_ctime` (seconds). */
  datatype FileEntry = FileEntry(content: string, ctime: int)

  class FileSystem {
    var files: map<Path, FileEntry>
    var dirs: set<Path>

    ghost predicate Valid()
      reads this
    {
      files.Keys !! dirs && [] in dirs && ["/"] in dirs
    }

    constructor (files0: map<Path, FileEntry>, dirs0: set<Path>)
      requires files0.Keys !! dirs0 + {[], ["/"]}
      ensures Valid()
      ensures files == files0 && dirs == dirs0 + {[], ["/"]}
    {
      files := files0;
      dirs := dirs0 + {[], ["/"]};
    }

    /** `p.exists()` */
    predicate Exists(p: Path)
      reads this
    {
      p in files || p in dirs
    }
  }

  /** Some leading part of `dir`, the whole of it included, is a regular file. */
  predicate BlockedByFile(files: map<Path, FileEntry>, dir: Path)
  {
    exists i :: 0 <= i <= |dir| && dir[..i] in files
  }

  function Prefixes(dir: Path): set<Path>
  {
    set i | 0 <= i <= |dir| :: dir[..i]
  }

  /** `dir.mkdir(parents=True, exist_ok=True)`: fails when a regular file is in the way. */
  method MakeDirs(fs: FileSystem, dir: Path) returns (ok: bool)
    requires fs.Valid()
    modifies fs`dirs
    ensures fs.Valid()
    ensures ok == !BlockedByFile(fs.files, dir)
    ensures fs.dirs == if ok then old(fs.dirs) + Prefixes(dir) else old(fs.dirs)
    ensures ok ==> dir in fs.dirs
  {
    ok := !BlockedByFile(fs.files, dir);
    if ok {
      assert dir == dir[..|dir|];
      fs.dirs := fs.dirs + Prefixes(dir);
    }
  }

  lemma RemoveMore(files: map<Path, FileEntry>, gone: set<Path>, more: set<Path>)
    ensures files - gone - more == files - (gone + more)
  {
  }

  /**
    Where `shutil.copy2(src, dst)` writes: `dst` itself, or `dst / src.name`
    when `dst` is a directory; or why the copy fails. A copy of a file onto
    itself raises `SameFileError`.
   */
  function CopyDestination(files: map<Path, FileEntry>, dirs: set<Path>, src: Path, dst: Path): (r: Result<Path, Cause>)
    ensures r.Ok? ==> src in files && r.value !in dirs && Parent(r.value) in dirs && r.value != src
    ensures r.Ok? && dst !in dirs ==> r.value == dst
    ensures r == Err(SameFile) <==>
      src !in dirs && src in files && (if dst in dirs then dst + [Name(src)] else dst) == src
  {
    if src in dirs then Err(IsADirectory)
    else if src !in files then Err(NotFound)
    else
      var target := if dst in dirs then dst + [Name(src)] else dst;
      if target == src then Err(SameFile)
      else if target in dirs then Err(IsADirectory)
      else if Parent(target) !in dirs then Err(NotFound)
      else Ok(target)
  }

  /**
    `copy2(p, p)` and `copy2(p, p.parent)` name the source itself as the
    destination, so both raise `SameFileError`.
   */
  lemma CopyOntoItself(files: map<Path, FileEntry>, dirs: set<Path>, src: Path)
    requires files.Keys !! dirs && [] in dirs && ["/"] in dirs && src in files
    ensures CopyDestination(files, dirs, src, src) == Err(SameFile)
    ensures Parent(src) in dirs ==> CopyDestination(files, dirs, src, Parent(src)) == Err(SameFile)
  {
    assert src != [] && src != ["/"];
    assert Parent(src) + [Name(src)] == src;
  }
}
