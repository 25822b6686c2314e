/**
 * The part of `node:fs/promises` the profile staging uses: `mkdir` with
 * `{ recursive: true }` and `writeFile`, over a filesystem made of a set of
 * directories and a map from file paths to contents.
 */
module FileSystem {
  import opened Paths
  import opened Wrappers

  /** The error codes the two calls can reject with. */
  datatype FsError =
    | AlreadyExists(path: Path)  // EEXIST: the directory to create is a file
    | NotADirectory(path: Path)  // ENOTDIR: a file stands where an ancestor directory is needed
    | IsADirectory(path: Path)   // EISDIR: the file to write is a directory
    | NoEntry(path: Path)        // ENOENT: the file's directory does not exist

  /**
   * What every real filesystem satisfies: a directory's ancestors are
   * directories, nothing is both a file and a directory, and every file
   * lives in an existing directory (or in the current one).
   */
  predicate WellFormed(dirs: set<Path>, files: map<Path, string>) {
    ParentClosed(dirs) && (forall p {:trigger FilePlaced(dirs, p)} :: p in files ==> FilePlaced(dirs, p))
  }

  /** A file at p is not a directory and lies in an existing directory (or in the current one). */
  predicate FilePlaced(dirs: set<Path>, p: Path) {
    |p| > 0 && p !in dirs && (|p| == 1 || Parent(p) in dirs)
  }

  /** `mkdir(p, { recursive: true })` rejects exactly when a file is in the way. */
  predicate MkdirBlocked(files: map<Path, string>, p: Path) {
    exists q :: q in Prefixes(p) && q in files
  }

  /**
   * How a recursive `mkdir(p)` settles: EEXIST when p itself is a file,
   * ENOTDIR when a file stands on one of its ancestors.
   */
  function MkdirOutcome(files: map<Path, string>, p: Path): (r: Result<(), FsError>)
    ensures r.Err? <==> MkdirBlocked(files, p)
    ensures r == Err(AlreadyExists(p)) <==> |p| > 0 && p in files
    ensures r.Err? ==> r.error == AlreadyExists(p) || r.error == NotADirectory(p)
  {
    if !MkdirBlocked(files, p) then Ok(())
    else if p in files then Err(AlreadyExists(p))
    else Err(NotADirectory(p))
  }

  /**
   * How `writeFile(p, …)` settles, as `open` resolves p one segment at a
   * time: ENOTDIR when a file stands on one of p's ancestors, EISDIR when p
   * is a directory, ENOENT for the empty path or a missing parent.
   */
  function WriteOutcome(dirs: set<Path>, files: map<Path, string>, p: Path): (r: Result<(), FsError>)
    ensures r.Ok? <==> FilePlaced(dirs, p) && !(|p| > 1 && MkdirBlocked(files, Parent(p)))
    ensures r == Err(NotADirectory(p)) <==> |p| > 1 && MkdirBlocked(files, Parent(p))
    ensures r == Err(IsADirectory(p)) <==> |p| > 0 && p in dirs && !(|p| > 1 && MkdirBlocked(files, Parent(p)))
    ensures r == Err(NoEntry(p)) <==>
      (|p| == 0 || (|p| > 1 && !MkdirBlocked(files, Parent(p)) && p !in dirs && Parent(p) !in dirs))
    ensures r.Err? ==> r.error.path == p
  {
    if |p| == 0 then Err(NoEntry(p))
    else if |p| > 1 && MkdirBlocked(files, Parent(p)) then Err(NotADirectory(p))
    else if p in dirs then Err(IsADirectory(p))
    else if |p| > 1 && Parent(p) !in dirs then Err(NoEntry(p))
    else Ok(())
  }

  /**
   * In a well-formed filesystem, a write into an existing directory can
   * only be rejected because p itself is a directory: no file stands on an
   * ancestor of a directory.
   */
  lemma WriteIntoDirectory(dirs: set<Path>, files: map<Path, string>, p: Path)
    requires WellFormed(dirs, files)
    requires |p| > 1 && Parent(p) in dirs
    ensures WriteOutcome(dirs, files, p) == if p in dirs then Err(IsADirectory(p)) else Ok(())
  {
    ParentClosedHasPrefixes(dirs, Parent(p));
    forall q | q in files ensures q !in Prefixes(Parent(p)) {
      assert FilePlaced(dirs, q);
    }
  }

  /** A write under a file names ENOTDIR, not ENOENT. */
  lemma WriteUnderFile()
    ensures WellFormed({}, map[["f"] := "x"])
    ensures WriteOutcome({}, map[["f"] := "x"], ["f", "g"]) == Err(NotADirectory(["f", "g"]))
  {
    assert FilePlaced({}, ["f"]);
    assert Parent(["f", "g"]) == ["f"];
    assert ["f"] in Prefixes(["f"]);
  }

  /** Files off the path of a recursive `mkdir` do not change how it settles. */
  lemma MkdirIgnoresOtherFiles(files: map<Path, string>, w: map<Path, string>, p: Path)
    requires forall f :: f in w ==> f !in Prefixes(p)
    ensures MkdirBlocked(files + w, p) == MkdirBlocked(files, p)
    ensures MkdirOutcome(files + w, p) == MkdirOutcome(files, p)
  {
    if |p| > 0 {
      assert p in Prefixes(p);
    }
  }

  /** Creating a directory where no file is in the way keeps the filesystem well formed. */
  lemma MkdirKeepsWellFormed(dirs: set<Path>, files: map<Path, string>, p: Path)
    requires WellFormed(dirs, files) && !MkdirBlocked(files, p)
    ensures WellFormed(dirs + Prefixes(p), files)
  {
    PrefixesParentClosed(p);
    forall q | q in files ensures FilePlaced(dirs + Prefixes(p), q) {
      assert FilePlaced(dirs, q);
    }
  }

  /** A write that settles successfully keeps the filesystem well formed. */
  lemma WriteKeepsWellFormed(dirs: set<Path>, files: map<Path, string>, p: Path, contents: string)
    requires WellFormed(dirs, files) && WriteOutcome(dirs, files, p).Ok?
    ensures WellFormed(dirs, files[p := contents])
  {
    assert FilePlaced(dirs, p);
  }

  /**
   * The filesystem the staging calls act on. The effect of each call is
   * stated exactly, and each call keeps it well formed.
   */
  class Disk {
    var dirs: set<Path>
    var files: map<Path, string>

    predicate Valid()
      reads this
    {
      WellFormed(dirs, files)
    }

    constructor ()
      ensures Valid() && dirs == {} && files == map[]
    {
      dirs := {};
      files := map[];
    }

    /**
     * Recursive `mkdir`: creates p and all its ancestors; directories that
     * already exist are not an error. Nothing changes when it rejects.
     */
    method Mkdir(p: Path) returns (r: Result<(), FsError>)
      requires Valid()
      modifies this
      ensures Valid()
      ensures r == MkdirOutcome(old(files), p)
      ensures dirs == if r.Ok? then old(dirs) + Prefixes(p) else old(dirs)
      ensures files == old(files)
    {
      r := MkdirOutcome(files, p);
      if r.Ok? {
        MkdirKeepsWellFormed(dirs, files, p);
        dirs := dirs + Prefixes(p);
      }
    }

    /** `writeFile`: creates or overwrites one file; nothing changes when it rejects. */
    method WriteFile(p: Path, contents: string) returns (r: Result<(), FsError>)
      requires Valid()
      modifies this
      ensures Valid()
      ensures r == WriteOutcome(old(dirs), old(files), p)
      ensures files == if r.Ok? then old(files)[p := contents] else old(files)
      ensures dirs == old(dirs)
    {
      r := WriteOutcome(dirs, files, p);
      if r.Ok? {
        WriteKeepsWellFormed(dirs, files, p, contents);
        files := files[p := contents];
      }
    }
  }
}
