/**
 * The Gecko launcher: stage a minimal application package under the data
 * directory, then start the browser on it over a websocket.
 */
module Gecko {
  import opened Paths
  import opened Wrappers
  import opened FileSystem
  import Decimal
  import Launcher

  /** `app/application.ini`: the application descriptor. */
  const ApplicationIni: string :=
    "\n[App]\nVendor=GluonFramework\nName=GluonApp\nversion=1.0\nBuildID=20230118\nID=something@example.com\n\n[Gecko]\nMinVersion=80.* # Who is really going to want to use something older?\nMaxVersion=999.* # Sufficiently far in the future for everyone to forget it exists :)\n"

  /** `app/chrome.manifest`: maps `app/chrome/` to `chrome://gluon-framework/content/`. */
  const ChromeManifest: string := "content gluon-framework chrome/"

  /** The text of `app/defaults/preferences/prefs.js` before and after the URL. */
  const PrefsBefore: string := "\n// TODO: Docs\npref('toolkit.defaultCrhomeURI', '"
  const PrefsAfter: string := "');\n"

  /** `app/chrome/index.html`: the static shell. */
  const IndexHtml: string :=
    "\n<?xml version=\"1.0\"?>\n\n<?xml-stylesheet href=\"chrome://global/skin/\" type=\"text/css\"?>\n\n  \n  <h1>Hello world!</h1>"

  /** `prefs.js`: the URL is spliced in verbatim, without any validation or escaping. */
  function PrefsJs(url: string): (s: string)
    ensures |s| == |PrefsBefore| + |url| + |PrefsAfter|
    ensures s[..|PrefsBefore|] == PrefsBefore
    ensures s[|PrefsBefore|..|PrefsBefore| + |url|] == url
    ensures s[|PrefsBefore| + |url|..] == PrefsAfter
  {
    PrefsBefore + url + PrefsAfter
  }

  /** The package's directories, relative to the data directory. */
  const AppTail: Path := ["app"]
  const ChromeTail: Path := ["app", "chrome"]
  const ContentTail: Path := ["app", "chrome", "content"]
  const DefaultsTail: Path := ["app", "defaults"]
  const PreferencesTail: Path := ["app", "defaults", "preferences"]

  /** The package's files, relative to the data directory. */
  const IniTail: Path := ["app", "application.ini"]
  const ManifestTail: Path := ["app", "chrome.manifest"]
  const PrefsFileTail: Path := ["app", "defaults", "preferences", "prefs.js"]
  const IndexTail: Path := ["app", "chrome", "index.html"]
  const FileTails: set<Path> := {IniTail, ManifestTail, PrefsFileTail, IndexTail}

  /** The directories the three recursive `mkdir` calls create. */
  function StagedDirs(d: Path): set<Path> {
    Prefixes(d) + Prefixes(d + ContentTail) + Prefixes(d + PreferencesTail)
  }

  /** The five directories of the package under d. */
  function PackageDirs(d: Path): set<Path> {
    {d + AppTail, d + ChromeTail, d + ContentTail, d + DefaultsTail, d + PreferencesTail}
  }

  /** The four files `writePackageFile` writes, with their contents. */
  function StagedFiles(d: Path, url: string): map<Path, string> {
    map[d + IniTail := ApplicationIni, d + ManifestTail := ChromeManifest,
        d + PrefsFileTail := PrefsJs(url), d + IndexTail := IndexHtml]
  }

  /**
   * How the staging sequence settles: the first call that rejects decides
   * the error, and a rejection aborts the calls after it.
   */
  function StageOutcome(dirs: set<Path>, files: map<Path, string>, d: Path): Result<(), FsError> {
    if MkdirBlocked(files, d) then MkdirOutcome(files, d)
    else if MkdirBlocked(files, d + ContentTail) then MkdirOutcome(files, d + ContentTail)
    else if MkdirBlocked(files, d + PreferencesTail) then MkdirOutcome(files, d + PreferencesTail)
    else TemplatesOutcome(dirs, d)
  }

  /** No file stands in the way of any of the three `mkdir` calls. */
  predicate TreeUnblocked(files: map<Path, string>, d: Path) {
    !MkdirBlocked(files, d) && !MkdirBlocked(files, d + ContentTail) &&
    !MkdirBlocked(files, d + PreferencesTail)
  }

  /** The directories after the `mkdir` calls, which stop at the first rejection. */
  function TreeDirs(dirs: set<Path>, files: map<Path, string>, d: Path): set<Path> {
    if MkdirBlocked(files, d) then dirs
    else if MkdirBlocked(files, d + ContentTail) then dirs + Prefixes(d)
    else if MkdirBlocked(files, d + PreferencesTail) then dirs + Prefixes(d) + Prefixes(d + ContentTail)
    else dirs + StagedDirs(d)
  }

  /** The files the four writes create or overwrite before the first rejection. */
  function TemplatesWritten(dirs: set<Path>, d: Path, url: string): map<Path, string> {
    if d + IniTail in dirs then map[]
    else if d + ManifestTail in dirs then map[d + IniTail := ApplicationIni]
    else if d + PrefsFileTail in dirs then map[d + IniTail := ApplicationIni, d + ManifestTail := ChromeManifest]
    else if d + IndexTail in dirs then
      map[d + IniTail := ApplicationIni, d + ManifestTail := ChromeManifest, d + PrefsFileTail := PrefsJs(url)]
    else StagedFiles(d, url)
  }

  /** The files after the four writes. */
  function TemplateFiles(dirs: set<Path>, files: map<Path, string>, d: Path, url: string): map<Path, string> {
    files + TemplatesWritten(dirs, d, url)
  }

  /** The files after the whole staging sequence. */
  function StageFiles(dirs: set<Path>, files: map<Path, string>, d: Path, url: string): map<Path, string> {
    if TreeUnblocked(files, d) then TemplateFiles(dirs, files, d, url) else files
  }

  /** How the four writes settle once the tree exists: only a directory in the way rejects. */
  function TemplatesOutcome(dirs: set<Path>, d: Path): Result<(), FsError> {
    if d + IniTail in dirs then Err(IsADirectory(d + IniTail))
    else if d + ManifestTail in dirs then Err(IsADirectory(d + ManifestTail))
    else if d + PrefsFileTail in dirs then Err(IsADirectory(d + PrefsFileTail))
    else if d + IndexTail in dirs then Err(IsADirectory(d + IndexTail))
    else Ok(())
  }

  /** Joining the same directory to two tails gives the same path only for the same tail. */
  lemma JoinCancel(d: Path, t: Path, u: Path)
    ensures d + t == d + u <==> t == u
  {
    if d + t == d + u {
      assert t == (d + t)[|d|..];
      assert u == (d + u)[|d|..];
    }
  }

  /**
   * The staged directories are exactly the data directory, its ancestors,
   * and the five directories of the package.
   */
  lemma StagedDirsExactly(d: Path)
    ensures StagedDirs(d) == Prefixes(d) + PackageDirs(d)
  {
    ContentPrefixes(d);
    PreferencesPrefixes(d);
  }

  /** Creating `d/app/chrome/content` creates d's ancestors, d, `app`, `chrome` and `content`. */
  lemma ContentPrefixes(d: Path)
    ensures Prefixes(d + ContentTail) == Prefixes(d) + {d + AppTail, d + ChromeTail, d + ContentTail}
  {
    PrefixesSnoc(d, "app");
    assert d + AppTail == d + ["app"];
    PrefixesSnoc(d + AppTail, "chrome");
    assert d + ChromeTail == d + AppTail + ["chrome"];
    PrefixesSnoc(d + ChromeTail, "content");
    assert d + ContentTail == d + ChromeTail + ["content"];
  }

  /** Creating `d/app/defaults/preferences` creates d's ancestors, d, `app`, `defaults` and `preferences`. */
  lemma PreferencesPrefixes(d: Path)
    ensures Prefixes(d + PreferencesTail) == Prefixes(d) + {d + AppTail, d + DefaultsTail, d + PreferencesTail}
  {
    PrefixesSnoc(d, "app");
    assert d + AppTail == d + ["app"];
    PrefixesSnoc(d + AppTail, "defaults");
    assert d + DefaultsTail == d + AppTail + ["defaults"];
    PrefixesSnoc(d + DefaultsTail, "preferences");
    assert d + PreferencesTail == d + DefaultsTail + ["preferences"];
  }

  /**
   * After staging, the data directory (unless it is the current directory),
   * the two leaf directories and every ancestor of each are directories.
   */
  lemma StagedDirsClosed(d: Path)
    ensures |d| > 0 ==> d in StagedDirs(d)
    ensures d + ContentTail in StagedDirs(d) && d + PreferencesTail in StagedDirs(d)
    ensures d + ChromeTail in StagedDirs(d) && d + DefaultsTail in StagedDirs(d)
    ensures forall q :: q in StagedDirs(d) ==> Prefixes(q) <= StagedDirs(d)
    ensures ParentClosed(StagedDirs(d))
  {
    PrefixesParentClosed(d);
    PrefixesParentClosed(d + ContentTail);
    PrefixesParentClosed(d + PreferencesTail);
    forall q | q in StagedDirs(d) ensures Prefixes(q) <= StagedDirs(d) {
      if q in Prefixes(d) { PrefixesClosed(q, d); }
      else if q in Prefixes(d + ContentTail) { PrefixesClosed(q, d + ContentTail); }
      else { PrefixesClosed(q, d + PreferencesTail); }
    }
    StagedDirsExactly(d);
  }

  /** The package's directories, relative to the data directory. */
  const DirTails: set<Path> := {AppTail, ChromeTail, ContentTail, DefaultsTail, PreferencesTail}

  /** No file tail is a directory tail, and the parent of each is one. */
  lemma FileTailFacts(t: Path)
    requires t in FileTails
    ensures t !in DirTails && |t| >= 2 && t[0] == "app" && t[..|t| - 1] in DirTails
  {
    assert IniTail[..1] == AppTail && ManifestTail[..1] == AppTail;
    assert PrefsFileTail[..3] == PreferencesTail && IndexTail[..2] == ChromeTail;
  }

  /** Joined to d, a tail that is no directory tail gives no package directory. */
  lemma NotPackageDir(d: Path, t: Path)
    requires t !in DirTails
    ensures d + t !in PackageDirs(d)
  {
    JoinCancel(d, t, AppTail);
    JoinCancel(d, t, ChromeTail);
    JoinCancel(d, t, ContentTail);
    JoinCancel(d, t, DefaultsTail);
    JoinCancel(d, t, PreferencesTail);
  }

  /** Joined to d, a directory tail gives a package directory. */
  lemma IsPackageDir(d: Path, t: Path)
    requires t in DirTails
    ensures d + t in PackageDirs(d)
  {
  }

  /** A file tail joined to d lies strictly inside d, is no staged directory, and its parent is one. */
  lemma StagedFileInTree(d: Path, t: Path)
    requires t in FileTails
    ensures |d + t| >= |d| + 2 && (d + t)[..|d|] == d && (d + t)[|d|] == "app"
    ensures d + t !in StagedDirs(d)
    ensures Parent(d + t) in StagedDirs(d)
  {
    FileTailFacts(t);
    StagedDirsExactly(d);
    NotPackageDir(d, t);
    if d + t in Prefixes(d) {
      PrefixesBounded(d + t, d);
    }
    assert (d + t)[..|d|] == d;
    var parent := t[..|t| - 1];
    assert Parent(d + t) == d + parent;
    IsPackageDir(d, parent);
  }

  /** The four staged file paths, which are pairwise different. */
  lemma StagedFileKeys(d: Path, url: string)
    ensures StagedFiles(d, url).Keys == {d + IniTail, d + ManifestTail, d + PrefsFileTail, d + IndexTail}
    ensures |StagedFiles(d, url).Keys| == 4
  {
    JoinCancel(d, PrefsFileTail, IniTail);
    JoinCancel(d, PrefsFileTail, ManifestTail);
    JoinCancel(d, PrefsFileTail, IndexTail);
    JoinCancel(d, IndexTail, IniTail);
    JoinCancel(d, IndexTail, ManifestTail);
    JoinCancel(d, ManifestTail, IniTail);
    var four := {d + IniTail, d + ManifestTail, d + PrefsFileTail, d + IndexTail};
    assert |four - {d + IndexTail}| == 3;
  }

  /**
   * Exactly four files are written, all strictly inside the data directory;
   * none of them is a staged directory and each one's parent is.
   */
  lemma StagedFilesLayout(d: Path, url: string)
    ensures |StagedFiles(d, url).Keys| == 4
    ensures forall f :: f in StagedFiles(d, url) ==>
      |f| >= |d| + 2 && f[..|d|] == d && f[|d|] == "app" &&
      f !in StagedDirs(d) && Parent(f) in StagedDirs(d)
  {
    StagedFileKeys(d, url);
    forall f | f in StagedFiles(d, url)
      ensures |f| >= |d| + 2 && f[..|d|] == d && f[|d|] == "app"
      ensures f !in StagedDirs(d) && Parent(f) in StagedDirs(d)
    {
      var t := if f == d + IniTail then IniTail else if f == d + ManifestTail then ManifestTail
        else if f == d + PrefsFileTail then PrefsFileTail else IndexTail;
      StagedFileInTree(d, t);
    }
  }

  /** The prefs file contains the URL as a substring, and different URLs give different files. */
  lemma PrefsEmbedsUrl(url: string, other: string)
    ensures 0 <= |PrefsBefore| <= |PrefsJs(url)| - |url|
    ensures PrefsJs(url)[|PrefsBefore|..|PrefsBefore| + |url|] == url
    ensures PrefsJs(url) == PrefsJs(other) ==> url == other
  {
  }

  /**
   * Only the prefs file depends on an input, and only on the URL: the
   * other three are the fixed templates. The manifest is one line.
   */
  lemma ContentsIgnoreInputs(d: Path, e: Path, url: string, other: string)
    ensures StagedFiles(d, url)[d + ManifestTail] == "content gluon-framework chrome/"
    ensures forall f :: f in StagedFiles(d, url) && f != d + PrefsFileTail ==>
      StagedFiles(d, url)[f] == StagedFiles(d, other)[f]
    ensures StagedFiles(d, url)[d + IniTail] == StagedFiles(e, other)[e + IniTail] == ApplicationIni
    ensures StagedFiles(d, url)[d + IndexTail] == StagedFiles(e, other)[e + IndexTail] == IndexHtml
    ensures StagedFiles(d, url)[d + PrefsFileTail] == PrefsJs(url)
  {
    StagedFileKeys(d, url);
    StagedFileKeys(e, other);
  }

  /** Staging succeeds exactly when no file stands where a staged directory or a staged file goes. */
  lemma StageOutcomeOk(dirs: set<Path>, files: map<Path, string>, d: Path, url: string)
    ensures StageOutcome(dirs, files, d).Ok? <==>
      (forall q :: q in StagedDirs(d) ==> q !in files) &&
      (forall f :: f in StagedFiles(d, url) ==> f !in dirs)
  {
    StagedFileKeys(d, url);
  }

  /**
   * Staging keeps a well-formed filesystem well formed: the tree layout puts
   * every written file under an existing directory.
   */
  lemma StagePreservesWellFormed(dirs: set<Path>, files: map<Path, string>, d: Path, url: string)
    requires WellFormed(dirs, files)
    requires StageOutcome(dirs, files, d).Ok?
    ensures WellFormed(dirs + StagedDirs(d), files + StagedFiles(d, url))
  {
    var dirs', files' := dirs + StagedDirs(d), files + StagedFiles(d, url);
    StageOutcomeOk(dirs, files, d, url);
    StagedFilesLayout(d, url);
    StagedDirsClosed(d);
    forall p | p in files' ensures FilePlaced(dirs', p) {
      if p !in StagedFiles(d, url) {
        assert p in files && FilePlaced(dirs, p);
      }
    }
  }

  /**
   * Staging twice with the same data directory and URL leaves the state
   * staging once left: the second run succeeds too (existing directories
   * are no error, files are overwritten) and adds nothing new.
   */
  lemma StageIdempotent(dirs: set<Path>, files: map<Path, string>, d: Path, url: string)
    requires StageOutcome(dirs, files, d).Ok?
    ensures var dirs', files' := dirs + StagedDirs(d), files + StagedFiles(d, url);
      StageOutcome(dirs', files', d).Ok? &&
      dirs' + StagedDirs(d) == dirs' && files' + StagedFiles(d, url) == files'
  {
    var dirs', files' := dirs + StagedDirs(d), files + StagedFiles(d, url);
    StageOutcomeOk(dirs, files, d, url);
    forall f | f in StagedFiles(d, url) ensures f !in StagedDirs(d) {
      StagedFilesLayout(d, url);
    }
    StageOutcomeOk(dirs', files', d, url);
  }

  /**
   * Staging is idempotent whatever the first run did: run again with the
   * same data directory and URL, it settles as the first run did and leaves
   * the state as it was. After a rejection, each recursive `mkdir` before it
   * repeats harmlessly, the writes before it put down the same contents
   * again, and the same call rejects again.
   */
  lemma StageIdempotentAll(dirs: set<Path>, files: map<Path, string>, d: Path, url: string)
    ensures var dirs1, files1 := TreeDirs(dirs, files, d), StageFiles(dirs, files, d, url);
      StageOutcome(dirs1, files1, d) == StageOutcome(dirs, files, d) &&
      TreeDirs(dirs1, files1, d) == dirs1 && StageFiles(dirs1, files1, d, url) == files1
  {
    var dirs1, files1 := TreeDirs(dirs, files, d), StageFiles(dirs, files, d, url);
    TreeDirsBounds(dirs, files, d);
    if TreeUnblocked(files, d) {
      var w := TemplatesWritten(dirs, d, url);
      TemplatesWrittenStaged(dirs, d, url);
      StagedFilesOffTree(d, url);
      MkdirIgnoresOtherFiles(files, w, d);
      MkdirIgnoresOtherFiles(files, w, d + ContentTail);
      MkdirIgnoresOtherFiles(files, w, d + PreferencesTail);
      TemplatesIgnoreStagedDirs(dirs, d, url);
      assert files1 + w == files1;
    }
  }

  /** No staged file stands where one of the staging `mkdir` calls creates a directory. */
  lemma StagedFilesOffTree(d: Path, url: string)
    ensures forall f :: f in StagedFiles(d, url) ==>
      f !in Prefixes(d) && f !in Prefixes(d + ContentTail) && f !in Prefixes(d + PreferencesTail)
  {
    StagedFilesLayout(d, url);
  }

  /** Creating the staged directories again changes nothing about how the writes settle. */
  lemma TemplatesIgnoreStagedDirs(dirs: set<Path>, d: Path, url: string)
    ensures TemplatesOutcome(dirs + StagedDirs(d), d) == TemplatesOutcome(dirs, d)
    ensures TemplatesWritten(dirs + StagedDirs(d), d, url) == TemplatesWritten(dirs, d, url)
  {
    StagedFileInTree(d, IniTail);
    StagedFileInTree(d, ManifestTail);
    StagedFileInTree(d, PrefsFileTail);
    StagedFileInTree(d, IndexTail);
  }

  /**
   * The directories after the `mkdir` calls lie between the old ones and the
   * old ones plus the staged tree, and are the latter when nothing blocks.
   */
  lemma TreeDirsBounds(dirs: set<Path>, files: map<Path, string>, d: Path)
    ensures dirs <= TreeDirs(dirs, files, d) <= dirs + StagedDirs(d)
    ensures TreeUnblocked(files, d) ==> TreeDirs(dirs, files, d) == dirs + StagedDirs(d)
    ensures !MkdirBlocked(files, d) ==> dirs + Prefixes(d) <= TreeDirs(dirs, files, d)
  {
  }

  /**
   * A rejected write changes nothing after it: every file the writes did
   * not target keeps its contents, every file afterwards holds either its
   * old contents or its template, and when all four succeed the templates
   * override the old files.
   */
  lemma TemplateFilesFrame(dirs: set<Path>, files: map<Path, string>, d: Path, url: string)
    ensures TemplatesOutcome(dirs, d).Ok? ==> TemplateFiles(dirs, files, d, url) == files + StagedFiles(d, url)
    ensures forall f :: f in files && f !in StagedFiles(d, url) ==>
      f in TemplateFiles(dirs, files, d, url) && TemplateFiles(dirs, files, d, url)[f] == files[f]
    ensures forall f :: f in TemplateFiles(dirs, files, d, url) ==>
      (f in StagedFiles(d, url) && TemplateFiles(dirs, files, d, url)[f] == StagedFiles(d, url)[f]) ||
      (f in files && TemplateFiles(dirs, files, d, url)[f] == files[f])
  {
    TemplatesWrittenStaged(dirs, d, url);
  }

  /** What the writes put down is a part of the staged files, and all of them when none rejects. */
  lemma TemplatesWrittenStaged(dirs: set<Path>, d: Path, url: string)
    ensures forall f :: f in TemplatesWritten(dirs, d, url) ==>
      f in StagedFiles(d, url) && TemplatesWritten(dirs, d, url)[f] == StagedFiles(d, url)[f]
    ensures TemplatesOutcome(dirs, d).Ok? <==> TemplatesWritten(dirs, d, url) == StagedFiles(d, url)
  {
    StagedFileKeys(d, url);
    var w := TemplatesWritten(dirs, d, url);
    if !TemplatesOutcome(dirs, d).Ok? {
      assert d + IndexTail !in w;
    }
  }

  /** The same for the whole staging sequence, which writes nothing when a `mkdir` rejects. */
  lemma StageFilesFrame(dirs: set<Path>, files: map<Path, string>, d: Path, url: string)
    ensures StageOutcome(dirs, files, d).Ok? ==> StageFiles(dirs, files, d, url) == files + StagedFiles(d, url)
    ensures !TreeUnblocked(files, d) ==> StageFiles(dirs, files, d, url) == files
    ensures forall f :: f in files && f !in StagedFiles(d, url) ==>
      f in StageFiles(dirs, files, d, url) && StageFiles(dirs, files, d, url)[f] == files[f]
    ensures forall f :: f in StageFiles(dirs, files, d, url) ==>
      (f in StagedFiles(d, url) && StageFiles(dirs, files, d, url)[f] == StagedFiles(d, url)[f]) ||
      (f in files && StageFiles(dirs, files, d, url)[f] == files[f])
  {
    TemplateFilesFrame(dirs, files, d, url);
  }

  /** The three recursive `mkdir` calls; the first rejection aborts the others. */
  method CreateTree(disk: Disk, dataPath: Path) returns (r: Result<(), FsError>)
    requires disk.Valid()
    modifies disk
    ensures disk.Valid()
    ensures disk.files == old(disk.files)
    ensures disk.dirs == TreeDirs(old(disk.dirs), old(disk.files), dataPath)
    ensures r.Ok? <==> TreeUnblocked(old(disk.files), dataPath)
    ensures r.Err? ==> r == StageOutcome(old(disk.dirs), old(disk.files), dataPath)
  {
    r := disk.Mkdir(dataPath);
    if r.Err? { return; }
    r := disk.Mkdir(dataPath + ContentTail);
    if r.Err? { return; }
    r := disk.Mkdir(dataPath + PreferencesTail);
  }

  /** Four successive writes leave the old files overridden by the four new ones. */
  lemma FourWrites(m: map<Path, string>, d: Path, url: string)
    ensures m[d + IniTail := ApplicationIni][d + ManifestTail := ChromeManifest]
             [d + PrefsFileTail := PrefsJs(url)][d + IndexTail := IndexHtml]
            == m + StagedFiles(d, url)
  {
  }

  /** The files after the writes, as the successive updates that the writes before the first rejection make. */
  lemma TemplateFilesSteps(dirs: set<Path>, files: map<Path, string>, d: Path, url: string)
    ensures var one := files[d + IniTail := ApplicationIni];
      var two := one[d + ManifestTail := ChromeManifest];
      var three := two[d + PrefsFileTail := PrefsJs(url)];
      TemplateFiles(dirs, files, d, url) ==
        if d + IniTail in dirs then files
        else if d + ManifestTail in dirs then one
        else if d + PrefsFileTail in dirs then two
        else if d + IndexTail in dirs then three
        else three[d + IndexTail := IndexHtml]
  {
    FourWrites(files, d, url);
  }

  /**
   * The four `writePackageFile` calls, into a package tree that already
   * exists: the writes before the first rejection take effect, no other.
   */
  method WriteTemplates(disk: Disk, dataPath: Path, url: string) returns (r: Result<(), FsError>)
    requires disk.Valid()
    requires PackageDirs(dataPath) <= disk.dirs
    modifies disk
    ensures disk.Valid()
    ensures disk.dirs == old(disk.dirs)
    ensures r == TemplatesOutcome(old(disk.dirs), dataPath)
    ensures disk.files == TemplateFiles(old(disk.dirs), old(disk.files), dataPath, url)
    ensures r.Ok? ==> disk.files == old(disk.files) + StagedFiles(dataPath, url)
  {
    assert Parent(dataPath + IniTail) == dataPath + AppTail;
    assert Parent(dataPath + ManifestTail) == dataPath + AppTail;
    assert Parent(dataPath + PrefsFileTail) == dataPath + PreferencesTail;
    assert Parent(dataPath + IndexTail) == dataPath + ChromeTail;
    TemplateFilesSteps(disk.dirs, disk.files, dataPath, url);
    WriteIntoDirectory(disk.dirs, disk.files, dataPath + IniTail);
    r := disk.WriteFile(dataPath + IniTail, ApplicationIni);
    if r.Err? { return; }
    WriteIntoDirectory(disk.dirs, disk.files, dataPath + ManifestTail);
    r := disk.WriteFile(dataPath + ManifestTail, ChromeManifest);
    if r.Err? { return; }
    WriteIntoDirectory(disk.dirs, disk.files, dataPath + PrefsFileTail);
    r := disk.WriteFile(dataPath + PrefsFileTail, PrefsJs(url));
    if r.Err? { return; }
    WriteIntoDirectory(disk.dirs, disk.files, dataPath + IndexTail);
    r := disk.WriteFile(dataPath + IndexTail, IndexHtml);
  }

  /**
   * The staging sequence: create the data directory and the two leaf
   * directories recursively, then write the four files; the first
   * rejection aborts the rest, and what the earlier calls did remains.
   */
  method Stage(disk: Disk, dataPath: Path, url: string) returns (r: Result<(), FsError>)
    requires disk.Valid()
    modifies disk
    ensures disk.Valid()
    ensures r == StageOutcome(old(disk.dirs), old(disk.files), dataPath)
    ensures disk.dirs == TreeDirs(old(disk.dirs), old(disk.files), dataPath)
    ensures disk.files == StageFiles(old(disk.dirs), old(disk.files), dataPath, url)
    ensures r.Ok? ==> disk.dirs == old(disk.dirs) + StagedDirs(dataPath)
    ensures r.Ok? ==> disk.files == old(disk.files) + StagedFiles(dataPath, url)
  {
    r := CreateTree(disk, dataPath);
    if r.Err? { return; }
    StagedDirsExactly(dataPath);
    StagedFileInTree(dataPath, IniTail);
    StagedFileInTree(dataPath, ManifestTail);
    StagedFileInTree(dataPath, PrefsFileTail);
    StagedFileInTree(dataPath, IndexTail);
    assert TemplatesOutcome(disk.dirs, dataPath) == TemplatesOutcome(old(disk.dirs), dataPath);
    assert TemplateFiles(disk.dirs, disk.files, dataPath, url) == TemplateFiles(old(disk.dirs), disk.files, dataPath, url);
    r := WriteTemplates(disk, dataPath, url);
  }

  /**
   * The argument vector handed to the launcher: the application, the
   * window size only when one is given, then the profile directory.
   */
  function GeckoArgs(d: Path, windowSize: Option<seq<int>>): seq<string> {
    ["-app", Render(d + IniTail)] +
    (if windowSize.None? then [] else ["-window-size", Decimal.JoinComma(windowSize.value)]) +
    ["-profile", Render(d), "-new-instance"]
  }

  /**
   * The vector is `-app <d>/app/application.ini`, then `-window-size w,h`
   * exactly when a size is given, then `-profile <d> -new-instance`.
   */
  lemma GeckoArgsShape(d: Path, windowSize: Option<seq<int>>)
    requires |d| > 0
    ensures var v := GeckoArgs(d, windowSize);
      var k := if windowSize.None? then 0 else 2;
      |v| == 5 + k &&
      v[0] == "-app" && v[1] == Render(d) + "/" + "app/application.ini" &&
      (windowSize.Some? ==> v[2] == "-window-size" && v[3] == Decimal.JoinComma(windowSize.value)) &&
      v[2 + k..] == ["-profile", Render(d), "-new-instance"]
  {
    IniPathRender(d);
    var a := ["-app", Render(d + IniTail)];
    var b := if windowSize.None? then [] else ["-window-size", Decimal.JoinComma(windowSize.value)];
    var c := ["-profile", Render(d), "-new-instance"];
    assert GeckoArgs(d, windowSize) == a + b + c;
    assert (a + b + c)[|a| + |b|..] == c;
  }

  /** The descriptor under a data directory d renders as `<d>/app/application.ini`. */
  lemma IniPathRender(d: Path)
    requires |d| > 0
    ensures Render(d + IniTail) == Render(d) + "/" + "app/application.ini"
  {
    RenderJoin(d, IniTail);
    IniTailRender();
  }

  /** The descriptor's relative path renders as `app/application.ini`. */
  lemma IniTailRender()
    ensures Render(IniTail) == "app/application.ini"
  {
    RenderSnoc(["app"], "application.ini");
    assert ["app"] + ["application.ini"] == IniTail;
  }

  /**
   * A `-window-size` token appears exactly when a size is given, unless the
   * data directory itself is literally named "-window-size".
   */
  lemma WindowSizeTokenIff(d: Path, windowSize: Option<seq<int>>)
    ensures "-window-size" in GeckoArgs(d, windowSize) <==>
      windowSize.Some? || Render(d) == "-window-size"
  {
    var ini := Render(d + IniTail);
    RenderEndsWithLast(d + IniTail);
    assert (d + IniTail)[|d + IniTail| - 1] == "application.ini";
    assert |ini| >= 15;
    var v := GeckoArgs(d, windowSize);
    if windowSize.None? {
      assert v == ["-app", ini, "-profile", Render(d), "-new-instance"];
    } else {
      assert v[2] == "-window-size";
    }
  }

  /** No entry of the vector is empty when the data directory renders non-empty and a given size has an entry. */
  lemma GeckoArgsNonEmpty(d: Path, windowSize: Option<seq<int>>)
    requires Render(d) != ""
    requires windowSize.Some? ==> |windowSize.value| > 0
    ensures "" !in GeckoArgs(d, windowSize)
  {
    var ini := Render(d + IniTail);
    RenderEndsWithLast(d + IniTail);
    assert (d + IniTail)[|d + IniTail| - 1] == "application.ini";
    var size: seq<string> := if windowSize.None? then [] else ["-window-size", Decimal.JoinComma(windowSize.value)];
    if windowSize.Some? {
      Decimal.JoinCommaSeparators(windowSize.value);
    }
    assert "" !in ["-app", ini] && "" !in size && "" !in ["-profile", Render(d), "-new-instance"];
  }

  /**
   * What the Gecko launcher finally spawns: for a data directory that
   * renders to a non-empty path and a size with at least one entry, its vector followed
   * by the websocket port flag, with the port in range and handed to the
   * protocol client.
   */
  lemma GeckoSpawnArgs<X>(browserPath: string, d: Path, windowSize: Option<seq<int>>, draw: int, extra: X)
    requires 0 <= draw <= Launcher.DrawMax
    requires Render(d) != ""
    requires windowSize.Some? ==> |windowSize.value| > 0
    ensures var l := Launcher.StartBrowser(browserPath, GeckoArgs(d, windowSize), Launcher.Websocket, draw, extra);
      var port := Launcher.GeneratePort(draw);
      l.spawn.args == GeckoArgs(d, windowSize) + [Launcher.PortFlagPrefix + Decimal.NatToString(port)] &&
      l.connect == Some(Launcher.PortDescriptor(Some(port))) &&
      Launcher.PortLow <= port <= Launcher.PortHigh
  {
    var v := GeckoArgs(d, windowSize);
    GeckoArgsNonEmpty(d, windowSize);
    Launcher.TruthyKeepsNonEmpty(v);
    Launcher.FlagIsLast(browserPath, v, Launcher.Websocket, draw, extra);
  }

  /**
   * An empty size array is truthy, so `-window-size` is passed, but its
   * empty text is then filtered out: the flag is followed directly by
   * `-profile`.
   */
  lemma EmptyWindowSizeLeavesBareFlag<X>(browserPath: string, d: Path, draw: int, extra: X)
    requires 0 <= draw <= Launcher.DrawMax
    requires Render(d) != ""
    ensures Launcher.StartBrowser(browserPath, GeckoArgs(d, Some([])), Launcher.Websocket, draw, extra).spawn.args ==
      ["-app", Render(d + IniTail), "-window-size", "-profile", Render(d), "-new-instance",
       Launcher.PortFlagPrefix + Decimal.NatToString(Launcher.GeneratePort(draw))]
  {
    var ini := Render(d + IniTail);
    RenderEndsWithLast(d + IniTail);
    assert (d + IniTail)[|d + IniTail| - 1] == "application.ini";
    var a, c := ["-app", ini, "-window-size"], ["-profile", Render(d), "-new-instance"];
    assert GeckoArgs(d, Some([])) == a + [""] + c;
    Launcher.TruthyAppend(a + [""], c);
    Launcher.TruthyAppend(a, [""]);
    assert Launcher.Truthy([""]) == [] by {
      assert [""][..0] == [];
    }
    Launcher.TruthyKeepsNonEmpty(a);
    Launcher.TruthyKeepsNonEmpty(c);
    Launcher.FlagIsLast(browserPath, GeckoArgs(d, Some([])), Launcher.Websocket, draw, extra);
  }

  /** The example data directory `/tmp/p1`, as segments. */
  const ExampleDir: Path := ["", "tmp", "p1"]

  /** The example data directory renders as `/tmp/p1`. */
  lemma ExampleDirRender()
    ensures Render(ExampleDir) == "/tmp/p1"
  {
    RenderSnoc([""], "tmp");
    assert [""] + ["tmp"] == ["", "tmp"];
    RenderSnoc(["", "tmp"], "p1");
    assert ["", "tmp"] + ["p1"] == ExampleDir;
  }

  /** The example's application descriptor is `/tmp/p1/app/application.ini`. */
  lemma ExampleIniRender()
    ensures Render(ExampleDir + IniTail) == "/tmp/p1/app/application.ini"
  {
    ExampleDirRender();
    IniTailRender();
    RenderJoin(ExampleDir, IniTail);
  }

  /** The prefs file's tail renders as `app/defaults/preferences/prefs.js`. */
  lemma PrefsTailRender()
    ensures Render(PrefsFileTail) == "app/defaults/preferences/prefs.js"
  {
    RenderSnoc(["app"], "defaults");
    assert ["app"] + ["defaults"] == DefaultsTail;
    assert Render(DefaultsTail) == "app/defaults";
    RenderSnoc(DefaultsTail, "preferences");
    assert DefaultsTail + ["preferences"] == PreferencesTail;
    assert Render(PreferencesTail) == "app/defaults/preferences";
    RenderSnoc(PreferencesTail, "prefs.js");
    assert PreferencesTail + ["prefs.js"] == PrefsFileTail;
  }

  /** The example's prefs file is `/tmp/p1/app/defaults/preferences/prefs.js`. */
  lemma ExamplePrefsRender()
    ensures Render(ExampleDir + PrefsFileTail) == "/tmp/p1/app/defaults/preferences/prefs.js"
  {
    ExampleDirRender();
    var app, defaults, preferences := ExampleDir + ["app"], ExampleDir + DefaultsTail, ExampleDir + PreferencesTail;
    RenderSnoc(ExampleDir, "app");
    assert Render(app) == "/tmp/p1/app";
    RenderSnoc(app, "defaults");
    assert app + ["defaults"] == defaults;
    assert Render(defaults) == "/tmp/p1/app/defaults";
    RenderSnoc(defaults, "preferences");
    assert defaults + ["preferences"] == preferences;
    assert Render(preferences) == "/tmp/p1/app/defaults/preferences";
    RenderSnoc(preferences, "prefs.js");
    assert preferences + ["prefs.js"] == ExampleDir + PrefsFileTail;
  }

  /**
   * Launching with data directory `/tmp/p1`, target `https://example.com`
   * and no window size stages the prefs file with the URL and spawns
   * `-app /tmp/p1/app/application.ini -profile /tmp/p1 -new-instance
   * --remote-debugging-port=<port>` for a port in range.
   */
  lemma ExampleLaunch<X>(browserPath: string, draw: int, extra: X)
    requires 0 <= draw <= Launcher.DrawMax
    ensures var url := "https://example.com";
      var l := Launcher.StartBrowser(browserPath, GeckoArgs(ExampleDir, None), Launcher.Websocket, draw, extra);
      var port := Launcher.GeneratePort(draw);
      Render(ExampleDir + PrefsFileTail) == "/tmp/p1/app/defaults/preferences/prefs.js" &&
      StagedFiles(ExampleDir, url)[ExampleDir + PrefsFileTail][|PrefsBefore|..|PrefsBefore| + |url|] == url &&
      l.spawn.args == ["-app", "/tmp/p1/app/application.ini", "-profile", "/tmp/p1", "-new-instance",
                       "--remote-debugging-port=" + Decimal.NatToString(port)] &&
      10000 <= port <= 60000
  {
    ExampleDirRender();
    ExampleIniRender();
    ExamplePrefsRender();
    assert GeckoArgs(ExampleDir, None) == ["-app", "/tmp/p1/app/application.ini", "-profile", "/tmp/p1", "-new-instance"];
    GeckoSpawnArgs(browserPath, ExampleDir, None, draw, extra);
    ContentsIgnoreInputs(ExampleDir, ExampleDir, "https://example.com", "");
  }

  /**
   * The Gecko launcher: stage the package, and only once every write has
   * succeeded start the browser on it over a websocket. A staging error
   * aborts before anything is spawned.
   */
  method Launch<X>(disk: Disk, browserPath: string, dataPath: Path, url: string,
                   windowSize: Option<seq<int>>, draw: int, extra: X)
    returns (r: Result<Launcher.Launch<X>, FsError>)
    requires 0 <= draw <= Launcher.DrawMax
    requires disk.Valid()
    modifies disk
    ensures disk.Valid()
    ensures r.Err? <==> StageOutcome(old(disk.dirs), old(disk.files), dataPath).Err?
    ensures r.Err? ==> r.error == StageOutcome(old(disk.dirs), old(disk.files), dataPath).error
    ensures disk.dirs == TreeDirs(old(disk.dirs), old(disk.files), dataPath)
    ensures disk.files == StageFiles(old(disk.dirs), old(disk.files), dataPath, url)
    ensures old(disk.dirs) <= disk.dirs <= old(disk.dirs) + StagedDirs(dataPath)
    ensures forall f :: f in old(disk.files) && f !in StagedFiles(dataPath, url) ==>
      f in disk.files && disk.files[f] == old(disk.files)[f]
    ensures r.Ok? ==> disk.dirs == old(disk.dirs) + StagedDirs(dataPath)
    ensures r.Ok? ==> disk.files == old(disk.files) + StagedFiles(dataPath, url)
    ensures r.Ok? ==> r.value == Launcher.StartBrowser(browserPath, GeckoArgs(dataPath, windowSize),
                                                       Launcher.Websocket, draw, extra)
  {
    TreeDirsBounds(disk.dirs, disk.files, dataPath);
    StageFilesFrame(disk.dirs, disk.files, dataPath, url);
    var staged := Stage(disk, dataPath, url);
    if staged.Err? {
      return Err(staged.error);
    }
    r := Ok(Launcher.StartBrowser(browserPath, GeckoArgs(dataPath, windowSize), Launcher.Websocket, draw, extra));
  }
}
