# Launch and transport bootstrap, modelled in Dafny

This project models how the framework starts a browser it can drive over the
Chrome DevTools Protocol (CDP). Two source files are covered:

- `src/launcher/start.js` is the generic launcher. It picks the transport
  resource: a random port in [10000, 60000] for a websocket, or nothing for
  stdio. It then builds the argument vector with exactly one debugging flag at
  its end, drops empty entries, fixes the child's five-slot stdio table, and
  picks the descriptor handed to the protocol client (`{ port }`, or the pipe
  pair in slots 3 and 4).
- `src/browser/gecko.js` is the Gecko launcher. It stages a minimal
  application package under the data directory: three recursive `mkdir`
  calls, then four template files. Only after that does it start the browser
  through the generic launcher, over a websocket, with
  `-app <ini> [-window-size w,h] -profile <dir> -new-instance`.

Modules:

- `Wrappers`: `Option` and `Result`.
- `Paths`: paths as segment sequences, the ancestor sets a recursive `mkdir`
  creates, and rendering to a `/`-separated string.
- `Decimal`: the decimal text JavaScript gives an integer, read back by
  `ValueOf`, and `Array.prototype.join(",")`.
- `FileSystem`: the two `node:fs/promises` calls as methods of a `Disk` class
  holding a set of directories and a map of files.
- `Launcher`: `start.js`.
- `Gecko`: `gecko.js`.

The source's randomness is a parameter. `Math.random()` is replaced by an
integer draw in [0, 50000], and the port is `draw + 10000`. The model does not
actually spawn anything: `Launcher.StartBrowser` returns the `spawn` call it
would make, the descriptor the protocol client would get (or none), the role
`"browser"`, and the caller's extra value.

### Notes on the code as written

- The tree comment at gecko.js:23-32 lists `app/chrome/index.js`, but no such
  file is written. The code writes four files, and the model has exactly those.
- `index.html` is written to `app/chrome/`, as that comment shows.
  `app/chrome/content/` is created, but nothing is written into it.
- The stdio table `['ignore', 'pipe', 'pipe', 'pipe', 'pipe']` is the same for
  every transport. Slots 3 and 4 are pipes for a websocket launch too.
- The preference key is spelled `toolkit.defaultCrhomeURI` in the source. The
  model keeps that spelling byte for byte.
- The transport is a string compared with `===` (`Launcher.TransportOf`). A
  value other than `'websocket'` or `'stdio'` gets port `null`, the flag
  `--remote-debugging-port=null`, and no `ConnectCDP` call. The model keeps
  that case as `Transport.Other`.
- An empty `windowSize` array is truthy, so `-window-size` is passed. Its empty
  text is then dropped by the filter, and `-profile` follows the flag directly
  (`Gecko.EmptyWindowSizeLeavesBareFlag`).
- Staging makes its calls one after another. A rejected call aborts the rest,
  and the effects of the calls before it remain, so staging is not atomic.
  The model states the exact state after each possible rejection
  (`Gecko.TreeDirs`, `Gecko.StageFiles`).
- start.js:20-21 pipe each child stream into itself (`proc.stdout.pipe(proc.stdout)`),
  not into the parent's `process.stdout`. As written, nothing reaches the parent's
  console. Those lines are not part of this model.

## Model

| member | source | states |
|---|---|---|
| Launcher.StartBrowser | src/launcher/start.js:9-37 | computes the launcher's default export for a port draw: the port, the spawn call, the descriptor handed to the protocol client, the role and the extra value; its properties are `FlagIsLast`, `FlagAddedOnce`, `FlagMatchesTransport`, `WebsocketPortAgrees`, `StdioPipesMatch`, `LaunchByName` and `LaunchShape` |
| Launcher.SpawnArgs | src/launcher/start.js:12-15 | computes the spawned vector: the caller's arguments followed by the debugging flag, with empty entries filtered out; its properties are `FlagIsLast`, `FlagAddedOnce` and `FlagMatchesTransport` |
| Launcher.ConnectDescriptor | src/launcher/start.js:25-35 | computes the `switch`: `{ port }` for a websocket, the pipe pair in slots 3 and 4 for stdio, and nothing for any other transport; its properties are `WebsocketPortAgrees`, `StdioPipesMatch`, `LaunchByName` and `LaunchShape` |
| Launcher.PortText | src/launcher/start.js:14 | computes `${port}`: the port's decimal digits, or `null`; `DebugFlag` and `WebsocketPortAgrees` with `Decimal.ValueOfNatToString` carry its properties |
| Launcher.GeneratePort | src/launcher/start.js:6-7 | the generated port lies in [10000, 60000] |
| Launcher.GeneratePortOnto | src/launcher/start.js:6-7 | every port in the range, both ends included, comes from exactly one draw |
| Launcher.SelectPort | src/launcher/start.js:10 | a port is chosen exactly for the websocket transport, and it is in range; otherwise the port is null |
| Launcher.TransportOf | src/launcher/start.js:10-14 | the caller's string selects the websocket transport exactly when it is "websocket" and stdio exactly when it is "stdio"; any other string gives `Other`, never holding a known name |
| Launcher.TransportOfNameOf | src/launcher/start.js:10-14 | strings and named transports correspond one to one |
| Launcher.DebugFlag | src/launcher/start.js:14 | the flag is the pipe flag exactly for stdio; for any other transport it is `--remote-debugging-port=` followed by the port's text; it is never empty |
| Launcher.Truthy | src/launcher/start.js:15 | the filtered vector contains no empty string |
| Launcher.TruthyCounts | src/launcher/start.js:15 | filtering removes every empty entry and keeps every other entry as often as it occurs |
| Launcher.TruthyAppend | src/launcher/start.js:15 | filtering distributes over concatenation, so the order of surviving entries is kept |
| Launcher.TruthyKeepsNonEmpty | src/launcher/start.js:15 | a vector without empty entries passes through unchanged |
| Launcher.FlagIsLast | src/launcher/start.js:12-15 | the spawned vector is the caller's non-empty arguments in order, followed by the debugging flag as the last entry |
| Launcher.FlagAddedOnce | src/launcher/start.js:12-15 | as a multiset, the spawned vector is the caller's arguments without empty entries plus exactly one flag |
| Launcher.FlagMatchesTransport | src/launcher/start.js:10-14 | the last argument is the pipe flag exactly for stdio; for a websocket it carries the drawn port; for another transport it is `--remote-debugging-port=null` |
| Launcher.WebsocketPortAgrees | src/launcher/start.js:10-28 | for a websocket, one in-range port is both the port the descriptor gives the protocol client and the port parsed back from the last argument |
| Launcher.StdioPipesMatch | src/launcher/start.js:10-33 | for stdio, no port is drawn, the last argument is the pipe flag, the descriptor names slots 3 and 4, and the stdio table makes both of them pipes |
| Launcher.LaunchByName | src/launcher/start.js:10-35 | for the caller's string: the last argument is the pipe flag exactly for "stdio", a port is drawn exactly for "websocket", and a descriptor exists exactly for one of the two |
| Launcher.LaunchShape | src/launcher/start.js:12-37 | for every transport: the command is the browser path, the child is not detached, the stdio table is one ignored slot followed by four pipes, the role is "browser", the extra value is passed through, and no descriptor exists exactly for an unknown transport |
| Decimal.NatToString | src/launcher/start.js:14 | the text of a number is a non-empty digit string with no leading zero |
| Decimal.ValueOfNatToString | src/launcher/start.js:14 | reading the digits of n back gives n |
| Decimal.IntToString | src/browser/gecko.js:113 | the text of an integer is non-empty, has no comma, and starts with a minus sign exactly when the integer is negative; the digits after any sign read back as its magnitude |
| Decimal.JoinComma | src/browser/gecko.js:113 | computes `windowSize.join(",")`: the decimal texts separated by commas, and "" for an empty array; its properties are `JoinCommaPair` and `JoinCommaSeparators` |
| Decimal.JoinCommaPair | src/browser/gecko.js:113 | a size `[w, h]` joins as the text of w, a comma, then the text of h |
| Decimal.JoinCommaSeparators | src/browser/gecko.js:113 | joining n > 0 integers gives a non-empty text with exactly n - 1 commas |
| Paths.Prefixes | src/browser/gecko.js:21 | computes what a recursive mkdir creates: the path and each of its non-empty leading parts; its meaning is stated by `PrefixesMember`, and the other `Prefixes` lemmas carry its properties |
| Paths.PrefixesMember | src/browser/gecko.js:21 | what a recursive mkdir of p creates is exactly p and its non-empty ancestors |
| Paths.PrefixesSnoc | src/browser/gecko.js:33-34 | a recursive mkdir of `p/s` creates what one of p does, plus `p/s` |
| Paths.PrefixesBounded | src/browser/gecko.js:21 | nothing created is longer than the requested path |
| Paths.PrefixesClosed | src/browser/gecko.js:21 | the ancestors of a created directory were created too |
| Paths.PrefixesOfExtension | src/browser/gecko.js:33-34 | creating a path inside d creates every directory that creating d does |
| Paths.PrefixesParentClosed | src/browser/gecko.js:21 | what a recursive mkdir creates is closed under taking parents |
| Paths.ParentClosedHasPrefixes | src/browser/gecko.js:21 | in a parent-closed set of directories, every ancestor of a member is a member |
| Paths.Render | src/browser/gecko.js:18-19 | computes the string `path.join` gives a segment sequence, with the segments separated by "/"; its properties are `RenderSnoc`, `RenderJoin` and `RenderEndsWithLast` |
| Paths.RenderSnoc | src/browser/gecko.js:18-19 | joining one more segment appends a separator and that segment |
| Paths.RenderJoin | src/browser/gecko.js:18-19 | `join(base, rest)` renders as base, a separator, then rest |
| Paths.RenderEndsWithLast | src/browser/gecko.js:18-19 | a rendered path ends with its last segment |
| FileSystem.MkdirKeepsWellFormed | src/browser/gecko.js:21 | a recursive mkdir that no file blocks keeps the filesystem well formed |
| FileSystem.WriteKeepsWellFormed | src/browser/gecko.js:18-19 | a write that succeeds keeps the filesystem well formed |
| FileSystem.WriteOutcome | src/browser/gecko.js:18-19 | a write succeeds exactly when the path is no directory and lies in an existing directory with no file on its ancestors; it rejects with ENOTDIR exactly when a file stands on an ancestor, with EISDIR exactly when the path is a directory and no file is in the way, and with ENOENT exactly for the empty path or, with no file in the way, a missing parent; every error names the path |
| FileSystem.WriteIntoDirectory | src/browser/gecko.js:18-19 | in a well-formed filesystem, a write into an existing directory rejects only with EISDIR, and only when the path itself is a directory |
| FileSystem.WriteUnderFile | src/browser/gecko.js:18-19 | writing `f/g` where `f` is a file is rejected with ENOTDIR, not ENOENT |
| FileSystem.MkdirIgnoresOtherFiles | src/browser/gecko.js:21 | files that are not on the path or its ancestors do not change how a recursive mkdir settles |
| FileSystem.MkdirBlocked | src/browser/gecko.js:21 | holds when a file stands on the path or one of its ancestors, which is when a recursive mkdir rejects; `MkdirOutcome` and `MkdirIgnoresOtherFiles` carry its properties |
| FileSystem.MkdirOutcome | src/browser/gecko.js:21 | a recursive mkdir rejects exactly when a file is on the path: with EEXIST exactly when the path itself is a file, with ENOTDIR otherwise |
| FileSystem.Disk.Mkdir | src/browser/gecko.js:21 | settles as `MkdirOutcome`; on success adds the path and all its ancestors; files are untouched, nothing changes on rejection, and the disk stays well formed |
| FileSystem.Disk.WriteFile | src/browser/gecko.js:18-19 | settles as `WriteOutcome`; on success creates or overwrites exactly that file; directories are untouched, nothing changes on rejection, and the disk stays well formed |
| Gecko.StagedFiles | src/browser/gecko.js:42-106 | computes the four files the writes put down, with their template contents; its properties are `StagedFileKeys`, `StagedFilesLayout`, `StagedFileInTree` and `ContentsIgnoreInputs` |
| Gecko.StagedDirs | src/browser/gecko.js:21-34 | computes the directories the three mkdir calls create: the prefixes of d, of `d/app/chrome/content` and of `d/app/defaults/preferences`; its properties are `StagedDirsExactly`, `StagedDirsClosed`, `ContentPrefixes` and `PreferencesPrefixes` |
| Gecko.TreeDirs | src/browser/gecko.js:21-34 | computes the directories after the mkdir calls, which stop at the first one a file blocks; its properties are `TreeDirsBounds` and `StageIdempotentAll`, and `CreateTree` ends in it |
| Gecko.TemplatesOutcome | src/browser/gecko.js:42-106 | computes how the four writes settle once the tree exists: EISDIR for the first file path that is a directory, in source order; `TemplatesWrittenStaged`, `TemplatesIgnoreStagedDirs` and `WriteTemplates`, which settles as it does, carry its properties |
| Gecko.TemplatesWritten | src/browser/gecko.js:42-106 | computes the files the writes before the first rejection put down; its properties are `TemplatesWrittenStaged` and `TemplatesIgnoreStagedDirs` |
| Gecko.TemplateFiles | src/browser/gecko.js:42-106 | computes the files after the four writes: the old ones overridden by what the writes put down; its properties are `TemplateFilesSteps` and `TemplateFilesFrame`, and `WriteTemplates` ends in it |
| Gecko.StageFiles | src/browser/gecko.js:21-106 | computes the files after the whole staging: unchanged when a mkdir rejects, otherwise `TemplateFiles`; its properties are `StageFilesFrame` and `StageIdempotentAll`, and `Stage` ends in it |
| Gecko.StageOutcome | src/browser/gecko.js:21-106 | computes how staging settles: the first mkdir that a file blocks decides the error, then the first write that a directory blocks; its properties are `StageOutcomeOk`, `StageIdempotentAll` and the methods `CreateTree`, `WriteTemplates` and `Stage`, which settle as it does |
| Gecko.PrefsJs | src/browser/gecko.js:82-88 | the prefs text is the fixed head, the URL verbatim, then the fixed tail |
| Gecko.PrefsEmbedsUrl | src/browser/gecko.js:84-87 | the URL appears in the prefs text at a fixed offset, and different URLs give different prefs texts |
| Gecko.ContentsIgnoreInputs | src/browser/gecko.js:42-106 | the descriptor, the manifest and the shell are fixed templates that depend on no input; only the prefs file varies, and only with the URL |
| Gecko.JoinCancel | src/browser/gecko.js:18-19 | joining one data directory to two relative paths gives the same path exactly when they are the same |
| Gecko.ContentPrefixes | src/browser/gecko.js:33 | creating `app/chrome/content` creates the data directory's prefixes, `app`, `app/chrome` and `app/chrome/content` |
| Gecko.PreferencesPrefixes | src/browser/gecko.js:34 | creating `app/defaults/preferences` creates the data directory's prefixes, `app`, `app/defaults` and `app/defaults/preferences` |
| Gecko.StagedDirsExactly | src/browser/gecko.js:21-34 | the three mkdir calls create exactly the data directory, its ancestors and the five package directories |
| Gecko.StagedDirsClosed | src/browser/gecko.js:21-34 | after staging, the data directory, both leaf directories and their parents exist, and the staged set is closed under ancestors |
| Gecko.FileTailFacts | src/browser/gecko.js:42-98 | each of the four file paths lies under `app`, is not a package directory, and has a package directory as its parent |
| Gecko.NotPackageDir | src/browser/gecko.js:42-98 | a relative path that is no package directory, joined to d, names no package directory of d |
| Gecko.IsPackageDir | src/browser/gecko.js:33-34 | a package directory's relative path, joined to d, names a package directory of d |
| Gecko.StagedFileInTree | src/browser/gecko.js:42-98 | each written file lies strictly under `d/app`, is no staged directory, and its parent is staged |
| Gecko.StagedFileKeys | src/browser/gecko.js:42-98 | the four file paths are pairwise different |
| Gecko.StagedFilesLayout | src/browser/gecko.js:21-106 | exactly four files are written, each strictly inside the data directory, none a staged directory and each under a staged one |
| Gecko.StageOutcomeOk | src/browser/gecko.js:21-106 | staging succeeds exactly when no file stands where a staged directory goes and no directory stands where a staged file goes |
| Gecko.StagePreservesWellFormed | src/browser/gecko.js:21-106 | a successful staging keeps a well-formed filesystem well formed |
| Gecko.StageIdempotent | src/browser/gecko.js:21-106 | when the first staging succeeds, a second one with the same inputs succeeds too and leaves directories and files exactly as the first run left them |
| Gecko.StageIdempotentAll | src/browser/gecko.js:21-106 | for every starting state, also one where the first run is rejected: a second staging with the same inputs settles with the same result as the first and leaves the directories and files the first run left |
| Gecko.StagedFilesOffTree | src/browser/gecko.js:21-98 | no staged file stands where one of the three mkdir calls creates a directory |
| Gecko.TemplatesIgnoreStagedDirs | src/browser/gecko.js:42-106 | creating the staged directories again does not change how the four writes settle or what they write |
| Gecko.TreeDirsBounds | src/browser/gecko.js:21-34 | the directories after the mkdir calls lie between the old ones and the old ones plus the staged tree; they keep the data directory's prefixes once its mkdir succeeds, and are the full tree when nothing blocks |
| Gecko.TemplatesWrittenStaged | src/browser/gecko.js:42-106 | what the writes put down agrees with the staged files, and is all of them exactly when no write rejects |
| Gecko.TemplateFilesSteps | src/browser/gecko.js:42-106 | the files after the writes are the successive updates of the writes before the first directory in the way |
| Gecko.TemplateFilesFrame | src/browser/gecko.js:42-106 | each file the writes do not target keeps its contents, every file holds either its old contents or its template, and the templates override the old files when no write rejects |
| Gecko.StageFilesFrame | src/browser/gecko.js:21-106 | the same for the whole sequence, which writes nothing when a mkdir rejects |
| Gecko.CreateTree | src/browser/gecko.js:21-34 | the three mkdir calls succeed exactly when none is blocked; the first rejection is the staging error; the directories are exactly those the calls before the rejection created (`TreeDirs`); files are untouched; the disk stays well formed |
| Gecko.FourWrites | src/browser/gecko.js:42-106 | the four successive writes override the old files with the four staged ones |
| Gecko.WriteTemplates | src/browser/gecko.js:42-106 | with the package tree present, the writes fail only on a directory in the way, naming the first one; the files are the old ones plus exactly the writes before the rejection (`TemplateFiles`), all four on success; directories are untouched; the disk stays well formed |
| Gecko.Stage | src/browser/gecko.js:18-106 | the result is the staging outcome; afterwards the directories are `TreeDirs` and the files are `StageFiles` of the old state, which on success are the old ones plus the staged tree and files; the disk stays well formed |
| Gecko.GeckoArgs | src/browser/gecko.js:110-117 | computes the Gecko argument vector; its properties are `GeckoArgsShape`, `WindowSizeTokenIff`, `GeckoArgsNonEmpty` and `EmptyWindowSizeLeavesBareFlag` |
| Gecko.GeckoArgsShape | src/browser/gecko.js:110-117 | the vector is `-app <d>/app/application.ini`, then `-window-size w,h` exactly when a size is given, then `-profile <d> -new-instance` |
| Gecko.IniTailRender | src/browser/gecko.js:112 | the descriptor's relative path renders as `app/application.ini` |
| Gecko.IniPathRender | src/browser/gecko.js:112 | under a data directory d, the descriptor renders as d, a separator, then `app/application.ini` |
| Gecko.WindowSizeTokenIff | src/browser/gecko.js:113 | a `-window-size` token appears exactly when a size is given or the data directory is itself named `-window-size` |
| Gecko.GeckoArgsNonEmpty | src/browser/gecko.js:110-117 | no entry of the vector is empty when the data directory is not the current directory and a given size has an entry |
| Gecko.GeckoSpawnArgs | src/browser/gecko.js:108-120 | the browser is spawned with the Gecko vector followed by the websocket port flag, and that same in-range port goes to the protocol client |
| Gecko.EmptyWindowSizeLeavesBareFlag | src/browser/gecko.js:113 | for an empty size array, the spawned vector has a bare `-window-size` directly followed by `-profile` |
| Gecko.ExampleDirRender | src/browser/gecko.js:115 | the example data directory renders as `/tmp/p1` |
| Gecko.ExampleIniRender | src/browser/gecko.js:112 | its descriptor path renders as `/tmp/p1/app/application.ini` |
| Gecko.PrefsTailRender | src/browser/gecko.js:83 | the prefs file's relative path renders as `app/defaults/preferences/prefs.js` |
| Gecko.ExamplePrefsRender | src/browser/gecko.js:83 | the example's prefs file renders as `/tmp/p1/app/defaults/preferences/prefs.js` |
| Gecko.ExampleLaunch | src/browser/gecko.js:82-120 | for `/tmp/p1`, `https://example.com` and no size, the staged prefs file holds the URL, and the spawned vector is exactly `-app /tmp/p1/app/application.ini -profile /tmp/p1 -new-instance --remote-debugging-port=<port>` with the port in range |
| Gecko.Launch | src/browser/gecko.js:8-120 | fails exactly when staging fails, with staging's error and before anything is spawned; the disk ends in the exact staging state, between the old directories and the old plus the staged ones, with every file other than the four unchanged; on success the disk holds the staged tree; it stays well formed; the result is the websocket launch of the Gecko vector |

## Left out

- The log line (start.js:23) is console output. The two `pipe` calls (start.js:20-21) pipe each child stream into itself, and they are stream I/O.
- The `spawn` call itself is left out; the model returns its arguments. Process failures are left out too: a missing binary, a crash before the handshake, and any collision on the chosen port.
- `ConnectCDP` and `InjectInto` are not part of this model. Only the descriptor and the arguments they receive are modelled, not the connection they return. The launcher returns whatever `InjectInto` returns (start.js:37); in its place the model returns that call's arguments (`Launcher.Launch`: the spawn call, the descriptor, the role and the extra value).
- The stream objects in slots 3 and 4 are modelled by their slot numbers.
- `Math.random()` and the floating-point arithmetic of `generatePort` are replaced by an integer draw. The model states which ports are possible, not that each is equally likely.
- Asynchrony is left out: the awaits are modelled as sequential steps, and concurrent launches racing on one data directory are not modelled.
- `path.join` normalisation of `.`, `..` and repeated separators is left out. Paths are segment sequences, and the data directory's own segments are taken as given.
- Filesystem errors other than EEXIST, ENOTDIR, EISDIR and ENOENT are left out: permissions, a full disk, and a symlink in the way. The path an error reports is the path of the call, not of the blocking entry.
- The empty data path is left out. It stands for the current directory, which always exists; Node would reject `mkdir("")`, and the model does not capture that.
- Decimal.IntToString: integers are unbounded and always printed in plain decimal. JavaScript's exponent form for magnitudes of 1e21 and more is not modelled, and neither are non-integer or non-numeric window sizes.
