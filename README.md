# WeChat file scanner, modelled in Dafny

This project models `FileScanner` from `fileScanner.js`, the core of a small desktop
tool. The tool lists the files the WeChat client has cached on disk:

- images, videos, documents and audio under each profile's `FileStorage`;
- everything under each profile's `msg` folder;
- the category folders of each `FileStorage/MsgAttach` group.

It can then search, filter, sort and count that list.

## How the model is built

- **Filesystem.** The disk is a value: a map from candidate root paths to directory trees
  (`FsTree.Node`: a file with an optional `stat`, a directory that may be unreadable, or
  something else, such as a symbolic link).
  - `fs.access` on a root means the root is in the map. Below a root it means a child of that
    name exists (`FsTree.ChildNamed`).
  - A failing `readdir` contributes nothing, as the `try`/`catch` around each one does.
  - A failing `stat` is a file whose `stat` is `None`.
- **Paths.** They are joined with `\` (`FsTree.Join`), since the tool targets Windows.
- **Environment.** The home-folder locations of the three default roots, the clock and the
  `YYYY-MM` month of a modification time are parameters (`Scanner.Host`, and the `now` /
  `finishedAt` arguments of `ScanWeChatFiles`).
- **Pure logic.** The filename rules, the type table, the sort and the counts are functions
  with lemmas (`FileNames`, `Inclusion`, `FileTypes`, `TimeSort`, `Tallies`).
- **The scanner.** It is a class whose fields are the JavaScript object's
  (`Scanner.FileScanner`). Each method of the source that changes the object or reads its
  state is a method or predicate of the class. `shouldIncludeFile` and `getFileType` use no
  state and are module functions. The bodies of some loops are methods of their own
  (`ScanWeChatPath`, `ScanProfile`, `ScanCategory`, `ScanWalkItem`, `ScanMonthItem`).
  - Each traversal method is proved to append exactly what a specification function of the
    tree gives (`Traversal`).
  - Soundness and completeness lemmas say which files those functions describe.
- **Worked example.** `Scenario` scans a one-profile tree: a 2000-byte `photo.png` is reported
  and a 500-byte `9999` is not. It also shows that a second scan within the expiry is served
  from the cache.

`getFileType(fileName, defaultType)` never uses `defaultType`: an unknown extension gives
`other` whatever the caller passes. The parameter's name suggests a fallback, but the final
`else` returns `'other'` (fileScanner.js:387-388). The model follows the code
(`FileTypes.GetFileType`, `FileTypes.UnknownExtensionExample`).

## Model

| member | source | states |
|---|---|---|
| FileNames.ExtnameSpec | fileScanner.js:269 | `path.extname` of a base name: the suffix from the last dot, with no other dot in it; "" exactly when no dot follows the first character, or for ".." |
| FileNames.ExtnameExamples | fileScanner.js:375 | `.png`, `.gz` of `archive.tar.gz`, `.` of `a.`, and "" for `.x`, `..` and `README` |
| FileNames.LowerIdempotent | fileScanner.js:397 | lower-casing twice is lower-casing once |
| FileNames.MatchesDigitGroupsIff | fileScanner.js:280 | the recogniser accepts exactly the names in the language of `^\d+(_\d+)*$` |
| FileNames.DigitGroupsExamples | fileScanner.js:280 | `123` and `123_456` match; `123_`, `_123`, `1__2`, `12a` and "" do not |
| FileNames.ContainsIff | fileScanner.js:397 | `includes` holds exactly when the needle occurs at some index of the haystack |
| FsTree.ChildNamed | fileScanner.js:188-190 | `fs.access` below a root finds something exactly when the folder holds an entry of that name, and returns such an entry |
| Inclusion.ShouldIncludeFile | fileScanner.js:262-296 | a kept file has a successful `stat` of at least 1024 bytes |
| Inclusion.ShouldIncludeFileIff | fileScanner.js:262-296 | kept exactly when the lower-cased extension is not excluded, the name is not excluded, it is not a digit group, and `stat` succeeds with at least 1024 bytes |
| Inclusion.SizeExamples | fileScanner.js:284-293 | 2000 bytes is kept; 1023 bytes and a failing `stat` are dropped |
| Inclusion.DigitNameExamples | fileScanner.js:279-282 | `9999` and `123_456` are dropped whatever their size; `123_` is kept |
| Inclusion.ExtensionExample | fileScanner.js:268-272 | `cache.DAT` is dropped: extensions are compared lower-cased |
| Inclusion.NameExamples | fileScanner.js:274-277 | `config` is dropped; `Config` is kept: names are compared exactly |
| FileTypes.NameInjective | fileScanner.js:374-390 | distinct categories have distinct type strings |
| FileTypes.GetFileTypeSpec | fileScanner.js:374-390 | a category other than `other` lists the lower-cased extension; `other` means no list holds it |
| FileTypes.GetFileTypeByTable | fileScanner.js:377-386 | each named category is chosen exactly when its list holds the lower-cased extension |
| FileTypes.GetFileTypeDependsOnExtension | fileScanner.js:374-375 | the category depends only on the lower-cased extension, not on the default type |
| FileTypes.UpperCaseExtensionExample | fileScanner.js:375-378 | `a.JPG` is an image |
| FileTypes.UnknownExtensionExample | fileScanner.js:387-389 | `a.xyz` is `other` even when the caller passes `file` |
| Roots.Candidates | fileScanner.js:41-94 | the custom path comes first when it is non-empty, and the three defaults come last, in the order normal, store, new version, when they are enabled; there are no other candidates |
| Roots.ProbeSpec | fileScanner.js:41-94 | the roots are a subsequence of the candidates, and a path is a root exactly when it is a candidate that exists |
| Roots.ProbeAppend | fileScanner.js:41-94 | probing two candidate lists one after the other gives the two results concatenated |
| Roots.ProbeDefaults | fileScanner.js:57-90 | each existing default root is kept, in the order normal, store, new version |
| Roots.ProbeCandidates | fileScanner.js:41-94 | the roots are the existing custom path, followed by the existing defaults when they are enabled |
| Roots.ProbeWithoutDefaults | fileScanner.js:54-55 | with the defaults off, the roots are the custom path if it exists, and otherwise nothing |
| Traversal.MonthEntriesSound | fileScanner.js:341-371 | a month folder's entries are included regular files directly inside it, with the folder's month and the type from the hint |
| Traversal.MonthEntriesComplete | fileScanner.js:341-371 | every included regular file directly inside a listable month folder is reported, with its stat |
| Traversal.MonthPrefixContains | fileScanner.js:348-367 | what one loop turn pushes stays in the result of every later turn |
| Traversal.CategoryEntriesSound | fileScanner.js:324-338 | a category folder's entries lie two levels below it, and their month is the name of the subfolder above them |
| Traversal.CategoriesEntriesSound | fileScanner.js:184-196 | the entries under `FileStorage` lie in one of `Image`, `Video`, `File` or `Audio`, in a month subfolder |
| Traversal.AttachEntriesSound | fileScanner.js:199-223 | the entries under `MsgAttach` lie at group / category / month / file |
| Traversal.WalkSound | fileScanner.js:226-259 | the walk's entries are included regular files at any depth below the folder; the month comes from the modification time and the type from the extension alone |
| Traversal.WalkComplete | fileScanner.js:226-259 | every included regular file reached through listable folders is reported, with the path that leads to it |
| Traversal.WalkPrefixContains | fileScanner.js:230-255 | what one loop turn of the walk pushes stays in the result of every later turn |
| Traversal.MsgEntriesSound | fileScanner.js:299-321 | the entries under `msg` lie at least one subfolder deep |
| Traversal.MsgEntriesComplete | fileScanner.js:299-321 | every included regular file at least one subfolder deep under a listable `msg` is reported |
| Traversal.ProfileEntriesSound | fileScanner.js:133-168 | a profile's entries carry the profile's name and are included regular files below the profile folder |
| Traversal.RootEntriesSound | fileScanner.js:121-172 | every entry found under one existing root is an included regular file at least two names below it, whose `user` is the profile folder it lies in |
| Traversal.RootsEntriesSound | fileScanner.js:118-173 | every entry of a scan is an included regular file below a scanned root that exists; each entry lies at least two names below that root, its `user` is its first folder below the root, and its `path` joins the root with the names that lead to it |
| Scanner.FileScanner.constructor | fileScanner.js:7-15 | the settings are the arguments, which default to "" and true; the path list and catalogue are empty; there is no cache and the cache time is 0 |
| Scanner.FileScanner.SetCustomPath | fileScanner.js:18-21 | sets the path, clears the cache so that no later time finds it valid, and leaves the rest unchanged |
| Scanner.FileScanner.SetUseDefaultPaths | fileScanner.js:24-27 | sets the flag, clears the cache so that no later time finds it valid, and leaves the rest unchanged |
| Scanner.FileScanner.ClearCache | fileScanner.js:30-33 | no cache and a cache time of 0; the rest is unchanged |
| Scanner.FileScanner.IsCacheValid | fileScanner.js:36-38 | a valid cache exists, and no cache is valid once `CacheExpiry` milliseconds have passed since `cacheTime` |
| Scanner.CacheValidity | fileScanner.js:36-38 | a cache valid at some time was valid at every earlier time, and it is invalid at `cacheTime + CacheExpiry` |
| Scanner.FileScanner.GetWeChatPaths | fileScanner.js:41-94 | the existing candidates in the fixed order; with the defaults off, at most the custom path |
| Scanner.FileScanner.ScanWeChatFiles | fileScanner.js:97-181 | a valid cache is returned with no change. Otherwise the roots are resolved again. With no roots, the catalogue is empty and the cache is untouched. With roots, the catalogue is the scan of the roots, in order, and it is cached at the finishing time |
| Scanner.FileScanner.ScanWeChatPath | fileScanner.js:121-172 | appends the profiles of one root, in listing order, to the catalogue, and changes nothing else |
| Scanner.FileScanner.ScanProfile | fileScanner.js:134-168 | appends, in order, the `FileStorage` categories, the `msg` walk and the `MsgAttach` groups |
| Scanner.FileScanner.ScanFileStorage | fileScanner.js:184-196 | appends the four category folders that exist, in the fixed order |
| Scanner.FileScanner.ScanCategory | fileScanner.js:188-194 | appends the category folder's month subfolders when `fs.access` finds the folder, and nothing when it does not |
| Scanner.FileScanner.ScanMsgAttach | fileScanner.js:199-223 | appends each group's four category folders, group by group; each group goes through the same category loop as `FileStorage` (`ScanFileStorage`), which is what lines 208-218 repeat |
| Scanner.FileScanner.RecursiveScan | fileScanner.js:226-259 | appends the depth-first walk of the folder |
| Scanner.FileScanner.ScanWalkItem | fileScanner.js:231-254 | one entry of the walk: a subfolder appends its own walk, an included regular file appends its entry with the type from its extension, and anything else appends nothing |
| Scanner.FileScanner.ScanMsgFolder | fileScanner.js:299-321 | appends the walk of each subfolder of `msg` |
| Scanner.FileScanner.ScanCategoryFolder | fileScanner.js:324-338 | appends each month subfolder's files |
| Scanner.FileScanner.ScanMonthFolder | fileScanner.js:341-371 | appends the included regular files of the month folder |
| Scanner.FileScanner.ScanMonthItem | fileScanner.js:347-366 | one entry of a month folder: an included regular file appends its entry with the category as its type hint, and anything else appends nothing |
| Scanner.FileScanner.SearchFiles | fileScanner.js:393-399 | the whole catalogue for an empty keyword. Otherwise the catalogue, in order, with exactly the entries whose lower-cased name contains the lower-cased keyword, each as often as in the catalogue |
| Scanner.SearchIgnoresKeywordCase | fileScanner.js:396-398 | searching for the lower-cased keyword gives the same result as searching for the keyword |
| Scanner.FileScanner.FilterByType | fileScanner.js:402-405 | the whole catalogue for `all`. Otherwise the catalogue, in order, with exactly the entries of that type, each as often as in the catalogue |
| Scanner.FileScanner.SortByTime | fileScanner.js:408-416 | a permutation of the catalogue, ordered by modification time (newest first unless ascending), that keeps entries with equal times in catalogue order |
| Scanner.FileScanner.GetStats | fileScanner.js:419-439 | the total is the catalogue length, and each breakdown is the intended tally of the catalogue by type, profile or month; `Tallies.TallyCounts` and `Tallies.TallySum` state what a tally holds |
| TimeSort.SortBySpec | fileScanner.js:408-416 | the sort output is ordered, is a permutation of its input and is stable |
| TimeSort.SortedUnique | fileScanner.js:408-416 | two ordered sequences with the same entries in the same time order are equal, so a stable sort has only one possible result |
| TimeSort.DescendingReversesAscending | fileScanner.js:410-414 | when all modification times differ, newest-first is oldest-first reversed |
| Tallies.TallyCounts | fileScanner.js:427-436 | a key has a count exactly when it occurs, and the count is its number of occurrences |
| Tallies.TallySum | fileScanner.js:419-436 | every key that occurs is counted, and the counts add up to the number of entries |
| Tallies.AsWrittenAgrees | fileScanner.js:429-435 | away from the names an object literal inherits, the code's counts are the intended ones |
| Tallies.ConstructorMiscounted | fileScanner.js:432 | a profile folder named `constructor` gets a string where a count of 1 is intended |
| Tallies.ProtoDropped | fileScanner.js:432 | a profile folder named `__proto__` is not counted at all, where a count of 1 is intended |
| Scenario.ScanExample | fileScanner.js:118-173 | the one-profile tree yields exactly the picture: the numbered placeholder is dropped, and the absent `msg` and `MsgAttach` add nothing |
| Scenario.ScannerExample | fileScanner.js:97-181 | a scanner pointed at that root returns the picture, and returns it again within the expiry. The cache still records the first call's finishing time 1500 although the second call ends at 0, so the second result came from the cache |

## Left out

- Real I/O: the disk is a fixed tree. `readdir` order is the order of a folder's children, and nothing changes during a scan.
- `Dirent` kinds other than file and directory: symbolic links, junctions, devices and the like are all one node kind (`FsTree.Special`). The `isDirectory()` and `isFile()` filters skip them in the source too.
- Links and junctions reached by name: `fs.access` and `fs.readdir` follow them. So the source scans a `FileStorage` (fileScanner.js:142-144), a `msg` (153-155), a `FileStorage/MsgAttach` (163-165) or a category folder (190-191, 213-214, read at 326) that is a link to a directory. The model does not: `FsTree.ChildNamed` returns the link node itself, and no strategy lists it.
- Case-insensitive lookups: Windows finds `image` or `MSG` when the code asks for `Image` or `msg`. `FsTree.ChildNamed` matches names exactly.
- `path.join` normalisation (`.`, `..`, doubled separators, drive prefixes): paths are joined textually with `\`. The root strings, including the three defaults built from `os.homedir()` and `LOCALAPPDATA`, are given as plain strings.
- The `id` field of an entry: it is built from `Date.now()` and `Math.random()`, and nothing else in the core reads it.
- `toISOString().substr(0, 7)` for entries found by the `msg` walk: the month of a modification time is the host function `monthOf`.
- Invalid dates: when a modification time is not a number, `toISOString` would throw in the walk. Times are integers in the model.
- `toLowerCase` beyond ASCII: `FileNames.Lower` folds `A`-`Z` only.
- `\d` is taken as the ASCII digits, as in JavaScript.
- Console output: all `console.log` and `console.error` calls are left out.
- `main.js` and `preload.js`: the Electron window, the IPC handlers and the renderer bridge are not part of this model.
- Concurrency: each `await` is taken to complete before the next statement, and no two scans overlap.
- Scanner.FileScanner.ScanWeChatFiles: the two `stat` calls on one file are taken to agree. A file that shrinks, or vanishes, between the filter's `stat` and the second one is not modelled: its `throw` would end the scan of that folder part-way through.
- Scanner.FileScanner.ScanWeChatFiles: the cache and `files` share one array in the source, so `this.files` and the cached list are the same object. The model keeps two equal values.
- Scanner.FileScanner.GetWeChatPaths: the method's contract ties the result to `Roots.Probe`. The membership and order properties are stated about `Probe` in `Roots.ProbeSpec`, not repeated on the method.
- Scanner.FileScanner.GetStats: it returns maps with the intended counts (`Tallies.Tally`). The code's own counts are `Tallies.TallyAsWritten`; see Findings. The key order of the JavaScript objects is not modelled.
- `sortByTime` is modelled by one stable insertion sort (`TimeSort.SortBy`). `Array.prototype.sort` is stable, and `TimeSort.SortedUnique` shows that any stable sort gives the same result.

## Findings

| source | as written | input that shows it | evidently intended | confidence | as-written member | corrected member |
|---|---|---|---|---|---|---|
| fileScanner.js:429-435 | `stats.byUser[file.user] = (stats.byUser[file.user] \|\| 0) + 1` on a plain object literal | a profile folder or month folder named `constructor` (or another inherited member, such as `toString`) gets the string of a function followed by `1`, not a count. One named `__proto__` is never counted, so the breakdown no longer adds up to `total` | each key holds its number of occurrences, and each breakdown adds up to `total` | not executed | Tallies.TallyAsWritten (Tallies.ConstructorMiscounted, Tallies.ProtoDropped) | Tallies.Tally (Tallies.TallyCounts, Tallies.TallySum) |
