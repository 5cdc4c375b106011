/** The `FileScanner` object: its settings, its cache, the scan that fills
    `files`, and the queries over `files`. */
module Scanner {
  import opened Wrappers
  import opened FsTree
  import opened FileNames
  import opened Inclusion
  import opened FileTypes
  import opened Catalog
  import opened Traversal
  import opened Roots
  import opened Seqs
  import opened TimeSort
  import opened Tallies

  /** How long a scan result is served from the cache, in milliseconds. */
  const CacheExpiry: int := 300000

  /** What the scanner reads from its environment: the directory trees at
      the candidate roots, the three default roots, and the calendar month
      (`YYYY-MM`) of a modification time. */
  datatype Host = Host(fs: map<string, Node>, defaults: DefaultRoots, monthOf: int -> string)

  /** The object `getStats` returns. */
  datatype Stats = Stats(total: nat, byType: map<string, nat>, byUser: map<string, nat>, byMonth: map<string, nat>)

  /** The search test: the lowercased name contains the lowercased keyword. */
  predicate NameMatches(e: Entry, keyword: string)
  {
    Contains(Lower(e.name), Lower(keyword))
  }

  class FileScanner {
    var customPath: string
    var useDefaultPaths: bool
    var wechatPaths: seq<string>
    var files: seq<Entry>
    var cache: Option<seq<Entry>>
    var cacheTime: int

    constructor(customPath: string := "", useDefaultPaths: bool := true)
      ensures this.customPath == customPath && this.useDefaultPaths == useDefaultPaths
      ensures wechatPaths == [] && files == [] && cache == None && cacheTime == 0
    {
      this.customPath := customPath;
      this.useDefaultPaths := useDefaultPaths;
      wechatPaths := [];
      files := [];
      cache := None;
      cacheTime := 0;
    }

    // ---------------------------------------------------------------- settings and cache

    method SetCustomPath(path: string)
      modifies this
      ensures customPath == path && useDefaultPaths == old(useDefaultPaths)
      ensures wechatPaths == old(wechatPaths) && files == old(files)
      ensures cache == None && cacheTime == 0
      ensures forall now :: !IsCacheValid(now)
    {
      customPath := path;
      ClearCache();
    }

    method SetUseDefaultPaths(use: bool)
      modifies this
      ensures useDefaultPaths == use && customPath == old(customPath)
      ensures wechatPaths == old(wechatPaths) && files == old(files)
      ensures cache == None && cacheTime == 0
      ensures forall now :: !IsCacheValid(now)
    {
      useDefaultPaths := use;
      ClearCache();
    }

    method ClearCache()
      modifies this
      ensures customPath == old(customPath) && useDefaultPaths == old(useDefaultPaths)
      ensures wechatPaths == old(wechatPaths) && files == old(files)
      ensures cache == None && cacheTime == 0
    {
      cache := None;
      cacheTime := 0;
    }

    /** A cached list exists and is younger than the expiry at time `now`. */
    predicate IsCacheValid(now: int): (valid: bool)
      reads this
      ensures valid ==> cache.Some?
      ensures now >= cacheTime + CacheExpiry ==> !valid
    {
      cache.Some? && now - cacheTime < CacheExpiry
    }

    // ---------------------------------------------------------------- roots

    /** The candidate roots that exist, in the fixed order. */
    method GetWeChatPaths(host: Host) returns (paths: seq<string>)
      ensures paths == Probe(host.fs, Candidates(customPath, useDefaultPaths, host.defaults))
      ensures !useDefaultPaths ==> paths == if customPath != "" && customPath in host.fs then [customPath] else []
    {
      ProbeCandidates(host.fs, customPath, useDefaultPaths, host.defaults);
      ghost var custom := if customPath != "" then Present(host.fs, customPath) else [];
      paths := [];
      if customPath != "" {
        if customPath in host.fs {
          paths := paths + [customPath];
        }
      }
      assert paths == custom;
      if useDefaultPaths {
        var d := host.defaults;
        ghost var normal := Present(host.fs, d.normal);
        ghost var store := Present(host.fs, d.store);
        ghost var newVersion := Present(host.fs, d.newVersion);
        if d.normal in host.fs {
          paths := paths + [d.normal];
        }
        assert paths == custom + normal;
        if d.store in host.fs {
          paths := paths + [d.store];
        }
        assert paths == custom + normal + store;
        if d.newVersion in host.fs {
          paths := paths + [d.newVersion];
        }
        assert paths == custom + normal + store + newVersion;
        AppendAssoc(custom, normal + store, newVersion);
        AppendAssoc(custom, normal, store);
      } else {
        assert paths == custom + [];
      }
    }

    // ---------------------------------------------------------------- the scan

    /** On a cache hit nothing changes and the cached list is returned.
        Otherwise the roots are resolved again and `files` is rebuilt from
        them; the cache takes the new list and the time `finishedAt` the
        scan ends, unless no root exists, which leaves the cache alone. */
    method ScanWeChatFiles(host: Host, now: int, finishedAt: int) returns (result: seq<Entry>)
      modifies this
      ensures customPath == old(customPath) && useDefaultPaths == old(useDefaultPaths)
      ensures old(IsCacheValid(now)) ==>
        result == old(cache.value) && wechatPaths == old(wechatPaths) && files == old(files)
        && cache == old(cache) && cacheTime == old(cacheTime)
      ensures !old(IsCacheValid(now)) ==>
        wechatPaths == Probe(host.fs, Candidates(customPath, useDefaultPaths, host.defaults))
      ensures !old(IsCacheValid(now)) && wechatPaths == [] ==>
        files == [] && result == [] && cache == old(cache) && cacheTime == old(cacheTime)
      ensures !old(IsCacheValid(now)) && wechatPaths != [] ==>
        files == RootsEntries(host.fs, wechatPaths, host.monthOf)
        && result == files && cache == Some(files) && cacheTime == finishedAt
    {
      if IsCacheValid(now) {
        return cache.value;
      }
      wechatPaths := GetWeChatPaths(host);
      files := [];
      if |wechatPaths| == 0 {
        return files;
      }
      for r := 0 to |wechatPaths|
        modifies this`files
        invariant files == RootsEntries(host.fs, wechatPaths[..r], host.monthOf)
      {
        var wechatPath := wechatPaths[r];
        ghost var prefix := wechatPaths[..r + 1];
        assert prefix[..|prefix| - 1] == wechatPaths[..r] && prefix[|prefix| - 1] == wechatPath;
        assert RootsEntries(host.fs, prefix, host.monthOf)
          == files + WeChatPathEntries(host.fs, wechatPath, host.monthOf);
        ScanWeChatPath(wechatPath, host);
      }
      assert wechatPaths[..|wechatPaths|] == wechatPaths;
      cache := Some(files);
      cacheTime := finishedAt;
      result := files;
    }

    /** The body of the loop over the roots (lines 121-172): each profile
        folder of the root, through the three strategies. */
    method ScanWeChatPath(wechatPath: string, host: Host)
      modifies this`files
      ensures files == old(files) + WeChatPathEntries(host.fs, wechatPath, host.monthOf)
    {
      if !(wechatPath in host.fs && host.fs[wechatPath].Dir? && host.fs[wechatPath].readable) {
        return;
      }
      var node := host.fs[wechatPath];
      for j := 0 to |node.children|
        invariant files == old(files) + RootPrefix(wechatPath, node, j, host.monthOf)
      {
        var c := node.children[j];
        ghost var before := files;
        ghost var done := RootPrefix(wechatPath, node, j, host.monthOf);
        ghost var item := RootItem(wechatPath, c, host.monthOf);
        if c.node.Dir? {
          ScanProfile(Join(wechatPath, c.name), c.node, c.name, host.monthOf);
        }
        assert files == before + item;
        assert RootPrefix(wechatPath, node, j + 1, host.monthOf) == done + item;
        AppendAssoc(old(files), done, item);
      }
    }

    /** One profile folder (lines 134-168): its `FileStorage` categories,
        then its `msg` folder, then its `FileStorage/MsgAttach` groups. */
    method ScanProfile(userPath: string, node: Node, userFolder: string, monthOf: int -> string)
      modifies this`files
      ensures files == old(files) + ProfileEntries(userPath, node, userFolder, monthOf)
    {
      ghost var storagePart := FileStoragePart(userPath, node, userFolder);
      ghost var msgPart := MsgPart(userPath, node, userFolder, monthOf);
      ghost var attachPart := MsgAttachPart(userPath, node, userFolder);
      var fileStorage := ChildNamed(node, "FileStorage");
      if fileStorage.Some? {
        ScanFileStorage(Join(userPath, "FileStorage"), fileStorage.value, userFolder);
      }
      assert files == old(files) + storagePart;
      ghost var afterStorage := files;
      var msg := ChildNamed(node, "msg");
      if msg.Some? {
        ScanMsgFolder(Join(userPath, "msg"), msg.value, userFolder, monthOf);
      }
      assert files == afterStorage + msgPart;
      AppendAssoc(old(files), storagePart, msgPart);
      ghost var afterMsg := files;
      if fileStorage.Some? {
        var msgAttach := ChildNamed(fileStorage.value, "MsgAttach");
        if msgAttach.Some? {
          ScanMsgAttach(JoinAll(userPath, ["FileStorage", "MsgAttach"]), msgAttach.value, userFolder);
        }
      }
      assert files == afterMsg + attachPart;
      AppendAssoc(old(files), storagePart + msgPart, attachPart);
    }

    /** The four category folders of a `FileStorage` folder, in order. */
    method ScanFileStorage(fileStoragePath: string, node: Node, userFolder: string)
      modifies this`files
      ensures files == old(files) + CategoriesEntries(fileStoragePath, node, userFolder)
    {
      for k := 0 to |CategoryFolders|
        invariant files == old(files) + CategoriesPrefix(fileStoragePath, node, k, userFolder)
      {
        ghost var done := CategoriesPrefix(fileStoragePath, node, k, userFolder);
        ghost var item := CategoriesItem(fileStoragePath, node, CategoryFolders[k], userFolder);
        ScanCategory(fileStoragePath, node, CategoryFolders[k], userFolder);
        CategoriesPrefixStep(fileStoragePath, node, k, userFolder);
        AppendAssoc(old(files), done, item);
      }
    }

    /** One turn of the category loop: the category folder, when
        `fs.access` finds it. */
    method ScanCategory(base: string, node: Node, category: string, userFolder: string)
      modifies this`files
      ensures files == old(files) + CategoriesItem(base, node, category, userFolder)
    {
      var found := ChildNamed(node, category);
      if found.Some? {
        ScanCategoryFolder(Join(base, category), found.value, Lower(category), userFolder);
      }
    }

    /** Each group folder of `MsgAttach`, scanned through the same four
        category folders; the inner loop over the categories is the one of
        `ScanFileStorage`. */
    method ScanMsgAttach(msgAttachPath: string, node: Node, userFolder: string)
      modifies this`files
      ensures files == old(files) + AttachEntries(msgAttachPath, node, userFolder)
    {
      if !(node.Dir? && node.readable) {
        return;
      }
      for j := 0 to |node.children|
        invariant files == old(files) + AttachPrefix(msgAttachPath, node, j, userFolder)
      {
        var c := node.children[j];
        ghost var before := files;
        ghost var done := AttachPrefix(msgAttachPath, node, j, userFolder);
        ghost var item := AttachItem(msgAttachPath, c, userFolder);
        if c.node.Dir? {
          ScanFileStorage(Join(msgAttachPath, c.name), c.node, userFolder);
        }
        assert files == before + item;
        assert AttachPrefix(msgAttachPath, node, j + 1, userFolder) == done + item;
        AppendAssoc(old(files), done, item);
      }
    }

    /** A depth-first walk pushing every included regular file. */
    method RecursiveScan(folderPath: string, node: Node, userFolder: string, monthOf: int -> string)
      modifies this`files
      ensures files == old(files) + WalkEntries(folderPath, node, userFolder, monthOf)
      decreases node, 1
    {
      if !(node.Dir? && node.readable) {
        assert WalkEntries(folderPath, node, userFolder, monthOf) == [];
        return;
      }
      assert WalkEntries(folderPath, node, userFolder, monthOf)
        == WalkPrefix(folderPath, node, |node.children|, userFolder, monthOf);
      for i := 0 to |node.children|
        invariant files == old(files) + WalkPrefix(folderPath, node, i, userFolder, monthOf)
      {
        ghost var done := WalkPrefix(folderPath, node, i, userFolder, monthOf);
        ghost var contribution := WalkItem(folderPath, node, i, userFolder, monthOf);
        ScanWalkItem(folderPath, node, i, userFolder, monthOf);
        assert WalkPrefix(folderPath, node, i + 1, userFolder, monthOf) == done + contribution;
        AppendAssoc(old(files), done, contribution);
      }
    }

    /** One turn of the walk's loop: a subfolder is walked in turn, a
        regular file that passes the filter is appended, anything else is
        skipped. */
    method ScanWalkItem(folderPath: string, node: Node, i: nat, userFolder: string, monthOf: int -> string)
      requires node.Dir? && i < |node.children|
      modifies this`files
      ensures files == old(files) + WalkItem(folderPath, node, i, userFolder, monthOf)
      decreases node, 0
    {
      var item := node.children[i];
      var itemPath := Join(folderPath, item.name);
      ghost var contribution := WalkItem(folderPath, node, i, userFolder, monthOf);
      if item.node.Dir? {
        assert contribution == WalkEntries(itemPath, item.node, userFolder, monthOf);
        assert item.node < item < node;
        RecursiveScan(itemPath, item.node, userFolder, monthOf);
      } else if item.node.File? {
        if ShouldIncludeFile(item.name, SizeOf(item.node)) {
          var stats := item.node.stat.value;
          var entry := Entry(item.name, itemPath, stats.size, GetFileType(item.name, "other"),
                             stats.birthtime, stats.mtime, userFolder, monthOf(stats.mtime));
          assert contribution == [entry];
          files := files + [entry];
        } else {
          assert contribution == [];
        }
      } else {
        assert contribution == [];
      }
    }

    /** A walk of each subfolder of `msg`. */
    method ScanMsgFolder(msgPath: string, node: Node, userFolder: string, monthOf: int -> string)
      modifies this`files
      ensures files == old(files) + MsgEntries(msgPath, node, userFolder, monthOf)
    {
      if !(node.Dir? && node.readable) {
        return;
      }
      for j := 0 to |node.children|
        invariant files == old(files) + MsgPrefix(msgPath, node, j, userFolder, monthOf)
      {
        var c := node.children[j];
        ghost var before := files;
        ghost var done := MsgPrefix(msgPath, node, j, userFolder, monthOf);
        ghost var item := MsgItem(msgPath, c, userFolder, monthOf);
        if c.node.Dir? {
          RecursiveScan(Join(msgPath, c.name), c.node, userFolder, monthOf);
        }
        assert files == before + item;
        assert MsgPrefix(msgPath, node, j + 1, userFolder, monthOf) == done + item;
        AppendAssoc(old(files), done, item);
      }
    }

    /** Each subfolder of a category folder, as a month folder. */
    method ScanCategoryFolder(categoryPath: string, node: Node, fileType: string, userFolder: string)
      modifies this`files
      ensures files == old(files) + CategoryEntries(categoryPath, node, fileType, userFolder)
    {
      if !(node.Dir? && node.readable) {
        return;
      }
      for j := 0 to |node.children|
        invariant files == old(files) + CategoryPrefix(categoryPath, node, j, fileType, userFolder)
      {
        var c := node.children[j];
        ghost var before := files;
        ghost var done := CategoryPrefix(categoryPath, node, j, fileType, userFolder);
        ghost var item := CategoryItem(categoryPath, c, fileType, userFolder);
        if c.node.Dir? {
          ScanMonthFolder(Join(categoryPath, c.name), c.node, fileType, userFolder, c.name);
        }
        assert files == before + item;
        assert CategoryPrefix(categoryPath, node, j + 1, fileType, userFolder) == done + item;
        AppendAssoc(old(files), done, item);
      }
    }

    /** The included regular files directly inside a month folder. */
    method ScanMonthFolder(monthPath: string, node: Node, fileType: string, userFolder: string, yearMonth: string)
      modifies this`files
      ensures files == old(files) + MonthEntries(monthPath, node, fileType, userFolder, yearMonth)
    {
      if !(node.Dir? && node.readable) {
        return;
      }
      for j := 0 to |node.children|
        invariant files == old(files) + MonthPrefix(monthPath, node, j, fileType, userFolder, yearMonth)
      {
        ghost var done := MonthPrefix(monthPath, node, j, fileType, userFolder, yearMonth);
        ghost var item := MonthItem(monthPath, node.children[j], fileType, userFolder, yearMonth);
        ScanMonthItem(monthPath, node.children[j], fileType, userFolder, yearMonth);
        assert MonthPrefix(monthPath, node, j + 1, fileType, userFolder, yearMonth) == done + item;
        AppendAssoc(old(files), done, item);
      }
    }

    /** One turn of the month loop: a regular file that passes the filter
        is appended with the category as its type hint. */
    method ScanMonthItem(monthPath: string, c: Child, fileType: string, userFolder: string, yearMonth: string)
      modifies this`files
      ensures files == old(files) + MonthItem(monthPath, c, fileType, userFolder, yearMonth)
    {
      if c.node.File? {
        var filePath := Join(monthPath, c.name);
        if ShouldIncludeFile(c.name, SizeOf(c.node)) {
          var stats := c.node.stat.value;
          files := files + [Entry(c.name, filePath, stats.size, GetFileType(c.name, fileType),
                                  stats.birthtime, stats.mtime, userFolder, yearMonth)];
        }
      }
    }

    // ---------------------------------------------------------------- queries

    /** The entries whose lowercased name contains the lowercased keyword,
        in catalogue order; `files` itself for an empty keyword. */
    function SearchFiles(keyword: string): (r: seq<Entry>)
      reads this
      ensures keyword == "" ==> r == files
      ensures IsSubsequence(r, files)
      ensures forall e :: e in r <==> e in files && NameMatches(e, keyword)
      ensures forall e :: multiset(r)[e] == if NameMatches(e, keyword) then multiset(files)[e] else 0
    {
      if keyword == "" then
        SubsequenceSelf(files);
        assert forall e :: NameMatches(e, keyword) by {
          forall e ensures NameMatches(e, keyword) {
            ContainsIff(Lower(e.name), Lower(keyword));
            assert OccursAt(Lower(e.name), Lower(keyword), 0);
          }
        }
        files
      else
        Filter(files, (e: Entry) => NameMatches(e, keyword))
    }

    /** The entries of the given type, in catalogue order; `files` itself
        for `all`. */
    function FilterByType(fileType: string): (r: seq<Entry>)
      reads this
      ensures fileType == "all" ==> r == files
      ensures IsSubsequence(r, files)
      ensures fileType != "all" ==> forall e :: e in r <==> e in files && e.fileType.Name() == fileType
      ensures fileType != "all" ==>
        forall e :: multiset(r)[e] == if e.fileType.Name() == fileType then multiset(files)[e] else 0
    {
      if fileType == "all" then
        SubsequenceSelf(files);
        files
      else
        Filter(files, (e: Entry) => e.fileType.Name() == fileType)
    }

    /** A copy of `files`, newest first unless `ascending`: ordered, a
        permutation, and stable for equal times. */
    function SortByTime(ascending: bool := false): (r: seq<Entry>)
      reads this
      ensures Sorted(r, ascending)
      ensures multiset(r) == multiset(files)
      ensures forall t :: WithTime(r, t) == WithTime(files, t)
    {
      SortBySpec(files, ascending);
      SortBy(files, ascending)
    }

    /** The number of entries and the number per type, per profile and per
        month; each breakdown adds up to the total. */
    method GetStats() returns (stats: Stats)
      ensures stats.total == |files|
      ensures stats.byType == Tally(files, ByType)
      ensures stats.byUser == Tally(files, ByUser)
      ensures stats.byMonth == Tally(files, ByMonth)
    {
      var byType: map<string, nat> := map[];
      var byUser: map<string, nat> := map[];
      var byMonth: map<string, nat> := map[];
      for i := 0 to |files|
        invariant byType == Tally(files[..i], ByType)
        invariant byUser == Tally(files[..i], ByUser)
        invariant byMonth == Tally(files[..i], ByMonth)
      {
        var file := files[i];
        TallyStep(files, i, ByType);
        TallyStep(files, i, ByUser);
        TallyStep(files, i, ByMonth);
        var t := file.fileType.Name();
        assert Key(file, ByType) == t && Key(file, ByUser) == file.user && Key(file, ByMonth) == file.yearMonth;
        byType := Bump(byType, t);
        byUser := Bump(byUser, file.user);
        byMonth := Bump(byMonth, file.yearMonth);
      }
      assert files[..|files|] == files;
      stats := Stats(|files|, byType, byUser, byMonth);
    }
  }

  // ---------------------------------------------------------------- properties of the queries

  /** A cache valid at some time was valid at every earlier time, and it
      expires once `CacheExpiry` milliseconds have passed since `cacheTime`. */
  lemma CacheValidity(s: FileScanner, earlier: int, later: int)
    requires earlier <= later
    ensures s.IsCacheValid(later) ==> s.IsCacheValid(earlier)
    ensures !s.IsCacheValid(s.cacheTime + CacheExpiry)
  {
  }

  /** The search ignores the case of the keyword. */
  lemma SearchIgnoresKeywordCase(s: FileScanner, keyword: string)
    ensures s.SearchFiles(Lower(keyword)) == s.SearchFiles(keyword)
  {
    LowerIdempotent(keyword);
    if keyword != "" {
      assert Lower(keyword) != "" by {
        assert |Lower(keyword)| == |keyword|;
      }
      FilterCongruent(s.files, e => NameMatches(e, Lower(keyword)), e => NameMatches(e, keyword));
    }
  }
}
