/** What the traversal of `scanWeChatFiles` and its five helpers appends to
    `this.files`, as functions of the directory tree, and the lemmas that say
    which files those entries describe. Each `...Prefix` function gives what
    the first `k` iterations of the helper's loop have appended. */
module Traversal {
  import opened Wrappers
  import opened FsTree
  import opened FileNames
  import opened Inclusion
  import opened FileTypes
  import opened Catalog

  /** The category folders under `FileStorage` and under each `MsgAttach`
      group, in the order they are scanned. */
  const CategoryFolders: seq<string> := ["Image", "Video", "File", "Audio"]

  /** The size `fs.stat` reports for a listed entry; None when the entry is
      not a regular file or the call fails. */
  function SizeOf(n: Node): Option<int>
  {
    if n.File? && n.stat.Some? then Some(n.stat.value.size) else None
  }

  /** The object pushed for the file `name` inside the directory `dir`. */
  function FileEntry(dir: string, name: string, st: Stat, t: FileType, user: string, yearMonth: string): Entry
  {
    Entry(name, Join(dir, name), st.size, t, st.birthtime, st.mtime, user, yearMonth)
  }

  // ---------------------------------------------------------------- scanMonthFolder

  function MonthItem(monthPath: string, c: Child, hint: string, user: string, yearMonth: string): seq<Entry>
  {
    if c.node.File? && ShouldIncludeFile(c.name, SizeOf(c.node)) then
      [FileEntry(monthPath, c.name, c.node.stat.value, GetFileType(c.name, hint), user, yearMonth)]
    else []
  }

  function MonthPrefix(monthPath: string, d: Node, k: nat, hint: string, user: string, yearMonth: string): seq<Entry>
    requires d.Dir? && k <= |d.children|
  {
    if k == 0 then []
    else MonthPrefix(monthPath, d, k - 1, hint, user, yearMonth) + MonthItem(monthPath, d.children[k - 1], hint, user, yearMonth)
  }

  /** The regular files directly inside a month folder that pass the filter;
      nothing when the folder cannot be listed. */
  function MonthEntries(monthPath: string, node: Node, hint: string, user: string, yearMonth: string): seq<Entry>
  {
    if node.Dir? && node.readable then MonthPrefix(monthPath, node, |node.children|, hint, user, yearMonth) else []
  }

  ghost predicate MonthEntryOk(e: Entry, monthPath: string, node: Node, hint: string, user: string, yearMonth: string)
  {
    && Included(e)
    && e.user == user
    && e.yearMonth == yearMonth
    && e.fileType == GetFileType(e.name, hint)
    && FoundAt(e, monthPath, node, [e.name])
  }

  /** An entry of the first `k` turns comes from one of them. */
  lemma {:induction false} MonthPrefixMember(monthPath: string, d: Node, k: nat, hint: string, user: string, yearMonth: string, e: Entry)
    requires d.Dir? && k <= |d.children|
    requires e in MonthPrefix(monthPath, d, k, hint, user, yearMonth)
    ensures exists i :: 0 <= i < k && e in MonthItem(monthPath, d.children[i], hint, user, yearMonth)
  {
    assert MonthPrefix(monthPath, d, k, hint, user, yearMonth)
        == MonthPrefix(monthPath, d, k - 1, hint, user, yearMonth) + MonthItem(monthPath, d.children[k - 1], hint, user, yearMonth);
    if e !in MonthItem(monthPath, d.children[k - 1], hint, user, yearMonth) {
      MonthPrefixMember(monthPath, d, k - 1, hint, user, yearMonth, e);
    }
  }

  lemma MonthItemSound(monthPath: string, d: Node, i: nat, hint: string, user: string, yearMonth: string)
    requires d.Dir? && i < |d.children|
    ensures forall e :: e in MonthItem(monthPath, d.children[i], hint, user, yearMonth) ==> MonthEntryOk(e, monthPath, d, hint, user, yearMonth)
  {
    var c := d.children[i];
    if c.node.File? && ShouldIncludeFile(c.name, SizeOf(c.node)) {
      var e := FileEntry(monthPath, c.name, c.node.stat.value, GetFileType(c.name, hint), user, yearMonth);
      BelowChild(d, i, [], c.node);
      assert [c.name] + [] == [c.name];
      assert FoundAt(e, monthPath, d, [c.name]);
      assert Included(e);
    }
  }

  /** Every entry of a month folder is an included regular file directly
      inside it, tagged with the folder's name as its month. */
  lemma MonthEntriesSound(monthPath: string, node: Node, hint: string, user: string, yearMonth: string)
    ensures forall e :: e in MonthEntries(monthPath, node, hint, user, yearMonth) ==> MonthEntryOk(e, monthPath, node, hint, user, yearMonth)
  {
    if node.Dir? && node.readable {
      forall e | e in MonthEntries(monthPath, node, hint, user, yearMonth)
        ensures MonthEntryOk(e, monthPath, node, hint, user, yearMonth)
      {
        MonthPrefixMember(monthPath, node, |node.children|, hint, user, yearMonth, e);
        var i :| 0 <= i < |node.children| && e in MonthItem(monthPath, node.children[i], hint, user, yearMonth);
        MonthItemSound(monthPath, node, i, hint, user, yearMonth);
      }
    }
  }

  lemma {:induction false} MonthPrefixContains(monthPath: string, d: Node, i: nat, k: nat, hint: string, user: string, yearMonth: string, e: Entry)
    requires d.Dir? && i < k <= |d.children|
    requires e in MonthItem(monthPath, d.children[i], hint, user, yearMonth)
    ensures e in MonthPrefix(monthPath, d, k, hint, user, yearMonth)
  {
    if i < k - 1 {
      MonthPrefixContains(monthPath, d, i, k - 1, hint, user, yearMonth, e);
    }
  }


  /** Conversely, every included regular file directly inside a listable
      month folder has its entry. */
  lemma MonthEntriesComplete(monthPath: string, node: Node, hint: string, user: string, yearMonth: string, i: nat, st: Stat)
    requires node.Dir? && node.readable && i < |node.children|
    requires node.children[i].node == File(Some(st))
    requires ShouldIncludeFile(node.children[i].name, Some(st.size))
    ensures FileEntry(monthPath, node.children[i].name, st, GetFileType(node.children[i].name, hint), user, yearMonth)
            in MonthEntries(monthPath, node, hint, user, yearMonth)
  {
    var c := node.children[i];
    var e := FileEntry(monthPath, c.name, st, GetFileType(c.name, hint), user, yearMonth);
    assert MonthItem(monthPath, c, hint, user, yearMonth) == [e];
    MonthPrefixContains(monthPath, node, i, |node.children|, hint, user, yearMonth, e);
    assert MonthEntries(monthPath, node, hint, user, yearMonth)
        == MonthPrefix(monthPath, node, |node.children|, hint, user, yearMonth);
  }

  // ---------------------------------------------------------------- scanCategoryFolder

  function CategoryItem(categoryPath: string, c: Child, hint: string, user: string): seq<Entry>
  {
    if c.node.Dir? then MonthEntries(Join(categoryPath, c.name), c.node, hint, user, c.name) else []
  }

  function CategoryPrefix(categoryPath: string, d: Node, k: nat, hint: string, user: string): seq<Entry>
    requires d.Dir? && k <= |d.children|
  {
    if k == 0 then []
    else CategoryPrefix(categoryPath, d, k - 1, hint, user) + CategoryItem(categoryPath, d.children[k - 1], hint, user)
  }

  /** Each subfolder of a category folder, scanned as a month folder named by
      its own name; nothing when the category folder cannot be listed. */
  function CategoryEntries(categoryPath: string, node: Node, hint: string, user: string): seq<Entry>
  {
    if node.Dir? && node.readable then CategoryPrefix(categoryPath, node, |node.children|, hint, user) else []
  }

  ghost predicate CategoryEntryOk(e: Entry, categoryPath: string, node: Node, hint: string, user: string)
  {
    && Included(e)
    && e.user == user
    && e.fileType == GetFileType(e.name, hint)
    && FoundAt(e, categoryPath, node, [e.yearMonth, e.name])
  }

  lemma {:induction false} CategoryPrefixMember(categoryPath: string, d: Node, k: nat, hint: string, user: string, e: Entry)
    requires d.Dir? && k <= |d.children|
    requires e in CategoryPrefix(categoryPath, d, k, hint, user)
    ensures exists i :: 0 <= i < k && e in CategoryItem(categoryPath, d.children[i], hint, user)
  {
    assert CategoryPrefix(categoryPath, d, k, hint, user)
        == CategoryPrefix(categoryPath, d, k - 1, hint, user) + CategoryItem(categoryPath, d.children[k - 1], hint, user);
    if e !in CategoryItem(categoryPath, d.children[k - 1], hint, user) {
      CategoryPrefixMember(categoryPath, d, k - 1, hint, user, e);
    }
  }

  lemma CategoryItemSound(categoryPath: string, d: Node, i: nat, hint: string, user: string)
    requires d.Dir? && i < |d.children|
    ensures forall e :: e in CategoryItem(categoryPath, d.children[i], hint, user) ==> CategoryEntryOk(e, categoryPath, d, hint, user)
  {
    var c := d.children[i];
    if c.node.Dir? {
      MonthEntriesSound(Join(categoryPath, c.name), c.node, hint, user, c.name);
      forall e | e in CategoryItem(categoryPath, c, hint, user)
        ensures CategoryEntryOk(e, categoryPath, d, hint, user)
      {
        FoundAtChild(e, categoryPath, d, i, [e.name]);
        assert [c.name] + [e.name] == [e.yearMonth, e.name];
      }
    }
  }

  /** Every entry of a category folder is an included regular file directly
      inside one of its subfolders, and its month is that subfolder's name. */
  lemma CategoryEntriesSound(categoryPath: string, node: Node, hint: string, user: string)
    ensures forall e :: e in CategoryEntries(categoryPath, node, hint, user) ==> CategoryEntryOk(e, categoryPath, node, hint, user)
  {
    if node.Dir? && node.readable {
      forall e | e in CategoryEntries(categoryPath, node, hint, user)
        ensures CategoryEntryOk(e, categoryPath, node, hint, user)
      {
        CategoryPrefixMember(categoryPath, node, |node.children|, hint, user, e);
        var i :| 0 <= i < |node.children| && e in CategoryItem(categoryPath, node.children[i], hint, user);
        CategoryItemSound(categoryPath, node, i, hint, user);
      }
    }
  }

  // ---------------------------------------------------------------- scanFileStorage (and each MsgAttach group)

  function CategoriesItem(base: string, node: Node, category: string, user: string): seq<Entry>
  {
    match ChildNamed(node, category)
    case None => []
    case Some(n) => CategoryEntries(Join(base, category), n, Lower(category), user)
  }

  function CategoriesPrefix(base: string, node: Node, k: nat, user: string): seq<Entry>
    requires k <= |CategoryFolders|
  {
    if k == 0 then []
    else CategoriesPrefix(base, node, k - 1, user) + CategoriesItem(base, node, CategoryFolders[k - 1], user)
  }

  /** One more turn of the category loop appends that category's item. */
  lemma CategoriesPrefixStep(base: string, node: Node, k: nat, user: string)
    requires k < |CategoryFolders|
    ensures CategoriesPrefix(base, node, k + 1, user)
      == CategoriesPrefix(base, node, k, user) + CategoriesItem(base, node, CategoryFolders[k], user)
  {
  }

  /** The four category folders that exist under `base`, in order. */
  function CategoriesEntries(base: string, node: Node, user: string): seq<Entry>
  {
    CategoriesPrefix(base, node, |CategoryFolders|, user)
  }

  ghost predicate CategoriesEntryOk(e: Entry, base: string, node: Node, user: string)
  {
    && Included(e)
    && e.user == user
    && exists k :: 0 <= k < |CategoryFolders| && FoundAt(e, base, node, [CategoryFolders[k], e.yearMonth, e.name])
  }

  lemma {:induction false} CategoriesPrefixMember(base: string, node: Node, k: nat, user: string, e: Entry)
    requires k <= |CategoryFolders|
    requires e in CategoriesPrefix(base, node, k, user)
    ensures exists j :: 0 <= j < k && e in CategoriesItem(base, node, CategoryFolders[j], user)
  {
    assert CategoriesPrefix(base, node, k, user)
        == CategoriesPrefix(base, node, k - 1, user) + CategoriesItem(base, node, CategoryFolders[k - 1], user);
    if e !in CategoriesItem(base, node, CategoryFolders[k - 1], user) {
      CategoriesPrefixMember(base, node, k - 1, user, e);
    }
  }

  lemma CategoriesItemSound(base: string, node: Node, j: nat, user: string)
    requires j < |CategoryFolders|
    ensures forall e :: e in CategoriesItem(base, node, CategoryFolders[j], user) ==> CategoriesEntryOk(e, base, node, user)
  {
    var category := CategoryFolders[j];
    var found := ChildNamed(node, category);
    if found.Some? {
      CategoryEntriesSound(Join(base, category), found.value, Lower(category), user);
      assert CategoriesItem(base, node, category, user) == CategoryEntries(Join(base, category), found.value, Lower(category), user);
      forall e | e in CategoriesItem(base, node, category, user)
        ensures CategoriesEntryOk(e, base, node, user)
      {
        CategoryEntryLift(e, base, node, j, found.value, user);
      }
    }
  }

  lemma CategoryEntryLift(e: Entry, base: string, node: Node, j: nat, found: Node, user: string)
    requires j < |CategoryFolders| && ChildNamed(node, CategoryFolders[j]) == Some(found)
    requires CategoryEntryOk(e, Join(base, CategoryFolders[j]), found, Lower(CategoryFolders[j]), user)
    ensures CategoriesEntryOk(e, base, node, user)
  {
    var category := CategoryFolders[j];
    FoundAtNamed(e, base, node, category, found, [e.yearMonth, e.name]);
    assert [category] + [e.yearMonth, e.name] == [CategoryFolders[j], e.yearMonth, e.name];
  }

  /** Every entry found under `FileStorage` (or a `MsgAttach` group) is an
      included regular file at `<category>/<month>/<name>` for one of the
      four category folders, with that month. */
  lemma CategoriesEntriesSound(base: string, node: Node, user: string)
    ensures forall e :: e in CategoriesEntries(base, node, user) ==> CategoriesEntryOk(e, base, node, user)
  {
    forall e | e in CategoriesEntries(base, node, user)
      ensures CategoriesEntryOk(e, base, node, user)
    {
      CategoriesPrefixMember(base, node, |CategoryFolders|, user, e);
      var j :| 0 <= j < |CategoryFolders| && e in CategoriesItem(base, node, CategoryFolders[j], user);
      CategoriesItemSound(base, node, j, user);
    }
  }

  // ---------------------------------------------------------------- scanMsgAttach

  function AttachItem(msgAttachPath: string, c: Child, user: string): seq<Entry>
  {
    if c.node.Dir? then CategoriesEntries(Join(msgAttachPath, c.name), c.node, user) else []
  }

  function AttachPrefix(msgAttachPath: string, d: Node, k: nat, user: string): seq<Entry>
    requires d.Dir? && k <= |d.children|
  {
    if k == 0 then []
    else AttachPrefix(msgAttachPath, d, k - 1, user) + AttachItem(msgAttachPath, d.children[k - 1], user)
  }

  /** Each group folder under `MsgAttach`, scanned like `FileStorage`;
      nothing when `MsgAttach` cannot be listed. */
  function AttachEntries(msgAttachPath: string, node: Node, user: string): seq<Entry>
  {
    if node.Dir? && node.readable then AttachPrefix(msgAttachPath, node, |node.children|, user) else []
  }

  ghost predicate AttachEntryOk(e: Entry, msgAttachPath: string, node: Node, user: string)
  {
    && Included(e)
    && e.user == user
    && exists group, k :: 0 <= k < |CategoryFolders| && FoundAt(e, msgAttachPath, node, [group, CategoryFolders[k], e.yearMonth, e.name])
  }

  lemma {:induction false} AttachPrefixMember(msgAttachPath: string, d: Node, k: nat, user: string, e: Entry)
    requires d.Dir? && k <= |d.children|
    requires e in AttachPrefix(msgAttachPath, d, k, user)
    ensures exists i :: 0 <= i < k && e in AttachItem(msgAttachPath, d.children[i], user)
  {
    assert AttachPrefix(msgAttachPath, d, k, user)
        == AttachPrefix(msgAttachPath, d, k - 1, user) + AttachItem(msgAttachPath, d.children[k - 1], user);
    if e !in AttachItem(msgAttachPath, d.children[k - 1], user) {
      AttachPrefixMember(msgAttachPath, d, k - 1, user, e);
    }
  }

  lemma AttachItemSound(msgAttachPath: string, d: Node, i: nat, user: string)
    requires d.Dir? && i < |d.children|
    ensures forall e :: e in AttachItem(msgAttachPath, d.children[i], user) ==> AttachEntryOk(e, msgAttachPath, d, user)
  {
    var c := d.children[i];
    if c.node.Dir? {
      CategoriesEntriesSound(Join(msgAttachPath, c.name), c.node, user);
      forall e | e in AttachItem(msgAttachPath, c, user)
        ensures AttachEntryOk(e, msgAttachPath, d, user)
      {
        var j :| 0 <= j < |CategoryFolders| && FoundAt(e, Join(msgAttachPath, c.name), c.node, [CategoryFolders[j], e.yearMonth, e.name]);
        FoundAtChild(e, msgAttachPath, d, i, [CategoryFolders[j], e.yearMonth, e.name]);
        assert [c.name] + [CategoryFolders[j], e.yearMonth, e.name] == [c.name, CategoryFolders[j], e.yearMonth, e.name];
      }
    }
  }

  /** Every `MsgAttach` entry is an included regular file four names below
      `MsgAttach` (group, category, month, name), with that month. */
  lemma AttachEntriesSound(msgAttachPath: string, node: Node, user: string)
    ensures forall e :: e in AttachEntries(msgAttachPath, node, user) ==> AttachEntryOk(e, msgAttachPath, node, user)
  {
    if node.Dir? && node.readable {
      forall e | e in AttachEntries(msgAttachPath, node, user)
        ensures AttachEntryOk(e, msgAttachPath, node, user)
      {
        AttachPrefixMember(msgAttachPath, node, |node.children|, user, e);
        var i :| 0 <= i < |node.children| && e in AttachItem(msgAttachPath, node.children[i], user);
        AttachItemSound(msgAttachPath, node, i, user);
      }
    }
  }

  // ---------------------------------------------------------------- recursiveScan

  /** Depth-first walk: every listable directory below `node`, every
      included regular file at any depth, in listing order. */
  function WalkEntries(dir: string, node: Node, user: string, monthOf: int -> string): seq<Entry>
    decreases node, 2
  {
    if node.Dir? && node.readable then WalkPrefix(dir, node, |node.children|, user, monthOf) else []
  }

  function WalkPrefix(dir: string, d: Node, k: nat, user: string, monthOf: int -> string): seq<Entry>
    requires d.Dir? && k <= |d.children|
    decreases d, 1, k
  {
    if k == 0 then []
    else WalkPrefix(dir, d, k - 1, user, monthOf) + WalkItem(dir, d, k - 1, user, monthOf)
  }

  /** What entry `i` of directory `d` contributes: its whole walk when it is
      a directory, itself when it is an included regular file. */
  function WalkItem(dir: string, d: Node, i: nat, user: string, monthOf: int -> string): seq<Entry>
    requires d.Dir? && i < |d.children|
    decreases d, 0
  {
    var c := d.children[i];
    if c.node.Dir? then WalkEntries(Join(dir, c.name), c.node, user, monthOf)
    else if c.node.File? && ShouldIncludeFile(c.name, SizeOf(c.node)) then
      var st := c.node.stat.value;
      [FileEntry(dir, c.name, st, GetFileType(c.name, "other"), user, monthOf(st.mtime))]
    else []
  }

  ghost predicate WalkEntryOk(e: Entry, dir: string, node: Node, user: string, monthOf: int -> string)
  {
    && Included(e)
    && e.user == user
    && e.yearMonth == monthOf(e.modifyTime)
    && e.fileType == GetFileType(e.name, "other")
    && Found(e, dir, node)
  }

  /** Every entry of the walk is an included regular file somewhere below
      the starting folder, its month computed from its modification time. */
  lemma {:induction false} WalkSound(dir: string, node: Node, user: string, monthOf: int -> string)
    ensures forall e :: e in WalkEntries(dir, node, user, monthOf) ==> WalkEntryOk(e, dir, node, user, monthOf)
    decreases node, 1
  {
    if node.Dir? && node.readable {
      forall e | e in WalkEntries(dir, node, user, monthOf)
        ensures WalkEntryOk(e, dir, node, user, monthOf)
      {
        WalkPrefixMember(dir, node, |node.children|, user, monthOf, e);
        var i :| 0 <= i < |node.children| && e in WalkItem(dir, node, i, user, monthOf);
        WalkItemSound(dir, node, i, user, monthOf);
      }
    }
  }

  /** An entry of the first `k` turns comes from one of them. */
  lemma {:induction false} WalkPrefixMember(dir: string, d: Node, k: nat, user: string, monthOf: int -> string, e: Entry)
    requires d.Dir? && k <= |d.children|
    requires e in WalkPrefix(dir, d, k, user, monthOf)
    ensures exists i :: 0 <= i < k && e in WalkItem(dir, d, i, user, monthOf)
  {
    assert WalkPrefix(dir, d, k, user, monthOf) == WalkPrefix(dir, d, k - 1, user, monthOf) + WalkItem(dir, d, k - 1, user, monthOf);
    if e !in WalkItem(dir, d, k - 1, user, monthOf) {
      WalkPrefixMember(dir, d, k - 1, user, monthOf, e);
    }
  }

  lemma {:induction false} WalkItemSound(dir: string, d: Node, i: nat, user: string, monthOf: int -> string)
    requires d.Dir? && i < |d.children|
    ensures forall e :: e in WalkItem(dir, d, i, user, monthOf) ==> WalkEntryOk(e, dir, d, user, monthOf)
    decreases d, 0
  {
    var c := d.children[i];
    if c.node.Dir? {
      WalkSound(Join(dir, c.name), c.node, user, monthOf);
      assert WalkItem(dir, d, i, user, monthOf) == WalkEntries(Join(dir, c.name), c.node, user, monthOf);
      forall e | e in WalkItem(dir, d, i, user, monthOf)
        ensures WalkEntryOk(e, dir, d, user, monthOf)
      {
        assert WalkEntryOk(e, Join(dir, c.name), c.node, user, monthOf);
        var names :| FoundAt(e, Join(dir, c.name), c.node, names);
        FoundAtChild(e, dir, d, i, names);
      }
    } else if c.node.File? && ShouldIncludeFile(c.name, SizeOf(c.node)) {
      BelowChild(d, i, [], c.node);
      var e := WalkItem(dir, d, i, user, monthOf)[0];
      assert [c.name] + [] == [c.name];
      assert FoundAt(e, dir, d, [c.name]);
    }
  }

  lemma {:induction false} WalkPrefixContains(dir: string, d: Node, i: nat, k: nat, user: string, monthOf: int -> string, e: Entry)
    requires d.Dir? && i < k <= |d.children|
    requires e in WalkItem(dir, d, i, user, monthOf)
    ensures e in WalkPrefix(dir, d, k, user, monthOf)
    decreases k
  {
    if i < k - 1 {
      WalkPrefixContains(dir, d, i, k - 1, user, monthOf, e);
    }
  }


  /** The walk reaches every depth: an included regular file reached from
      `node` along `names`, through directories that can all be listed, has
      its entry. */
  lemma {:induction false} WalkComplete(dir: string, node: Node, user: string, monthOf: int -> string, names: seq<string>, st: Stat)
    requires Listed(node, names, File(Some(st)))
    requires |names| >= 1 && ShouldIncludeFile(names[|names| - 1], Some(st.size))
    ensures Entry(names[|names| - 1], JoinAll(dir, names), st.size, GetFileType(names[|names| - 1], "other"),
                  st.birthtime, st.mtime, user, monthOf(st.mtime))
            in WalkEntries(dir, node, user, monthOf)
    decreases |names|
  {
    var i :| 0 <= i < |node.children| && node.children[i].name == names[0]
             && Listed(node.children[i].node, names[1..], File(Some(st)));
    var c := node.children[i];
    var last := names[|names| - 1];
    var e := Entry(last, JoinAll(dir, names), st.size, GetFileType(last, "other"),
                   st.birthtime, st.mtime, user, monthOf(st.mtime));
    if |names| == 1 {
      assert c.node == File(Some(st)) && last == c.name;
      assert JoinAll(dir, names) == Join(dir, c.name) by {
        assert names[1..] == [];
      }
      assert WalkItem(dir, node, i, user, monthOf) == [e];
    } else {
      assert c.node.Dir?;
      WalkComplete(Join(dir, c.name), c.node, user, monthOf, names[1..], st);
      assert names[1..][|names| - 2] == last;
      assert JoinAll(dir, names) == JoinAll(Join(dir, c.name), names[1..]);
      assert WalkItem(dir, node, i, user, monthOf) == WalkEntries(Join(dir, c.name), c.node, user, monthOf);
    }
    WalkPrefixContains(dir, node, i, |node.children|, user, monthOf, e);
    assert WalkEntries(dir, node, user, monthOf) == WalkPrefix(dir, node, |node.children|, user, monthOf);
  }

  // ---------------------------------------------------------------- scanMsgFolder

  function MsgItem(msgPath: string, c: Child, user: string, monthOf: int -> string): seq<Entry>
  {
    if c.node.Dir? then WalkEntries(Join(msgPath, c.name), c.node, user, monthOf) else []
  }

  function MsgPrefix(msgPath: string, d: Node, k: nat, user: string, monthOf: int -> string): seq<Entry>
    requires d.Dir? && k <= |d.children|
  {
    if k == 0 then []
    else MsgPrefix(msgPath, d, k - 1, user, monthOf) + MsgItem(msgPath, d.children[k - 1], user, monthOf)
  }

  /** A walk of each subfolder of `msg`; the files directly inside `msg`
      are skipped; nothing when `msg` cannot be listed. */
  function MsgEntries(msgPath: string, node: Node, user: string, monthOf: int -> string): seq<Entry>
  {
    if node.Dir? && node.readable then MsgPrefix(msgPath, node, |node.children|, user, monthOf) else []
  }

  ghost predicate MsgEntryOk(e: Entry, msgPath: string, node: Node, user: string, monthOf: int -> string)
  {
    && Included(e)
    && e.user == user
    && e.yearMonth == monthOf(e.modifyTime)
    && e.fileType == GetFileType(e.name, "other")
    && exists names :: FoundAt(e, msgPath, node, names) && |names| >= 2
  }

  lemma {:induction false} MsgPrefixMember(msgPath: string, d: Node, k: nat, user: string, monthOf: int -> string, e: Entry)
    requires d.Dir? && k <= |d.children|
    requires e in MsgPrefix(msgPath, d, k, user, monthOf)
    ensures exists i :: 0 <= i < k && e in MsgItem(msgPath, d.children[i], user, monthOf)
  {
    assert MsgPrefix(msgPath, d, k, user, monthOf)
        == MsgPrefix(msgPath, d, k - 1, user, monthOf) + MsgItem(msgPath, d.children[k - 1], user, monthOf);
    if e !in MsgItem(msgPath, d.children[k - 1], user, monthOf) {
      MsgPrefixMember(msgPath, d, k - 1, user, monthOf, e);
    }
  }

  lemma MsgItemSound(msgPath: string, d: Node, i: nat, user: string, monthOf: int -> string)
    requires d.Dir? && i < |d.children|
    ensures forall e :: e in MsgItem(msgPath, d.children[i], user, monthOf) ==> MsgEntryOk(e, msgPath, d, user, monthOf)
  {
    var c := d.children[i];
    if c.node.Dir? {
      WalkSound(Join(msgPath, c.name), c.node, user, monthOf);
      assert MsgItem(msgPath, c, user, monthOf) == WalkEntries(Join(msgPath, c.name), c.node, user, monthOf);
      forall e | e in MsgItem(msgPath, c, user, monthOf)
        ensures MsgEntryOk(e, msgPath, d, user, monthOf)
      {
        WalkEntryLift(e, msgPath, d, i, user, monthOf);
      }
    }
  }

  lemma WalkEntryLift(e: Entry, msgPath: string, d: Node, i: nat, user: string, monthOf: int -> string)
    requires d.Dir? && i < |d.children|
    requires WalkEntryOk(e, Join(msgPath, d.children[i].name), d.children[i].node, user, monthOf)
    ensures MsgEntryOk(e, msgPath, d, user, monthOf)
  {
    var c := d.children[i];
    var names :| FoundAt(e, Join(msgPath, c.name), c.node, names);
    FoundAtChild(e, msgPath, d, i, names);
    var path := [c.name] + names;
    assert FoundAt(e, msgPath, d, path) && |path| >= 2;
  }

  /** Every `msg` entry is an included regular file at least two names below
      `msg` (inside one of its subfolders, at any depth). */
  lemma MsgEntriesSound(msgPath: string, node: Node, user: string, monthOf: int -> string)
    ensures forall e :: e in MsgEntries(msgPath, node, user, monthOf) ==> MsgEntryOk(e, msgPath, node, user, monthOf)
  {
    if node.Dir? && node.readable {
      forall e | e in MsgEntries(msgPath, node, user, monthOf)
        ensures MsgEntryOk(e, msgPath, node, user, monthOf)
      {
        MsgPrefixMember(msgPath, node, |node.children|, user, monthOf, e);
        var i :| 0 <= i < |node.children| && e in MsgItem(msgPath, node.children[i], user, monthOf);
        MsgItemSound(msgPath, node, i, user, monthOf);
      }
    }
  }

  lemma {:induction false} MsgPrefixContains(msgPath: string, d: Node, i: nat, k: nat, user: string, monthOf: int -> string, e: Entry)
    requires d.Dir? && i < k <= |d.children|
    requires e in MsgItem(msgPath, d.children[i], user, monthOf)
    ensures e in MsgPrefix(msgPath, d, k, user, monthOf)
  {
    var prev := MsgPrefix(msgPath, d, k - 1, user, monthOf);
    var last := MsgItem(msgPath, d.children[k - 1], user, monthOf);
    assert MsgPrefix(msgPath, d, k, user, monthOf) == prev + last;
    if i == k - 1 {
      assert e in last;
    } else {
      MsgPrefixContains(msgPath, d, i, k - 1, user, monthOf, e);
      assert e in prev;
    }
  }

  /** Every included regular file inside a subfolder of `msg`, at any depth,
      reached through directories that can all be listed, has its entry. */
  lemma MsgEntriesComplete(msgPath: string, node: Node, user: string, monthOf: int -> string, names: seq<string>, st: Stat)
    requires Listed(node, names, File(Some(st)))
    requires |names| >= 2 && ShouldIncludeFile(names[|names| - 1], Some(st.size))
    ensures Entry(names[|names| - 1], JoinAll(msgPath, names), st.size, GetFileType(names[|names| - 1], "other"),
                  st.birthtime, st.mtime, user, monthOf(st.mtime))
            in MsgEntries(msgPath, node, user, monthOf)
  {
    var i :| 0 <= i < |node.children| && node.children[i].name == names[0]
             && Listed(node.children[i].node, names[1..], File(Some(st)));
    var c := node.children[i];
    var last := names[|names| - 1];
    var e := Entry(last, JoinAll(msgPath, names), st.size, GetFileType(last, "other"),
                   st.birthtime, st.mtime, user, monthOf(st.mtime));
    assert c.node.Dir?;
    WalkComplete(Join(msgPath, c.name), c.node, user, monthOf, names[1..], st);
    assert names[1..][|names| - 2] == last;
    assert JoinAll(msgPath, names) == JoinAll(Join(msgPath, c.name), names[1..]);
    assert MsgItem(msgPath, c, user, monthOf) == WalkEntries(Join(msgPath, c.name), c.node, user, monthOf);
    MsgPrefixContains(msgPath, node, i, |node.children|, user, monthOf, e);
    assert MsgEntries(msgPath, node, user, monthOf) == MsgPrefix(msgPath, node, |node.children|, user, monthOf);
  }

  // ---------------------------------------------------------------- one profile folder (scanWeChatFiles)

  /** Strategy 1: the category folders under `FileStorage`, when it exists. */
  function FileStoragePart(userPath: string, userNode: Node, user: string): seq<Entry>
  {
    match ChildNamed(userNode, "FileStorage")
    case None => []
    case Some(n) => CategoriesEntries(Join(userPath, "FileStorage"), n, user)
  }

  /** Strategy 2: the recursive walk under `msg`, when it exists. */
  function MsgPart(userPath: string, userNode: Node, user: string, monthOf: int -> string): seq<Entry>
  {
    match ChildNamed(userNode, "msg")
    case None => []
    case Some(n) => MsgEntries(Join(userPath, "msg"), n, user, monthOf)
  }

  /** Strategy 3: the groups under `FileStorage/MsgAttach`, when it exists. */
  function MsgAttachPart(userPath: string, userNode: Node, user: string): seq<Entry>
  {
    match ChildNamed(userNode, "FileStorage")
    case None => []
    case Some(n) =>
      match ChildNamed(n, "MsgAttach")
      case None => []
      case Some(m) => AttachEntries(JoinAll(userPath, ["FileStorage", "MsgAttach"]), m, user)
  }

  /** The three strategies for one profile folder, in order. */
  function ProfileEntries(userPath: string, userNode: Node, user: string, monthOf: int -> string): seq<Entry>
  {
    FileStoragePart(userPath, userNode, user) + MsgPart(userPath, userNode, user, monthOf) + MsgAttachPart(userPath, userNode, user)
  }

  ghost predicate ProfileEntryOk(e: Entry, userPath: string, userNode: Node, user: string)
  {
    Included(e) && e.user == user && Found(e, userPath, userNode)
  }

  lemma FileStoragePartSound(userPath: string, userNode: Node, user: string)
    ensures forall e :: e in FileStoragePart(userPath, userNode, user) ==> ProfileEntryOk(e, userPath, userNode, user)
  {
    var fileStorage := ChildNamed(userNode, "FileStorage");
    if fileStorage.Some? {
      var fsPath := Join(userPath, "FileStorage");
      CategoriesEntriesSound(fsPath, fileStorage.value, user);
      assert FileStoragePart(userPath, userNode, user) == CategoriesEntries(fsPath, fileStorage.value, user);
      forall e | e in FileStoragePart(userPath, userNode, user)
        ensures ProfileEntryOk(e, userPath, userNode, user)
      {
        StorageEntryLift(e, userPath, userNode, fileStorage.value, user);
      }
    }
  }

  lemma StorageEntryLift(e: Entry, userPath: string, userNode: Node, storage: Node, user: string)
    requires ChildNamed(userNode, "FileStorage") == Some(storage)
    requires CategoriesEntryOk(e, Join(userPath, "FileStorage"), storage, user)
    ensures ProfileEntryOk(e, userPath, userNode, user)
  {
    var k :| 0 <= k < |CategoryFolders| && FoundAt(e, Join(userPath, "FileStorage"), storage, [CategoryFolders[k], e.yearMonth, e.name]);
    assert Found(e, Join(userPath, "FileStorage"), storage);
    FoundNamed(e, userPath, userNode, "FileStorage", storage);
  }

  lemma MsgPartSound(userPath: string, userNode: Node, user: string, monthOf: int -> string)
    ensures forall e :: e in MsgPart(userPath, userNode, user, monthOf) ==> ProfileEntryOk(e, userPath, userNode, user)
  {
    var msg := ChildNamed(userNode, "msg");
    if msg.Some? {
      MsgEntriesSound(Join(userPath, "msg"), msg.value, user, monthOf);
      assert MsgPart(userPath, userNode, user, monthOf) == MsgEntries(Join(userPath, "msg"), msg.value, user, monthOf);
      forall e | e in MsgPart(userPath, userNode, user, monthOf)
        ensures ProfileEntryOk(e, userPath, userNode, user)
      {
        MsgEntryLift(e, userPath, userNode, msg.value, user, monthOf);
      }
    }
  }

  lemma MsgEntryLift(e: Entry, userPath: string, userNode: Node, msg: Node, user: string, monthOf: int -> string)
    requires ChildNamed(userNode, "msg") == Some(msg)
    requires MsgEntryOk(e, Join(userPath, "msg"), msg, user, monthOf)
    ensures ProfileEntryOk(e, userPath, userNode, user)
  {
    var names :| FoundAt(e, Join(userPath, "msg"), msg, names) && |names| >= 2;
    assert Found(e, Join(userPath, "msg"), msg);
    FoundNamed(e, userPath, userNode, "msg", msg);
  }

  lemma MsgAttachPartSound(userPath: string, userNode: Node, user: string)
    ensures forall e :: e in MsgAttachPart(userPath, userNode, user) ==> ProfileEntryOk(e, userPath, userNode, user)
  {
    var fileStorage := ChildNamed(userNode, "FileStorage");
    if fileStorage.Some? {
      var attach := ChildNamed(fileStorage.value, "MsgAttach");
      if attach.Some? {
        var attachPath := JoinAll(userPath, ["FileStorage", "MsgAttach"]);
        AttachEntriesSound(attachPath, attach.value, user);
        assert MsgAttachPart(userPath, userNode, user) == AttachEntries(attachPath, attach.value, user);
        forall e | e in MsgAttachPart(userPath, userNode, user)
          ensures ProfileEntryOk(e, userPath, userNode, user)
        {
          AttachEntryLift(e, userPath, userNode, fileStorage.value, attach.value, user);
        }
      }
    }
  }

  lemma AttachEntryLift(e: Entry, userPath: string, userNode: Node, storage: Node, attach: Node, user: string)
    requires ChildNamed(userNode, "FileStorage") == Some(storage)
    requires ChildNamed(storage, "MsgAttach") == Some(attach)
    requires AttachEntryOk(e, JoinAll(userPath, ["FileStorage", "MsgAttach"]), attach, user)
    ensures ProfileEntryOk(e, userPath, userNode, user)
  {
    var fsPath := Join(userPath, "FileStorage");
    assert JoinAll(userPath, ["FileStorage", "MsgAttach"]) == Join(fsPath, "MsgAttach") by {
      assert ["FileStorage", "MsgAttach"][1..] == ["MsgAttach"] && ["MsgAttach"][1..] == [];
    }
    AttachFound(e, fsPath, storage, attach, user);
    FoundNamed(e, userPath, userNode, "FileStorage", storage);
  }

  lemma AttachFound(e: Entry, fsPath: string, storage: Node, attach: Node, user: string)
    requires ChildNamed(storage, "MsgAttach") == Some(attach)
    requires AttachEntryOk(e, Join(fsPath, "MsgAttach"), attach, user)
    ensures Found(e, fsPath, storage)
  {
    var group, k :| 0 <= k < |CategoryFolders| && FoundAt(e, Join(fsPath, "MsgAttach"), attach, [group, CategoryFolders[k], e.yearMonth, e.name]);
    FoundAtNamed(e, fsPath, storage, "MsgAttach", attach, [group, CategoryFolders[k], e.yearMonth, e.name]);
  }



  /** Every entry of a profile is an included regular file below the
      profile folder, tagged with the profile's name. */
  lemma ProfileEntriesSound(userPath: string, userNode: Node, user: string, monthOf: int -> string)
    ensures forall e :: e in ProfileEntries(userPath, userNode, user, monthOf) ==> ProfileEntryOk(e, userPath, userNode, user)
  {
    FileStoragePartSound(userPath, userNode, user);
    MsgPartSound(userPath, userNode, user, monthOf);
    MsgAttachPartSound(userPath, userNode, user);
  }

  // ---------------------------------------------------------------- one root, all roots (scanWeChatFiles)

  function RootItem(root: string, c: Child, monthOf: int -> string): seq<Entry>
  {
    if c.node.Dir? then ProfileEntries(Join(root, c.name), c.node, c.name, monthOf) else []
  }

  function RootPrefix(root: string, d: Node, k: nat, monthOf: int -> string): seq<Entry>
    requires d.Dir? && k <= |d.children|
  {
    if k == 0 then []
    else RootPrefix(root, d, k - 1, monthOf) + RootItem(root, d.children[k - 1], monthOf)
  }

  /** Every subfolder of a root, scanned as a profile named by the folder;
      nothing when the root cannot be listed. */
  function RootEntries(root: string, node: Node, monthOf: int -> string): seq<Entry>
  {
    if node.Dir? && node.readable then RootPrefix(root, node, |node.children|, monthOf) else []
  }

  /** One root as the loop body handles it: `fs.access` again, then the profiles. */
  function WeChatPathEntries(fs: map<string, Node>, root: string, monthOf: int -> string): seq<Entry>
  {
    if root in fs then RootEntries(root, fs[root], monthOf) else []
  }

  /** The roots in order. */
  function RootsEntries(fs: map<string, Node>, roots: seq<string>, monthOf: int -> string): seq<Entry>
  {
    if roots == [] then []
    else RootsEntries(fs, roots[..|roots| - 1], monthOf) + WeChatPathEntries(fs, roots[|roots| - 1], monthOf)
  }

  ghost predicate RootEntryOk(e: Entry, root: string, node: Node)
  {
    Included(e) && exists names :: FoundAt(e, root, node, names) && |names| >= 2 && names[0] == e.user
  }

  lemma {:induction false} RootPrefixMember(root: string, d: Node, k: nat, monthOf: int -> string, e: Entry)
    requires d.Dir? && k <= |d.children|
    requires e in RootPrefix(root, d, k, monthOf)
    ensures exists i :: 0 <= i < k && e in RootItem(root, d.children[i], monthOf)
  {
    assert RootPrefix(root, d, k, monthOf) == RootPrefix(root, d, k - 1, monthOf) + RootItem(root, d.children[k - 1], monthOf);
    if e !in RootItem(root, d.children[k - 1], monthOf) {
      RootPrefixMember(root, d, k - 1, monthOf, e);
    }
  }

  lemma RootItemSound(root: string, d: Node, i: nat, monthOf: int -> string)
    requires d.Dir? && i < |d.children|
    ensures forall e :: e in RootItem(root, d.children[i], monthOf) ==> RootEntryOk(e, root, d)
  {
    var c := d.children[i];
    if c.node.Dir? {
      ProfileEntriesSound(Join(root, c.name), c.node, c.name, monthOf);
      forall e | e in RootItem(root, c, monthOf)
        ensures RootEntryOk(e, root, d)
      {
        ProfileEntryLift(e, root, d, i);
      }
    }
  }

  /** A profile's entry, seen from the root: one name further down, with the
      profile's name first. */
  lemma ProfileEntryLift(e: Entry, root: string, d: Node, i: nat)
    requires d.Dir? && i < |d.children|
    requires ProfileEntryOk(e, Join(root, d.children[i].name), d.children[i].node, d.children[i].name)
    ensures RootEntryOk(e, root, d)
  {
    var c := d.children[i];
    var names :| FoundAt(e, Join(root, c.name), c.node, names);
    FoundAtChild(e, root, d, i, names);
    var path := [c.name] + names;
    assert |path| >= 2 && path[0] == e.user;
  }

  /** Every entry of a root is an included regular file below it, whose
      first folder below the root is the entry's profile. */
  lemma RootEntriesSound(root: string, node: Node, monthOf: int -> string)
    ensures forall e :: e in RootEntries(root, node, monthOf) ==> RootEntryOk(e, root, node)
  {
    if node.Dir? && node.readable {
      forall e | e in RootEntries(root, node, monthOf)
        ensures RootEntryOk(e, root, node)
      {
        RootPrefixMember(root, node, |node.children|, monthOf, e);
        var i :| 0 <= i < |node.children| && e in RootItem(root, node.children[i], monthOf);
        RootItemSound(root, node, i, monthOf);
      }
    }
  }

  ghost predicate ScanEntryOk(e: Entry, fs: map<string, Node>, roots: seq<string>)
  {
    exists r :: r in roots && r in fs && RootEntryOk(e, r, fs[r])
  }

  /** Every entry a scan emits is an included regular file below one of the
      scanned roots, `user` is the profile folder it was found under and
      `path` joins the root with the names that lead to it. */
  lemma {:induction false} RootsEntriesSound(fs: map<string, Node>, roots: seq<string>, monthOf: int -> string)
    ensures forall e :: e in RootsEntries(fs, roots, monthOf) ==> ScanEntryOk(e, fs, roots)
  {
    if roots != [] {
      var init, r := roots[..|roots| - 1], roots[|roots| - 1];
      RootsEntriesSound(fs, init, monthOf);
      if r in fs {
        RootEntriesSound(r, fs[r], monthOf);
      }
      forall e | e in RootsEntries(fs, roots, monthOf)
        ensures ScanEntryOk(e, fs, roots)
      {
        if e in RootsEntries(fs, init, monthOf) {
          var r' :| r' in init && r' in fs && RootEntryOk(e, r', fs[r']);
          assert r' in roots;
        } else {
          assert r in roots;
        }
      }
    }
  }
}
