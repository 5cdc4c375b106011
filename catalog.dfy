/** A catalogue entry, and what it means for one to describe a real file. */
module Catalog {
  import opened Wrappers
  import opened FsTree
  import opened Inclusion
  import opened FileTypes

  /** One element of `this.files`: the object the traversal pushes. The
      random `id` is not modelled (see README). */
  datatype Entry = Entry(
    name: string,
    path: string,
    size: nat,
    fileType: FileType,
    createTime: int,
    modifyTime: int,
    user: string,
    yearMonth: string)

  /** The entry passed `shouldIncludeFile` with the size it records. */
  predicate Included(e: Entry)
  {
    ShouldIncludeFile(e.name, Some(e.size))
  }

  /** The entry describes the regular file reached from `node` (whose path is
      `dir`) along `names`: the last name is the entry's name, the entry's
      path joins `dir` with `names`, and the file's stat is the one recorded. */
  ghost predicate FoundAt(e: Entry, dir: string, node: Node, names: seq<string>)
  {
    && |names| >= 1
    && names[|names| - 1] == e.name
    && e.path == JoinAll(dir, names)
    && Below(node, names, File(Some(Stat(e.size, e.createTime, e.modifyTime))))
  }

  /** The entry describes some regular file below `node`. */
  ghost predicate Found(e: Entry, dir: string, node: Node)
  {
    exists names :: FoundAt(e, dir, node, names)
  }

  /** A file found below entry `i` of `node` is found below `node`, one name
      further from it. */
  lemma FoundAtChild(e: Entry, dir: string, node: Node, i: nat, names: seq<string>)
    requires node.Dir? && i < |node.children|
    requires FoundAt(e, Join(dir, node.children[i].name), node.children[i].node, names)
    ensures FoundAt(e, dir, node, [node.children[i].name] + names)
  {
    var path := [node.children[i].name] + names;
    assert path[1..] == names && path[|path| - 1] == names[|names| - 1];
    BelowChild(node, i, names, File(Some(Stat(e.size, e.createTime, e.modifyTime))));
  }

  /** The same, for an entry `fs.access` finds by name. */
  lemma FoundAtNamed(e: Entry, dir: string, node: Node, name: string, child: Node, names: seq<string>)
    requires ChildNamed(node, name) == Some(child)
    requires FoundAt(e, Join(dir, name), child, names)
    ensures FoundAt(e, dir, node, [name] + names)
  {
    var i :| 0 <= i < |node.children| && node.children[i] == Child(name, child);
    FoundAtChild(e, dir, node, i, names);
  }

  /** Found below a named entry of `node` is found below `node`. */
  lemma FoundNamed(e: Entry, dir: string, node: Node, name: string, child: Node)
    requires ChildNamed(node, name) == Some(child)
    requires Found(e, Join(dir, name), child)
    ensures Found(e, dir, node)
  {
    var names :| FoundAt(e, Join(dir, name), child, names);
    FoundAtNamed(e, dir, node, name, child, names);
  }
}
