/** The filesystem as the scanner sees it through `fs.access`, `fs.readdir`
    (with file types) and `fs.stat`: an in-memory tree of named entries. */
module FsTree {
  import opened Wrappers

  /** What `fs.stat` reports about a file: its size in bytes, its creation
      time and its modification time (milliseconds since the epoch). */
  datatype Stat = Stat(size: nat, birthtime: int, mtime: int)

  /** One entry of a directory listing: the name and what it names. */
  datatype Child = Child(name: string, node: Node)

  datatype Node =
      /** a regular file (`dirent.isFile()`); `stat` is None when `fs.stat` fails */
    | File(stat: Option<Stat>)
      /** a directory (`dirent.isDirectory()`); `readable` is false when `fs.readdir` fails */
    | Dir(readable: bool, children: seq<Child>)
      /** anything else a listing can report: links, sockets, devices */
    | Special

  /** The separator `path.join` puts between components on Windows. */
  const Sep: char := '\\'

  /** `path.join(dir, name)` for a name that holds no separator. */
  function Join(dir: string, name: string): string
  {
    dir + [Sep] + name
  }

  /** `path.join(dir, names[0], names[1], ...)`. */
  function JoinAll(dir: string, names: seq<string>): string
    decreases |names|
  {
    if names == [] then dir else JoinAll(Join(dir, names[0]), names[1..])
  }

  /** First entry called `name` in the list `cs`. */
  function FirstNamed(cs: seq<Child>, name: string): (r: Option<Node>)
    ensures r.Some? <==> exists i :: 0 <= i < |cs| && cs[i].name == name
    ensures r.Some? ==> exists i :: 0 <= i < |cs| && cs[i] == Child(name, r.value)
  {
    if cs == [] then None
    else if cs[0].name == name then Some(cs[0].node)
    else
      var r := FirstNamed(cs[1..], name);
      assert forall i :: 0 <= i < |cs| - 1 ==> cs[1..][i] == cs[i + 1];
      assert r.Some? ==> exists i :: 0 <= i < |cs| - 1 && cs[1..][i] == Child(name, r.value);
      r
  }

  /** What `fs.access` finds at `name` inside the directory `n`: nothing when
      `n` is not a directory or holds no such entry. */
  function ChildNamed(n: Node, name: string): (r: Option<Node>)
    ensures r.Some? <==> n.Dir? && exists i :: 0 <= i < |n.children| && n.children[i].name == name
    ensures r.Some? ==> n.Dir? && exists i :: 0 <= i < |n.children| && n.children[i] == Child(name, r.value)
  {
    if n.Dir? then FirstNamed(n.children, name) else None
  }

  /** The path `names`, read from `n`, leads to `target`. */
  ghost predicate Below(n: Node, names: seq<string>, target: Node)
    decreases |names|
  {
    if names == [] then n == target
    else
      && n.Dir?
      && exists i :: 0 <= i < |n.children| && n.children[i].name == names[0]
                     && Below(n.children[i].node, names[1..], target)
  }

  /** Like `Below`, and every directory on the way can be listed. */
  ghost predicate Listed(n: Node, names: seq<string>, target: Node)
    decreases |names|
  {
    if names == [] then n == target
    else
      && n.Dir? && n.readable
      && exists i :: 0 <= i < |n.children| && n.children[i].name == names[0]
                     && Listed(n.children[i].node, names[1..], target)
  }

  /** One step down: a path below entry `i` of `n` is a path below `n`. */
  lemma BelowChild(n: Node, i: nat, names: seq<string>, target: Node)
    requires n.Dir? && i < |n.children|
    requires Below(n.children[i].node, names, target)
    ensures Below(n, [n.children[i].name] + names, target)
  {
    var path := [n.children[i].name] + names;
    assert path[0] == n.children[i].name && path[1..] == names;
  }
}
