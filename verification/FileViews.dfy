/** What a workspace path shows at a moment, and which changes of the file system leave it alone. */
module FileViews {
  import opened Strings
  import opened Utf8
  import opened WorkspacePath
  import opened HostFiles

  /** The inode that a path reaches through real directories. */
  function Walk(nodes: Nodes, d: Inode, parts: seq<string>): Option<Inode>
    decreases parts
  {
    if parts == [] then Some(d)
    else if DirAt(nodes, d) && parts[0] in nodes[d].entries then Walk(nodes, nodes[d].entries[parts[0]], parts[1..])
    else None
  }

  /** What a reader of a path would find: nothing, a whole file content, or something else. */
  datatype Seen = Nothing | Content(content: seq<byte>) | Other(inode: Inode)

  function Show(nodes: Nodes, i: Inode): Seen {
    if i in nodes && nodes[i].File? then Content(nodes[i].content) else Other(i)
  }

  function Look(nodes: Nodes, root: Inode, parts: seq<string>): Seen {
    match Walk(nodes, root, parts)
    case None => Nothing
    case Some(i) => Show(nodes, i)
  }

  /** What a name shows in a directory. */
  function Entry(nodes: Nodes, d: Inode, name: string): Seen {
    if DirAt(nodes, d) && name in nodes[d].entries then Show(nodes, nodes[d].entries[name]) else Nothing
  }

  function Parent(parts: seq<string>): seq<string>
    requires parts != []
  {
    parts[..|parts| - 1]
  }

  function Leaf(parts: seq<string>): string
    requires parts != []
  {
    parts[|parts| - 1]
  }

  lemma {:induction false} WalkConcat(nodes: Nodes, d: Inode, left: seq<string>, right: seq<string>)
    ensures Walk(nodes, d, left + right)
         == match Walk(nodes, d, left) case None => None case Some(i) => Walk(nodes, i, right)
    decreases left
  {
    if left == [] {
      assert left + right == right;
    } else {
      assert (left + right)[0] == left[0] && (left + right)[1..] == left[1..] + right;
      if DirAt(nodes, d) && left[0] in nodes[d].entries {
        WalkConcat(nodes, nodes[d].entries[left[0]], left[1..], right);
      }
    }
  }

  /** Seen from its parent directory, a path is one name. */
  lemma LookIsEntry(nodes: Nodes, root: Inode, parts: seq<string>, p: Inode)
    requires parts != [] && Walk(nodes, root, Parent(parts)) == Some(p)
    ensures Look(nodes, root, parts) == Entry(nodes, p, Leaf(parts))
  {
    assert parts == Parent(parts) + [Leaf(parts)];
    WalkConcat(nodes, root, Parent(parts), [Leaf(parts)]);
    var last := [Leaf(parts)];
    assert last[1..] == [];
  }

  lemma SiblingIsEntry(nodes: Nodes, root: Inode, parts: seq<string>, p: Inode, name: string)
    requires parts != [] && Walk(nodes, root, Parent(parts)) == Some(p)
    ensures Look(nodes, root, Parent(parts) + [name]) == Entry(nodes, p, name)
  {
    var sibling := Parent(parts) + [name];
    assert Parent(sibling) == Parent(parts) && Leaf(sibling) == name;
    LookIsEntry(nodes, root, sibling, p);
  }

  /** Every way from one directory into another is kept. */
  ghost predicate Gentle(nodes: Nodes, nodes': Nodes) {
    forall d, name :: DirAt(nodes, d) && name in nodes[d].entries && DirAt(nodes, nodes[d].entries[name]) ==>
      DirAt(nodes', d) && name in nodes'[d].entries && nodes'[d].entries[name] == nodes[d].entries[name]
  }

  /** A walk that ends in a directory survives every gentle change. */
  lemma {:induction false} WalkSurvives(nodes: Nodes, nodes': Nodes, d: Inode, parts: seq<string>, p: Inode)
    requires Gentle(nodes, nodes') && Walk(nodes, d, parts) == Some(p) && DirAt(nodes, p)
    ensures Walk(nodes', d, parts) == Some(p)
    decreases parts
  {
    if parts != [] {
      var next := nodes[d].entries[parts[0]];
      assert DirAt(nodes, next) by {
        if parts[1..] != [] { assert Walk(nodes, next, parts[1..]).Some?; }
      }
      WalkSurvives(nodes, nodes', next, parts[1..], p);
    }
  }

  // ---------------------------------------------------------------- the changes that writing makes

  /** A new empty directory under a name that was free. */
  lemma MadeDirectory(fs: Fs, c: Inode, name: string)
    requires Closed(fs) && c in fs.workspace && IsDir(fs, c) && name !in fs.nodes[c].entries
    ensures var nodes' := AddNode(fs, c, name, Dir(map[])).nodes;
      && Gentle(fs.nodes, nodes')
      && DirAt(nodes', fs.nextInode) && nodes'[fs.nextInode].entries == map[]
      && DirAt(nodes', c) && name in nodes'[c].entries && nodes'[c].entries[name] == fs.nextInode
  {
  }

  /** Making the next directory of a path that ends further down: the path showed nothing before and
    * shows nothing after. */
  lemma MkdirShowsNothing(fs: Fs, parts: seq<string>, k: nat, c: Inode)
    requires Closed(fs) && c in fs.workspace && IsDir(fs, c)
    requires k + 1 < |parts| && Walk(fs.nodes, fs.root, parts[..k]) == Some(c) && parts[k] !in fs.nodes[c].entries
    ensures var nodes' := AddNode(fs, c, parts[k], Dir(map[])).nodes;
      && Look(fs.nodes, fs.root, parts) == Nothing && Look(nodes', fs.root, parts) == Nothing
      && Walk(nodes', fs.root, parts[..k]) == Some(c)
  {
    var nodes' := AddNode(fs, c, parts[k], Dir(map[])).nodes;
    MadeDirectory(fs, c, parts[k]);
    WalkSurvives(fs.nodes, nodes', fs.root, parts[..k], c);
    assert parts == parts[..k] + parts[k..];
    WalkConcat(fs.nodes, fs.root, parts[..k], parts[k..]);
    WalkConcat(nodes', fs.root, parts[..k], parts[k..]);
    assert parts[k..][0] == parts[k] && parts[k..][1..] == parts[k + 1..];
    assert Walk(nodes', fs.nextInode, parts[k + 1..]) == None;
  }

  /** One component further along a path. */
  lemma WalkStep(nodes: Nodes, root: Inode, parts: seq<string>, k: nat, c: Inode)
    requires k < |parts| && Walk(nodes, root, parts[..k]) == Some(c)
    requires DirAt(nodes, c) && parts[k] in nodes[c].entries
    ensures Walk(nodes, root, parts[..k + 1]) == Some(nodes[c].entries[parts[k]])
  {
    assert parts[..k + 1] == parts[..k] + [parts[k]];
    WalkConcat(nodes, root, parts[..k], [parts[k]]);
    assert [parts[k]][1..] == [];
  }

  /** The parent directory exists, and its temporary entry is a file that nothing else in the
    * directory leads to under the target's name. */
  ghost predicate Staged(nodes: Nodes, root: Inode, parts: seq<string>, p: Inode, temporary: string, f: Inode)
    requires parts != []
  {
    && Walk(nodes, root, Parent(parts)) == Some(p) && DirAt(nodes, p)
    && temporary in nodes[p].entries && nodes[p].entries[temporary] == f
    && f in nodes && nodes[f].File?
    && (Leaf(parts) in nodes[p].entries ==> nodes[p].entries[Leaf(parts)] != f)
  }

  /** Creating the temporary file beside the target. */
  lemma StageCreated(fs: Fs, parts: seq<string>, p: Inode, temporary: string)
    requires Closed(fs) && p in fs.workspace && parts != [] && temporary != Leaf(parts)
    requires Walk(fs.nodes, fs.root, Parent(parts)) == Some(p) && IsDir(fs, p) && temporary !in fs.nodes[p].entries
    ensures var nodes' := AddNode(fs, p, temporary, File([])).nodes;
      && Staged(nodes', fs.root, parts, p, temporary, fs.nextInode)
      && Look(nodes', fs.root, parts) == Look(fs.nodes, fs.root, parts)
  {
    var nodes' := AddNode(fs, p, temporary, File([])).nodes;
    assert Gentle(fs.nodes, nodes');
    WalkSurvives(fs.nodes, nodes', fs.root, Parent(parts), p);
    LookIsEntry(fs.nodes, fs.root, parts, p);
    LookIsEntry(nodes', fs.root, parts, p);
  }

  /** Writing the temporary file. */
  lemma StageWritten(nodes: Nodes, root: Inode, parts: seq<string>, p: Inode, temporary: string, f: Inode,
                     content: seq<byte>)
    requires parts != [] && Staged(nodes, root, parts, p, temporary, f)
    ensures var nodes' := nodes[f := File(content)];
      && Staged(nodes', root, parts, p, temporary, f)
      && Look(nodes', root, parts) == Look(nodes, root, parts)
  {
    var nodes' := nodes[f := File(content)];
    assert Gentle(nodes, nodes');
    WalkSurvives(nodes, nodes', root, Parent(parts), p);
    LookIsEntry(nodes, root, parts, p);
    LookIsEntry(nodes', root, parts, p);
  }

  /** Moving the temporary file over a target that is no directory: at once the path shows it. */
  lemma StageReplaced(nodes: Nodes, root: Inode, parts: seq<string>, p: Inode, temporary: string, f: Inode)
    requires parts != [] && Staged(nodes, root, parts, p, temporary, f) && temporary != Leaf(parts)
    requires Leaf(parts) in nodes[p].entries ==> !DirAt(nodes, nodes[p].entries[Leaf(parts)])
    ensures var nodes' := nodes[p := Dir(nodes[p].entries[Leaf(parts) := f] - {temporary})];
      && Look(nodes', root, parts) == Content(nodes[f].content)
      && Look(nodes', root, Parent(parts) + [temporary]) == Nothing
  {
    var nodes' := nodes[p := Dir(nodes[p].entries[Leaf(parts) := f] - {temporary})];
    assert Gentle(nodes, nodes');
    WalkSurvives(nodes, nodes', root, Parent(parts), p);
    LookIsEntry(nodes', root, parts, p);
    SiblingIsEntry(nodes', root, parts, p, temporary);
  }

  /** Removing an entry beside the target that is no directory. */
  lemma SiblingRemoved(nodes: Nodes, root: Inode, parts: seq<string>, p: Inode, temporary: string)
    requires parts != [] && temporary != Leaf(parts)
    requires Walk(nodes, root, Parent(parts)) == Some(p) && DirAt(nodes, p)
    requires temporary in nodes[p].entries ==> !DirAt(nodes, nodes[p].entries[temporary])
    ensures var nodes' := nodes[p := Dir(nodes[p].entries - {temporary})];
      && Look(nodes', root, parts) == Look(nodes, root, parts)
      && Look(nodes', root, Parent(parts) + [temporary]) == Nothing
  {
    var nodes' := nodes[p := Dir(nodes[p].entries - {temporary})];
    assert Gentle(nodes, nodes');
    WalkSurvives(nodes, nodes', root, Parent(parts), p);
    LookIsEntry(nodes, root, parts, p);
    LookIsEntry(nodes', root, parts, p);
    SiblingIsEntry(nodes', root, parts, p, temporary);
  }

  // ---------------------------------------------------------------- when a write must succeed

  /** Every directory of the path exists or can be made, the target is no directory, and the temporary
    * name is free beside it. */
  ghost predicate Ready(nodes: Nodes, d: Inode, parts: seq<string>, temporary: string)
    requires parts != []
    decreases parts
  {
    && DirAt(nodes, d)
    && (if |parts| == 1 then temporary !in nodes[d].entries else true)
    && (parts[0] in nodes[d].entries ==>
          var i := nodes[d].entries[parts[0]];
          if |parts| == 1 then !DirAt(nodes, i) else Ready(nodes, i, parts[1..], temporary))
  }
}
