/**
 The file system over a git repository: a tree of nodes that is loaded from the object store piece by piece, changed
 in place, and written back. Nodes refer to each other by their index, down through entries and up through parents.
 */
module TreeFs {
  import opened Config
  import opened Trees

  /** Directories without entries and files without content are not loaded yet; an empty target may be not loaded, too. */
  datatype Node =
    | DirNode(name: string, entries: Option<map<string, nat>>, oid: Option<Oid>, parent: Option<nat>)
    | BlobNode(name: string, content: Option<string>, oid: Option<Oid>)
    | LinkNode(name: string, target: string, oid: Option<Oid>)

  type Nodes = seq<Node>

  // ---- What the nodes stand for ----

  function OidContent(mode: Mode, oid: Option<Oid>): Tree {
    match oid
    case Some(o) => Content(Item(mode, o))
    case None => if mode == TreeMode then Dir(map[]) else if mode == LinkMode then Link("") else Blob("")
  }

  /** The tree under a node, loaded or not. */
  function Abs(nodes: Nodes, i: nat): Tree
    decreases |nodes| - i
  {
    if i >= |nodes| then Blob("")
    else
      match nodes[i]
      case DirNode(_, None, oid, _) => OidContent(TreeMode, oid)
      case DirNode(_, Some(entries), _, _) => Dir(map n | n in entries :: if i < entries[n] then Abs(nodes, entries[n]) else Blob(""))
      case BlobNode(_, None, oid) => OidContent(BlobMode, oid)
      case BlobNode(_, Some(content), _) => Blob(content)
      case LinkNode(_, target, oid) => if target == "" then OidContent(LinkMode, oid) else Link(target)
  }

  predicate Stored(store: set<Oid>, oid: Option<Oid>, mode: Mode) {
    oid.Some? && oid.value in store && WellKinded(Item(mode, oid.value))
  }

  /** An entry leads to a later node, which knows its name, and if it is a directory, its parent. */
  predicate EntryOk(nodes: Nodes, i: nat, n: string, c: nat) {
    && i < c < |nodes|
    && nodes[c].name == n
    && (nodes[c].DirNode? ==> nodes[c].parent == Some(i))
  }

  ghost predicate NodeOk(nodes: Nodes, store: set<Oid>, i: nat)
    requires i < |nodes|
  {
    match nodes[i]
    case DirNode(_, entries, oid, parent) =>
      && (parent.Some? ==> parent.value < i && nodes[parent.value].DirNode?)
      && (match entries
          case None => Stored(store, oid, TreeMode)
          case Some(m) => forall n | n in m :: EntryOk(nodes, i, n, m[n]))
    case BlobNode(_, content, oid) => content.Some? || Stored(store, oid, BlobMode)
    case LinkNode(_, target, oid) => target != "" || oid.None? || Stored(store, oid, LinkMode)
  }

  ghost predicate Valid(nodes: Nodes, store: set<Oid>) {
    && Complete(store)
    && |nodes| > 0 && nodes[0].DirNode? && nodes[0].parent.None?
    && forall i | 0 <= i < |nodes| :: NodeOk(nodes, store, i)
  }

  /** The names on the way down to a directory, by its parent pointers. */
  function PathOf(nodes: Nodes, i: nat): seq<string>
    decreases i
  {
    if i < |nodes| && nodes[i].DirNode? && nodes[i].parent.Some? && nodes[i].parent.value < i
    then PathOf(nodes, nodes[i].parent.value) + [nodes[i].name]
    else []
  }

  /** Following the parent pointers, each directory is an entry of the next, up to the root. */
  predicate Attached(nodes: Nodes, i: nat)
    decreases i
  {
    && i < |nodes| && nodes[i].DirNode?
    && match nodes[i].parent
       case None => i == 0
       case Some(p) =>
         && p < i && Attached(nodes, p)
         && nodes[p].entries.Some? && nodes[i].name in nodes[p].entries.value && nodes[p].entries.value[nodes[i].name] == i
  }

  // ---- Frames ----

  /** New nodes at the end change nothing. */
  lemma {:induction false} AbsGrows(nodes: Nodes, more: Nodes, store: set<Oid>, i: nat)
    requires Valid(nodes, store) && i < |nodes|
    ensures Abs(nodes + more, i) == Abs(nodes, i)
    decreases |nodes| - i
  {
    var all := nodes + more;
    assert all[i] == nodes[i] && NodeOk(nodes, store, i);
    if nodes[i].DirNode? && nodes[i].entries.Some? {
      var m := nodes[i].entries.value;
      forall n | n in m ensures Abs(all, m[n]) == Abs(nodes, m[n]) {
        assert EntryOk(nodes, i, n, m[n]);
        AbsGrows(nodes, more, store, m[n]);
      }
      assert (map n | n in m :: if i < m[n] then Abs(all, m[n]) else Blob("")) == (map n | n in m :: if i < m[n] then Abs(nodes, m[n]) else Blob(""));
    }
  }

  lemma {:induction false} AttachedPath(nodes: Nodes, store: set<Oid>, i: nat)
    requires Valid(nodes, store) && Attached(nodes, i)
    ensures At(Abs(nodes, 0), PathOf(nodes, i)) == Some(Abs(nodes, i)) && Abs(nodes, i).Dir?
    decreases i
  {
    assert NodeOk(nodes, store, i);
    match nodes[i].parent
    case None =>
    case Some(p) =>
      AttachedPath(nodes, store, p);
      AtAppend(Abs(nodes, 0), PathOf(nodes, p), nodes[i].name);
  }

  /** `a` is `i` or one of the directories above it. */
  predicate Above(nodes: Nodes, a: nat, i: nat)
    decreases i
  {
    a == i || (i < |nodes| && nodes[i].DirNode? && nodes[i].parent.Some? && nodes[i].parent.value < i && Above(nodes, a, nodes[i].parent.value))
  }

  lemma {:induction false} AboveIsSmaller(nodes: Nodes, a: nat, i: nat)
    requires Above(nodes, a, i)
    ensures a <= i
    decreases i
  {
    if a != i {
      AboveIsSmaller(nodes, a, nodes[i].parent.value);
    }
  }

  /** If an entry of `a` is above `i`, so is `a`. */
  lemma {:induction false} AboveUp(nodes: Nodes, a: nat, c: nat, i: nat)
    requires Above(nodes, c, i) && a < c < |nodes| && nodes[c].DirNode? && nodes[c].parent == Some(a)
    ensures Above(nodes, a, i)
    decreases i
  {
    if c == i {
      assert Above(nodes, a, a);
    } else {
      AboveUp(nodes, a, c, nodes[i].parent.value);
    }
  }

  lemma {:induction false} AboveIsDir(nodes: Nodes, store: set<Oid>, a: nat, i: nat)
    requires Valid(nodes, store) && i < |nodes| && nodes[i].DirNode? && Above(nodes, a, i)
    ensures a < |nodes| && nodes[a].DirNode?
    decreases i
  {
    if a != i {
      assert NodeOk(nodes, store, i);
      AboveIsDir(nodes, store, a, nodes[i].parent.value);
    }
  }

  /** Of the entries of a directory, only one is above `i`. */
  lemma {:induction false} OneWayDown(nodes: Nodes, a: nat, c: nat, d: nat, i: nat)
    requires Above(nodes, c, i) && Above(nodes, d, i)
    requires a < c < |nodes| && nodes[c].DirNode? && nodes[c].parent == Some(a)
    requires a < d < |nodes| && nodes[d].DirNode? && nodes[d].parent == Some(a)
    ensures c == d
    decreases i
  {
    if c == i || d == i {
      if c != d {
        AboveIsSmaller(nodes, if c == i then d else c, a);
        assert false;
      }
    } else {
      OneWayDown(nodes, a, c, d, nodes[i].parent.value);
    }
  }

  /** A changed directory is seen from above only. */
  lemma {:induction false} AbsElsewhere(nodes: Nodes, store: set<Oid>, i: nat, x: Node, j: nat)
    requires Valid(nodes, store) && i < |nodes| && j < |nodes| && !Above(nodes, j, i)
    requires nodes[i].DirNode?
    ensures Abs(nodes[i := x], j) == Abs(nodes, j)
    decreases |nodes| - j
  {
    var nodes' := nodes[i := x];
    assert nodes'[j] == nodes[j] && NodeOk(nodes, store, j);
    if nodes[j].DirNode? && nodes[j].entries.Some? {
      var m := nodes[j].entries.value;
      forall n | n in m ensures Abs(nodes', m[n]) == Abs(nodes, m[n]) {
        assert EntryOk(nodes, j, n, m[n]);
        if Above(nodes, m[n], i) {
          AboveIsDir(nodes, store, m[n], i);
          AboveUp(nodes, j, m[n], i);
          assert false;
        }
        AbsElsewhere(nodes, store, i, x, m[n]);
      }
      assert (map n | n in m :: if j < m[n] then Abs(nodes', m[n]) else Blob("")) == (map n | n in m :: if j < m[n] then Abs(nodes, m[n]) else Blob(""));
    }
  }

  lemma {:induction false} AttachedAbove(nodes: Nodes, c: nat, i: nat)
    requires Attached(nodes, i) && Above(nodes, c, i)
    ensures Attached(nodes, c)
    decreases i
  {
    if c != i {
      AttachedAbove(nodes, c, nodes[i].parent.value);
    }
  }

  /** One level up, a change below is a change of one entry. */
  lemma AbsOneUp(nodes: Nodes, store: set<Oid>, i: nat, x: Node, c: nat, p: nat)
    requires Valid(nodes, store) && Attached(nodes, i) && Above(nodes, c, i) && Attached(nodes, c) && nodes[c].parent == Some(p)
    ensures Abs(nodes, p).Dir?
    ensures Abs(nodes[i := x], p) == Dir(Abs(nodes, p).entries[nodes[c].name := Abs(nodes[i := x], c)])
  {
    var nodes' := nodes[i := x];
    AboveIsSmaller(nodes, c, i);
    assert NodeOk(nodes, store, p);
    var m := nodes[p].entries.value;
    forall n | n in m && n != nodes[c].name ensures Abs(nodes', m[n]) == Abs(nodes, m[n]) {
      assert EntryOk(nodes, p, n, m[n]);
      if Above(nodes, m[n], i) {
        AboveIsDir(nodes, store, m[n], i);
        OneWayDown(nodes, p, c, m[n], i);
        assert false;
      }
      AbsElsewhere(nodes, store, i, x, m[n]);
    }
    assert nodes'[p] == nodes[p];
    assert Abs(nodes', p).entries == Abs(nodes, p).entries[nodes[c].name := Abs(nodes', c)];
  }

  /** A changed directory is seen from the root at its path, and nowhere else. */
  lemma {:induction false} AbsUpdate(nodes: Nodes, store: set<Oid>, i: nat, x: Node, c: nat)
    requires Valid(nodes, store) && Attached(nodes, i) && Above(nodes, c, i)
    ensures Abs(nodes[i := x], 0) == Put(Abs(nodes, 0), PathOf(nodes, c), Abs(nodes[i := x], c))
    decreases c
  {
    AttachedAbove(nodes, c, i);
    match nodes[c].parent
    case None =>
    case Some(p) =>
      AboveUp(nodes, p, c, i);
      AbsUpdate(nodes, store, i, x, p);
      AbsOneUp(nodes, store, i, x, c, p);
      AttachedPath(nodes, store, p);
      PutAppend(Abs(nodes, 0), PathOf(nodes, p), nodes[c].name, Abs(nodes[i := x], c));
  }
}
