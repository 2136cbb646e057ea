/** Changes of the nodes: entries that come and go, and what is loaded from the store. */
module NodeChanges {
  import opened Config
  import opened TreeFs
  import opened Trees

  /** What `nodes'` keeps of `nodes`: attached directories stay where they are. */
  ghost predicate Keeps(nodes: Nodes, nodes': Nodes) {
    |nodes| <= |nodes'| && forall j | Attached(nodes, j) :: Attached(nodes', j) && PathOf(nodes', j) == PathOf(nodes, j)
  }

  /** One loaded or newly loaded directory has other entries, and there may be new nodes. */
  ghost predicate Changed(nodes: Nodes, nodes': Nodes, i: nat) {
    && i < |nodes| <= |nodes'| && nodes[i].DirNode?
    && nodes'[i].DirNode? && nodes'[i].name == nodes[i].name && nodes'[i].parent == nodes[i].parent
    && nodes'[i].entries.Some?
    && forall j | 0 <= j < |nodes| && j != i :: nodes'[j] == nodes[j]
  }

  /** All entries that were there are still there. */
  ghost predicate Extended(nodes: Nodes, nodes': Nodes, i: nat) {
    && Changed(nodes, nodes', i)
    && (nodes[i].entries.Some? ==>
          forall n | n in nodes[i].entries.value :: n in nodes'[i].entries.value && nodes'[i].entries.value[n] == nodes[i].entries.value[n])
  }

  lemma {:induction false} ExtendedKeepsOne(nodes: Nodes, nodes': Nodes, i: nat, j: nat)
    requires Extended(nodes, nodes', i) && Attached(nodes, j)
    ensures Attached(nodes', j) && PathOf(nodes', j) == PathOf(nodes, j)
    decreases j
  {
    if nodes[j].parent.Some? {
      ExtendedKeepsOne(nodes, nodes', i, nodes[j].parent.value);
    }
  }

  lemma ExtendedKeeps(nodes: Nodes, nodes': Nodes, i: nat)
    requires Extended(nodes, nodes', i)
    ensures Keeps(nodes, nodes')
  {
    forall j | Attached(nodes, j) ensures Attached(nodes', j) && PathOf(nodes', j) == PathOf(nodes, j) {
      ExtendedKeepsOne(nodes, nodes', i, j);
    }
  }

  lemma ChangedIsValid(nodes: Nodes, store: set<Oid>, nodes': Nodes, i: nat)
    requires Valid(nodes, store) && Changed(nodes, nodes', i)
    requires forall n | n in nodes'[i].entries.value :: EntryOk(nodes', i, n, nodes'[i].entries.value[n])
    requires forall j | |nodes| <= j < |nodes'| :: NodeOk(nodes', store, j)
    ensures Valid(nodes', store)
  {
    forall j | 0 <= j < |nodes| ensures NodeOk(nodes', store, j) {
      assert NodeOk(nodes, store, j);
      if j != i && nodes[j].DirNode? && nodes[j].entries.Some? {
        forall n | n in nodes[j].entries.value ensures EntryOk(nodes', j, n, nodes[j].entries.value[n]) {
          assert EntryOk(nodes, j, n, nodes[j].entries.value[n]);
        }
      }
    }
  }

  lemma NewNodesAreValid(nodes: Nodes, store: set<Oid>, nodes': Nodes, i: nat)
    requires Valid(nodes, store) && Valid(nodes', store) && Changed(nodes, nodes', i)
    ensures Valid(nodes + nodes'[|nodes|..], store)
  {
    var all := nodes + nodes'[|nodes|..];
    forall j | 0 <= j < |all| ensures NodeOk(all, store, j) {
      if j < |nodes| {
        assert NodeOk(nodes, store, j);
        if nodes[j].DirNode? && nodes[j].entries.Some? {
          forall n | n in nodes[j].entries.value ensures EntryOk(all, j, n, nodes[j].entries.value[n]) {
            assert EntryOk(nodes, j, n, nodes[j].entries.value[n]);
          }
        }
      } else {
        assert NodeOk(nodes', store, j) && all[j] == nodes'[j];
        if all[j].DirNode? && all[j].entries.Some? {
          forall n | n in all[j].entries.value ensures EntryOk(all, j, n, all[j].entries.value[n]) {
            assert EntryOk(nodes', j, n, all[j].entries.value[n]);
          }
        }
      }
    }
  }

  lemma {:induction false} MoreKeeps(nodes: Nodes, more: Nodes, j: nat)
    requires Attached(nodes, j)
    ensures Attached(nodes + more, j) && PathOf(nodes + more, j) == PathOf(nodes, j)
    decreases j
  {
    if nodes[j].parent.Some? {
      MoreKeeps(nodes, more, nodes[j].parent.value);
    }
  }

  /** From the root, the change is seen at the path of the directory. */
  lemma ChangedAbs(nodes: Nodes, store: set<Oid>, nodes': Nodes, i: nat)
    requires Valid(nodes, store) && Valid(nodes', store) && Changed(nodes, nodes', i) && Attached(nodes, i)
    ensures Abs(nodes', 0) == Put(Abs(nodes, 0), PathOf(nodes, i), Abs(nodes', i))
  {
    var more := nodes'[|nodes|..];
    NewNodesAreValid(nodes, store, nodes', i);
    MoreKeeps(nodes, more, i);
    AbsGrows(nodes, more, store, 0);
    AbsUpdate(nodes + more, store, i, nodes'[i], i);
    assert (nodes + more)[i := nodes'[i]] == nodes';
  }

  /** What lies below the directory does not change. */
  lemma ChangedBelow(nodes: Nodes, store: set<Oid>, nodes': Nodes, i: nat, c: nat)
    requires Valid(nodes, store) && Valid(nodes', store) && Changed(nodes, nodes', i) && i < c < |nodes|
    ensures Abs(nodes', c) == Abs(nodes, c)
  {
    var more := nodes'[|nodes|..];
    NewNodesAreValid(nodes, store, nodes', i);
    AbsGrows(nodes, more, store, c);
    if Above(nodes + more, c, i) {
      AboveIsSmaller(nodes + more, c, i);
      assert false;
    }
    AbsElsewhere(nodes + more, store, i, nodes'[i], c);
    assert (nodes + more)[i := nodes'[i]] == nodes';
  }

  // ---- Changes of one directory ----

  function WithEntries(x: Node, entries: map<string, nat>): Node
    requires x.DirNode?
  {
    x.(entries := Some(entries))
  }

  /** A new node under a name, which may have been in use. */
  function Added(nodes: Nodes, i: nat, x: Node): Nodes
    requires i < |nodes| && nodes[i].DirNode? && nodes[i].entries.Some?
  {
    (nodes + [x])[i := WithEntries(nodes[i], nodes[i].entries.value[x.name := |nodes|])]
  }

  lemma AddedIsValid(nodes: Nodes, store: set<Oid>, i: nat, x: Node)
    requires Valid(nodes, store) && i < |nodes| && nodes[i].DirNode? && nodes[i].entries.Some?
    requires x.DirNode? ==> x.entries == Some(map[]) && x.parent == Some(i)
    requires x.BlobNode? ==> x.content.Some?
    requires x.LinkNode? ==> x.oid.None?
    ensures Valid(Added(nodes, i, x), store) && Changed(nodes, Added(nodes, i, x), i)
  {
    var nodes' := Added(nodes, i, x);
    assert NodeOk(nodes, store, i);
    forall n | n in nodes'[i].entries.value ensures EntryOk(nodes', i, n, nodes'[i].entries.value[n]) {
      if n != x.name {
        assert EntryOk(nodes, i, n, nodes[i].entries.value[n]);
      }
    }
    ChangedIsValid(nodes, store, nodes', i);
  }

  lemma AddedAbs(nodes: Nodes, store: set<Oid>, i: nat, x: Node)
    requires Valid(nodes, store) && i < |nodes| && nodes[i].DirNode? && nodes[i].entries.Some?
    requires Valid(Added(nodes, i, x), store) && Changed(nodes, Added(nodes, i, x), i)
    ensures Abs(Added(nodes, i, x), i) == Dir(Abs(nodes, i).entries[x.name := Abs(Added(nodes, i, x), |nodes|)])
  {
    var nodes' := Added(nodes, i, x);
    var m := nodes[i].entries.value;
    assert NodeOk(nodes, store, i);
    forall n | n in m && n != x.name ensures Abs(nodes', m[n]) == Abs(nodes, m[n]) {
      assert EntryOk(nodes, i, n, m[n]);
      ChangedBelow(nodes, store, nodes', i, m[n]);
    }
    assert Abs(nodes', i).entries == Abs(nodes, i).entries[x.name := Abs(nodes', |nodes|)];
  }

  /** So adding a node puts what it stands for at its place in the tree. */
  lemma AddedAtPath(nodes: Nodes, store: set<Oid>, i: nat, x: Node)
    requires Valid(nodes, store) && Attached(nodes, i) && nodes[i].entries.Some?
    requires Valid(Added(nodes, i, x), store) && Changed(nodes, Added(nodes, i, x), i)
    ensures IsDir(Abs(nodes, 0), PathOf(nodes, i))
    ensures Abs(Added(nodes, i, x), 0) == Put(Abs(nodes, 0), PathOf(nodes, i) + [x.name], Abs(Added(nodes, i, x), |nodes|))
  {
    ChangedAbs(nodes, store, Added(nodes, i, x), i);
    AddedAbs(nodes, store, i, x);
    AttachedPath(nodes, store, i);
    PutAppend(Abs(nodes, 0), PathOf(nodes, i), x.name, Abs(Added(nodes, i, x), |nodes|));
  }

  function Dropped(nodes: Nodes, i: nat, name: string): Nodes
    requires i < |nodes| && nodes[i].DirNode? && nodes[i].entries.Some?
  {
    nodes[i := WithEntries(nodes[i], nodes[i].entries.value - {name})]
  }

  lemma DroppedAtPath(nodes: Nodes, store: set<Oid>, i: nat, name: string)
    requires Valid(nodes, store) && Attached(nodes, i) && nodes[i].entries.Some?
    ensures Valid(Dropped(nodes, i, name), store)
    ensures Abs(Dropped(nodes, i, name), 0) == Removed(Abs(nodes, 0), PathOf(nodes, i), name)
  {
    var nodes' := Dropped(nodes, i, name);
    var m := nodes[i].entries.value;
    assert NodeOk(nodes, store, i);
    forall n | n in m ensures EntryOk(nodes', i, n, m[n]) {
      assert EntryOk(nodes, i, n, m[n]);
    }
    ChangedIsValid(nodes, store, nodes', i);
    forall n | n in m ensures Abs(nodes', m[n]) == Abs(nodes, m[n]) {
      assert EntryOk(nodes, i, n, m[n]);
      ChangedBelow(nodes, store, nodes', i, m[n]);
    }
    assert Abs(nodes', i).entries == Abs(nodes, i).entries - {name};
    ChangedAbs(nodes, store, nodes', i);
    AttachedPath(nodes, store, i);
  }

  // ---- Loading ----

  function NodeFor(name: string, item: Item, parent: nat): Node {
    match item.mode
    case TreeMode => DirNode(name, None, Some(item.oid), Some(parent))
    case BlobMode => BlobNode(name, None, Some(item.oid))
    case LinkMode => LinkNode(name, "", Some(item.oid))
  }

  /** The node after its object has been read: one new node for each item. */
  ghost predicate LoadedAs(nodes: Nodes, nodes': Nodes, i: nat, items: map<string, Item>) {
    && Changed(nodes, nodes', i)
    && var m := nodes'[i].entries.value;
       && m.Keys == items.Keys
       && (forall n | n in m :: |nodes| <= m[n] < |nodes'| && nodes'[m[n]] == NodeFor(n, items[n], i))
       && (forall j | |nodes| <= j < |nodes'| :: nodes'[j].name in items && nodes'[j] == NodeFor(nodes'[j].name, items[nodes'[j].name], i))
  }

  lemma LoadedIsValid(nodes: Nodes, store: set<Oid>, nodes': Nodes, i: nat, items: map<string, Item>)
    requires Valid(nodes, store) && LoadedAs(nodes, nodes', i, items)
    requires TreeId(items) in store
    ensures Valid(nodes', store)
  {
    assert ItemsStored(store, items);
    forall j | |nodes| <= j < |nodes'| ensures NodeOk(nodes', store, j) {
      var item := items[nodes'[j].name];
      assert item.oid in store && WellKinded(item);
    }
    ChangedIsValid(nodes, store, nodes', i);
  }

  lemma LoadedContent(nodes: Nodes, store: set<Oid>, nodes': Nodes, i: nat, items: map<string, Item>)
    requires Valid(nodes', store) && LoadedAs(nodes, nodes', i, items)
    ensures Abs(nodes', i) == Content(Item(TreeMode, TreeId(items)))
  {
    var m := nodes'[i].entries.value;
    assert NodeOk(nodes', store, i);
    forall n | n in m ensures i < m[n] && Abs(nodes', m[n]) == Content(items[n]) {
      assert EntryOk(nodes', i, n, m[n]) && nodes'[m[n]] == NodeFor(n, items[n], i);
      assert NodeOk(nodes', store, m[n]);
    }
    assert Abs(nodes', i).entries == map n | n in items :: Content(items[n]);
  }

  /** Loading is not seen: the directory, and so the root, stands for the same tree as before. */
  lemma LoadingIsNotSeen(nodes: Nodes, store: set<Oid>, nodes': Nodes, i: nat, items: map<string, Item>)
    requires Valid(nodes, store) && Valid(nodes', store) && LoadedAs(nodes, nodes', i, items)
    requires nodes[i].entries.None? && nodes[i].oid == Some(TreeId(items))
    ensures Abs(nodes', i) == Abs(nodes, i)
    ensures Attached(nodes, i) ==> Abs(nodes', 0) == Abs(nodes, 0)
  {
    LoadedContent(nodes, store, nodes', i, items);
    if Attached(nodes, i) {
      ChangedAbs(nodes, store, nodes', i);
      AttachedPath(nodes, store, i);
      PutThere(Abs(nodes, 0), PathOf(nodes, i), Abs(nodes, i));
    }
  }

  /** A file or link that has been read stands for what it stood for. */
  lemma {:induction false} LeafNotSeen(nodes: Nodes, store: set<Oid>, c: nat, x: Node, j: nat)
    requires Valid(nodes, store) && c < |nodes| && j < |nodes| && !nodes[c].DirNode? && !x.DirNode?
    requires Abs(nodes[c := x], c) == Abs(nodes, c)
    ensures Abs(nodes[c := x], j) == Abs(nodes, j)
    decreases |nodes| - j
  {
    var nodes' := nodes[c := x];
    assert NodeOk(nodes, store, j);
    if nodes[j].DirNode? && nodes[j].entries.Some? {
      var m := nodes[j].entries.value;
      forall n | n in m ensures Abs(nodes', m[n]) == Abs(nodes, m[n]) {
        assert EntryOk(nodes, j, n, m[n]);
        LeafNotSeen(nodes, store, c, x, m[n]);
      }
      assert (map n | n in m :: if j < m[n] then Abs(nodes', m[n]) else Blob("")) == (map n | n in m :: if j < m[n] then Abs(nodes, m[n]) else Blob(""));
    }
  }

  /** Another file or link under the same name. */
  lemma LeafIsValid(nodes: Nodes, store: set<Oid>, c: nat, x: Node)
    requires Valid(nodes, store) && c < |nodes| && !nodes[c].DirNode? && !x.DirNode? && x.name == nodes[c].name
    requires NodeOk(nodes[c := x], store, c)
    ensures Valid(nodes[c := x], store) && Keeps(nodes, nodes[c := x])
  {
    var nodes' := nodes[c := x];
    forall j | 0 <= j < |nodes| ensures NodeOk(nodes', store, j) {
      assert NodeOk(nodes, store, j);
      if nodes[j].DirNode? && nodes[j].entries.Some? {
        forall n | n in nodes[j].entries.value ensures EntryOk(nodes', j, n, nodes[j].entries.value[n]) {
          assert EntryOk(nodes, j, n, nodes[j].entries.value[n]);
        }
      }
    }
    forall j | Attached(nodes, j) ensures Attached(nodes', j) && PathOf(nodes', j) == PathOf(nodes, j) {
      LeafKeeps(nodes, c, x, j);
    }
  }

  lemma {:induction false} LeafKeeps(nodes: Nodes, c: nat, x: Node, j: nat)
    requires c < |nodes| && !nodes[c].DirNode? && !x.DirNode? && Attached(nodes, j)
    ensures Attached(nodes[c := x], j) && PathOf(nodes[c := x], j) == PathOf(nodes, j)
    decreases j
  {
    if nodes[j].parent.Some? {
      LeafKeeps(nodes, c, x, nodes[j].parent.value);
    }
  }

  // ---- One way to each node ----

  predicate Leads(nodes: Nodes, i: nat, n: string, c: nat) {
    i < |nodes| && nodes[i].DirNode? && nodes[i].entries.Some? && n in nodes[i].entries.value && nodes[i].entries.value[n] == c
  }

  /** No node is an entry of two directories. */
  ghost predicate Sole(nodes: Nodes) {
    forall i: nat, n, j: nat, m, c: nat {:trigger Leads(nodes, i, n, c), Leads(nodes, j, m, c)} | Leads(nodes, i, n, c) && Leads(nodes, j, m, c) :: i == j
  }

  lemma ChangedIsSole(nodes: Nodes, store: set<Oid>, nodes': Nodes, i: nat)
    requires Valid(nodes, store) && Sole(nodes) && Changed(nodes, nodes', i)
    requires forall n | n in nodes'[i].entries.value ::
               nodes'[i].entries.value[n] >= |nodes| || Leads(nodes, i, n, nodes'[i].entries.value[n])
    requires forall j | |nodes| <= j < |nodes'| && nodes'[j].DirNode? :: nodes'[j].entries in {None, Some(map[])}
    ensures Sole(nodes')
  {
    forall a: nat, n, c: nat | Leads(nodes', a, n, c) && c < |nodes| ensures Leads(nodes, a, n, c) {}
    forall a: nat, n, c: nat | Leads(nodes', a, n, c) && a != i ensures c < |nodes| {
      assert NodeOk(nodes, store, a) && EntryOk(nodes, a, n, c);
    }
  }

  lemma LeafIsSole(nodes: Nodes, c: nat, x: Node)
    requires Sole(nodes) && c < |nodes| && !nodes[c].DirNode? && !x.DirNode?
    ensures Sole(nodes[c := x])
  {
    var nodes' := nodes[c := x];
    forall i: nat, n, j: nat, m, d: nat | Leads(nodes', i, n, d) && Leads(nodes', j, m, d) ensures i == j {
      assert Leads(nodes, i, n, d) && Leads(nodes, j, m, d);
    }
  }

  // ---- Writing a file ----

  function Written(nodes: Nodes, c: nat, content: string): Nodes
    requires c < |nodes| && nodes[c].BlobNode?
  {
    nodes[c := nodes[c].(content := Some(content))]
  }

  /** A file that is written in place stands for the same tree as one that is put in its place. */
  lemma {:induction false} WrittenOrAdded(nodes: Nodes, store: set<Oid>, i: nat, n: string, c: nat, content: string, j: nat)
    requires Valid(nodes, store) && Sole(nodes) && Leads(nodes, i, n, c) && c < |nodes| && nodes[c].BlobNode?
    requires j < |nodes| && j != c
    ensures Abs(Written(nodes, c, content), j) == Abs(Added(nodes, i, BlobNode(n, Some(content), None)), j)
    decreases |nodes| - j
  {
    var written, added := Written(nodes, c, content), Added(nodes, i, BlobNode(n, Some(content), None));
    assert NodeOk(nodes, store, j);
    if nodes[j].DirNode? && nodes[j].entries.Some? {
      var m := nodes[j].entries.value;
      var m' := added[j].entries.value;
      forall k | k in m ensures j < m[k] && j < m'[k] && Abs(written, m[k]) == Abs(added, m'[k]) {
        assert EntryOk(nodes, j, k, m[k]);
        if m[k] == c {
          assert Leads(nodes, j, k, c) && EntryOk(nodes, i, n, c) by {
            assert NodeOk(nodes, store, i);
          }
          assert j == i && k == n;
        } else {
          assert m'[k] == m[k];
          WrittenOrAdded(nodes, store, i, n, c, content, m[k]);
        }
      }
      assert m'.Keys == m.Keys by {
        assert Leads(nodes, i, n, c);
      }
      assert Abs(written, j).entries == Abs(added, j).entries;
    }
  }

  lemma WrittenAtPath(nodes: Nodes, store: set<Oid>, i: nat, n: string, c: nat, content: string)
    requires Valid(nodes, store) && Sole(nodes) && Attached(nodes, i) && Leads(nodes, i, n, c)
    requires c < |nodes| && nodes[c].BlobNode?
    ensures Valid(Written(nodes, c, content), store) && Sole(Written(nodes, c, content)) && Keeps(nodes, Written(nodes, c, content))
    ensures Abs(Written(nodes, c, content), 0) == Put(Abs(nodes, 0), PathOf(nodes, i) + [n], Blob(content))
  {
    LeafIsValid(nodes, store, c, nodes[c].(content := Some(content)));
    LeafIsSole(nodes, c, nodes[c].(content := Some(content)));
    var x := BlobNode(n, Some(content), None);
    AddedIsValid(nodes, store, i, x);
    AddedAtPath(nodes, store, i, x);
    assert NodeOk(nodes, store, i) && EntryOk(nodes, i, n, c);
    WrittenOrAdded(nodes, store, i, n, c, content, 0);
  }

  // ---- Which files are loaded ----

  /** From node `i`, the path leads over loaded directories to a file whose content is loaded. */
  predicate LoadedFrom(nodes: Nodes, i: nat, path: seq<string>)
    decreases |path|
  {
    i < |nodes| &&
    match nodes[i]
    case BlobNode(_, content, _) => path == [] && content.Some?
    case DirNode(_, Some(m), _, _) => path != [] && path[0] in m && LoadedFrom(nodes, m[path[0]], path[1..])
    case _ => false
  }

  predicate IsLoaded(nodes: Nodes, path: seq<string>) {
    LoadedFrom(nodes, 0, path)
  }

  ghost predicate SameLoaded(nodes: Nodes, nodes': Nodes) {
    forall path :: IsLoaded(nodes', path) <==> IsLoaded(nodes, path)
  }

  lemma {:induction false} AttachedLoaded(nodes: Nodes, i: nat, rest: seq<string>)
    requires Attached(nodes, i)
    ensures IsLoaded(nodes, PathOf(nodes, i) + rest) <==> LoadedFrom(nodes, i, rest)
    decreases i
  {
    match nodes[i].parent
    case None => assert PathOf(nodes, i) + rest == rest;
    case Some(p) =>
      var more := [nodes[i].name] + rest;
      AttachedLoaded(nodes, p, more);
      assert PathOf(nodes, i) + rest == PathOf(nodes, p) + more && more[1..] == rest;
  }

  /** Reading a directory loads no file. */
  lemma {:induction false} LoadKeepsLoaded(nodes: Nodes, store: set<Oid>, nodes': Nodes, i: nat, items: map<string, Item>, j: nat, path: seq<string>)
    requires Valid(nodes, store) && LoadedAs(nodes, nodes', i, items) && nodes[i].entries.None? && j < |nodes|
    ensures LoadedFrom(nodes', j, path) <==> LoadedFrom(nodes, j, path)
    decreases |path|
  {
    assert NodeOk(nodes, store, j);
    if nodes'[j].DirNode? && nodes'[j].entries.Some? && path != [] && path[0] in nodes'[j].entries.value {
      if j == i {
        assert nodes'[nodes'[j].entries.value[path[0]]] == NodeFor(path[0], items[path[0]], i);
      } else {
        assert EntryOk(nodes, j, path[0], nodes[j].entries.value[path[0]]);
        LoadKeepsLoaded(nodes, store, nodes', i, items, nodes[j].entries.value[path[0]], path[1..]);
      }
    }
  }

  /** Nor does reading a link, or making a directory. */
  lemma {:induction false} LinkKeepsLoaded(nodes: Nodes, store: set<Oid>, c: nat, x: Node, j: nat, path: seq<string>)
    requires Valid(nodes, store) && c < |nodes| && j < |nodes| && nodes[c].LinkNode? && x.LinkNode?
    ensures LoadedFrom(nodes[c := x], j, path) <==> LoadedFrom(nodes, j, path)
    decreases |path|
  {
    assert NodeOk(nodes, store, j);
    if nodes[j].DirNode? && nodes[j].entries.Some? && path != [] && path[0] in nodes[j].entries.value {
      assert EntryOk(nodes, j, path[0], nodes[j].entries.value[path[0]]);
      LinkKeepsLoaded(nodes, store, c, x, nodes[j].entries.value[path[0]], path[1..]);
    }
  }

  lemma {:induction false} DirKeepsLoaded(nodes: Nodes, store: set<Oid>, i: nat, x: Node, j: nat, path: seq<string>)
    requires Valid(nodes, store) && i < |nodes| && j < |nodes| && nodes[i].DirNode? && nodes[i].entries.Some?
    requires x.DirNode? && x.entries == Some(map[]) && x.name !in nodes[i].entries.value
    ensures LoadedFrom(Added(nodes, i, x), j, path) <==> LoadedFrom(nodes, j, path)
    decreases |path|
  {
    var nodes' := Added(nodes, i, x);
    assert NodeOk(nodes, store, j);
    if nodes[j].DirNode? && nodes[j].entries.Some? && path != [] && path[0] in nodes[j].entries.value {
      assert EntryOk(nodes, j, path[0], nodes[j].entries.value[path[0]]);
      DirKeepsLoaded(nodes, store, i, x, nodes[j].entries.value[path[0]], path[1..]);
    }
  }
}
