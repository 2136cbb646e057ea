/** The operations of the file system, in place on its nodes and its object store. */
module FileSystem {
  import opened Config
  import opened NodeChanges
  import opened Paths
  import opened Sorting
  import opened TreeFs
  import opened Trees
  import opened WriteBack

  datatype FsError = DoesNotExist | IsInvalid | AlreadyOpen | NotOpen

  function ErrorOf(missing: bool): FsError {
    if missing then DoesNotExist else IsInvalid
  }

  function NameSet(names: seq<string>): set<string> {
    set n | n in names
  }

  predicate IsFor(x: Node, items: map<string, Item>, i: nat) {
    x.name in items && x == NodeFor(x.name, items[x.name], i)
  }

  predicate LeadsTo(more: Nodes, items: map<string, Item>, i: nat, n: string, k: int) {
    0 <= k < |more| && n in items && more[k] == NodeFor(n, items[n], i)
  }

  /** One node for each item, to be put behind `base` other nodes. */
  ghost predicate NodesFor(more: Nodes, entries: map<string, nat>, items: map<string, Item>, i: nat, base: nat) {
    && (forall n {:trigger entries[n]} | n in entries :: LeadsTo(more, items, i, n, entries[n] - base))
    && (forall x | x in more :: IsFor(x, items, i))
  }

  lemma NodesForMore(more: Nodes, entries: map<string, nat>, items: map<string, Item>, i: nat, base: nat, name: string)
    requires NodesFor(more, entries, items, i, base) && name in items
    ensures NodesFor(more + [NodeFor(name, items[name], i)], entries[name := base + |more|], items, i, base)
  {
    var x := NodeFor(name, items[name], i);
    assert IsFor(x, items, i) && (more + [x])[|more|] == x;
    forall n | n in entries && n != name ensures LeadsTo(more + [x], items, i, n, entries[n] - base) {
      assert LeadsTo(more, items, i, n, entries[n] - base);
    }
  }

  method NewNodes(items: map<string, Item>, i: nat, base: nat) returns (more: Nodes, entries: map<string, nat>)
    ensures entries.Keys == items.Keys && NodesFor(more, entries, items, i, base)
  {
    var names := Listed(items.Keys);
    more, entries := [], map[];
    for k := 0 to |names|
      invariant entries.Keys == NameSet(names[..k]) && NodesFor(more, entries, items, i, base)
    {
      assert names[k] in names && names[..k + 1] == names[..k] + [names[k]];
      NodesForMore(more, entries, items, i, base, names[k]);
      entries := entries[names[k] := base + |more|];
      more := more + [NodeFor(names[k], items[names[k]], i)];
    }
    assert names[..|names|] == names;
  }

  lemma NewNodesLoad(nodes: Nodes, more: Nodes, entries: map<string, nat>, i: nat, items: map<string, Item>)
    requires i < |nodes| && nodes[i].DirNode?
    requires entries.Keys == items.Keys && NodesFor(more, entries, items, i, |nodes|)
    ensures LoadedAs(nodes, (nodes + more)[i := WithEntries(nodes[i], entries)], i, items)
  {
    var nodes' := (nodes + more)[i := WithEntries(nodes[i], entries)];
    forall j | |nodes| <= j < |nodes'|
      ensures nodes'[j].name in items && nodes'[j] == NodeFor(nodes'[j].name, items[nodes'[j].name], i)
    {
      assert nodes'[j] == more[j - |nodes|] && IsFor(more[j - |nodes|], items, i);
    }
    forall n | n in entries
      ensures |nodes| <= entries[n] < |nodes'| && nodes'[entries[n]] == NodeFor(n, items[n], i)
    {
      assert LeadsTo(more, items, i, n, entries[n] - |nodes|);
    }
  }

  class TreeBuilderFS {
    var nodes: Nodes
    var store: set<Oid>
    /** The files that are not in the closed mode, and their positions. */
    var inUse: map<nat, nat>

    ghost predicate Ok()
      reads this
    {
      Valid(nodes, store) && Sole(nodes) && forall f | f in inUse :: f < |nodes| && nodes[f].BlobNode?
    }

    /** The tree under the root. */
    ghost function Root(): Tree
      reads this
    {
      Abs(nodes, 0)
    }

    /** `NewTreeBuildFS` on a tree of the store; nothing is loaded yet. */
    constructor (objects: set<Oid>, oid: Oid)
      requires Complete(objects) && oid in objects && oid.TreeId? && WellKinded(Item(TreeMode, oid))
      ensures Ok() && store == objects && Attached(nodes, 0) && Root() == Content(Item(TreeMode, oid))
    {
      nodes, store, inUse := [DirNode("", None, Some(oid), None)], objects, map[];
    }

    /** `NewEmptyTreeBuildFS` */
    constructor Empty(objects: set<Oid>)
      requires Complete(objects)
      ensures Ok() && store == objects && Attached(nodes, 0) && Root() == Dir(map[])
    {
      nodes, store, inUse := [DirNode("", Some(map[]), None, None)], objects, map[];
    }

    method Load(i: nat)
      requires Ok() && i < |nodes| && nodes[i].DirNode?
      modifies this`nodes
      ensures Ok() && Changed(old(nodes), nodes, i) && Keeps(old(nodes), nodes) && SameLoaded(old(nodes), nodes)
      ensures old(nodes)[i].entries.Some? ==> nodes == old(nodes)
      ensures Attached(old(nodes), i) ==> Root() == old(Root())
    {
      ghost var before := nodes;
      assert NodeOk(nodes, store, i);
      if nodes[i].entries.None? {
        var items := nodes[i].oid.value.items;
        var more, entries := NewNodes(items, i, |nodes|);
        nodes := (nodes + more)[i := WithEntries(nodes[i], entries)];
        assert LoadedAs(before, nodes, i, items) by {
          NewNodesLoad(before, more, entries, i, items);
        }
        LoadedIsValid(before, store, nodes, i, items);
        ChangedIsSole(before, store, nodes, i);
        forall path ensures IsLoaded(nodes, path) <==> IsLoaded(before, path) {
          LoadKeepsLoaded(before, store, nodes, i, items, 0, path);
        }
        LoadingIsNotSeen(before, store, nodes, i, items);
      }
      ExtendedKeeps(before, nodes, i);
    }

    method LoadLink(c: nat) returns (target: string)
      requires Ok() && c < |nodes| && nodes[c].LinkNode?
      modifies this`nodes
      ensures Ok() && Keeps(old(nodes), nodes) && Root() == old(Root()) && Abs(old(nodes), c) == Link(target)
      ensures SameLoaded(old(nodes), nodes)
    {
      assert NodeOk(nodes, store, c);
      if nodes[c].target == "" && nodes[c].oid.Some? {
        target := nodes[c].oid.value.content;
        ghost var x := nodes[c].(target := target);
        LeafNotSeen(nodes, store, c, x, 0);
        LeafIsValid(nodes, store, c, x);
        LeafIsSole(nodes, c, x);
        forall path ensures IsLoaded(nodes[c := x], path) <==> IsLoaded(nodes, path) {
          LinkKeepsLoaded(nodes, store, c, x, 0, path);
        }
        nodes := nodes[c := nodes[c].(target := target)];
      } else {
        target := nodes[c].target;
      }
    }

    /** What an entry of a loaded directory leads to, seen from the root. */
    lemma EntrySeen(i: nat, d: string)
      requires Ok() && Attached(nodes, i) && nodes[i].entries.Some?
      ensures var m := nodes[i].entries.value;
              At(Root(), PathOf(nodes, i) + [d]) == if d in m then Some(Abs(nodes, m[d])) else None
      ensures var m := nodes[i].entries.value;
              d in m ==>
                && EntryOk(nodes, i, d, m[d]) && NodeOk(nodes, store, m[d])
                && (nodes[m[d]].DirNode? ==> Attached(nodes, m[d]) && PathOf(nodes, m[d]) == PathOf(nodes, i) + [d] && Abs(nodes, m[d]).Dir?)
                && (nodes[m[d]].BlobNode? ==> Abs(nodes, m[d]).Blob?)
                && (nodes[m[d]].LinkNode? ==> Abs(nodes, m[d]).Link?)
    {
      AttachedPath(nodes, store, i);
      AtAppend(Root(), PathOf(nodes, i), d);
      assert NodeOk(nodes, store, i);
      var m := nodes[i].entries.value;
      if d in m {
        assert EntryOk(nodes, i, d, m[d]) && NodeOk(nodes, store, m[d]);
      }
    }

    /** Adds an empty directory under a name that is not in use. */
    method MakeDir(i: nat, d: string) returns (c: nat)
      requires Ok() && Attached(nodes, i) && nodes[i].entries.Some? && d !in nodes[i].entries.value
      modifies this`nodes
      ensures Ok() && Attached(nodes, c) && PathOf(nodes, c) == PathOf(old(nodes), i) + [d] && SameLoaded(old(nodes), nodes)
      ensures Root() == Put(old(Root()), PathOf(old(nodes), i) + [d], Dir(map[]))
    {
      var x := DirNode(d, Some(map[]), None, Some(i));
      ghost var before := nodes;
      AddedIsValid(nodes, store, i, x);
      AddedAtPath(nodes, store, i, x);
      ChangedIsSole(nodes, store, Added(nodes, i, x), i);
      forall path ensures IsLoaded(Added(nodes, i, x), path) <==> IsLoaded(nodes, path) {
        DirKeepsLoaded(nodes, store, i, x, 0, path);
      }
      c := |nodes|;
      nodes := Added(nodes, i, x);
      ExtendedKeeps(before, nodes, i);
      assert Attached(nodes, i) && PathOf(nodes, i) == PathOf(before, i);
    }

    /** One component: into a directory that is there or made, or to the target of a link. */
    method Enter(i: nat, d: string, create: bool) returns (next: nat, link: Option<string>, error: Option<FsError>)
      requires Ok() && Attached(nodes, i)
      modifies this`nodes
      ensures Ok() && Attached(nodes, next) && SameLoaded(old(nodes), nodes)
      ensures var path := PathOf(old(nodes), i);
              match At(old(Root()), path + [d])
              case None =>
                if create then error.None? && link.None? && Root() == Put(old(Root()), path + [d], Dir(map[])) && PathOf(nodes, next) == path + [d]
                else error == Some(DoesNotExist) && Root() == old(Root())
              case Some(Dir(_)) => error.None? && link.None? && Root() == old(Root()) && PathOf(nodes, next) == path + [d]
              case Some(Link(target)) => error.None? && link == Some(target) && Root() == old(Root()) && PathOf(nodes, next) == path
              case Some(Blob(_)) => error == Some(IsInvalid) && Root() == old(Root())
    {
      next, link, error := i, None, None;
      Load(i);
      EntrySeen(i, d);
      if d !in nodes[i].entries.value {
        if create {
          next := MakeDir(i, d);
        } else {
          error := Some(DoesNotExist);
        }
      } else {
        var c := nodes[i].entries.value[d];
        if nodes[c].DirNode? {
          next := c;
        } else if nodes[c].LinkNode? {
          var target := LoadLink(c);
          link := Some(target);
        } else {
          error := Some(IsInvalid);
        }
      }
    }

    /**
     The loop that goes down a path, up through parents, and through links by putting their components in front.
     It comes to an end if the walk takes no more than some number of links, and does what the walk does.
     */
    method Traverse(t: nat, path: string, create: bool, ghost links: nat) returns (node: nat, last: string, error: Option<FsError>)
      requires Ok() && Attached(nodes, t)
      requires !Walk(Root(), PathOf(nodes, t), Components(path), links, create).TooManyLinks?
      modifies this`nodes
      ensures Ok() && SameLoaded(old(nodes), nodes)
      ensures match Walk(old(Root()), PathOf(old(nodes), t), Components(path), links, create)
              case Found(tree, dir, name) =>
                error.None? && Root() == tree && Attached(nodes, node) && PathOf(nodes, node) == dir && last == name
              case Failed(tree, missing) => error == Some(ErrorOf(missing)) && Root() == tree
              case TooManyLinks => true
    {
      ghost var whole := Walk(Root(), PathOf(nodes, t), Components(path), links, create);
      ghost var left := links;
      var parts := Components(path);
      var current := t;
      while true
        invariant Ok() && Attached(nodes, current) && parts != [] && SameLoaded(old(nodes), nodes)
        invariant whole == Walk(Root(), PathOf(nodes, current), parts, left, create)
        decreases left, |parts|
      {
        var d := parts[0];
        parts := parts[1..];
        if |parts| == 0 {
          return current, d, None;
        }
        if d == "." || d == "" {
          continue;
        } else if d == ".." {
          if nodes[current].parent.Some? {
            current := nodes[current].parent.value;
          }
        } else {
          var link;
          current, link, error := Enter(current, d, create);
          if error.Some? {
            return current, d, error;
          }
          if link.Some? {
            parts := Components(link.value) + parts;
            left := left - 1;
          }
        }
      }
    }

    /** Down a path, to the node that has the last component as an entry, if there is one. */
    method Lookup(t: nat, path: string, ghost links: nat) returns (node: nat, last: string, error: Option<FsError>)
      requires Ok() && Attached(nodes, t)
      requires !Walk(Root(), PathOf(nodes, t), Components(path), links, false).TooManyLinks?
      modifies this`nodes
      ensures Ok() && Root() == old(Root()) && SameLoaded(old(nodes), nodes)
      ensures match Walk(Root(), PathOf(old(nodes), t), Components(path), links, false)
              case Found(_, dir, name) =>
                error.None? && Attached(nodes, node) && nodes[node].entries.Some? && PathOf(nodes, node) == dir && last == name
              case Failed(_, missing) => error == Some(ErrorOf(missing))
              case TooManyLinks => true
    {
      AttachedPath(nodes, store, t);
      WalkGrows(Root(), PathOf(nodes, t), Components(path), links, false);
      node, last, error := Traverse(t, path, false, links);
      if error.None? {
        Load(node);
      }
    }

    method MkdirAll(t: nat, dir: string, ghost links: nat) returns (error: Option<FsError>)
      requires Ok() && Attached(nodes, t)
      requires !Walk(Root(), PathOf(nodes, t), Components(dir + "/."), links, true).TooManyLinks?
      modifies this`nodes
      ensures Ok()
      ensures var w := Walk(old(Root()), PathOf(old(nodes), t), Components(dir + "/."), links, true);
              && Root() == w.tree && Grown(old(Root()), Root())
              && error == (if w.Found? then None else Some(IsInvalid))
              && (w.Found? ==> Walk(Root(), PathOf(old(nodes), t), Components(dir + "/."), links, false) == w)
              && (forall path | At(Root(), path).Some? && At(old(Root()), path).None? ::
                    path in Passed(Root(), PathOf(old(nodes), t), Components(dir + "/."), links))
    {
      AttachedPath(nodes, store, t);
      ghost var root, cwd := Root(), PathOf(nodes, t);
      ghost var w := Walk(root, cwd, Components(dir + "/."), links, true);
      forall path | At(w.tree, path).Some? && At(root, path).None?
        ensures path in Passed(w.tree, cwd, Components(dir + "/."), links)
      {
        NewIsPassed(root, cwd, Components(dir + "/."), links, true, path);
      }
      WalkGrows(root, cwd, Components(dir + "/."), links, true);
      if Walk(root, cwd, Components(dir + "/."), links, true).Found? {
        WalkAgain(root, cwd, Components(dir + "/."), links);
      }
      var node, last;
      node, last, error := Traverse(t, dir + "/.", true, links);
    }

    method Symlink(t: nat, target: string, path: string, ghost links: nat) returns (error: Option<FsError>)
      requires Ok() && Attached(nodes, t)
      requires !Walk(Root(), PathOf(nodes, t), Components(path), links, false).TooManyLinks?
      modifies this`nodes
      ensures Ok()
      ensures match Walk(old(Root()), PathOf(old(nodes), t), Components(path), links, false)
              case Found(_, dir, name) =>
                error.None? && Root() == Put(old(Root()), dir + [name], Link(target)) && At(Root(), dir + [name]) == Some(Link(target))
              case Failed(_, missing) => error == Some(ErrorOf(missing)) && Root() == old(Root())
              case TooManyLinks => true
    {
      var node, last;
      node, last, error := Lookup(t, path, links);
      if error.None? {
        var x := LinkNode(last, target, None);
        AddedIsValid(nodes, store, node, x);
        AddedAtPath(nodes, store, node, x);
        ChangedIsSole(nodes, store, Added(nodes, node, x), node);
        PutIsThere(Root(), PathOf(nodes, node), last, Link(target));
        nodes := Added(nodes, node, x);
      }
    }

    method Remove(t: nat, path: string, ghost links: nat) returns (error: Option<FsError>)
      requires Ok() && Attached(nodes, t)
      requires !Walk(Root(), PathOf(nodes, t), Components(path), links, false).TooManyLinks?
      modifies this`nodes
      ensures Ok()
      ensures match Walk(old(Root()), PathOf(old(nodes), t), Components(path), links, false)
              case Found(_, dir, name) => error.None? && Root() == Removed(old(Root()), dir, name)
              case Failed(_, missing) => error == Some(ErrorOf(missing)) && Root() == old(Root())
              case TooManyLinks => true
    {
      var node, last;
      node, last, error := Lookup(t, path, links);
      if error.None? {
        DroppedAtPath(nodes, store, node, last);
        ChangedIsSole(nodes, store, Dropped(nodes, node, last), node);
        nodes := Dropped(nodes, node, last);
      }
    }

    method Readlink(t: nat, path: string, ghost links: nat) returns (target: string, error: Option<FsError>)
      requires Ok() && Attached(nodes, t)
      requires !Walk(Root(), PathOf(nodes, t), Components(path), links, false).TooManyLinks?
      modifies this`nodes
      ensures Ok() && Root() == old(Root())
      ensures match Walk(Root(), PathOf(old(nodes), t), Components(path), links, false)
              case Found(_, dir, name) =>
                (match At(Root(), dir + [name])
                 case Some(Link(x)) => error.None? && target == x
                 case Some(_) => error == Some(IsInvalid)
                 case None => error == Some(DoesNotExist))
              case Failed(_, missing) => error == Some(ErrorOf(missing))
              case TooManyLinks => true
    {
      var node, last;
      node, last, error := Lookup(t, path, links);
      target := "";
      if error.None? {
        EntrySeen(node, last);
        if last !in nodes[node].entries.value {
          error := Some(DoesNotExist);
        } else if nodes[nodes[node].entries.value[last]].LinkNode? {
          target := LoadLink(nodes[node].entries.value[last]);
        } else {
          error := Some(IsInvalid);
        }
      }
    }

    /** Reads the content of a file that is not loaded. */
    method LoadFile(c: nat)
      requires Ok() && c < |nodes| && nodes[c].BlobNode?
      modifies this`nodes
      ensures Ok() && Keeps(old(nodes), nodes) && Root() == old(Root()) && |nodes| == |old(nodes)|
      ensures nodes[c].BlobNode? && nodes[c].content.Some? && nodes[c].name == old(nodes)[c].name
      ensures Abs(nodes, c) == Abs(old(nodes), c)
      ensures forall j | 0 <= j < |nodes| && j != c :: nodes[j] == old(nodes)[j]
    {
      assert NodeOk(nodes, store, c);
      if nodes[c].content.None? {
        ghost var x := nodes[c].(content := Some(nodes[c].oid.value.content));
        LeafNotSeen(nodes, store, c, x, 0);
        LeafIsValid(nodes, store, c, x);
        LeafIsSole(nodes, c, x);
        nodes := nodes[c := nodes[c].(content := Some(nodes[c].oid.value.content))];
      }
    }

    /** The same node, or a file that has been loaded. */
    static predicate Informed(x: Node, y: Node) {
      y == x || (y.BlobNode? && y.content.Some? && y.name == x.name)
    }

    /** What the file system tells of an entry, its name; the content of a file is loaded for its size. */
    method Info(c: nat) returns (name: string)
      requires Ok() && c < |nodes|
      modifies this`nodes
      ensures Ok() && Keeps(old(nodes), nodes) && Root() == old(Root()) && |nodes| == |old(nodes)|
      ensures name == old(nodes)[c].name && (nodes[c].BlobNode? ==> nodes[c].content.Some?)
      ensures forall j | 0 <= j < |nodes| :: Informed(old(nodes)[j], nodes[j])
    {
      if nodes[c].BlobNode? {
        LoadFile(c);
      }
      name := nodes[c].name;
    }

    /** The name of what is at the path, which is not followed if it is a link. */
    method Stat(t: nat, path: string, ghost links: nat) returns (name: string, error: Option<FsError>)
      requires Ok() && Attached(nodes, t)
      requires !Walk(Root(), PathOf(nodes, t), Components(path), links, false).TooManyLinks?
      modifies this`nodes
      ensures Ok() && Root() == old(Root())
      ensures match Walk(Root(), PathOf(old(nodes), t), Components(path), links, false)
              case Found(_, dir, last) =>
                if At(Root(), dir + [last]).Some? then error.None? && name == last else error == Some(DoesNotExist)
              case Failed(_, missing) => error == Some(ErrorOf(missing))
              case TooManyLinks => true
    {
      var node, last;
      node, last, error := Lookup(t, path, links);
      name := "";
      if error.None? {
        EntrySeen(node, last);
        if last in nodes[node].entries.value {
          name := Info(nodes[node].entries.value[last]);
        } else {
          error := Some(DoesNotExist);
        }
      }
    }

    // ---- Files ----

    /** Opens a file that is not open, or with `create` makes an empty one where there is nothing. */
    method OpenFile(t: nat, path: string, create: bool, ghost links: nat) returns (file: nat, error: Option<FsError>)
      requires Ok() && Attached(nodes, t)
      requires !Walk(Root(), PathOf(nodes, t), Components(path), links, false).TooManyLinks?
      modifies this`nodes, this`inUse
      ensures Ok()
      ensures inUse == if error.None? then old(inUse)[file := 0] else old(inUse)
      ensures error == Some(AlreadyOpen) ==> file in old(inUse)
      ensures error.None? ==> file !in old(inUse)
      ensures match Walk(old(Root()), PathOf(old(nodes), t), Components(path), links, false)
              case Found(_, dir, name) =>
                (match At(old(Root()), dir + [name])
                 case Some(Blob(x)) =>
                   && error in {None, Some(AlreadyOpen)} && Root() == old(Root()) && IsFile(file, dir, name, x)
                   && (nodes[file].content.Some? <==> IsLoaded(old(nodes), dir + [name]))
                 case Some(_) => error == Some(IsInvalid) && Root() == old(Root())
                 case None =>
                   if create
                   then
                     && error.None? && Root() == Put(old(Root()), dir + [name], Blob("")) && IsFile(file, dir, name, "")
                     && nodes[file].content.Some?
                   else error == Some(DoesNotExist) && Root() == old(Root()))
              case Failed(_, missing) => error == Some(ErrorOf(missing)) && Root() == old(Root())
              case TooManyLinks => true
    {
      var node, last;
      node, last, error := Lookup(t, path, links);
      file := 0;
      if error.None? {
        EntrySeen(node, last);
        AttachedLoaded(nodes, node, [last]);
        if last in nodes[node].entries.value {
          file := nodes[node].entries.value[last];
          assert Leads(nodes, node, last, file);
          if !nodes[file].BlobNode? {
            error := Some(IsInvalid);
          } else if file in inUse {
            error := Some(AlreadyOpen);
          } else {
            inUse := inUse[file := 0];
          }
        } else if create {
          file := CreateFile(node, last);
        } else {
          error := Some(DoesNotExist);
        }
      }
    }

    /** The node is a file, and the one entry of this name of the directory at this path. */
    ghost predicate IsFile(file: nat, dir: seq<string>, name: string, content: string)
      reads this
    {
      && file < |nodes| && nodes[file].BlobNode? && Abs(nodes, file) == Blob(content)
      && exists i :: Attached(nodes, i) && PathOf(nodes, i) == dir && Leads(nodes, i, name, file)
    }

    method CreateFile(i: nat, name: string) returns (file: nat)
      requires Ok() && Attached(nodes, i) && nodes[i].entries.Some? && name !in nodes[i].entries.value
      modifies this`nodes, this`inUse
      ensures Ok() && file !in old(inUse) && inUse == old(inUse)[file := 0]
      ensures Root() == Put(old(Root()), PathOf(old(nodes), i) + [name], Blob("")) && IsFile(file, PathOf(old(nodes), i), name, "")
      ensures nodes[file].content.Some?
    {
      var x := BlobNode(name, Some(""), None);
      ghost var before := nodes;
      AddedIsValid(nodes, store, i, x);
      AddedAtPath(nodes, store, i, x);
      ChangedIsSole(nodes, store, Added(nodes, i, x), i);
      file := |nodes|;
      nodes := Added(nodes, i, x);
      ExtendedKeeps(before, nodes, i);
      assert Attached(nodes, i) && PathOf(nodes, i) == PathOf(before, i) && Leads(nodes, i, name, file);
      inUse := inUse[file := 0];
    }

    method Close(file: nat)
      requires Ok()
      modifies this`inUse
      ensures Ok() && inUse == old(inUse) - {file}
    {
      inUse := inUse - {file};
    }

    /** `io.ReadAll`: everything from the position on. */
    method ReadAll(file: nat) returns (content: string)
      requires Ok() && file in inUse && Abs(nodes, file).Blob? && inUse[file] <= |Abs(nodes, file).content|
      modifies this`nodes, this`inUse
      ensures Ok() && Root() == old(Root()) && Keeps(old(nodes), nodes)
      ensures var x := old(Abs(nodes, file)).content; content == x[old(inUse)[file]..] && inUse == old(inUse)[file := |x|]
      ensures forall dir, name, x | old(IsFile(file, dir, name, x)) :: IsLoaded(nodes, dir + [name])
    {
      assert NodeOk(nodes, store, file);
      ghost var before := nodes;
      LoadFile(file);
      var all := nodes[file].content.value;
      assert Blob(all) == old(Abs(nodes, file));
      content := all[inUse[file]..];
      inUse := inUse[file := |all|];
      forall dir, name, x | old(IsFile(file, dir, name, x)) ensures IsLoaded(nodes, dir + [name]) {
        var i: nat :| Attached(before, i) && PathOf(before, i) == dir && Leads(before, i, name, file);
        EntryLoaded(i, name);
      }
    }

    /** Opens a file, reads it, and closes it; it is loaded then. */
    method ReadFile(t: nat, path: string, ghost links: nat) returns (content: string, error: Option<FsError>)
      requires Ok() && Attached(nodes, t) && inUse == map[]
      requires !Walk(Root(), PathOf(nodes, t), Components(path), links, false).TooManyLinks?
      modifies this`nodes, this`inUse
      ensures Ok() && inUse == map[] && Root() == old(Root())
      ensures match Walk(Root(), PathOf(old(nodes), t), Components(path), links, false)
              case Found(_, dir, name) =>
                (match At(Root(), dir + [name])
                 case None => error == Some(DoesNotExist)
                 case Some(Blob(x)) => error.None? && content == x && IsLoaded(nodes, dir + [name])
                 case Some(_) => error == Some(IsInvalid))
              case Failed(_, missing) => error == Some(ErrorOf(missing))
              case TooManyLinks => true
    {
      content := "";
      var file;
      file, error := OpenFile(t, path, false, links);
      if error.Some? {
        return;
      }
      content := ReadAll(file);
      Close(file);
      assert inUse == map[];
    }

    /** What a first write makes of a file: it does not touch what is not loaded, and appends to what is. */
    static function AfterWrite(x: string, loaded: bool, data: string): string {
      if loaded then x + data else if data == "" then x else data
    }

    /** A file has what was written exactly if it was empty, or was not loaded and something was written. */
    static lemma WriteReplacesIff(x: string, loaded: bool, data: string)
      ensures AfterWrite(x, loaded, data) == data <==> x == "" || (!loaded && data != "")
    {
      if loaded && x != "" {
        assert |x + data| > |data|;
      }
      assert x == "" ==> x + data == data;
    }

    /**
     Writing puts the data behind what is loaded from the position on; the position moves by the length of the data.
     A position behind the end of the content is a panic.
     */
    method Write(file: nat, data: string) returns (error: Option<FsError>)
      requires Ok() && file < |nodes| && nodes[file].BlobNode?
      requires file in inUse ==> inUse[file] <= (if nodes[file].content.Some? then |nodes[file].content.value| else 0)
      modifies this`nodes, this`inUse
      ensures Ok() && Keeps(old(nodes), nodes)
      ensures if file in old(inUse) then error.None? && inUse == old(inUse)[file := old(inUse)[file] + |data|]
              else error == Some(NotOpen) && inUse == old(inUse)
      ensures error.None? ==>
                forall dir, name, x | old(IsFile(file, dir, name, x)) && old(inUse)[file] == 0 ::
                  && Root() == Put(old(Root()), dir + [name], Blob(AfterWrite(x, old(nodes)[file].content.Some?, data)))
                  && (old(nodes)[file].content.Some? || data != "" ==> IsLoaded(nodes, dir + [name]))
      ensures error.Some? ==> nodes == old(nodes)
    {
      if file !in inUse {
        return Some(NotOpen);
      }
      error := None;
      var position := inUse[file];
      var content := if nodes[file].content.Some? then nodes[file].content.value[position..] + data else data;
      if nodes[file].content.Some? || data != "" {
        PutContent(file, content);
      } else {
        forall dir, name, x | IsFile(file, dir, name, x) ensures Put(Root(), dir + [name], Blob(x)) == Root() {
          FileIsThere(file, dir, name, x);
        }
      }
      inUse := inUse[file := position + |data|];
    }

    method PutContent(file: nat, content: string)
      requires Ok() && file < |nodes| && nodes[file].BlobNode?
      modifies this`nodes
      ensures Ok() && Keeps(old(nodes), nodes)
      ensures forall dir, name, x | old(IsFile(file, dir, name, x)) ::
                Root() == Put(old(Root()), dir + [name], Blob(content)) && IsLoaded(nodes, dir + [name])
    {
      LeafIsValid(nodes, store, file, nodes[file].(content := Some(content)));
      LeafIsSole(nodes, file, nodes[file].(content := Some(content)));
      forall dir, name, x | IsFile(file, dir, name, x)
        ensures Abs(Written(nodes, file, content), 0) == Put(Root(), dir + [name], Blob(content))
        ensures IsLoaded(Written(nodes, file, content), dir + [name])
      {
        WrittenFile(file, dir, name, x, content);
      }
      nodes := Written(nodes, file, content);
    }

    lemma WrittenFile(file: nat, dir: seq<string>, name: string, x: string, content: string)
      requires Ok() && IsFile(file, dir, name, x)
      ensures Abs(Written(nodes, file, content), 0) == Put(Root(), dir + [name], Blob(content))
      ensures IsLoaded(Written(nodes, file, content), dir + [name])
    {
      var i :| Attached(nodes, i) && PathOf(nodes, i) == dir && Leads(nodes, i, name, file);
      WrittenAtPath(nodes, store, i, name, file, content);
      AttachedLoaded(Written(nodes, file, content), i, [name]);
      assert [name][1..] == [];
    }

    lemma FileIsThere(file: nat, dir: seq<string>, name: string, x: string)
      requires Ok() && IsFile(file, dir, name, x)
      ensures At(Root(), dir + [name]) == Some(Blob(x)) && Put(Root(), dir + [name], Blob(x)) == Root()
    {
      var i :| Attached(nodes, i) && PathOf(nodes, i) == dir && Leads(nodes, i, name, file);
      EntrySeen(i, name);
      PutThere(Root(), dir + [name], Blob(x));
    }

    /** `util.WriteFile`: opens or creates the file, writes once, and closes it. */
    method WriteFile(t: nat, path: string, data: string, ghost links: nat) returns (error: Option<FsError>)
      requires Ok() && Attached(nodes, t) && inUse == map[]
      requires !Walk(Root(), PathOf(nodes, t), Components(path), links, false).TooManyLinks?
      modifies this`nodes, this`inUse
      ensures Ok() && inUse == map[]
      ensures match Walk(old(Root()), PathOf(old(nodes), t), Components(path), links, false)
              case Found(_, dir, name) =>
                (match At(old(Root()), dir + [name])
                 case None => error.None? && Root() == Put(old(Root()), dir + [name], Blob(data)) && IsLoaded(nodes, dir + [name])
                 case Some(Blob(x)) =>
                   var loaded := IsLoaded(old(nodes), dir + [name]);
                   && error.None? && Root() == Put(old(Root()), dir + [name], Blob(AfterWrite(x, loaded, data)))
                   && (loaded || data != "" ==> IsLoaded(nodes, dir + [name]))
                 case Some(_) => error == Some(IsInvalid) && Root() == old(Root()))
              case Failed(_, missing) => error == Some(ErrorOf(missing)) && Root() == old(Root())
              case TooManyLinks => true
    {
      ghost var root, w := Root(), Walk(Root(), PathOf(nodes, t), Components(path), links, false);
      AttachedPath(nodes, store, t);
      WalkGrows(root, PathOf(nodes, t), Components(path), links, false);
      var file;
      file, error := OpenFile(t, path, true, links);
      if error.Some? {
        return;
      }
      if At(root, w.dir + [w.last]).None? {
        assert IsFile(file, w.dir, w.last, "");
        PutAgain(root, w.dir, w.last, Blob(""), Blob(data));
        assert AfterWrite("", true, data) == data;
      } else {
        assert IsFile(file, w.dir, w.last, At(root, w.dir + [w.last]).value.content);
      }
      error := Write(file, data);
      Close(file);
      assert inUse == map[];
    }

    /** The names in a directory; a missing one reads as empty. Its files are loaded for their sizes. */
    method ReadDir(t: nat, dir: string, ghost links: nat) returns (names: set<string>, error: Option<FsError>)
      requires Ok() && Attached(nodes, t)
      requires !Walk(Root(), PathOf(nodes, t), Components(dir + "/."), links, false).TooManyLinks?
      modifies this`nodes
      ensures Ok() && Root() == old(Root())
      ensures match Walk(Root(), PathOf(old(nodes), t), Components(dir + "/."), links, false)
              case Found(_, found, _) =>
                && error.None? && IsDir(Root(), found) && names == At(Root(), found).value.entries.Keys
                && forall name | name in names && At(Root(), found).value.entries[name].Blob? :: IsLoaded(nodes, found + [name])
              case Failed(_, missing) => names == {} && error == if missing then None else Some(IsInvalid)
              case TooManyLinks => true
    {
      var node, last;
      node, last, error := Lookup(t, dir + "/.", links);
      names := {};
      if error == Some(DoesNotExist) {
        error := None;
      } else if error.None? {
        AttachedPath(nodes, store, node);
        names := Infos(node);
      }
    }

    lemma EntriesSeen(i: nat)
      requires Ok() && Attached(nodes, i) && nodes[i].entries.Some?
      ensures Abs(nodes, i).Dir? && Abs(nodes, i).entries.Keys == nodes[i].entries.value.Keys
      ensures forall n | n in nodes[i].entries.value ::
                var c := nodes[i].entries.value[n];
                c < |nodes| && nodes[c].name == n && (Abs(nodes, i).entries[n].Blob? <==> nodes[c].BlobNode?)
    {
      assert NodeOk(nodes, store, i);
      forall n | n in nodes[i].entries.value
        ensures var c := nodes[i].entries.value[n];
                c < |nodes| && nodes[c].name == n && (Abs(nodes, i).entries[n].Blob? <==> nodes[c].BlobNode?)
      {
        assert EntryOk(nodes, i, n, nodes[i].entries.value[n]) && NodeOk(nodes, store, nodes[i].entries.value[n]);
      }
    }

    method Infos(i: nat) returns (names: set<string>)
      requires Ok() && Attached(nodes, i) && nodes[i].entries.Some?
      modifies this`nodes
      ensures Ok() && Root() == old(Root()) && names == old(nodes)[i].entries.value.Keys
      ensures Abs(old(nodes), i).Dir? && names == Abs(old(nodes), i).entries.Keys
      ensures forall name | name in names && Abs(old(nodes), i).entries[name].Blob? :: IsLoaded(nodes, PathOf(old(nodes), i) + [name])
    {
      EntriesSeen(i);
      var list := Listed(nodes[i].entries.value.Keys);
      names := InfoOfEach(nodes[i].entries.value, list);
      assert forall j | 0 <= j < |list| :: list[j] in old(nodes)[i].entries.value;
      forall name | name in names && Abs(old(nodes), i).entries[name].Blob?
        ensures IsLoaded(nodes, PathOf(old(nodes), i) + [name])
      {
        EntryLoaded(i, name);
      }
    }

    method InfoOfEach(entries: map<string, nat>, list: seq<string>) returns (names: set<string>)
      requires Ok() && forall n | n in list :: n in entries && entries[n] < |nodes| && nodes[entries[n]].name == n
      modifies this`nodes
      ensures Ok() && Root() == old(Root()) && Keeps(old(nodes), nodes) && |nodes| == |old(nodes)|
      ensures forall j | 0 <= j < |nodes| :: Informed(old(nodes)[j], nodes[j])
      ensures names == NameSet(list)
      ensures forall n | n in list :: nodes[entries[n]].BlobNode? ==> nodes[entries[n]].content.Some?
    {
      names := {};
      for k := 0 to |list|
        invariant Ok() && Root() == old(Root()) && Keeps(old(nodes), nodes) && |nodes| == |old(nodes)|
        invariant forall j | 0 <= j < |nodes| :: Informed(old(nodes)[j], nodes[j])
        invariant names == NameSet(list[..k])
        invariant forall n | n in list[..k] :: nodes[entries[n]].BlobNode? ==> nodes[entries[n]].content.Some?
      {
        assert list[k] in list && list[..k + 1] == list[..k] + [list[k]];
        var name := Info(entries[list[k]]);
        names := names + {name};
      }
      assert list[..|list|] == list;
    }

    lemma EntryLoaded(i: nat, name: string)
      requires Ok() && Attached(nodes, i) && nodes[i].entries.Some? && name in nodes[i].entries.value
      requires var c := nodes[i].entries.value[name]; c < |nodes| && nodes[c].BlobNode? && nodes[c].content.Some?
      ensures IsLoaded(nodes, PathOf(nodes, i) + [name])
    {
      AttachedLoaded(nodes, i, [name]);
      assert [name][1..] == [];
    }

    // ---- Writing back ----

    method WriteBlob(content: string)
      requires Ok()
      modifies this`store
      ensures Ok() && store == old(store) + {BlobId(content)}
    {
      BlobWritten(store, content);
      StoreGrows(nodes, store, store + {BlobId(content)});
      store := store + {BlobId(content)};
    }

    /**
     Writes the objects under a node from the bottom up, leaving out what was never loaded. The id is that of the
     tree the node stands for; the store only grows; it fails only for new links with an empty target.
     */
    method Insert(i: nat) returns (item: Option<Item>)
      requires Ok() && i < |nodes|
      modifies this`store
      ensures Ok() && old(store) <= store
      ensures item == if Insertable(nodes, i) then Some(IdOf(Abs(nodes, i))) else None
      ensures item.Some? ==> item.value.oid in store
      decreases |nodes| - i
    {
      assert NodeOk(nodes, store, i);
      UnloadedId(nodes, store, i);
      match nodes[i] {
        case BlobNode(_, None, oid) =>
          return Some(Item(BlobMode, oid.value));
        case BlobNode(_, Some(content), _) =>
          WriteBlob(content);
          return Some(Item(BlobMode, BlobId(content)));
        case LinkNode(_, target, oid) =>
          if target == "" {
            return if oid.Some? then Some(Item(LinkMode, oid.value)) else None;
          }
          WriteBlob(target);
          return Some(Item(LinkMode, BlobId(target)));
        case DirNode(_, None, oid, _) =>
          return Some(Item(TreeMode, oid.value));
        case DirNode(_, Some(entries), _, _) =>
          var items := InsertEntries(i, entries);
          if items.None? {
            return None;
          }
          TreeWritten(store, items.value);
          StoreGrows(nodes, store, store + {TreeId(items.value)});
          store := store + {TreeId(items.value)};
          return Some(Item(TreeMode, TreeId(items.value)));
      }
    }

    method InsertEntries(i: nat, entries: map<string, nat>) returns (items: Option<map<string, Item>>)
      requires Ok() && i < |nodes| && nodes[i].DirNode? && nodes[i].entries == Some(entries)
      modifies this`store
      ensures Ok() && old(store) <= store
      ensures items.Some? <==> Insertable(nodes, i)
      ensures items.Some? ==>
                && Item(TreeMode, TreeId(items.value)) == IdOf(Abs(nodes, i))
                && forall n | n in items.value :: items.value[n].oid in store && WellKinded(items.value[n])
      decreases |nodes| - i, 0
    {
      assert NodeOk(nodes, store, i);
      var names := Listed(entries.Keys);
      var built: map<string, Item> := map[];
      for k := 0 to |names|
        invariant Ok() && old(store) <= store
        invariant built.Keys == NameSet(names[..k])
        invariant forall n | n in built ::
                    n in entries && Insertable(nodes, entries[n])
                    && built[n] == IdOf(Abs(nodes, entries[n])) && built[n].oid in store && WellKinded(built[n])
      {
        assert names[k] in names && names[..k + 1] == names[..k] + [names[k]];
        assert EntryOk(nodes, i, names[k], entries[names[k]]);
        var item := Insert(entries[names[k]]);
        if item.None? {
          return None;
        }
        ContentOfId(Abs(nodes, entries[names[k]]));
        built := built[names[k] := item.value];
      }
      assert names[..|names|] == names;
      BuiltAll(i, entries, built);
      items := Some(built);
    }

    lemma BuiltAll(i: nat, entries: map<string, nat>, built: map<string, Item>)
      requires Ok() && i < |nodes| && nodes[i].DirNode? && nodes[i].entries == Some(entries)
      requires built.Keys == entries.Keys
      requires forall n | n in built :: Insertable(nodes, entries[n]) && built[n] == IdOf(Abs(nodes, entries[n]))
      ensures Insertable(nodes, i) && Item(TreeMode, TreeId(built)) == IdOf(Abs(nodes, i))
    {
      assert NodeOk(nodes, store, i);
      assert forall n | n in entries :: EntryOk(nodes, i, n, entries[n]);
      assert built == map n | n in Abs(nodes, i).entries :: IdOf(Abs(nodes, i).entries[n]);
    }

    /** Reading back from the id that was written gives the same tree. */
    method Reopen() returns (again: TreeBuilderFS?)
      requires Ok()
      modifies this`store
      ensures Ok()
      ensures again == null <==> !Insertable(nodes, 0)
      ensures again != null ==> fresh(again) && again.Ok() && again.Root() == Root() == old(Root()) && again.store == store
    {
      var item := Insert(0);
      if item.None? {
        return null;
      }
      assert NodeOk(nodes, store, 0);
      ContentOfId(Root());
      again := new TreeBuilderFS(store, item.value.oid);
    }
  }
}
