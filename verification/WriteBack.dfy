/** Which nodes can be written back to the store, and under which ids. */
module WriteBack {
  import opened TreeFs
  import opened Trees

  /** No link under the node is new and empty; such a link has no object id. */
  predicate Insertable(nodes: Nodes, i: nat)
    decreases |nodes| - i
  {
    i < |nodes| &&
    match nodes[i]
    case LinkNode(_, target, oid) => target != "" || oid.Some?
    case BlobNode(_, _, _) => true
    case DirNode(_, None, _, _) => true
    case DirNode(_, Some(entries), _, _) => forall n | n in entries :: i < entries[n] && Insertable(nodes, entries[n])
  }

  predicate NoEmptyLinks(t: Tree) {
    match t
    case Dir(entries) => forall n | n in entries :: NoEmptyLinks(entries[n])
    case Link(target) => target != ""
    case Blob(_) => true
  }

  /** Trees without empty links can always be written. */
  lemma {:induction false} WritableTree(nodes: Nodes, store: set<Oid>, i: nat)
    requires Valid(nodes, store) && i < |nodes| && NoEmptyLinks(Abs(nodes, i))
    ensures Insertable(nodes, i)
    decreases |nodes| - i
  {
    assert NodeOk(nodes, store, i);
    if nodes[i].DirNode? && nodes[i].entries.Some? {
      var m := nodes[i].entries.value;
      forall n | n in m ensures i < m[n] && Insertable(nodes, m[n]) {
        assert EntryOk(nodes, i, n, m[n]);
        assert Abs(nodes, i).entries[n] == Abs(nodes, m[n]);
        WritableTree(nodes, store, m[n]);
      }
    }
  }

  /** What is not loaded has its old id. */
  lemma UnloadedId(nodes: Nodes, store: set<Oid>, i: nat)
    requires Valid(nodes, store) && i < |nodes|
    ensures nodes[i].DirNode? && nodes[i].entries.None? ==> nodes[i].oid.Some? && IdOf(Abs(nodes, i)) == Item(TreeMode, nodes[i].oid.value)
    ensures nodes[i].BlobNode? && nodes[i].content.None? ==> nodes[i].oid.Some? && IdOf(Abs(nodes, i)) == Item(BlobMode, nodes[i].oid.value)
    ensures nodes[i].LinkNode? && nodes[i].target == "" && nodes[i].oid.Some? ==> IdOf(Abs(nodes, i)) == Item(LinkMode, nodes[i].oid.value)
  {
    assert NodeOk(nodes, store, i);
    match nodes[i]
    case DirNode(_, entries, oid, _) => if entries.None? { IdOfContent(Item(TreeMode, oid.value)); }
    case BlobNode(_, content, oid) => if content.None? { IdOfContent(Item(BlobMode, oid.value)); }
    case LinkNode(_, target, oid) => if target == "" && oid.Some? { IdOfContent(Item(LinkMode, oid.value)); }
  }

  /** A directory that stands for what it was read as has its old id, loaded or not. */
  lemma UnchangedId(nodes: Nodes, i: nat, oid: Oid)
    requires WellKinded(Item(TreeMode, oid)) && Abs(nodes, i) == Content(Item(TreeMode, oid))
    ensures IdOf(Abs(nodes, i)) == Item(TreeMode, oid)
  {
    IdOfContent(Item(TreeMode, oid));
  }

  lemma StoreGrows(nodes: Nodes, store: set<Oid>, store': set<Oid>)
    requires Valid(nodes, store) && store <= store' && Complete(store')
    ensures Valid(nodes, store')
  {
    forall i | 0 <= i < |nodes| ensures NodeOk(nodes, store', i) {
      assert NodeOk(nodes, store, i);
    }
  }

  lemma BlobWritten(store: set<Oid>, content: string)
    requires Complete(store)
    ensures Complete(store + {BlobId(content)})
  {
    forall o | o in store && o.TreeId? ensures ItemsStored(store + {BlobId(content)}, o.items) {
      assert ItemsStored(store, o.items);
    }
  }

  lemma TreeWritten(store: set<Oid>, items: map<string, Item>)
    requires Complete(store) && ItemsStored(store, items)
    ensures Complete(store + {TreeId(items)})
  {
    forall o | o in store && o.TreeId? ensures ItemsStored(store + {TreeId(items)}, o.items) {
      assert ItemsStored(store, o.items);
    }
  }
}
