/**
 Directory trees as values: what a tree object of the store stands for, and what a path leads to.
 An object id is represented by the object it names, since ids are hashes of the contents.
 */
module Trees {
  import opened Config
  import Strings

  datatype Tree = Dir(entries: map<string, Tree>) | Blob(content: string) | Link(target: string)

  datatype Mode = TreeMode | BlobMode | LinkMode

  datatype Oid = BlobId(content: string) | TreeId(items: map<string, Item>)

  datatype Item = Item(mode: Mode, oid: Oid)

  // ---- Objects ----

  /** The mode fits the kind of object, all the way down. */
  predicate WellKinded(item: Item) {
    match item.oid
    case BlobId(_) => item.mode != TreeMode
    case TreeId(items) => item.mode == TreeMode && forall n | n in items :: WellKinded(items[n])
  }

  function Content(item: Item): Tree {
    match item.oid
    case TreeId(items) => Dir(map n | n in items :: Content(items[n]))
    case BlobId(content) => if item.mode == LinkMode then Link(content) else Blob(content)
  }

  function IdOf(t: Tree): Item {
    match t
    case Dir(entries) => Item(TreeMode, TreeId(map n | n in entries :: IdOf(entries[n])))
    case Blob(content) => Item(BlobMode, BlobId(content))
    case Link(target) => Item(LinkMode, BlobId(target))
  }

  /** Reading back what was written gives the same tree. */
  lemma {:induction false} ContentOfId(t: Tree)
    ensures Content(IdOf(t)) == t && WellKinded(IdOf(t))
  {
    if t.Dir? {
      forall n | n in t.entries ensures Content(IdOf(t.entries[n])) == t.entries[n] && WellKinded(IdOf(t.entries[n])) {
        ContentOfId(t.entries[n]);
      }
      var items := map n | n in t.entries :: IdOf(t.entries[n]);
      assert (map n | n in items :: Content(items[n])) == t.entries;
    }
  }

  /** Writing what was read gives the same id. */
  lemma {:induction false} IdOfContent(item: Item)
    requires WellKinded(item)
    ensures IdOf(Content(item)) == item
  {
    match item.oid
    case BlobId(_) =>
    case TreeId(items) =>
      forall n | n in items ensures IdOf(Content(items[n])) == items[n] {
        IdOfContent(items[n]);
      }
      var entries := map n | n in items :: Content(items[n]);
      assert (map n | n in entries :: IdOf(entries[n])) == items;
  }

  ghost predicate ItemsStored(store: set<Oid>, items: map<string, Item>) {
    forall n | n in items :: items[n].oid in store && WellKinded(items[n])
  }

  /** The store has every object that its objects refer to, with fitting kinds. */
  ghost predicate Complete(store: set<Oid>) {
    forall o | o in store && o.TreeId? :: ItemsStored(store, o.items)
  }

  // ---- Places in a tree ----

  function At(t: Tree, path: seq<string>): Option<Tree> {
    if path == [] then Some(t)
    else if t.Dir? && path[0] in t.entries then At(t.entries[path[0]], path[1..])
    else None
  }

  /** The tree with `x` at a place whose directory exists. */
  function Put(t: Tree, path: seq<string>, x: Tree): Tree {
    if path == [] then x
    else if t.Dir? && path[0] in t.entries then Dir(t.entries[path[0] := Put(t.entries[path[0]], path[1..], x)])
    else if t.Dir? && |path| == 1 then Dir(t.entries[path[0] := x])
    else t
  }

  function Removed(t: Tree, dir: seq<string>, name: string): Tree {
    match At(t, dir)
    case Some(Dir(entries)) => Put(t, dir, Dir(entries - {name}))
    case _ => t
  }

  predicate IsDir(t: Tree, path: seq<string>) {
    At(t, path).Some? && At(t, path).value.Dir?
  }

  lemma {:induction false} AtAppend(t: Tree, path: seq<string>, name: string)
    ensures At(t, path + [name]) ==
            if IsDir(t, path) && name in At(t, path).value.entries then Some(At(t, path).value.entries[name]) else None
    decreases |path|
  {
    if path == [] {
      assert (path + [name])[1..] == [];
    } else {
      assert (path + [name])[0] == path[0] && (path + [name])[1..] == path[1..] + [name];
      if t.Dir? && path[0] in t.entries {
        AtAppend(t.entries[path[0]], path[1..], name);
      }
    }
  }

  lemma {:induction false} PutAppend(t: Tree, path: seq<string>, name: string, x: Tree)
    requires IsDir(t, path)
    ensures Put(t, path + [name], x) == Put(t, path, Dir(At(t, path).value.entries[name := x]))
    decreases |path|
  {
    if path == [] {
      assert (path + [name])[1..] == [];
    } else {
      assert (path + [name])[0] == path[0] && (path + [name])[1..] == path[1..] + [name];
      PutAppend(t.entries[path[0]], path[1..], name, x);
    }
  }

  lemma {:induction false} PutThere(t: Tree, path: seq<string>, x: Tree)
    requires At(t, path).Some?
    ensures At(Put(t, path, x), path) == Some(x)
    ensures Put(t, path, At(t, path).value) == t
    decreases |path|
  {
    if path != [] {
      PutThere(t.entries[path[0]], path[1..], x);
      assert t.entries[path[0] := t.entries[path[0]]] == t.entries;
    }
  }

  // ---- Paths ----

  function WithoutTrailingSlashes(s: string): string {
    if s != "" && s[|s| - 1] == '/' then WithoutTrailingSlashes(s[..|s| - 1]) else s
  }

  function Components(path: string): (parts: seq<string>)
    ensures parts != []
  {
    Strings.Split(WithoutTrailingSlashes(path), '/')
  }

  function Parent(path: seq<string>): seq<string> {
    if path == [] then [] else path[..|path| - 1]
  }

  /**
   Where a walk ended: in a directory, with the last component not looked at, or at an error. With creation the
   tree may have grown on the way. A walk over more than the given number of links is not followed to its end.
   */
  datatype Walked =
    | Found(tree: Tree, dir: seq<string>, last: string)
    | Failed(tree: Tree, missing: bool)
    | TooManyLinks

  function Walk(t: Tree, cwd: seq<string>, parts: seq<string>, links: nat, create: bool): Walked
    requires parts != []
    decreases links, |parts|
  {
    var d, rest := parts[0], parts[1..];
    if rest == [] then Found(t, cwd, d)
    else if d == "." || d == "" then Walk(t, cwd, rest, links, create)
    else if d == ".." then Walk(t, Parent(cwd), rest, links, create)
    else
      match At(t, cwd + [d])
      case None => if create then Walk(Put(t, cwd + [d], Dir(map[])), cwd + [d], rest, links, create) else Failed(t, true)
      case Some(Dir(_)) => Walk(t, cwd + [d], rest, links, create)
      case Some(Link(target)) =>
        if links == 0 then TooManyLinks else Walk(t, cwd, Components(target) + rest, links - 1, create)
      case Some(Blob(_)) => Failed(t, false)
  }
}
