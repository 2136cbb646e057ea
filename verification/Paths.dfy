/** What walking a path can do to a tree, and when it comes to an end. */
module Paths {
  import opened Config
  import opened Trees

  // ---- Growing by directories only ----

  predicate OnlyDirs(t: Tree) {
    t.Dir? && forall n | n in t.entries :: OnlyDirs(t.entries[n])
  }

  /** `t'` is `t` with some directories added, and nothing else. */
  predicate Grown(t: Tree, t': Tree) {
    match t
    case Dir(entries) =>
      && t'.Dir?
      && (forall n | n in entries :: n in t'.entries && Grown(entries[n], t'.entries[n]))
      && (forall n | n in t'.entries && n !in entries :: OnlyDirs(t'.entries[n]))
    case _ => t' == t
  }

  lemma {:induction false} GrownRefl(t: Tree)
    ensures Grown(t, t)
  {
    if t.Dir? {
      forall n | n in t.entries ensures Grown(t.entries[n], t.entries[n]) {
        GrownRefl(t.entries[n]);
      }
    }
  }

  lemma {:induction false} OnlyDirsGrown(t: Tree, t': Tree)
    requires OnlyDirs(t) && Grown(t, t')
    ensures OnlyDirs(t')
  {
    forall n | n in t'.entries ensures OnlyDirs(t'.entries[n]) {
      if n in t.entries {
        OnlyDirsGrown(t.entries[n], t'.entries[n]);
      }
    }
  }

  lemma {:induction false} GrownTrans(t: Tree, u: Tree, v: Tree)
    requires Grown(t, u) && Grown(u, v)
    ensures Grown(t, v)
  {
    if t.Dir? {
      forall n | n in t.entries ensures n in v.entries && Grown(t.entries[n], v.entries[n]) {
        GrownTrans(t.entries[n], u.entries[n], v.entries[n]);
      }
      forall n | n in v.entries && n !in t.entries ensures OnlyDirs(v.entries[n]) {
        if n in u.entries {
          OnlyDirsGrown(u.entries[n], v.entries[n]);
        }
      }
    }
  }

  /** Nothing that was there is lost, and files and links stay what they were. */
  lemma {:induction false} GrownAt(t: Tree, t': Tree, path: seq<string>)
    requires Grown(t, t') && At(t, path).Some?
    ensures At(t', path).Some? && Grown(At(t, path).value, At(t', path).value)
    decreases |path|
  {
    if path != [] {
      GrownAt(t.entries[path[0]], t'.entries[path[0]], path[1..]);
    }
  }

  lemma {:induction false} OnlyDirsAt(t: Tree, path: seq<string>)
    requires OnlyDirs(t) && At(t, path).Some?
    ensures At(t, path).value.Dir?
    decreases |path|
  {
    if path != [] {
      OnlyDirsAt(t.entries[path[0]], path[1..]);
    }
  }

  /** What is new is a directory. */
  lemma {:induction false} NewIsDir(t: Tree, t': Tree, path: seq<string>)
    requires Grown(t, t') && At(t', path).Some? && !At(t', path).value.Dir?
    ensures At(t, path) == At(t', path)
    decreases |path|
  {
    if path != [] {
      if path[0] in t.entries {
        NewIsDir(t.entries[path[0]], t'.entries[path[0]], path[1..]);
      } else {
        OnlyDirsAt(t'.entries[path[0]], path[1..]);
        assert false;
      }
    }
  }

  lemma {:induction false} PutGrows(t: Tree, dir: seq<string>, d: string)
    requires IsDir(t, dir) && At(t, dir + [d]).None?
    ensures Grown(t, Put(t, dir + [d], Dir(map[])))
    decreases |dir|
  {
    var path := dir + [d];
    GrownRefl(t);
    if dir != [] {
      assert path[0] == dir[0] && path[1..] == dir[1..] + [d];
      var u := t.entries[path[0]];
      PutGrows(u, dir[1..], d);
      forall n | n in t.entries ensures Grown(t.entries[n], t.entries[n]) {
        GrownRefl(t.entries[n]);
      }
    } else {
      forall n | n in t.entries ensures Grown(t.entries[n], t.entries[n]) {
        GrownRefl(t.entries[n]);
      }
    }
  }

  lemma PutIsThere(t: Tree, dir: seq<string>, d: string, x: Tree)
    requires IsDir(t, dir)
    ensures At(Put(t, dir + [d], x), dir + [d]) == Some(x)
  {
    PutAppend(t, dir, d, x);
    var y := Dir(At(t, dir).value.entries[d := x]);
    PutThere(t, dir, y);
    AtAppend(Put(t, dir, y), dir, d);
  }

  lemma {:induction false} PutAgain(t: Tree, dir: seq<string>, d: string, x: Tree, y: Tree)
    requires IsDir(t, dir)
    ensures Put(Put(t, dir + [d], x), dir + [d], y) == Put(t, dir + [d], y)
    decreases |dir|
  {
    var path := dir + [d];
    if dir == [] {
      assert path[1..] == [];
    } else {
      assert path[0] == dir[0] && path[1..] == dir[1..] + [d];
      PutAgain(t.entries[path[0]], dir[1..], d, x, y);
    }
  }

  lemma {:induction false} ParentIsDir(t: Tree, path: seq<string>)
    requires IsDir(t, path)
    ensures IsDir(t, Parent(path))
  {
    if path != [] {
      assert path == Parent(path) + [path[|path| - 1]];
      AtAppend(t, Parent(path), path[|path| - 1]);
    }
  }

  // ---- What walking does ----

  /** A walk ends in a directory of the tree it leaves; it adds directories only, and without creation nothing. */
  lemma {:induction false} WalkGrows(t: Tree, cwd: seq<string>, parts: seq<string>, links: nat, create: bool)
    requires parts != [] && IsDir(t, cwd)
    ensures match Walk(t, cwd, parts, links, create)
            case Found(t', dir, _) => Grown(t, t') && IsDir(t', dir) && (!create ==> t' == t)
            case Failed(t', missing) => Grown(t, t') && (!create ==> t' == t) && (create ==> !missing)
            case TooManyLinks => true
    decreases links, |parts|
  {
    GrownRefl(t);
    var d, rest := parts[0], parts[1..];
    if rest != [] {
      if d == "." || d == "" {
        WalkGrows(t, cwd, rest, links, create);
      } else if d == ".." {
        ParentIsDir(t, cwd);
        WalkGrows(t, Parent(cwd), rest, links, create);
      } else {
        match At(t, cwd + [d])
        case None =>
          if create {
            var u := Put(t, cwd + [d], Dir(map[]));
            PutGrows(t, cwd, d);
            PutIsThere(t, cwd, d, Dir(map[]));
            WalkGrows(u, cwd + [d], rest, links, create);
            var w := Walk(u, cwd + [d], rest, links, create);
            if !w.TooManyLinks? {
              GrownTrans(t, u, w.tree);
            }
          }
        case Some(Dir(_)) => WalkGrows(t, cwd + [d], rest, links, create);
        case Some(Link(target)) =>
          if links > 0 {
            WalkGrows(t, cwd, Components(target) + rest, links - 1, create);
          }
        case Some(Blob(_)) =>
      }
    }
  }

  /** Once the missing directories are there, the same walk finds its way without adding any. */
  lemma {:induction false} WalkAgain(t: Tree, cwd: seq<string>, parts: seq<string>, links: nat)
    requires parts != [] && IsDir(t, cwd)
    requires Walk(t, cwd, parts, links, true).Found?
    ensures var w := Walk(t, cwd, parts, links, true);
            Walk(w.tree, cwd, parts, links, false) == w
    decreases links, |parts|
  {
    var w := Walk(t, cwd, parts, links, true);
    WalkGrows(t, cwd, parts, links, true);
    var d, rest := parts[0], parts[1..];
    if rest != [] {
      if d == "." || d == "" {
        WalkAgain(t, cwd, rest, links);
      } else if d == ".." {
        ParentIsDir(t, cwd);
        WalkAgain(t, Parent(cwd), rest, links);
      } else {
        match At(t, cwd + [d])
        case None =>
          var u := Put(t, cwd + [d], Dir(map[]));
          PutIsThere(t, cwd, d, Dir(map[]));
          WalkGrows(u, cwd + [d], rest, links, true);
          GrownAt(u, w.tree, cwd + [d]);
          WalkAgain(u, cwd + [d], rest, links);
        case Some(Dir(_)) =>
          GrownAt(t, w.tree, cwd + [d]);
          WalkAgain(t, cwd + [d], rest, links);
        case Some(Link(target)) =>
          GrownAt(t, w.tree, cwd + [d]);
          WalkAgain(t, cwd, Components(target) + rest, links - 1);
      }
    }
  }

  // ---- What is new ----

  /** The directories that a walk passes through in a tree it does not change. */
  ghost function Passed(t: Tree, cwd: seq<string>, parts: seq<string>, links: nat): set<seq<string>>
    requires parts != []
    decreases links, |parts|
  {
    var d, rest := parts[0], parts[1..];
    {cwd} +
    (if rest == [] then {}
     else if d == "." || d == "" then Passed(t, cwd, rest, links)
     else if d == ".." then Passed(t, Parent(cwd), rest, links)
     else
       match At(t, cwd + [d])
       case Some(Dir(_)) => Passed(t, cwd + [d], rest, links)
       case Some(Link(target)) => if links == 0 then {} else Passed(t, cwd, Components(target) + rest, links - 1)
       case _ => {})
  }

  lemma {:induction false} PutAddsOne(t: Tree, dir: seq<string>, d: string, path: seq<string>)
    requires IsDir(t, dir) && At(t, dir + [d]).None?
    requires At(Put(t, dir + [d], Dir(map[])), path).Some? && At(t, path).None?
    ensures path == dir + [d]
    decreases |dir|
  {
    var at := dir + [d];
    if dir == [] {
      assert at[1..] == [];
      assert path[0] == d && path[1..] == [];
    } else {
      assert at[0] == dir[0] && at[1..] == dir[1..] + [d];
      assert path[0] == dir[0];
      PutAddsOne(t.entries[dir[0]], dir[1..], d, path[1..]);
    }
  }

  /** Everything a walk adds lies on its way: the same walk passes through it in the tree it leaves. */
  lemma {:induction false} NewIsPassed(t: Tree, cwd: seq<string>, parts: seq<string>, links: nat, create: bool, path: seq<string>)
    requires parts != [] && IsDir(t, cwd)
    requires var w := Walk(t, cwd, parts, links, create);
             !w.TooManyLinks? && At(t, path).None? && At(w.tree, path).Some?
    ensures path in Passed(Walk(t, cwd, parts, links, create).tree, cwd, parts, links)
    decreases links, |parts|
  {
    var w := Walk(t, cwd, parts, links, create);
    WalkGrows(t, cwd, parts, links, create);
    var d, rest := parts[0], parts[1..];
    if rest != [] {
      if d == "." || d == "" {
        NewIsPassed(t, cwd, rest, links, create, path);
      } else if d == ".." {
        ParentIsDir(t, cwd);
        NewIsPassed(t, Parent(cwd), rest, links, create, path);
      } else {
        match At(t, cwd + [d])
        case None =>
          var u := Put(t, cwd + [d], Dir(map[]));
          PutIsThere(t, cwd, d, Dir(map[]));
          WalkGrows(u, cwd + [d], rest, links, create);
          GrownAt(u, w.tree, cwd + [d]);
          if At(u, path).Some? {
            PutAddsOne(t, cwd, d, path);
          } else {
            NewIsPassed(u, cwd + [d], rest, links, create, path);
          }
        case Some(Dir(_)) =>
          GrownAt(t, w.tree, cwd + [d]);
          NewIsPassed(t, cwd + [d], rest, links, create, path);
        case Some(Link(target)) =>
          GrownAt(t, w.tree, cwd + [d]);
          NewIsPassed(t, cwd, Components(target) + rest, links - 1, create, path);
      }
    }
  }

  /** Components that are neither empty, nor dots, nor lead to a link. */
  predicate PlainNames(t: Tree, cwd: seq<string>, parts: seq<string>)
    decreases |parts|
  {
    parts == [] ||
    (parts[0] !in {"", ".", ".."} && !IsLink(t, cwd + [parts[0]]) && PlainNames(t, cwd + [parts[0]], parts[1..]))
  }

  /** Over plain names, these are the beginnings of the path. */
  lemma {:induction false} PassedBeginnings(t: Tree, cwd: seq<string>, parts: seq<string>, links: nat, path: seq<string>)
    requires parts != [] && PlainNames(t, cwd, parts[..|parts| - 1])
    requires path in Passed(t, cwd, parts, links)
    ensures exists k :: 0 <= k < |parts| && path == cwd + parts[..k]
    decreases |parts|
  {
    if path == cwd {
      assert path == cwd + parts[..0];
    } else {
      var d, rest := parts[0], parts[1..];
      assert parts[..|parts| - 1][0] == d && parts[..|parts| - 1][1..] == rest[..|rest| - 1];
      PassedBeginnings(t, cwd + [d], rest, links, path);
      var k :| 0 <= k < |rest| && path == cwd + [d] + rest[..k];
      assert path == cwd + parts[..k + 1];
    }
  }

  // ---- Termination ----

  predicate IsLink(t: Tree, path: seq<string>) {
    At(t, path).Some? && At(t, path).value.Link?
  }

  /** These components lead over no link. */
  predicate PlainSteps(t: Tree, cwd: seq<string>, parts: seq<string>)
    decreases |parts|
  {
    if parts == [] then true
    else if parts[0] == "." || parts[0] == "" then PlainSteps(t, cwd, parts[1..])
    else if parts[0] == ".." then PlainSteps(t, Parent(cwd), parts[1..])
    else !IsLink(t, cwd + [parts[0]]) && PlainSteps(t, cwd + [parts[0]], parts[1..])
  }

  /** All links of the tree are resolved through plain directories. */
  ghost predicate PlainLinks(t: Tree) {
    forall path {:trigger At(t, path)} | IsLink(t, path) :: PlainSteps(t, Parent(path), Components(At(t, path).value.target))
  }

  lemma GrownLink(t: Tree, t': Tree, path: seq<string>)
    requires Grown(t, t')
    ensures IsLink(t', path) <==> IsLink(t, path)
    ensures IsLink(t, path) ==> At(t', path) == At(t, path)
  {
    if IsLink(t, path) {
      GrownAt(t, t', path);
    }
    if IsLink(t', path) {
      NewIsDir(t, t', path);
    }
  }

  lemma {:induction false} GrownSteps(t: Tree, t': Tree, cwd: seq<string>, parts: seq<string>)
    requires Grown(t, t') && PlainSteps(t, cwd, parts)
    ensures PlainSteps(t', cwd, parts)
    decreases |parts|
  {
    if parts != [] {
      if parts[0] == "." || parts[0] == "" {
        GrownSteps(t, t', cwd, parts[1..]);
      } else if parts[0] == ".." {
        GrownSteps(t, t', Parent(cwd), parts[1..]);
      } else {
        GrownLink(t, t', cwd + [parts[0]]);
        GrownSteps(t, t', cwd + [parts[0]], parts[1..]);
      }
    }
  }

  lemma GrownPlain(t: Tree, t': Tree)
    requires Grown(t, t') && PlainLinks(t)
    ensures PlainLinks(t')
  {
    forall path | IsLink(t', path) ensures PlainSteps(t', Parent(path), Components(At(t', path).value.target)) {
      GrownLink(t, t', path);
      assert At(t, path) == At(t', path);
      GrownSteps(t, t', Parent(path), Components(At(t, path).value.target));
    }
  }

  lemma CreatedIsPlain(t: Tree, cwd: seq<string>, d: string, plain: seq<string>)
    requires IsDir(t, cwd) && At(t, cwd + [d]).None? && PlainLinks(t) && PlainSteps(t, cwd + [d], plain)
    ensures var u := Put(t, cwd + [d], Dir(map[]));
            IsDir(u, cwd + [d]) && PlainLinks(u) && PlainSteps(u, cwd + [d], plain)
  {
    var u := Put(t, cwd + [d], Dir(map[]));
    PutGrows(t, cwd, d);
    PutIsThere(t, cwd, d, Dir(map[]));
    GrownPlain(t, u);
    GrownSteps(t, u, cwd + [d], plain);
  }

  /** What is left of both parts after the first component. */
  function Rest(plain: seq<string>, parts: seq<string>): (r: (seq<string>, seq<string>))
    requires plain + parts != []
    ensures r.0 + r.1 == (plain + parts)[1..]
  {
    if plain == [] then
      assert plain + parts == parts;
      ([], parts[1..])
    else (plain[1..], parts)
  }

  function Next(cwd: seq<string>, d: string): seq<string> {
    if d == "." || d == "" then cwd else if d == ".." then Parent(cwd) else cwd + [d]
  }

  lemma PlainRest(t: Tree, cwd: seq<string>, plain: seq<string>, parts: seq<string>)
    requires PlainSteps(t, cwd, plain) && plain + parts != []
    ensures var d := (plain + parts)[0];
            && PlainSteps(t, Next(cwd, d), Rest(plain, parts).0)
            && (d !in {".", "", ".."} && IsLink(t, cwd + [d]) ==> plain == [] && parts != [] && d == parts[0])
  {
    assert plain == [] ==> plain + parts == parts;
  }

  /** With links that resolve through plain directories, a walk follows at most one link for each of its components. */
  lemma {:induction false} PlainWalkEnds(t: Tree, cwd: seq<string>, plain: seq<string>, parts: seq<string>, links: nat, create: bool)
    requires IsDir(t, cwd) && PlainLinks(t) && PlainSteps(t, cwd, plain)
    requires plain + parts != [] && |parts| <= links
    ensures !Walk(t, cwd, plain + parts, links, create).TooManyLinks?
    decreases |parts|, |plain|
  {
    var all := plain + parts;
    var d, rest := all[0], all[1..];
    if rest != [] {
      var plain', parts' := Rest(plain, parts).0, Rest(plain, parts).1;
      PlainRest(t, cwd, plain, parts);
      if d == "." || d == "" {
        PlainWalkEnds(t, cwd, plain', parts', links, create);
      } else if d == ".." {
        ParentIsDir(t, cwd);
        PlainWalkEnds(t, Parent(cwd), plain', parts', links, create);
      } else {
        match At(t, cwd + [d])
        case None =>
          if create {
            CreatedIsPlain(t, cwd, d, plain');
            PlainWalkEnds(Put(t, cwd + [d], Dir(map[])), cwd + [d], plain', parts', links, create);
          }
        case Some(Dir(_)) => PlainWalkEnds(t, cwd + [d], plain', parts', links, create);
        case Some(Link(target)) =>
          assert IsLink(t, cwd + [d]) && Parent(cwd + [d]) == cwd;
          assert plain == [] && rest == parts[1..];
          PlainWalkEnds(t, cwd, Components(target), parts[1..], links - 1, create);
        case Some(Blob(_)) =>
      }
    }
  }

  /** So in such a tree, every walk of the file system comes to an end. */
  lemma WalkEnds(t: Tree, cwd: seq<string>, path: string, create: bool)
    requires IsDir(t, cwd) && PlainLinks(t)
    ensures !Walk(t, cwd, Components(path), |Components(path)|, create).TooManyLinks?
  {
    PlainWalkEnds(t, cwd, [], Components(path), |Components(path)|, create);
    assert [] + Components(path) == Components(path);
  }
}
