/** Paths as strings: joining them with `path.Join`, splitting them again, and release numbers as names. */
module PathNames {
  import opened Config
  import opened Strings
  import opened Trees

  predicate PlainName(name: string) {
    name !in {"", ".", ".."} && '/' !in name
  }

  predicate AllPlain(names: seq<string>) {
    forall i | 0 <= i < |names| :: PlainName(names[i])
  }

  // ---- path.Join ----

  /** Components without empty ones and dots; a parent takes away the component before it, if there is one. */
  function Cleaned(done: seq<string>, parts: seq<string>): seq<string>
    decreases |parts|
  {
    if parts == [] then done
    else
      var d, rest := parts[0], parts[1..];
      if d == "" || d == "." then Cleaned(done, rest)
      else if d == ".." && done != [] && done[|done| - 1] != ".." then Cleaned(done[..|done| - 1], rest)
      else Cleaned(done + [d], rest)
  }

  /** `path.Join` for elements that do not begin with a slash. */
  function PathJoin(elements: seq<string>): string
    requires elements != []
  {
    var parts := Cleaned([], Split(Join(elements, '/'), '/'));
    if parts == [] then "." else Join(parts, '/')
  }

  lemma {:induction false} CleanedPlain(done: seq<string>, parts: seq<string>)
    requires AllPlain(parts)
    ensures Cleaned(done, parts) == done + parts
    decreases |parts|
  {
    if parts == [] {
      assert done + parts == done;
    } else {
      CleanedPlain(done + [parts[0]], parts[1..]);
      assert done + [parts[0]] + parts[1..] == done + parts;
    }
  }

  /** Going up from plain components. */
  lemma {:induction false} CleanedUp(names: seq<string>, up: seq<string>, rest: seq<string>)
    requires AllPlain(names) && |up| == |names| && AllUp(up)
    ensures Cleaned(names, up + rest) == Cleaned([], rest)
    decreases |up|
  {
    if up == [] {
      assert up + rest == rest;
    } else {
      assert (up + rest)[0] == ".." && (up + rest)[1..] == up[1..] + rest;
      CleanedUp(names[..|names| - 1], up[1..], rest);
    }
  }

  lemma {:induction false} SplitConcat(a: string, b: string, sep: char)
    ensures Split(a + [sep] + b, sep) == Split(a, sep) + Split(b, sep)
  {
    if a == "" {
      assert (a + [sep] + b)[1..] == b;
    } else {
      assert (a + [sep] + b)[1..] == a[1..] + [sep] + b;
      SplitConcat(a[1..], b, sep);
    }
  }

  lemma PlainFree(names: seq<string>)
    requires names != [] && AllPlain(names)
    ensures Free(names, '/') && Split(Join(names, '/'), '/') == names && PathJoin(names) == Join(names, '/')
  {
    SplitJoin(names, '/');
    CleanedPlain([], names);
    assert [] + names == names;
  }

  lemma {:induction false} JoinEnds(names: seq<string>)
    requires names != [] && AllPlain(names)
    ensures var s := Join(names, '/'); s != "" && s[|s| - 1] != '/'
  {
    if |names| > 1 {
      JoinEnds(names[1..]);
    } else {
      assert names[0][|names[0]| - 1] in names[0];
    }
  }

  /** What the file system makes of a joined path. */
  lemma JoinedComponents(names: seq<string>)
    requires names != [] && AllPlain(names)
    ensures Components(PathJoin(names)) == names
    ensures Components(PathJoin(names) + "/.") == names + ["."]
  {
    PlainFree(names);
    JoinEnds(names);
    var s := Join(names, '/');
    assert s + "/." == s + ['/'] + ".";
    SplitConcat(s, ".", '/');
    SplitFree(".", '/');
  }

  lemma SplitJoinMore(first: string, names: seq<string>)
    requires names != [] && Free(names, '/')
    ensures Split(Join([first] + names, '/'), '/') == Split(first, '/') + names
  {
    assert ([first] + names)[1..] == names;
    SplitConcat(first, Join(names, '/'), '/');
    SplitJoin(names, '/');
  }

  lemma JoinAllBelow(dir: seq<string>, names: seq<string>)
    requires dir != [] && AllPlain(dir) && names != [] && AllPlain(names)
    ensures PathJoin([PathJoin(dir)] + names) == PathJoin(dir + names)
  {
    PlainFree(dir);
    PlainFree(names);
    PlainFree(dir + names);
    SplitJoinMore(PathJoin(dir), names);
  }

  lemma JoinBelow(names: seq<string>, last: string)
    requires names != [] && AllPlain(names) && PlainName(last)
    ensures PathJoin([PathJoin(names), last]) == PathJoin(names + [last])
  {
    JoinAllBelow(names, [last]);
    assert [PathJoin(names)] + [last] == [PathJoin(names), last];
  }

  lemma {:induction false} SplitJoinLast(names: seq<string>, last: string)
    requires names != [] && Free(names, '/')
    ensures Split(Join(names + [last], '/'), '/') == names + Split(last, '/')
  {
    var all := names + [last];
    assert all[1..] == names[1..] + [last];
    if |names| == 1 {
      assert Join([last], '/') == last;
      SplitPrefix(names[0], last, '/');
    } else {
      SplitJoinLast(names[1..], last);
      SplitPrefix(names[0], Join(all[1..], '/'), '/');
    }
  }

  const UP := ["..", "..", "..", ".."]

  /** A link from four directories down to plain names at the top. */
  lemma UpAndDown(names: seq<string>)
    requires names != [] && AllPlain(names)
    ensures PathJoin(UP + [PathJoin(names)]) == Join(UP + names, '/')
  {
    PlainFree(names);
    SplitJoinLast(UP, PathJoin(names));
    CleanedPile([], UP, names);
    assert [] + UP == UP;
    CleanedPlain(UP, names);
  }

  predicate AllUp(parts: seq<string>) {
    forall i | 0 <= i < |parts| :: parts[i] == ".."
  }

  /** Parents with nothing to take away pile up. */
  lemma {:induction false} CleanedPile(done: seq<string>, up: seq<string>, rest: seq<string>)
    requires AllUp(done) && AllUp(up)
    ensures Cleaned(done, up + rest) == Cleaned(done + up, rest)
    decreases |up|
  {
    if up == [] {
      assert up + rest == rest && done + up == done;
    } else {
      assert (up + rest)[0] == ".." && (up + rest)[1..] == up[1..] + rest;
      CleanedPile(done + [".."], up[1..], rest);
      assert done + [".."] + up[1..] == done + up;
    }
  }

  /** Following such a link from four plain directories down. */
  lemma DownAgain(dir: seq<string>, names: seq<string>)
    requires |dir| == 4 && AllPlain(dir) && names != [] && AllPlain(names)
    ensures PathJoin(dir + [Join(UP + names, '/')]) == PathJoin(names)
  {
    PlainFree(dir);
    PlainFree(names);
    assert Free(UP + names, '/') by {
      forall p | p in UP + names ensures '/' !in p {
        assert p in UP || p in names;
      }
    }
    SplitJoin(UP + names, '/');
    SplitJoinLast(dir, Join(UP + names, '/'));
    assert Cleaned([], dir + (UP + names)) == Cleaned(dir, UP + names) by {
      CleanedStart([], dir, UP + names);
      assert [] + dir == dir;
    }
    CleanedUp(dir, UP, names);
  }

  lemma {:induction false} CleanedStart(done: seq<string>, names: seq<string>, rest: seq<string>)
    requires AllPlain(names)
    ensures Cleaned(done, names + rest) == Cleaned(done + names, rest)
    decreases |names|
  {
    if names == [] {
      assert names + rest == rest && done + names == done;
    } else {
      assert (names + rest)[0] == names[0] && (names + rest)[1..] == names[1..] + rest;
      CleanedStart(done + [names[0]], names[1..], rest);
      assert done + [names[0]] + names[1..] == done + names;
    }
  }

  // ---- Numbers as names ----

  function Digit(d: nat): char
    requires d < 10
  {
    '0' + (d as char)
  }

  /** `strconv.FormatUint` */
  function Decimal(n: nat): string {
    if n < 10 then [Digit(n)] else Decimal(n / 10) + [Digit(n % 10)]
  }

  function DigitValue(c: char): Option<nat> {
    if '0' <= c <= '9' then Some((c - '0') as nat) else None
  }

  function ParseDigits(s: string): Option<nat> {
    if s == "" then Some(0)
    else
      match (ParseDigits(s[..|s| - 1]), DigitValue(s[|s| - 1]))
      case (Some(n), Some(d)) => Some(10 * n + d)
      case _ => None
  }

  /** `strconv.ParseUint`, for numbers of any size. */
  function ParseUint(s: string): Option<nat> {
    if s == "" then None else ParseDigits(s)
  }

  lemma {:induction false} ParseDecimal(n: nat)
    ensures ParseUint(Decimal(n)) == Some(n)
  {
    if n >= 10 {
      ParseDecimal(n / 10);
      assert Decimal(n)[..|Decimal(n)| - 1] == Decimal(n / 10);
    } else {
      var s := [Digit(n)];
      assert s[..0] == "" && s[0] == Digit(n) && ParseDigits("") == Some(0);
      assert Decimal(n) == s;
    }
  }

  lemma {:induction false} DecimalDigits(n: nat)
    ensures Decimal(n) != "" && forall c | c in Decimal(n) :: '0' <= c <= '9'
  {
    if n >= 10 {
      DecimalDigits(n / 10);
    }
  }

  lemma DecimalPlain(n: nat)
    ensures PlainName(Decimal(n))
  {
    DecimalDigits(n);
    assert Decimal(n)[0] in Decimal(n);
  }
}
