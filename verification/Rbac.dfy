/**
 The role-based access policy: parsing and validating policy lines, and the permission check,
 which looks up at most eight formatted lines instead of scanning the parsed policy.
 */
module Rbac {
  import opened Config
  import opened Strings

  datatype Result<+T> = Ok(value: T) | Err(error: Error)

  datatype Error =
    | FieldCount(found: nat)
    | InvalidAction(action: string)
    | InvalidEnvironment(envs: string)
    | InvalidEnvironmentGroup(envs: string)
    | EnvironmentMustBeWildcard(action: string, envs: string)
    | InvalidApplication(app: string)
    | PolicyFileMissing
    | PolicyEmpty
    | PermissionDenied

  datatype Permission = Permission(role: string, application: string, environment: string, action: string)

  const ALLOWED_ACTIONS: seq<string> := [
    "CreateLock", "DeleteLock", "CreateRelease", "DeployRelease", "CreateUndeploy", "DeployUndeploy",
    "CreateEnvironment", "DeleteEnvironmentApplication", "DeployReleaseTrain"]

  const MAX_APP_NAME_LEN := 39

  /** `\A[a-z0-9]+(?:-[a-z0-9]+)*\z`: pieces between dashes, each non-empty and alphanumeric. */
  predicate MatchesName(s: string) {
    forall p <- Split(s, '-') :: p != "" && forall c <- p :: 'a' <= c <= 'z' || '0' <= c <= '9'
  }

  predicate Alphanumeric(c: char) {
    'a' <= c <= 'z' || '0' <= c <= '9'
  }

  /** Letters, digits and single dashes between them. */
  predicate IsName(s: string) {
    && s != "" && Alphanumeric(s[0]) && Alphanumeric(s[|s| - 1])
    && (forall i | 0 <= i < |s| :: Alphanumeric(s[i]) || s[i] == '-')
    && (forall i | 0 <= i < |s| - 1 :: Alphanumeric(s[i]) || Alphanumeric(s[i + 1]))
  }

  lemma {:induction false} MatchesNameIff(s: string)
    ensures MatchesName(s) <==> IsName(s)
    decreases |s|
  {
    if s == "" {
      assert Split(s, '-')[0] == "" && "" in Split(s, '-');
    } else if s[0] == '-' {
      assert Split(s, '-')[0] == "" && "" in Split(s, '-');
    } else if |s| == 1 {
      SplitFree(s, '-');
      assert s == [s[0]];
      PiecesAre(s, []);
    } else if s[1] == '-' {
      MatchesAfterDash(s);
      MatchesNameIff(s[2..]);
      NameAfterDash(s);
    } else {
      MatchesAfterLetter(s);
      MatchesNameIff(s[1..]);
      assert forall i | 0 < i < |s| :: s[i] == s[1..][i - 1];
      assert forall i | 0 <= i < |s[1..]| :: s[1..][i] == s[i + 1];
    }
  }

  predicate IsPiece(p: string) {
    p != "" && forall c <- p :: Alphanumeric(c)
  }

  predicate ArePieces(parts: seq<string>) {
    forall p <- parts :: IsPiece(p)
  }

  lemma PiecesAre(p: string, rest: seq<string>)
    ensures ArePieces([p] + rest) <==> IsPiece(p) && ArePieces(rest)
  {
    assert ([p] + rest)[0] == p;
    assert forall x :: x in [p] + rest <==> x == p || x in rest;
  }

  lemma MatchesArePieces(s: string)
    ensures MatchesName(s) <==> ArePieces(Split(s, '-'))
  {
  }

  lemma PieceAfterLetter(c: char, p: string)
    ensures IsPiece([c] + p) <==> Alphanumeric(c) && forall x <- p :: Alphanumeric(x)
  {
    assert ([c] + p)[0] == c;
    assert forall x :: x in [c] + p <==> x == c || x in p;
  }

  lemma MatchesAfterDash(s: string)
    requires |s| > 1 && s[0] != '-' && s[1] == '-'
    ensures MatchesName(s) <==> Alphanumeric(s[0]) && MatchesName(s[2..])
  {
    var rest := Split(s[2..], '-');
    assert s == [s[0]] + ['-'] + s[2..];
    SplitPrefix([s[0]], s[2..], '-');
    PiecesAre([s[0]], rest);
    PieceAfterLetter(s[0], "");
    assert [s[0]] + "" == [s[0]];
    MatchesArePieces(s);
    MatchesArePieces(s[2..]);
  }

  lemma NameAfterDash(s: string)
    requires |s| > 1 && s[0] != '-' && s[1] == '-'
    ensures IsName(s) <==> Alphanumeric(s[0]) && IsName(s[2..])
  {
    assert forall i | 2 <= i < |s| :: s[i] == s[2..][i - 2];
    assert forall i | 0 <= i < |s[2..]| :: s[2..][i] == s[i + 2];
  }

  lemma MatchesAfterLetter(s: string)
    requires |s| > 1 && s[0] != '-' && s[1] != '-'
    ensures MatchesName(s) <==> Alphanumeric(s[0]) && MatchesName(s[1..])
  {
    var rest := Split(s[1..], '-');
    assert Split(s, '-') == [[s[0]] + rest[0]] + rest[1..];
    assert rest == [rest[0]] + rest[1..] && rest[0] != "";
    PiecesAre(rest[0], rest[1..]);
    PiecesAre([s[0]] + rest[0], rest[1..]);
    PieceAfterLetter(s[0], rest[0]);
    MatchesArePieces(s);
    MatchesArePieces(s[1..]);
  }

  predicate ValidEnvironmentName(s: string) {
    |s| < 21 && MatchesName(s)
  }

  predicate ValidApplicationName(s: string) {
    |s| <= MAX_APP_NAME_LEN && MatchesName(s)
  }

  /** Names of environments have up to 20 characters, those of applications up to 39. */
  lemma NamesIff(s: string)
    ensures ValidEnvironmentName(s) <==> |s| <= 20 && IsName(s)
    ensures ValidApplicationName(s) <==> |s| <= 39 && IsName(s)
  {
    MatchesNameIff(s);
  }

  /** Actions whose policy lines name an environment group and the wildcard environment. */
  predicate IsEnvironmentIndependent(action: string) {
    action == "CreateUndeploy" || action == "DeployUndeploy" || action == "CreateRelease"
  }

  function ValidateEnvs(envs: string, action: string): (r: Result<()>)
  {
    var e := Split(envs, ':');
    if |e| != 2 || envs == "" then Err(InvalidEnvironment(envs))
    else if !ValidEnvironmentName(e[0]) && e[0] != "*" then Err(InvalidEnvironmentGroup(envs))
    else if IsEnvironmentIndependent(action) then
      if e[1] == "*" then Ok(()) else Err(EnvironmentMustBeWildcard(action, envs))
    else if !ValidEnvironmentName(e[1]) && e[1] != "*" then Err(InvalidEnvironment(envs))
    else Ok(())
  }

  function ValidateRbacPermission(line: string): (r: Result<Permission>)
  {
    var c := Split(line, ',');
    if |c| != 5 then Err(FieldCount(|c|))
    else if c[1] !in ALLOWED_ACTIONS then Err(InvalidAction(c[1]))
    else
      var envs := ValidateEnvs(c[2], c[1]);
      if envs.Err? then Err(envs.error)
      else if c[3] != "*" && !ValidApplicationName(c[3]) then Err(InvalidApplication(c[3]))
      else Ok(Permission(c[0], c[3], c[2], c[1]))
  }

  /** `strings.ReplaceAll(line, " ", "")` */
  function Trim(line: string): (r: string)
    ensures ' ' !in r
  {
    if line == "" then ""
    else if line[0] == ' ' then Trim(line[1..])
    else [line[0]] + Trim(line[1..])
  }

  function TrimAll(lines: seq<string>): (r: seq<string>)
    ensures |r| == |lines|
    ensures forall k | 0 <= k < |lines| :: r[k] == Trim(lines[k])
  {
    seq(|lines|, k requires 0 <= k < |lines| => Trim(lines[k]))
  }

  /** `policy` maps exactly the given trimmed lines, all of them valid, to their permissions. */
  ghost predicate PolicyOf(trimmed: seq<string>, policy: map<string, Permission>) {
    && (forall l :: l in policy <==> l in trimmed)
    && (forall l | l in policy :: ValidateRbacPermission(l) == Ok(policy[l]))
  }

  /** Reads the lines of the policy file; `file` is None when it cannot be opened. */
  method ReadRbacPolicy(dexEnabled: bool, file: Option<seq<string>>) returns (r: Result<map<string, Permission>>)
    ensures !dexEnabled ==> r == Ok(map[])
    ensures dexEnabled && file.None? ==> r == Err(PolicyFileMissing)
    ensures dexEnabled && file.Some? && file.value == [] ==> r == Err(PolicyEmpty)
    ensures dexEnabled && file.Some? && r.Ok? ==> PolicyOf(TrimAll(file.value), r.value)
    ensures dexEnabled && file.Some? && file.value != [] && r.Err? ==>
              exists i | 0 <= i < |file.value| ::
                && ValidateRbacPermission(Trim(file.value[i])) == Err(r.error)
                && forall j | 0 <= j < i :: ValidateRbacPermission(Trim(file.value[j])).Ok?
  {
    if !dexEnabled {
      return Ok(map[]);
    }
    if file.None? {
      return Err(PolicyFileMissing);
    }
    var lines := file.value;
    var policy: map<string, Permission> := map[];
    ghost var trimmed := TrimAll(lines);
    for i := 0 to |lines|
      invariant PolicyOf(trimmed[..i], policy)
      invariant forall j | 0 <= j < i :: ValidateRbacPermission(Trim(lines[j])).Ok?
    {
      var line := Trim(lines[i]);
      var p := ValidateRbacPermission(line);
      if p.Err? {
        return Err(p.error);
      }
      policy := policy[line := p.value];
      assert trimmed[..i + 1] == trimmed[..i] + [line];
    }
    assert trimmed[..|lines|] == trimmed;
    assert lines != [] ==> trimmed[0] in policy;
    if policy == map[] {
      return Err(PolicyEmpty);
    }
    return Ok(policy);
  }

  /** `"%s,%s,%s:%s,%s,allow"` */
  function PermissionLine(role: string, action: string, group: string, env: string, app: string): string {
    role + "," + action + "," + group + ":" + env + "," + app + ",allow"
  }

  /** The permission check: three nested loops over the exact value and the wildcard. */
  method CheckUserPermissions(policy: map<string, Permission>, role: string, env: string, envGroup: string,
                              application: string, action: string)
    returns (r: Result<()>)
    ensures r.Ok? <==>
            LookupAllows(policy, role, if action in {"CreateUndeploy", "DeployUndeploy", "CreateRelease"} then "*" else env,
                         envGroup, application, action)
    ensures r.Err? ==> r.error == PermissionDenied
  {
    var e := if IsEnvironmentIndependent(action) then "*" else env;
    var groups, envs, apps := [envGroup, "*"], [e, "*"], [application, "*"];
    for i := 0 to 2
      invariant forall g, n, a | g in groups[..i] && n in envs && a in apps ::
                  PermissionLine(role, action, g, n, a) !in policy
    {
      for j := 0 to 2
        invariant forall n, a | n in envs[..j] && a in apps ::
                    PermissionLine(role, action, groups[i], n, a) !in policy
      {
        for k := 0 to 2
          invariant forall a | a in apps[..k] ::
                      PermissionLine(role, action, groups[i], envs[j], a) !in policy
        {
          if PermissionLine(role, action, groups[i], envs[j], apps[k]) in policy {
            assert Candidate(e, envs[j]) && Candidate(envGroup, groups[i]) && Candidate(application, apps[k]);
            return Ok(());
          }
          assert apps[..k + 1] == apps[..k] + [apps[k]];
        }
        assert apps[..2] == apps;
        assert envs[..j + 1] == envs[..j] + [envs[j]];
      }
      assert envs[..2] == envs;
      assert groups[..i + 1] == groups[..i] + [groups[i]];
    }
    assert groups[..2] == groups;
    return Err(PermissionDenied);
  }

  predicate Candidate(wanted: string, tried: string) {
    tried == wanted || tried == "*"
  }

  ghost predicate LookupAllows(policy: map<string, Permission>, role: string, env: string, envGroup: string,
                               application: string, action: string) {
    exists g, n, a :: Candidate(envGroup, g) && Candidate(env, n) && Candidate(application, a)
                      && PermissionLine(role, action, g, n, a) in policy
  }

  /** What a policy line means when its fields are read: an `allow` for this role, action and target. */
  predicate Grants(line: string, role: string, action: string, envGroup: string, env: string, app: string) {
    var f := Split(line, ',');
    && |f| == 5
    && f[0] == role
    && f[1] == action
    && (var e := Split(f[2], ':');
        && |e| == 2
        && (e[0] == envGroup || e[0] == "*")
        && (e[1] == env || e[1] == "*"))
    && (f[3] == app || f[3] == "*")
    && f[4] == "allow"
  }

  /** With exactly five comma fields, formatting loses nothing, whatever the arguments contain. */
  lemma FormatIsInjective(role: string, action: string, group: string, env: string, app: string)
    requires |Split(PermissionLine(role, action, group, env, app), ',')| == 5
    requires var f := Split(PermissionLine(role, action, group, env, app), ',');
             |Split(f[2], ':')| == 2
    ensures var f := Split(PermissionLine(role, action, group, env, app), ',');
            f == [role, action, group + ":" + env, app, "allow"] && Split(f[2], ':') == [group, env]
  {
    var line := PermissionLine(role, action, group, env, app);
    var fields := [role, action, group + ":" + env, app, "allow"];
    JoinFive(role, action, group + ":" + env, app, "allow");
    assert line == Join(fields, ',');
    CountJoin(fields, ',');
    SplitCount(line, ',');
    CountZero(role, ',');
    CountZero(action, ',');
    CountZero(group + ":" + env, ',');
    CountZero(app, ',');
    CountZero("allow", ',');
    CountFive(role, action, group + ":" + env, app, "allow");
    SplitJoin(fields, ',');
    CountAppend(group + ":", env, ':');
    CountAppend(group, ":", ':');
    SplitCount(group + ":" + env, ':');
    CountZero(group, ':');
    CountZero(env, ':');
    assert Count(":", ':') == 1;
    SplitPrefix(group, env, ':');
    SplitFree(env, ':');
  }

  lemma JoinFive(a: string, b: string, c: string, d: string, e: string)
    ensures Join([a, b, c, d, e], ',') == a + "," + b + "," + c + "," + d + "," + e
  {
    assert [d, e][1..] == [e];
    assert Join([d, e], ',') == d + "," + e;
    assert [c, d, e][1..] == [d, e];
    assert Join([c, d, e], ',') == c + "," + d + "," + e;
    assert [b, c, d, e][1..] == [c, d, e];
    assert Join([b, c, d, e], ',') == b + "," + c + "," + d + "," + e;
    assert [a, b, c, d, e][1..] == [b, c, d, e];
    assert a + [','] + Join([b, c, d, e], ',') == a + "," + b + "," + c + "," + d + "," + e;
  }

  function SumCount(parts: seq<string>, sep: char): nat {
    if parts == [] then 0 else Count(parts[0], sep) + SumCount(parts[1..], sep)
  }

  lemma {:induction false} CountJoin(parts: seq<string>, sep: char)
    requires |parts| > 0
    ensures Count(Join(parts, sep), sep) == SumCount(parts, sep) + |parts| - 1
  {
    if |parts| == 1 {
      assert parts[1..] == [];
    } else {
      CountJoin(parts[1..], sep);
      CountAppend(parts[0] + [sep], Join(parts[1..], sep), sep);
      CountAppend(parts[0], [sep], sep);
    }
  }

  lemma CountFive(a: string, b: string, c: string, d: string, e: string)
    ensures SumCount([a, b, c, d, e], ',') == Count(a, ',') + Count(b, ',') + Count(c, ',') + Count(d, ',') + Count(e, ',')
  {
    assert [e][1..] == [];
    assert [d, e][1..] == [e];
    assert SumCount([e], ',') == Count(e, ',');
    assert [c, d, e][1..] == [d, e];
    assert SumCount([c, d, e], ',') == Count(c, ',') + Count(d, ',') + Count(e, ',');
    assert [b, c, d, e][1..] == [c, d, e];
    assert [a, b, c, d, e][1..] == [b, c, d, e];
  }

  lemma GrantsThenFormat(line: string, role: string, action: string, envGroup: string, env: string, app: string)
    requires Grants(line, role, action, envGroup, env, app)
    ensures var f := Split(line, ',');
            var e := Split(f[2], ':');
            PermissionLine(role, action, e[0], e[1], f[3]) == line
  {
    var f := Split(line, ',');
    var e := Split(f[2], ':');
    JoinSplit(line, ',');
    JoinSplit(f[2], ':');
    JoinFive(f[0], f[1], f[2], f[3], f[4]);
    assert f == [f[0], f[1], f[2], f[3], f[4]];
    assert e[1..] == [e[1]];
  }

  lemma ValidLineShape(line: string)
    requires ValidateRbacPermission(line).Ok?
    ensures var f := Split(line, ',');
            |f| == 5 && |Split(f[2], ':')| == 2
  {
  }

  /** A valid line is granted to exactly the arguments it would be formatted from. */
  lemma GrantsIsFormat(line: string, role: string, action: string, envGroup: string, env: string, app: string)
    requires ValidateRbacPermission(line).Ok?
    ensures Grants(line, role, action, envGroup, env, app) <==>
            exists g, n, a :: Candidate(envGroup, g) && Candidate(env, n) && Candidate(app, a)
                              && PermissionLine(role, action, g, n, a) == line
  {
    ValidLineShape(line);
    if Grants(line, role, action, envGroup, env, app) {
      GrantsThenFormat(line, role, action, envGroup, env, app);
    }
    if g, n, a :| Candidate(envGroup, g) && Candidate(env, n) && Candidate(app, a)
                  && PermissionLine(role, action, g, n, a) == line {
      FormatIsInjective(role, action, g, n, a);
    }
  }

  /**
   Looking up formatted strings decides exactly as scanning the parsed lines does: for all strings,
   including ones with commas, colons and asterisks in them.
   */
  lemma LookupIsScan(lines: seq<string>, policy: map<string, Permission>, role: string, env: string,
                     envGroup: string, app: string, action: string)
    requires PolicyOf(TrimAll(lines), policy)
    ensures LookupAllows(policy, role, env, envGroup, app, action) <==>
            exists line :: line in TrimAll(lines) && Grants(line, role, action, envGroup, env, app)
  {
    if LookupAllows(policy, role, env, envGroup, app, action) {
      var g, n, a :| Candidate(envGroup, g) && Candidate(env, n) && Candidate(app, a)
                     && PermissionLine(role, action, g, n, a) in policy;
      GrantsIsFormat(PermissionLine(role, action, g, n, a), role, action, envGroup, env, app);
    }
    if line :| line in TrimAll(lines) && Grants(line, role, action, envGroup, env, app) {
      GrantsIsFormat(line, role, action, envGroup, env, app);
    }
  }

  lemma {:induction false} JoinChars(parts: seq<string>, sep: char, c: char)
    requires |parts| > 0
    requires c in Join(parts, sep)
    ensures c == sep || exists p :: p in parts && c in p
  {
    if |parts| > 1 && c !in parts[0] && c != sep {
      JoinChars(parts[1..], sep, c);
    }
  }

  lemma NameChars(s: string, c: char)
    requires MatchesName(s) && c in s
    ensures c == '-' || 'a' <= c <= 'z' || '0' <= c <= '9'
  {
    JoinSplit(s, '-');
    JoinChars(Split(s, '-'), '-', c);
  }

  /** Parsing loses nothing: a valid line is its permission's fields, written out again. */
  lemma ParseThenFormat(line: string)
    requires ValidateRbacPermission(line).Ok?
    ensures var p := ValidateRbacPermission(line).value;
            line == p.role + "," + p.action + "," + p.environment + "," + p.application + "," + Split(line, ',')[4]
  {
    var f := Split(line, ',');
    ValidLineShape(line);
    JoinSplit(line, ',');
    JoinFive(f[0], f[1], f[2], f[3], f[4]);
    assert f == [f[0], f[1], f[2], f[3], f[4]];
  }

  /** A group or environment as a policy line may name it. */
  predicate NameOrWildcard(s: string) {
    ValidEnvironmentName(s) || s == "*"
  }

  lemma NoSeparators(s: string)
    requires MatchesName(s) || s == "*"
    ensures ',' !in s && ':' !in s
  {
    if ',' in s && s != "*" { NameChars(s, ','); }
    if ':' in s && s != "*" { NameChars(s, ':'); }
  }

  lemma EnvsParse(group: string, env: string, action: string)
    requires NameOrWildcard(group) && NameOrWildcard(env)
    ensures ValidateEnvs(group + ":" + env, action) ==
            if IsEnvironmentIndependent(action) && env != "*"
            then Err(EnvironmentMustBeWildcard(action, group + ":" + env)) else Ok(())
    ensures ',' !in group + ":" + env
  {
    NoSeparators(group);
    NoSeparators(env);
    SplitPrefix(group, env, ':');
    SplitFree(env, ':');
    assert group + [':'] + env == group + ":" + env;
    assert Split(group + ":" + env, ':') == [group, env];
    assert (group + ":" + env)[|group|] == ':';
  }

  /**
   Formatting loses nothing: a line written for a comma-free role, an allowed action and valid targets
   is accepted and read back as these values, provided the action admits the environment.
   */
  lemma FormatThenParse(role: string, action: string, group: string, env: string, app: string)
    requires ',' !in role && action in ALLOWED_ACTIONS
    requires NameOrWildcard(group) && NameOrWildcard(env) && (ValidApplicationName(app) || app == "*")
    ensures ValidateRbacPermission(PermissionLine(role, action, group, env, app)) ==
            if IsEnvironmentIndependent(action) && env != "*"
            then Err(EnvironmentMustBeWildcard(action, group + ":" + env))
            else Ok(Permission(role, app, group + ":" + env, action))
  {
    EnvsParse(group, env, action);
    NoSeparators(app);
    ActionsAreCommaFree(action);
    FiveFields(role, action, group + ":" + env, app);
    assert PermissionLine(role, action, group, env, app) == role + "," + action + "," + (group + ":" + env) + "," + app + ",allow";
    ValidateByFields(PermissionLine(role, action, group, env, app), role, action, group + ":" + env, app, "allow");
  }

  lemma FiveFields(role: string, action: string, envs: string, app: string)
    requires ',' !in role && ',' !in action && ',' !in envs && ',' !in app
    ensures Split(role + "," + action + "," + envs + "," + app + ",allow", ',') == [role, action, envs, app, "allow"]
  {
    JoinFive(role, action, envs, app, "allow");
    assert role + "," + action + "," + envs + "," + app + ",allow" == role + "," + action + "," + envs + "," + app + "," + "allow";
    SplitJoin([role, action, envs, app, "allow"], ',');
  }

  lemma ValidateByFields(line: string, role: string, action: string, envs: string, app: string, effect: string)
    requires Split(line, ',') == [role, action, envs, app, effect]
    requires action in ALLOWED_ACTIONS && (ValidApplicationName(app) || app == "*")
    ensures ValidateRbacPermission(line) ==
            if ValidateEnvs(envs, action).Err? then Err(ValidateEnvs(envs, action).error)
            else Ok(Permission(role, app, envs, action))
  {
  }

  lemma ActionsAreCommaFree(action: string)
    requires action in ALLOWED_ACTIONS
    ensures ',' !in action
  {
  }
}
