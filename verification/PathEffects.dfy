/** What each statement on the path registry does, row by row: the slug a directory gets, when a
    statement is refused, and which rows it leaves. */
module PathEffects {
  import opened Wrappers
  import opened Text
  import opened PathRegistry

  // ---------------------------------------------------------------------
  // Slugs
  // ---------------------------------------------------------------------

  /** The characters of `[a-z0-9._-]`. */
  predicate Kept(c: char) {
    'a' <= c <= 'z' || '0' <= c <= '9' || c == '.' || c == '_' || c == '-'
  }

  /** `[a-z0-9][a-z0-9._-]{0,62}`. */
  predicate SlugPattern(slug: string) {
    && 1 <= |slug| <= 63 && ('a' <= slug[0] <= 'z' || '0' <= slug[0] <= '9')
    && forall i :: 0 < i < |slug| ==> Kept(slug[i])
  }

  /** What follows the last slash. */
  ghost predicate LastComponent(path: string, name: string) {
    && '/' !in name && |name| <= |path| && path[|path| - |name|..] == name
    && (|name| < |path| ==> path[|path| - |name| - 1] == '/')
  }

  lemma {:induction false} LastComponentIs(path: string, name: string)
    ensures LastComponent(path, name) <==> name == FileName(path)
    decreases |path|
  {
    if path == [] || path[|path| - 1] == '/' {
      return;
    }
    var shorter, last := path[..|path| - 1], path[|path| - 1];
    LastComponentIs(shorter, FileName(shorter));
    assert path[|path| - |FileName(path)|..] == FileName(path);
    if LastComponent(path, name) {
      assert name != [] && name[|name| - 1] == last;
      var front := name[..|name| - 1];
      assert shorter[|shorter| - |front|..] == front;
      LastComponentIs(shorter, front);
    }
  }

  /** `re.sub("[^a-z0-9._-]+", "-", s)`: kept characters stay, and each run of others becomes
      one hyphen. */
  lemma {:induction false} ReplacedRun(kept: string, run: string, rest: string)
    requires forall i :: 0 <= i < |kept| ==> Kept(kept[i])
    requires run != [] && forall i :: 0 <= i < |run| ==> !Kept(run[i])
    requires rest == [] || Kept(rest[0])
    ensures Replaced(kept + run + rest, false) == kept + "-" + Replaced(rest, false)
    decreases |kept|
  {
    if kept == [] {
      InsideRun(run[1..], rest);
      assert (kept + run + rest)[1..] == run[1..] + rest;
      assert Replaced(kept + run + rest, false) == "-" + Replaced(rest, false);
      return;
    }
    var whole, tail := kept + run + rest, kept[1..] + run + rest;
    ReplacedRun(kept[1..], run, rest);
    assert whole[1..] == tail && whole[0] == kept[0];
    assert Replaced(whole, false) == [kept[0]] + Replaced(tail, false);
    assert [kept[0]] + (kept[1..] + "-" + Replaced(rest, false)) == kept + "-" + Replaced(rest, false);
  }

  /** A name of kept characters is its own replacement. */
  lemma {:induction false} ReplacedKept(kept: string)
    requires forall i :: 0 <= i < |kept| ==> Kept(kept[i])
    ensures Replaced(kept, false) == kept
  {
    if kept != [] {
      ReplacedKept(kept[1..]);
      assert kept == [kept[0]] + kept[1..];
    }
  }

  lemma {:induction false} InsideRun(run: string, rest: string)
    requires forall i :: 0 <= i < |run| ==> !Kept(run[i])
    requires rest == [] || Kept(rest[0])
    ensures Replaced(run + rest, true) == Replaced(rest, false)
  {
    if run == [] {
      assert run + rest == rest;
    } else {
      InsideRun(run[1..], rest);
      assert (run + rest)[1..] == run[1..] + rest;
    }
  }

  predicate Edge(c: char) {
    c == '-' || c == '.' || c == '_'
  }

  /** Trimming takes `-`, `.` and `_` off both ends and nothing else. */
  lemma {:induction false} TrimExact(s: string) returns (i: nat, j: nat)
    ensures i <= j <= |s| && TrimRight(TrimLeft(s)) == s[i..j]
    ensures (forall k :: 0 <= k < i ==> Edge(s[k])) && forall k :: j <= k < |s| ==> Edge(s[k])
    ensures i < j ==> !Edge(s[i]) && !Edge(s[j - 1])
  {
    i := TrimLeftExact(s);
    var left := s[i..];
    var k := TrimRightExact(left);
    j := i + k;
    assert left[..k] == s[i..j];
    forall x | j <= x < |s| ensures Edge(s[x]) {
      assert s[x] == left[x - i];
    }
  }

  lemma {:induction false} TrimLeftExact(s: string) returns (i: nat)
    ensures i <= |s| && TrimLeft(s) == s[i..] && forall k :: 0 <= k < i ==> Edge(s[k])
    ensures i < |s| ==> !Edge(s[i])
  {
    i := 0;
    if s != [] && Edge(s[0]) {
      var k := TrimLeftExact(s[1..]);
      i := k + 1;
      assert s[1..][k..] == s[i..];
    }
  }

  lemma {:induction false} TrimRightExact(s: string) returns (j: nat)
    ensures j <= |s| && TrimRight(s) == s[..j] && forall k :: j <= k < |s| ==> Edge(s[k])
    ensures j > 0 ==> !Edge(s[j - 1])
  {
    j := |s|;
    if s != [] && Edge(s[|s| - 1]) {
      j := TrimRightExact(s[..|s| - 1]);
      assert s[..|s| - 1][..j] == s[..j];
    }
  }

  /** The slug of a directory: its name in lower case, with runs replaced, trimmed, cut to 54
      characters, and "workspace" where nothing is left. */
  lemma {:induction false} BaseSlugExact(env: Env, path: string) returns (i: nat, j: nat)
    ensures var s := Replaced(env.lower(FileName(path)), false);
      && i <= j <= |s|
      && (forall k :: 0 <= k < i ==> Edge(s[k])) && (forall k :: j <= k < |s| ==> Edge(s[k]))
      && (i < j ==> !Edge(s[i]) && !Edge(s[j - 1]))
      && BaseSlug(env, path) == if i == j then "workspace" else s[i..if j - i <= 54 then j else i + 54]
  {
    var s := Replaced(env.lower(FileName(path)), false);
    i, j := TrimExact(s);
    if j - i > 54 {
      assert s[i..j][..54] == s[i..i + 54];
    }
  }

  // ---------------------------------------------------------------------
  // Rows
  // ---------------------------------------------------------------------

  ghost predicate OwnedBy(r: Registry, path: string, p: Uid) {
    || (exists s :: s in r.scopes && r.scopes[s].path == Some(path) && r.scopes[s].project == p)
    || (p, PathAlias, path) in r.aliases
  }

  ghost predicate OwnedByOther(r: Registry, path: string, project: Uid) {
    exists p :: p != project && OwnedBy(r, path, p)
  }

  ghost predicate IsScope(r: Registry, path: string) {
    exists s :: s in r.scopes && r.scopes[s].path == Some(path)
  }

  ghost predicate NameUsed(r: Registry, project: Uid, name: string) {
    exists s :: s in r.scopes && r.scopes[s].project == project && r.scopes[s].name == name
  }

  ghost predicate SlugUsed(r: Registry, slug: string) {
    exists p :: p in r.slugs && r.slugs[p] == slug
  }

  lemma {:induction false} OwnersAre(r: Registry, path: string, p: Uid)
    ensures OwnedBy(r, path, p) <==> p in Owners(r, path)
  {
    if (p, PathAlias, path) in r.aliases {
      assert (p, PathAlias, path).0 in AliasOwners(r, path);
    }
  }

  lemma {:induction false} OtherOwnerIs(r: Registry, path: string, project: Uid)
    ensures OwnedByOther(r, path, project) <==> !Available(r, project, path)
  {
    forall p ensures OwnedBy(r, path, p) <==> p in Owners(r, path) {
      OwnersAre(r, path, p);
    }
  }

  lemma {:induction false} IsScopeIs(r: Registry, path: string)
    ensures IsScope(r, path) <==> ScopeOwners(r, path) != {}
  {
    if s :| s in r.scopes && r.scopes[s].path == Some(path) {
      assert r.scopes[s].project in ScopeOwners(r, path);
    }
    if p :| p in ScopeOwners(r, path) {
      var s :| s in r.scopes && r.scopes[s].path == Some(path) && r.scopes[s].project == p;
    }
  }

  ghost predicate ProjectMade(env: Env, r: Registry, slug: string, name: Option<string>, t: Registry, made: Result<Uid, Failure>) {
    if !SlugPattern(slug) then t == r && made == Err(InvalidSlug)
    else if SlugUsed(r, slug) then t == r && made == Err(Integrity)
    else
      var shown := if name == None || name == Some("") then slug else name.value;
      && made == Ok(r.nextId) && t.nextId == r.nextId + 1 && t.scopes == r.scopes
      && t.slugs == r.slugs[r.nextId := slug]
      && t.aliases == r.aliases[(r.nextId, NameAlias, env.casefold(Strip(shown))) := shown]
  }

  lemma {:induction false} ProjectEffect(env: Env, r: Registry, slug: string, name: Option<string>)
    ensures var (t, made) := AddProject(env, r, slug, name); ProjectMade(env, r, slug, name, t, made)
  {
    assert SlugUsed(r, slug) <==> slug in r.slugs.Values;
  }

  ghost predicate ScopeMade(env: Env, r: Registry, project: Uid, name: string, path: Option<string>, t: Registry, made: Result<Uid, Failure>) {
    var given := path.Some? && path.value != "";
    var stored := if given then Some(env.canon(Strip(path.value))) else None;
    if given && OwnedByOther(r, stored.value, project) then t == r && made == Err(OwnedElsewhere)
    else if given && IsScope(r, stored.value) then
      t == r && made.Ok? && made.value in r.scopes && r.scopes[made.value].path == stored
    else if project !in r.slugs || NameUsed(r, project, name) then t == r && made == Err(Integrity)
    else
      && made == Ok(r.nextId) && t.nextId == r.nextId + 1 && t.slugs == r.slugs && t.aliases == r.aliases
      && t.scopes == r.scopes[r.nextId := Scope(project, name, stored)]
  }

  lemma {:induction false} ScopeEffect(env: Env, r: Registry, project: Uid, name: string, path: Option<string>)
    ensures var (t, made) := AddScope(env, r, project, name, path); ScopeMade(env, r, project, name, path, t, made)
  {
    if path.Some? && path.value != "" {
      var owned := env.canon(Strip(path.value));
      OtherOwnerIs(r, owned, project);
      IsScopeIs(r, owned);
    }
  }

  ghost predicate AliasSet(env: Env, r: Registry, project: Uid, kind: AliasKind, value: string, t: Registry, failed: Option<Failure>) {
    var normalized := if kind == PathAlias then env.canon(Strip(value)) else env.casefold(Strip(value));
    if project !in r.slugs then t == r && failed == Some(NoProject)
    else if normalized == "" then t == r && failed == Some(EmptyAlias)
    else if kind == PathAlias && OwnedByOther(r, normalized, project) then t == r && failed == Some(OwnedElsewhere)
    else
      && failed == None && t.nextId == r.nextId && t.slugs == r.slugs && t.scopes == r.scopes
      && t.aliases == r.aliases[(project, kind, normalized) := value]
  }

  lemma {:induction false} AliasEffect(env: Env, r: Registry, project: Uid, kind: AliasKind, value: string)
    ensures var (t, failed) := SetAlias(env, r, project, kind, value); AliasSet(env, r, project, kind, value, t, failed)
  {
    OtherOwnerIs(r, Normalize(env, kind, value), project);
  }

  /** First the path alias, then, unless that was refused, the alias of the directory's name. */
  ghost predicate Registered(env: Env, r: Registry, project: Uid, path: string, t: Registry, failed: Option<Failure>) {
    exists mid, first :: AliasSet(env, r, project, PathAlias, path, mid, first) && RegisteredFrom(env, project, path, mid, first, t, failed)
  }

  ghost predicate RegisteredFrom(env: Env, project: Uid, path: string, mid: Registry, first: Option<Failure>, t: Registry, failed: Option<Failure>) {
    if first.Some? then t == mid && failed == first
    else exists last :: LastComponent(path, last) && AliasSet(env, mid, project, NameAlias, last, t, failed)
  }

  lemma {:induction false} RegisterEffect(env: Env, r: Registry, project: Uid, path: string)
    ensures var (t, failed) := Register(env, r, project, path); Registered(env, r, project, path, t, failed)
  {
    var (mid, first) := SetAlias(env, r, project, PathAlias, path);
    var (t, failed) := Register(env, r, project, path);
    AliasEffect(env, r, project, PathAlias, path);
    LastComponentIs(path, FileName(path));
    if first.None? {
      AliasEffect(env, mid, project, NameAlias, FileName(path));
      assert AliasSet(env, mid, project, NameAlias, FileName(path), t, failed);
    }
    assert RegisteredFrom(env, project, path, mid, first, t, failed);
  }

  /** A scope for the path and, where asked for, the aliases; what the first committed stays
      when the second is refused. */
  ghost predicate Attached(env: Env, r: Registry, project: Uid, name: string, path: string, register: bool, created: bool,
    t: Registry, out: Result<Resolved, Failure>)
  {
    exists mid, scope :: ScopeMade(env, r, project, name, Some(path), mid, scope) && AttachedFrom(env, project, path, register, created, mid, scope, t, out)
  }

  ghost predicate AttachedFrom(env: Env, project: Uid, path: string, register: bool, created: bool, mid: Registry,
    scope: Result<Uid, Failure>, t: Registry, out: Result<Resolved, Failure>)
  {
    if scope.Err? then t == mid && out == Err(scope.error)
    else if !register then t == mid && out == Ok(Resolved(project, scope.value, created))
    else RegisteredAs(env, mid, Resolved(project, scope.value, created), path, t, out)
  }

  ghost predicate RegisteredAs(env: Env, r: Registry, answer: Resolved, path: string, t: Registry, out: Result<Resolved, Failure>) {
    exists failed :: Registered(env, r, answer.project, path, t, failed) && out == if failed.Some? then Err(failed.value) else Ok(answer)
  }

  lemma {:induction false} AttachEffect(env: Env, r: Registry, project: Uid, name: string, path: string, register: bool, created: bool)
    ensures var (t, out) := Attach(env, r, project, name, path, register, created);
      Attached(env, r, project, name, path, register, created, t, out)
  {
    var (mid, scope) := AddScope(env, r, project, name, Some(path));
    var (t, out) := Attach(env, r, project, name, path, register, created);
    ScopeEffect(env, r, project, name, Some(path));
    RegisterEffect(env, mid, project, path);
    assert AttachedFrom(env, project, path, register, created, mid, scope, t, out);
  }

  // ---------------------------------------------------------------------
  // Resolving and looking up
  // ---------------------------------------------------------------------

  /** A project of this slug without any directory. */
  ghost predicate Rootless(r: Registry, slug: string, p: Uid) {
    p in r.slugs && r.slugs[p] == slug && forall s :: s in r.scopes && r.scopes[s].project == p ==> r.scopes[s].path.None?
  }

  ghost predicate ByScope(env: Env, r: Registry, path: string, t: Registry, out: Result<Resolved, Failure>) {
    exists s :: s in r.scopes && r.scopes[s].path == Some(path) && RegisteredAs(env, r, Resolved(r.scopes[s].project, s, false), path, t, out)
  }

  ghost predicate ByAlias(env: Env, r: Registry, path: string, t: Registry, out: Result<Resolved, Failure>) {
    exists p :: (p, PathAlias, path) in r.aliases && Attached(env, r, p, "__workspace__:" + env.digest12(path), path, true, false, t, out)
  }

  ghost predicate BySlug(env: Env, r: Registry, path: string, slug: string, t: Registry, out: Result<Resolved, Failure>) {
    exists p :: Rootless(r, slug, p) && Attached(env, r, p, "__root__", path, false, false, t, out)
  }

  ghost predicate AsNew(env: Env, r: Registry, path: string, slug: string, t: Registry, out: Result<Resolved, Failure>) {
    exists last, mid, made :: LastComponent(path, last) && ProjectMade(env, r, slug, Some(last), mid, made) && AsMade(env, path, mid, made, t, out)
  }

  ghost predicate AsMade(env: Env, path: string, mid: Registry, made: Result<Uid, Failure>, t: Registry, out: Result<Resolved, Failure>) {
    if made.Err? then t == mid && out == Err(made.error)
    else Attached(env, mid, made.value, "__root__", path, true, true, t, out)
  }

  /** Resolving a directory: the project whose scope it is; else the one with its path alias,
      which gets a workspace scope; else the project of the directory's slug if that has no
      directory yet; else a new project, with a digest in its slug if the plain one is used. */
  ghost predicate ResolvedAs(env: Env, r: Registry, path: string, t: Registry, out: Result<Resolved, Failure>) {
    var slug := BaseSlug(env, path);
    if IsScope(r, path) then ByScope(env, r, path, t, out)
    else if exists p :: (p, PathAlias, path) in r.aliases then ByAlias(env, r, path, t, out)
    else if exists p :: Rootless(r, slug, p) then BySlug(env, r, path, slug, t, out)
    else AsNew(env, r, path, if SlugUsed(r, slug) then slug + "-" + env.digest8(path) else slug, t, out)
  }

  lemma {:induction false} ResolveEffect(env: Env, r: Registry, path: string)
    requires Valid(r) && path != ""
    ensures var (t, out) := Resolve(env, r, path); ResolvedAs(env, r, path, t, out)
  {
    var (t, out) := Resolve(env, r, path);
    if s :| s in r.scopes && r.scopes[s].path == Some(path) {
      ScopeAtIs(r, path, s);
      RegisterEffect(env, r, r.scopes[s].project, path);
      assert RegisteredAs(env, r, Resolved(r.scopes[s].project, s, false), path, t, out);
      return;
    }
    if p :| (p, PathAlias, path) in r.aliases {
      OneAliasOwner(r, path, p);
      AttachEffect(env, r, p, WorkspaceName(env, path), path, true, false);
      return;
    }
    assert AliasOwners(r, path) == {};
    SlugEffect(env, r, path, t, out);
  }

  lemma {:induction false} OneAliasOwner(r: Registry, path: string, p: Uid)
    requires Valid(r) && path != "" && (p, PathAlias, path) in r.aliases
    ensures AliasOwners(r, path) == {p}
  {
    assert (p, PathAlias, path).0 in AliasOwners(r, path);
    assert AliasOwners(r, path) <= Owners(r, path);
  }

  lemma {:induction false} SlugEffect(env: Env, r: Registry, path: string, t: Registry, out: Result<Resolved, Failure>)
    requires Valid(r) && ResolveBySlug(env, r, path) == (t, out)
    ensures var slug := BaseSlug(env, path);
      if exists p :: Rootless(r, slug, p) then BySlug(env, r, path, slug, t, out)
      else AsNew(env, r, path, if SlugUsed(r, slug) then slug + "-" + env.digest8(path) else slug, t, out)
  {
    var slug := BaseSlug(env, path);
    var holder := WithSlug(r, slug);
    assert SlugUsed(r, slug) <==> holder.Some?;
    if holder.Some? && !HasRoot(r, holder.value) {
      AttachEffect(env, r, holder.value, "__root__", path, false, false);
      assert Rootless(r, slug, holder.value);
      return;
    }
    forall p ensures !Rootless(r, slug, p) {
      if p in r.slugs && r.slugs[p] == slug {
        assert holder == Some(p) && HasRoot(r, p);
      }
    }
    var wanted := if SlugUsed(r, slug) then slug + "-" + env.digest8(path) else slug;
    var (mid, made) := AddProject(env, r, wanted, Some(FileName(path)));
    ProjectEffect(env, r, wanted, Some(FileName(path)));
    LastComponentIs(path, FileName(path));
    if made.Ok? {
      AttachEffect(env, mid, made.value, "__root__", path, true, true);
    }
    assert AsMade(env, path, mid, made, t, out);
  }

  /** The lookup names the owner and the scope at the path. */
  lemma {:induction false} FindEffect(r: Registry, path: string)
    requires Valid(r) && path != ""
    ensures Find(r, path) == Unknown <==> forall p :: !OwnedBy(r, path, p)
    ensures forall p :: OwnedBy(r, path, p) ==> Find(r, path).Known? && Find(r, path).project == p
    ensures Find(r, path).Known? ==>
      if Find(r, path).scope.Some? then
        Find(r, path).scope.value in r.scopes && r.scopes[Find(r, path).scope.value].path == Some(path)
      else !IsScope(r, path)
  {
    forall p ensures OwnedBy(r, path, p) <==> p in Owners(r, path) {
      OwnersAre(r, path, p);
    }
    if p :| p in Owners(r, path) {
      FindOwner(r, path, p);
      assert Owners(r, path) == {p};
    }
  }

  // ---------------------------------------------------------------------
  // Import
  // ---------------------------------------------------------------------

  /** When one imported row is refused. */
  ghost predicate Refused(env: Env, r: Registry, record: Record) {
    match record
    case ProjectRecord(id, slug) => id in r.slugs || SlugUsed(r, slug)
    case ScopeRecord(id, scope) =>
      var given := scope.path.Some? && scope.path.value != "";
      || id in r.scopes || NameUsed(r, scope.project, scope.name)
      || (given && OwnedByOther(r, env.canon(Strip(scope.path.value)), scope.project))
      || (given && IsScope(r, env.canon(Strip(scope.path.value))))
      || (scope.path == Some("") && IsScope(r, ""))
    case AliasRecord(project, kind, value, normalized) =>
      var stored := if kind == PathAlias then env.canon(Strip(value)) else normalized;
      (project, kind, stored) in r.aliases || (kind == PathAlias && OwnedByOther(r, stored, project))
  }

  /** The row an import inserts; paths are brought into canonical form again. */
  ghost predicate Imported(env: Env, r: Registry, record: Record, t: Registry) {
    match record
    case ProjectRecord(id, slug) =>
      t.slugs == r.slugs[id := slug] && t.scopes == r.scopes && t.aliases == r.aliases && r.nextId <= t.nextId && id < t.nextId
    case ScopeRecord(id, scope) =>
      var path := if scope.path.Some? && scope.path.value != "" then Some(env.canon(Strip(scope.path.value))) else scope.path;
      && t.scopes == r.scopes[id := Scope(scope.project, scope.name, path)]
      && t.slugs == r.slugs && t.aliases == r.aliases && r.nextId <= t.nextId && id < t.nextId
    case AliasRecord(project, kind, value, normalized) =>
      && t.aliases == r.aliases[(project, kind, if kind == PathAlias then env.canon(Strip(value)) else normalized) := value]
      && t.slugs == r.slugs && t.scopes == r.scopes && t.nextId == r.nextId
  }

  lemma {:induction false} RecordEffect(env: Env, r: Registry, record: Record)
    ensures ImportRecord(env, r, record).None? <==> Refused(env, r, record)
    ensures ImportRecord(env, r, record).Some? ==> Imported(env, r, record, ImportRecord(env, r, record).value)
  {
    match record {
      case ProjectRecord(id, slug) =>
        assert SlugUsed(r, slug) <==> slug in r.slugs.Values;
      case ScopeRecord(id, scope) =>
        if scope.path.Some? {
          OtherOwnerIs(r, env.canon(Strip(scope.path.value)), scope.project);
          IsScopeIs(r, env.canon(Strip(scope.path.value)));
          IsScopeIs(r, "");
        }
      case AliasRecord(project, kind, value, normalized) =>
        OtherOwnerIs(r, env.canon(Strip(value)), project);
    }
  }

  /** The states between the rows of an import, up to the end or to the first refused row. */
  ghost predicate ImportedThrough(env: Env, r: Registry, records: seq<Record>, states: seq<Registry>) {
    && 0 < |states| <= |records| + 1 && states[0] == r
    && (forall i :: 0 <= i < |states| - 1 ==> Imported(env, states[i], records[i], states[i + 1]) && !Refused(env, states[i], records[i]))
    && (|states| <= |records| ==> Refused(env, states[|states| - 1], records[|states| - 1]))
  }

  lemma {:induction false} ImportThrough(env: Env, r: Registry, records: seq<Record>) returns (states: seq<Registry>)
    ensures ImportedThrough(env, r, records, states)
    ensures ImportRecords(env, r, records) == if |states| == |records| + 1 then Some(states[|records|]) else None
    decreases |records|
  {
    states := [r];
    if records == [] {
      return;
    }
    RecordEffect(env, r, records[0]);
    var next := ImportRecord(env, r, records[0]);
    if next.None? {
      return;
    }
    var later := ImportThrough(env, next.value, records[1..]);
    states := [r] + later;
    forall i | 0 <= i < |states| - 1 ensures Imported(env, states[i], records[i], states[i + 1]) && !Refused(env, states[i], records[i]) {
      if i > 0 {
        assert records[1..][i - 1] == records[i];
        assert Imported(env, later[i - 1], records[1..][i - 1], later[i]);
      }
    }
  }

  /** An import commits exactly when no row is refused and every scope and alias then names a
      project; otherwise nothing changes. */
  lemma {:induction false} ImportEffect(env: Env, r: Registry, records: seq<Record>) returns (states: seq<Registry>)
    ensures ImportedThrough(env, r, records, states)
    ensures var last := states[|states| - 1];
      Import(env, r, records) ==
        if |states| == |records| + 1
          && (forall s :: s in last.scopes ==> last.scopes[s].project in last.slugs)
          && (forall k :: k in last.aliases ==> k.0 in last.slugs)
        then last else r
  {
    states := ImportThrough(env, r, records);
  }
}
