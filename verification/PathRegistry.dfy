/** Which project owns a directory: scopes, path aliases, and the resolution of a working
    directory to a project (`ProjectEvidenceRepository`). */
module PathRegistry {
  import opened Wrappers
  import opened Text

  type Uid = nat

  /** The world outside the store: `expanduser().resolve()`, case mapping, and the first
      12 and 8 digits of a path's SHA-256. */
  datatype Env = Env(
    canon: string -> string,
    lower: string -> string,
    casefold: string -> string,
    digest12: string -> string,
    digest8: string -> string)

  datatype AliasKind = PathAlias | NameAlias

  datatype Scope = Scope(project: Uid, name: string, path: Option<string>)

  /** `projects` (slug only), `scopes` and `project_aliases`; ids are issued by `nextId`. */
  datatype Registry = Registry(
    slugs: map<Uid, string>,
    scopes: map<Uid, Scope>,
    aliases: map<(Uid, AliasKind, string), string>,
    nextId: Uid)

  datatype Failure = InvalidSlug | EmptyAlias | OwnedElsewhere | NoProject | Integrity

  // ---------------------------------------------------------------------
  // Names
  // ---------------------------------------------------------------------

  function Owned(env: Env, value: string): string {
    env.canon(Strip(value))
  }

  function Normalize(env: Env, kind: AliasKind, value: string): string {
    if kind == PathAlias then Owned(env, value) else env.casefold(Strip(value))
  }

  /** `Path(path).name` of a canonical path: what follows its last slash. */
  function FileName(path: string): string {
    if path == [] || path[|path| - 1] == '/' then "" else FileName(path[..|path| - 1]) + [path[|path| - 1]]
  }

  predicate SlugStart(c: char) {
    'a' <= c <= 'z' || '0' <= c <= '9'
  }

  predicate SlugChar(c: char) {
    SlugStart(c) || c == '.' || c == '_' || c == '-'
  }

  predicate ValidSlug(slug: string) {
    1 <= |slug| <= 63 && SlugStart(slug[0]) && forall i :: 0 <= i < |slug| ==> SlugChar(slug[i])
  }

  /** `re.sub("[^a-z0-9._-]+", "-", s)`; `inRun` while inside a replaced run. */
  function Replaced(s: string, inRun: bool): string {
    if s == [] then []
    else if SlugChar(s[0]) then [s[0]] + Replaced(s[1..], false)
    else (if inRun then [] else ['-']) + Replaced(s[1..], true)
  }

  predicate Trimmed(c: char) {
    c == '-' || c == '.' || c == '_'
  }

  function TrimLeft(s: string): string {
    if s != [] && Trimmed(s[0]) then TrimLeft(s[1..]) else s
  }

  function TrimRight(s: string): string {
    if s != [] && Trimmed(s[|s| - 1]) then TrimRight(s[..|s| - 1]) else s
  }

  function BaseSlug(env: Env, path: string): string {
    var trimmed := TrimRight(TrimLeft(Replaced(env.lower(FileName(path)), false)));
    var base := if trimmed == [] then "workspace" else trimmed;
    if |base| <= 54 then base else base[..54]
  }

  function DigestSlug(env: Env, path: string): string {
    BaseSlug(env, path) + "-" + env.digest8(path)
  }

  function WorkspaceName(env: Env, path: string): string {
    "__workspace__:" + env.digest12(path)
  }

  /** A digest is written in hexadecimal. */
  predicate HexDigest(s: string, n: nat) {
    |s| == n && forall i :: 0 <= i < n ==> '0' <= s[i] <= '9' || 'a' <= s[i] <= 'f'
  }

  lemma {:induction false} ReplacedChars(s: string, inRun: bool)
    ensures forall i :: 0 <= i < |Replaced(s, inRun)| ==> SlugChar(Replaced(s, inRun)[i])
  {
    if s != [] {
      ReplacedChars(s[1..], !SlugChar(s[0]));
    }
  }

  lemma {:induction false} TrimLeftChars(s: string)
    requires forall i :: 0 <= i < |s| ==> SlugChar(s[i])
    ensures var t := TrimLeft(s);
      && (forall i :: 0 <= i < |t| ==> SlugChar(t[i]))
      && (t != [] ==> !Trimmed(t[0]))
  {
    if s != [] && Trimmed(s[0]) {
      TrimLeftChars(s[1..]);
    }
  }

  lemma {:induction false} TrimRightPrefix(s: string)
    ensures TrimRight(s) <= s
  {
    if s != [] && Trimmed(s[|s| - 1]) {
      TrimRightPrefix(s[..|s| - 1]);
    }
  }

  /** Both slugs the resolver may ask for pass the slug pattern, whatever the directory
      is called. */
  lemma {:induction false} GeneratedSlugsValid(env: Env, path: string)
    requires HexDigest(env.digest8(path), 8)
    ensures ValidSlug(BaseSlug(env, path)) && ValidSlug(DigestSlug(env, path))
  {
    var replaced := Replaced(env.lower(FileName(path)), false);
    ReplacedChars(env.lower(FileName(path)), false);
    TrimLeftChars(replaced);
    TrimRightPrefix(TrimLeft(replaced));
    var base, digest := BaseSlug(env, path), env.digest8(path);
    var slug := DigestSlug(env, path);
    assert ValidSlug(base);
    forall i | 0 <= i < |slug| ensures SlugChar(slug[i]) {
      if i > |base| {
        assert slug[i] == digest[i - |base| - 1];
      }
    }
  }

  // ---------------------------------------------------------------------
  // Ownership
  // ---------------------------------------------------------------------

  function ScopeOwners(r: Registry, path: string): set<Uid> {
    set s | s in r.scopes && r.scopes[s].path == Some(path) :: r.scopes[s].project
  }

  function AliasOwners(r: Registry, path: string): set<Uid> {
    set k | k in r.aliases && k.1 == PathAlias && k.2 == path :: k.0
  }

  function Owners(r: Registry, path: string): set<Uid> {
    ScopeOwners(r, path) + AliasOwners(r, path)
  }

  /** `_require_path_ownership_available`. */
  predicate Available(r: Registry, project: Uid, path: string) {
    Owners(r, path) <= {project}
  }

  predicate NameTaken(r: Registry, project: Uid, name: string) {
    exists s :: s in r.scopes && r.scopes[s].project == project && r.scopes[s].name == name
  }

  predicate HasRoot(r: Registry, project: Uid) {
    exists s :: s in r.scopes && r.scopes[s].project == project && r.scopes[s].path.Some?
  }

  ghost predicate Valid(r: Registry) {
    Unique(r) && References(r)
  }

  /** Each path belongs to at most one project; unique indexes hold; ids are issued. */
  ghost predicate Unique(r: Registry) {
    && OneOwner(r)
    && DistinctPaths(r)
    && (forall p, q :: p in r.slugs && q in r.slugs && r.slugs[p] == r.slugs[q] ==> p == q)
    && (forall p :: p in r.slugs ==> p < r.nextId)
    && (forall s :: s in r.scopes ==> s < r.nextId)
  }

  ghost predicate OneOwner(r: Registry) {
    forall path, p, q :: path != "" && p in Owners(r, path) && q in Owners(r, path) ==> p == q
  }

  /** Every scope and alias names a project. */
  ghost predicate References(r: Registry) {
    && (forall s :: s in r.scopes ==> r.scopes[s].project in r.slugs)
    && (forall k :: k in r.aliases ==> k.0 in r.slugs)
  }

  // ---------------------------------------------------------------------
  // Operations; each transaction either commits or leaves the tables as they were
  // ---------------------------------------------------------------------

  function AddProject(env: Env, r: Registry, slug: string, name: Option<string>): (Registry, Result<Uid, Failure>) {
    if !ValidSlug(slug) then (r, Err(InvalidSlug))
    else if slug in r.slugs.Values then (r, Err(Integrity))
    else
      var shown := if name.Some? && name.value != "" then name.value else slug;
      (r.(slugs := r.slugs[r.nextId := slug],
          aliases := r.aliases[(r.nextId, NameAlias, env.casefold(Strip(shown))) := shown],
          nextId := r.nextId + 1),
       Ok(r.nextId))
  }

  ghost function ScopeAt(r: Registry, path: string): Option<Uid> {
    if exists s :: s in r.scopes && r.scopes[s].path == Some(path)
    then Some(var s :| s in r.scopes && r.scopes[s].path == Some(path); s)
    else None
  }

  /** The insert: project and scope name, and the path, are unique. */
  function InsertScope(r: Registry, project: Uid, name: string, path: Option<string>): (Registry, Result<Uid, Failure>) {
    if project !in r.slugs || NameTaken(r, project, name) || (path.Some? && ScopeOwners(r, path.value) != {})
    then (r, Err(Integrity))
    else (r.(scopes := r.scopes[r.nextId := Scope(project, name, path)], nextId := r.nextId + 1), Ok(r.nextId))
  }

  ghost function AddScope(env: Env, r: Registry, project: Uid, name: string, path: Option<string>): (Registry, Result<Uid, Failure>) {
    if path == None || path == Some("") then InsertScope(r, project, name, None)
    else
      var owned := Owned(env, path.value);
      if !Available(r, project, owned) then (r, Err(OwnedElsewhere))
      else if ScopeOwners(r, owned) != {} then (r, Ok(ScopeAt(r, owned).value))
      else InsertScope(r, project, name, Some(owned))
  }

  function SetAlias(env: Env, r: Registry, project: Uid, kind: AliasKind, value: string): (Registry, Option<Failure>) {
    var normalized := Normalize(env, kind, value);
    if project !in r.slugs then (r, Some(NoProject))
    else if normalized == "" then (r, Some(EmptyAlias))
    else if kind == PathAlias && !Available(r, project, normalized) then (r, Some(OwnedElsewhere))
    else (r.(aliases := r.aliases[(project, kind, normalized) := value]), None)
  }

  /** `_register_project_identities`: the path alias, then the name alias. */
  function Register(env: Env, r: Registry, project: Uid, path: string): (Registry, Option<Failure>) {
    var (r1, failed) := SetAlias(env, r, project, PathAlias, path);
    if failed.Some? then (r1, failed) else SetAlias(env, r1, project, NameAlias, FileName(path))
  }

  datatype Resolved = Resolved(project: Uid, scope: Uid, created: bool)

  /** Create a scope for the path and, unless told otherwise, register the identities. */
  ghost function Attach(env: Env, r: Registry, project: Uid, name: string, path: string, register: bool, created: bool)
    : (Registry, Result<Resolved, Failure>)
  {
    var (r1, scope) := AddScope(env, r, project, name, Some(path));
    if scope.Err? then (r1, Err(scope.error))
    else if !register then (r1, Ok(Resolved(project, scope.value, created)))
    else
      var (r2, failed) := Register(env, r1, project, path);
      (r2, if failed.Some? then Err(failed.value) else Ok(Resolved(project, scope.value, created)))
  }

  ghost function WithSlug(r: Registry, slug: string): Option<Uid> {
    if exists p :: p in r.slugs && r.slugs[p] == slug then Some(var p :| p in r.slugs && r.slugs[p] == slug; p) else None
  }

  /** `resolve_project` on the canonical path. */
  ghost function Resolve(env: Env, r: Registry, path: string): (Registry, Result<Resolved, Failure>) {
    if ScopeAt(r, path).Some? then
      var s := ScopeAt(r, path).value;
      var (r1, failed) := Register(env, r, r.scopes[s].project, path);
      (r1, if failed.Some? then Err(failed.value) else Ok(Resolved(r.scopes[s].project, s, false)))
    else if |AliasOwners(r, path)| == 1 then
      var p :| p in AliasOwners(r, path);
      Attach(env, r, p, WorkspaceName(env, path), path, true, false)
    else ResolveBySlug(env, r, path)
  }

  /** A directory nobody owns: the project of its name if that has no directory yet, else
      a new one. */
  ghost function ResolveBySlug(env: Env, r: Registry, path: string): (Registry, Result<Resolved, Failure>) {
    var holder := WithSlug(r, BaseSlug(env, path));
    if holder.Some? && !HasRoot(r, holder.value) then
      Attach(env, r, holder.value, "__root__", path, false, false)
    else
      var (r1, project) := AddProject(env, r,
        if holder.Some? then DigestSlug(env, path) else BaseSlug(env, path), Some(FileName(path)));
      if project.Err? then (r1, Err(project.error))
      else Attach(env, r1, project.value, "__root__", path, true, true)
  }

  datatype Found = Ambiguous | Unknown | Known(project: Uid, scope: Option<Uid>)

  /** `find_project` on the canonical path. */
  ghost function Find(r: Registry, path: string): Found {
    var owners := Owners(r, path);
    if |owners| > 1 then Ambiguous
    else if owners == {} then Unknown
    else
      var p :| p in owners;
      Known(p, ScopeAt(r, path))
  }

  // ---------------------------------------------------------------------
  // One owner per path
  // ---------------------------------------------------------------------

  lemma {:induction false} ScopeAtIs(r: Registry, path: string, s: Uid)
    requires Valid(r) && s in r.scopes && r.scopes[s].path == Some(path)
    ensures ScopeAt(r, path) == Some(s)
    ensures ScopeOwners(r, path) == {r.scopes[s].project}
  {
    assert r.scopes[s].project in ScopeOwners(r, path);
  }

  lemma {:induction false} AddProjectValid(env: Env, r: Registry, slug: string, name: Option<string>)
    requires Valid(r)
    ensures Valid(AddProject(env, r, slug, name).0)
    ensures forall path :: Owners(AddProject(env, r, slug, name).0, path) == Owners(r, path)
  {
    var t := AddProject(env, r, slug, name).0;
    forall path ensures Owners(t, path) == Owners(r, path) {
      assert ScopeOwners(t, path) == ScopeOwners(r, path);
      assert AliasOwners(t, path) == AliasOwners(r, path) by {
        forall k | k in r.aliases ensures k in t.aliases {
        }
        forall k | k in t.aliases && k.1 == PathAlias ensures k in r.aliases {
        }
      }
    }
  }

  lemma {:induction false} ScopeAddedOwners(r: Registry, t: Registry, id: Uid, scope: Scope, path: string)
    requires id !in r.scopes && t.scopes == r.scopes[id := scope] && t.aliases == r.aliases
    ensures Owners(t, path) == Owners(r, path) + if scope.path == Some(path) then {scope.project} else {}
  {
    assert AliasOwners(t, path) == AliasOwners(r, path);
    forall s | s in r.scopes ensures s in t.scopes && t.scopes[s] == r.scopes[s] {
    }
    if scope.path == Some(path) {
      assert t.scopes[id].path == Some(path);
    }
  }

  ghost predicate DistinctPaths(r: Registry) {
    forall s, t :: s in r.scopes && t in r.scopes && r.scopes[s].path.Some? && r.scopes[s].path == r.scopes[t].path ==> s == t
  }

  lemma {:induction false} ScopeAddedKeeps(r: Registry, t: Registry, id: Uid, scope: Scope)
    requires OneOwner(r) && DistinctPaths(r)
    requires id !in r.scopes && t.scopes == r.scopes[id := scope] && t.aliases == r.aliases
    requires scope.path.Some? ==> ScopeOwners(r, scope.path.value) == {}
    requires scope.path.Some? && scope.path.value != "" ==> Available(r, scope.project, scope.path.value)
    ensures OneOwner(t) && DistinctPaths(t)
  {
    forall path ensures Owners(t, path) == Owners(r, path) + if scope.path == Some(path) then {scope.project} else {} {
      ScopeAddedOwners(r, t, id, scope, path);
    }
    forall s | s in r.scopes
      ensures scope.path.Some? && r.scopes[s].path == scope.path ==> r.scopes[s].project in ScopeOwners(r, scope.path.value)
    {
    }
  }

  lemma {:induction false} InsertScopeValid(r: Registry, project: Uid, name: string, path: Option<string>)
    requires Valid(r) && (path.Some? ==> Available(r, project, path.value))
    ensures Valid(InsertScope(r, project, name, path).0)
  {
    var (t, made) := InsertScope(r, project, name, path);
    if made.Ok? {
      ScopeAddedKeeps(r, t, r.nextId, Scope(project, name, path));
    }
  }

  lemma {:induction false} AddScopeValid(env: Env, r: Registry, project: Uid, name: string, path: Option<string>)
    requires Valid(r)
    ensures Valid(AddScope(env, r, project, name, path).0)
  {
    if path == None || path == Some("") {
      InsertScopeValid(r, project, name, None);
    } else if Available(r, project, Owned(env, path.value)) {
      InsertScopeValid(r, project, name, Some(Owned(env, path.value)));
    }
  }

  lemma {:induction false} AliasAddedOwners(r: Registry, t: Registry, key: (Uid, AliasKind, string), value: string, path: string)
    requires t.scopes == r.scopes && t.aliases == r.aliases[key := value]
    ensures Owners(t, path) == Owners(r, path) + if key.1 == PathAlias && key.2 == path then {key.0} else {}
  {
    assert ScopeOwners(t, path) == ScopeOwners(r, path);
    forall k | k in r.aliases ensures k in t.aliases {
    }
    assert key in t.aliases;
  }

  lemma {:induction false} AliasAddedOneOwner(r: Registry, t: Registry, key: (Uid, AliasKind, string), value: string)
    requires OneOwner(r) && t.scopes == r.scopes && t.aliases == r.aliases[key := value]
    requires key.1 == PathAlias ==> Available(r, key.0, key.2)
    ensures OneOwner(t)
  {
    var gained := if key.1 == PathAlias then Some(key.2) else None;
    forall path ensures Owners(t, path) == Owners(r, path) + if gained == Some(path) then {key.0} else {} {
      AliasAddedOwners(r, t, key, value, path);
    }
  }

  lemma {:induction false} SetAliasValid(env: Env, r: Registry, project: Uid, kind: AliasKind, value: string)
    requires Valid(r)
    ensures Valid(SetAlias(env, r, project, kind, value).0)
  {
    if SetAlias(env, r, project, kind, value).1.None? {
      AliasAddedOneOwner(r, SetAlias(env, r, project, kind, value).0, (project, kind, Normalize(env, kind, value)), value);
    }
  }

  lemma {:induction false} RegisterValid(env: Env, r: Registry, project: Uid, path: string)
    requires Valid(r)
    ensures Valid(Register(env, r, project, path).0)
  {
    SetAliasValid(env, r, project, PathAlias, path);
    SetAliasValid(env, SetAlias(env, r, project, PathAlias, path).0, project, NameAlias, FileName(path));
  }

  lemma {:induction false} AttachValid(env: Env, r: Registry, project: Uid, name: string, path: string, register: bool, created: bool)
    requires Valid(r)
    ensures Valid(Attach(env, r, project, name, path, register, created).0)
  {
    AddScopeValid(env, r, project, name, Some(path));
    RegisterValid(env, AddScope(env, r, project, name, Some(path)).0, project, path);
  }

  lemma {:induction false} ResolveValid(env: Env, r: Registry, path: string)
    requires Valid(r)
    ensures Valid(Resolve(env, r, path).0)
  {
    if ScopeAt(r, path).Some? {
      RegisterValid(env, r, r.scopes[ScopeAt(r, path).value].project, path);
    } else if |AliasOwners(r, path)| == 1 {
      var p :| p in AliasOwners(r, path);
      SingleElement(AliasOwners(r, path), p);
      AttachValid(env, r, p, WorkspaceName(env, path), path, true, false);
    } else {
      var holder := WithSlug(r, BaseSlug(env, path));
      if holder.Some? && !HasRoot(r, holder.value) {
        AttachValid(env, r, holder.value, "__root__", path, false, false);
      } else {
        var slug := if holder.Some? then DigestSlug(env, path) else BaseSlug(env, path);
        AddProjectValid(env, r, slug, Some(FileName(path)));
        var (r1, project) := AddProject(env, r, slug, Some(FileName(path)));
        if project.Ok? {
          AttachValid(env, r1, project.value, "__root__", path, true, true);
        }
      }
    }
  }

  lemma {:induction false} SingleElement<T>(s: set<T>, x: T)
    requires |s| == 1 && x in s
    ensures s == {x}
  {
    assert s == {x} + (s - {x});
  }

  // ---------------------------------------------------------------------
  // Import
  // ---------------------------------------------------------------------

  datatype Record =
    | ProjectRecord(id: Uid, slug: string)
    | ScopeRecord(id: Uid, scope: Scope)
    | AliasRecord(project: Uid, kind: AliasKind, value: string, normalized: string)

  /** Later ids are not ones an import brought in. */
  function Past(nextId: Uid, id: Uid): Uid {
    if id < nextId then nextId else id + 1
  }

  /** One imported row; a stored path is canonicalised again and must be unowned. */
  function ImportRecord(env: Env, r: Registry, record: Record): Option<Registry> {
    match record
    case ProjectRecord(id, slug) =>
      if id in r.slugs || slug in r.slugs.Values then None
      else Some(r.(slugs := r.slugs[id := slug], nextId := Past(r.nextId, id)))
    case ScopeRecord(id, scope) =>
      var given := scope.path.Some? && scope.path.value != "";
      var path := if given then Some(Owned(env, scope.path.value)) else scope.path;
      if id in r.scopes || NameTaken(r, scope.project, scope.name)
        || (given && !Available(r, scope.project, path.value)) || (path.Some? && ScopeOwners(r, path.value) != {})
      then None
      else Some(r.(scopes := r.scopes[id := scope.(path := path)], nextId := Past(r.nextId, id)))
    case AliasRecord(project, kind, value, normalized) =>
      var key := (project, kind, if kind == PathAlias then Owned(env, value) else normalized);
      if key in r.aliases || (kind == PathAlias && !Available(r, project, key.2)) then None
      else Some(r.(aliases := r.aliases[key := value]))
  }

  function ImportRecords(env: Env, r: Registry, records: seq<Record>): Option<Registry>
    decreases |records|
  {
    if records == [] then Some(r)
    else
      var next := ImportRecord(env, r, records[0]);
      if next.None? then None else ImportRecords(env, next.value, records[1..])
  }

  /** The import transaction: references are checked at commit, and anything that
      fails undoes it. */
  ghost function Import(env: Env, r: Registry, records: seq<Record>): Registry {
    var done := ImportRecords(env, r, records);
    if done.Some? && References(done.value) then done.value else r
  }

  lemma {:induction false} ImportRecordUnique(env: Env, r: Registry, record: Record)
    requires Unique(r) && ImportRecord(env, r, record).Some?
    ensures Unique(ImportRecord(env, r, record).value)
  {
    var t := ImportRecord(env, r, record).value;
    match record {
      case ProjectRecord(id, slug) =>
        forall path ensures Owners(t, path) == Owners(r, path) {
        }
      case ScopeRecord(id, scope) =>
        ScopeAddedKeeps(r, t, id, t.scopes[id]);
      case AliasRecord(project, kind, value, normalized) =>
        AliasAddedOneOwner(r, t, (project, kind, if kind == PathAlias then Owned(env, value) else normalized), value);
    }
  }

  lemma {:induction false} ImportRecordsUnique(env: Env, r: Registry, records: seq<Record>)
    requires Unique(r)
    ensures ImportRecords(env, r, records).Some? ==> Unique(ImportRecords(env, r, records).value)
    decreases |records|
  {
    if records != [] && ImportRecord(env, r, records[0]).Some? {
      ImportRecordUnique(env, r, records[0]);
      ImportRecordsUnique(env, ImportRecord(env, r, records[0]).value, records[1..]);
    }
  }

  // ---------------------------------------------------------------------
  // Runs
  // ---------------------------------------------------------------------

  datatype Action =
    | NewProject(slug: string, shown: Option<string>)
    | NewScope(project: Uid, name: string, path: Option<string>)
    | NewAlias(project: Uid, kind: AliasKind, value: string)
    | ResolveAt(cwd: string)
    | ImportBundle(records: seq<Record>)

  ghost function Step(env: Env, r: Registry, a: Action): Registry {
    match a
    case NewProject(slug, shown) => AddProject(env, r, slug, shown).0
    case NewScope(project, name, path) => AddScope(env, r, project, name, path).0
    case NewAlias(project, kind, value) => SetAlias(env, r, project, kind, value).0
    case ResolveAt(cwd) => Resolve(env, r, env.canon(cwd)).0
    case ImportBundle(records) => Import(env, r, records)
  }

  ghost function Run(env: Env, actions: seq<Action>): Registry {
    if actions == [] then Registry(map[], map[], map[], 0)
    else Step(env, Run(env, actions[..|actions| - 1]), actions[|actions| - 1])
  }

  lemma {:induction false} RunKeepsValid(env: Env, actions: seq<Action>)
    ensures Valid(Run(env, actions))
  {
    if actions != [] {
      var r := Run(env, actions[..|actions| - 1]);
      RunKeepsValid(env, actions[..|actions| - 1]);
      match actions[|actions| - 1] {
        case NewProject(slug, shown) => AddProjectValid(env, r, slug, shown);
        case NewScope(project, name, path) => AddScopeValid(env, r, project, name, path);
        case NewAlias(project, kind, value) => SetAliasValid(env, r, project, kind, value);
        case ResolveAt(cwd) => ResolveValid(env, r, env.canon(cwd));
        case ImportBundle(records) => ImportRecordsUnique(env, r, records);
      }
    }
  }

  lemma {:induction false} FindOwner(r: Registry, path: string, p: Uid)
    requires Valid(r) && path != "" && p in Owners(r, path)
    ensures Find(r, path) == Known(p, ScopeAt(r, path))
  {
    assert Owners(r, path) == {p};
  }

  /** After any run no directory is claimed by two projects: a lookup is never ambiguous,
      and it answers with a project exactly when one owns the path. */
  lemma {:induction false} FindNeverAmbiguous(env: Env, actions: seq<Action>, path: string)
    requires path != ""
    ensures Find(Run(env, actions), path) != Ambiguous
    ensures forall p :: p in Owners(Run(env, actions), path) <==>
      Find(Run(env, actions), path) == Known(p, ScopeAt(Run(env, actions), path))
  {
    RunKeepsValid(env, actions);
    var r := Run(env, actions);
    if p :| p in Owners(r, path) {
      FindOwner(r, path, p);
    }
  }

  // ---------------------------------------------------------------------
  // Resolving a directory twice
  // ---------------------------------------------------------------------

  /** What a caller relies on after `resolve_project` returned: the read-only lookup and a
      second call give the same project and scope, and nothing more is created. */
  ghost predicate Settled(env: Env, t: Registry, first: Result<Resolved, Failure>, path: string) {
    && first.Ok?
    && Find(t, path) == Known(first.value.project, Some(first.value.scope))
    && var (u, second) := Resolve(env, t, path);
       && second == Ok(first.value.(created := false))
       && u.slugs == t.slugs && u.scopes == t.scopes
  }

  predicate Named(env: Env, path: string) {
    env.casefold(Strip(FileName(path))) != ""
  }

  ghost predicate Rooted(env: Env) {
    forall value :: env.canon(value) != ""
  }

  lemma {:induction false} RegisterOutcome(env: Env, r: Registry, project: Uid, path: string)
    requires Rooted(env) && project in r.slugs
    ensures var (t, failed) := Register(env, r, project, path);
      && (failed.None? <==> Named(env, path) && Available(r, project, Owned(env, path)))
      && t.scopes == r.scopes && t.slugs == r.slugs
      && (failed.None? ==> Available(t, project, Owned(env, path)))
  {
    var (r1, failed) := SetAlias(env, r, project, PathAlias, path);
    if failed.None? {
      var q := Owned(env, path);
      AliasAddedOwners(r, r1, (project, PathAlias, q), path, q);
      var (r2, refused) := SetAlias(env, r1, project, NameAlias, FileName(path));
      if refused.None? {
        AliasAddedOwners(r1, r2, (project, NameAlias, Normalize(env, NameAlias, FileName(path))), FileName(path), q);
      }
    }
  }

  /** A directory that is itself a scope settles exactly when its identities register. */
  lemma {:induction false} ScopeSettles(env: Env, t: Registry, s: Uid, created: bool, path: string)
    requires Rooted(env) && Valid(t) && path != ""
    requires s in t.scopes && t.scopes[s].path == Some(path)
    ensures Settled(env, t, Ok(Resolved(t.scopes[s].project, s, created)), path) <==>
      Named(env, path) && Available(t, t.scopes[s].project, Owned(env, path))
  {
    ScopeAtIs(t, path, s);
    FindOwner(t, path, t.scopes[s].project);
    RegisterOutcome(env, t, t.scopes[s].project, path);
  }

  lemma {:induction false} KnownScopeSettles(env: Env, r: Registry, s: Uid, path: string)
    requires Rooted(env) && Valid(r) && path != ""
    requires s in r.scopes && r.scopes[s].path == Some(path)
    ensures var (t, first) := Resolve(env, r, path);
      Settled(env, t, first, path) <==> Named(env, path) && Available(r, r.scopes[s].project, Owned(env, path))
  {
    var project := r.scopes[s].project;
    ScopeAtIs(r, path, s);
    RegisterOutcome(env, r, project, path);
    RegisterValid(env, r, project, path);
    ScopeSettles(env, Register(env, r, project, path).0, s, false, path);
  }

  /** The new scope has the path itself. */
  lemma {:induction false} AttachHere(env: Env, r: Registry, project: Uid, name: string, path: string, register: bool, created: bool)
    requires Rooted(env) && Valid(r) && path != "" && project in r.slugs && Owned(env, path) == path
    requires ScopeOwners(r, path) == {} && Available(r, project, path) && !NameTaken(r, project, name)
    ensures var (t, first) := Attach(env, r, project, name, path, register, created);
      Settled(env, t, first, path) <==> Named(env, path)
  {
    var (r1, scope) := AddScope(env, r, project, name, Some(path));
    AddScopeValid(env, r, project, name, Some(path));
    ScopeAddedOwners(r, r1, r.nextId, Scope(project, name, Some(path)), path);
    RegisterOutcome(env, r1, project, path);
    RegisterValid(env, r1, project, path);
    var (t, first) := Attach(env, r, project, name, path, register, created);
    assert t.scopes == r1.scopes;
    ScopeSettles(env, t, r.nextId, created, path);
  }

  /** No scope has the path yet and only `project` may own it. */
  lemma {:induction false} AttachSettles(env: Env, r: Registry, project: Uid, name: string, path: string, register: bool, created: bool)
    requires Rooted(env) && Valid(r) && path != "" && project in r.slugs
    requires ScopeOwners(r, path) == {} && Available(r, project, path)
    ensures var (t, first) := Attach(env, r, project, name, path, register, created);
      Settled(env, t, first, path) <==> Owned(env, path) == path && Named(env, path) && !NameTaken(r, project, name)
  {
    if Owned(env, path) != path {
      var r1 := AddScope(env, r, project, name, Some(path)).0;
      NoScopeElsewhere(env, r, project, name, path);
      RegisterOutcome(env, r1, project, path);
      var t := Attach(env, r, project, name, path, register, created).0;
      assert t.scopes == r1.scopes;
      assert ScopeAt(t, path) == None;
    } else if !NameTaken(r, project, name) {
      AttachHere(env, r, project, name, path, register, created);
    }
  }

  lemma {:induction false} NoScopeElsewhere(env: Env, r: Registry, project: Uid, name: string, path: string)
    requires Valid(r) && Owned(env, path) != path && ScopeOwners(r, path) == {}
    ensures ScopeAt(AddScope(env, r, project, name, Some(path)).0, path) == None
  {
    var t := AddScope(env, r, project, name, Some(path)).0;
    forall s | s in t.scopes ensures t.scopes[s].path == Some(path) ==> s in r.scopes && r.scopes[s].project in ScopeOwners(r, path) {
    }
  }

  /** What has to hold before the call. */
  ghost predicate Resolvable(env: Env, r: Registry, path: string) {
    && Named(env, path)
    && if ScopeAt(r, path).Some? then Available(r, r.scopes[ScopeAt(r, path).value].project, Owned(env, path))
       else
         && Owned(env, path) == path
         && if AliasOwners(r, path) != {} then
              forall p :: p in AliasOwners(r, path) ==> !NameTaken(r, p, WorkspaceName(env, path))
            else
              var holder := WithSlug(r, BaseSlug(env, path));
              if holder.None? then true
              else if HasRoot(r, holder.value) then DigestSlug(env, path) !in r.slugs.Values
              else !NameTaken(r, holder.value, "__root__")
  }

  /** Resolving a directory settles it exactly when: its last component is not blank; a
      registered directory's stripped form belongs to nobody else; an unregistered one has no
      trailing blanks to strip; and the scope name or slug to be used is free. */
  lemma {:induction false} ResolveSettles(env: Env, r: Registry, path: string)
    requires Rooted(env) && Valid(r) && path != "" && HexDigest(env.digest8(path), 8)
    ensures var (t, first) := Resolve(env, r, path);
      Settled(env, t, first, path) <==> Resolvable(env, r, path)
  {
    var owners := AliasOwners(r, path);
    if ScopeAt(r, path).Some? {
      KnownScopeSettles(env, r, ScopeAt(r, path).value, path);
    } else {
      assert ScopeOwners(r, path) == {};
      if owners != {} {
        var p :| p in owners;
        assert p in Owners(r, path);
        assert owners <= Owners(r, path);
        assert owners == {p};
        AttachSettles(env, r, p, WorkspaceName(env, path), path, true, false);
      } else {
        var holder := WithSlug(r, BaseSlug(env, path));
        if holder.Some? && !HasRoot(r, holder.value) {
          AttachSettles(env, r, holder.value, "__root__", path, false, false);
        } else {
          NewProjectSettles(env, r, path, if holder.Some? then DigestSlug(env, path) else BaseSlug(env, path));
        }
      }
    }
  }

  lemma {:induction false} NewProjectSettles(env: Env, r: Registry, path: string, slug: string)
    requires Rooted(env) && Valid(r) && path != "" && HexDigest(env.digest8(path), 8)
    requires Owners(r, path) == {} && slug in {BaseSlug(env, path), DigestSlug(env, path)}
    ensures var (r1, project) := AddProject(env, r, slug, Some(FileName(path)));
      && (project.Ok? <==> slug !in r.slugs.Values)
      && (project.Ok? ==>
            var (t, first) := Attach(env, r1, project.value, "__root__", path, true, true);
            Settled(env, t, first, path) <==> Owned(env, path) == path && Named(env, path))
  {
    GeneratedSlugsValid(env, path);
    AddProjectValid(env, r, slug, Some(FileName(path)));
    var (r1, project) := AddProject(env, r, slug, Some(FileName(path)));
    if project.Ok? {
      assert Owners(r1, path) == {};
      AttachSettles(env, r1, project.value, "__root__", path, true, true);
    }
  }

  /** The failing families. A directory without a name, such as the root: the call creates
      a project and its scope and then raises ... */
  lemma {:induction false} NamelessDirectoryFails(env: Env, r: Registry, path: string)
    requires Rooted(env) && Valid(r) && path != "" && Owners(r, path) == {} && HexDigest(env.digest8(path), 8)
    requires Owned(env, path) == path && !Named(env, path)
    requires BaseSlug(env, path) !in r.slugs.Values
    ensures var (t, first) := Resolve(env, r, path);
      && first == Err(EmptyAlias)
      && t.slugs == r.slugs[r.nextId := BaseSlug(env, path)]
      && t.scopes == r.scopes[r.nextId + 1 := Scope(r.nextId, "__root__", Some(path))]
  {
    var slug := BaseSlug(env, path);
    GeneratedSlugsValid(env, path);
    AddProjectValid(env, r, slug, Some(FileName(path)));
    NothingKnown(r, path, slug);
    var r1 := AddProject(env, r, slug, Some(FileName(path))).0;
    assert Owners(r1, path) == {};
    AttachNameless(env, r1, r.nextId, path);
  }

  lemma {:induction false} AttachNameless(env: Env, r: Registry, project: Uid, path: string)
    requires Rooted(env) && Valid(r) && path != "" && project in r.slugs && Owners(r, path) == {}
    requires Owned(env, path) == path && !Named(env, path) && !NameTaken(r, project, "__root__")
    ensures var (t, first) := Attach(env, r, project, "__root__", path, true, true);
      && first == Err(EmptyAlias) && t.slugs == r.slugs
      && t.scopes == r.scopes[r.nextId := Scope(project, "__root__", Some(path))]
  {
    var r2 := AddScope(env, r, project, "__root__", Some(path)).0;
    ScopeAddedOwners(r, r2, r.nextId, Scope(project, "__root__", Some(path)), path);
  }

  /** ... and a directory whose name ends in blanks, next to a registered one without them:
      the call raises and leaves behind a project that owns nothing. */
  lemma {:induction false} TrailingBlankStrandsProject(env: Env, r: Registry, path: string)
    requires Valid(r) && path != "" && Owners(r, path) == {} && HexDigest(env.digest8(path), 8)
    requires Owners(r, Owned(env, path)) != {}
    requires BaseSlug(env, path) !in r.slugs.Values
    ensures var (t, first) := Resolve(env, r, path);
      first == Err(OwnedElsewhere) && t.slugs == r.slugs[r.nextId := BaseSlug(env, path)] && t.scopes == r.scopes
  {
    var slug := BaseSlug(env, path);
    GeneratedSlugsValid(env, path);
    AddProjectValid(env, r, slug, Some(FileName(path)));
    NothingKnown(r, path, slug);
    var r1 := AddProject(env, r, slug, Some(FileName(path))).0;
    assert !Available(r1, r.nextId, Owned(env, path));
    assert Attach(env, r1, r.nextId, "__root__", path, true, true) == (r1, Err(OwnedElsewhere));
  }

  lemma {:induction false} NothingKnown(r: Registry, path: string, slug: string)
    requires Owners(r, path) == {} && slug !in r.slugs.Values
    ensures ScopeAt(r, path) == None && AliasOwners(r, path) == {} && WithSlug(r, slug) == None
  {
    forall s | s in r.scopes ensures r.scopes[s].path == Some(path) ==> r.scopes[s].project in Owners(r, path) {
    }
    assert AliasOwners(r, path) <= Owners(r, path);
  }

  // ---------------------------------------------------------------------
  // The repository
  // ---------------------------------------------------------------------

  class ProjectRegistry {
    const env: Env
    var slugs: map<Uid, string>
    var scopes: map<Uid, Scope>
    var aliases: map<(Uid, AliasKind, string), string>
    var nextId: Uid

    ghost function View(): Registry
      reads this
    {
      Registry(slugs, scopes, aliases, nextId)
    }

    constructor (env: Env)
      ensures this.env == env && View() == Registry(map[], map[], map[], 0) && Valid(View())
    {
      this.env := env;
      slugs, scopes, aliases, nextId := map[], map[], map[], 0;
    }

    method CreateProject(slug: string, name: Option<string>) returns (r: Result<Uid, Failure>)
      requires Valid(View())
      modifies this
      ensures (View(), r) == AddProject(env, old(View()), slug, name)
      ensures Valid(View())
    {
      AddProjectValid(env, View(), slug, name);
      if !ValidSlug(slug) {
        return Err(InvalidSlug);
      }
      if slug in slugs.Values {
        return Err(Integrity);
      }
      var shown := if name.Some? && name.value != "" then name.value else slug;
      slugs := slugs[nextId := slug];
      aliases := aliases[(nextId, NameAlias, Normalize(env, NameAlias, shown)) := shown];
      r := Ok(nextId);
      nextId := nextId + 1;
    }

    method ScopeWithPath(path: string) returns (found: Option<Uid>)
      requires Valid(View())
      ensures found == ScopeAt(View(), path)
    {
      if s :| s in scopes && scopes[s].path == Some(path) {
        ScopeAtIs(View(), path, s);
        return Some(s);
      }
      found := None;
    }

    method OwnersOf(path: string) returns (owners: set<Uid>)
      ensures owners == Owners(View(), path)
    {
      owners := (set s | s in scopes && scopes[s].path == Some(path) :: scopes[s].project)
        + (set k | k in aliases && k.1 == PathAlias && k.2 == path :: k.0);
    }

    method CreateScope(project: Uid, name: string, path: Option<string>) returns (r: Result<Uid, Failure>)
      requires Valid(View())
      modifies this`scopes, this`nextId
      ensures (View(), r) == AddScope(env, old(View()), project, name, path)
      ensures Valid(View())
    {
      AddScopeValid(env, View(), project, name, path);
      var stored := None;
      if path.Some? && path.value != "" {
        stored := Some(Owned(env, path.value));
        var owners := OwnersOf(stored.value);
        if !(owners <= {project}) {
          return Err(OwnedElsewhere);
        }
        var existing := ScopeWithPath(stored.value);
        if existing.Some? {
          assert scopes[existing.value].project in ScopeOwners(View(), stored.value);
          return Ok(existing.value);
        }
      }
      if project !in slugs || exists s :: s in scopes && scopes[s].project == project && scopes[s].name == name {
        return Err(Integrity);
      }
      scopes := scopes[nextId := Scope(project, name, stored)];
      r := Ok(nextId);
      nextId := nextId + 1;
    }

    /** An unchanged alias is not rewritten. */
    method SetProjectAlias(project: Uid, kind: AliasKind, value: string) returns (failed: Option<Failure>)
      requires Valid(View())
      modifies this`aliases
      ensures (View(), failed) == SetAlias(env, old(View()), project, kind, value)
      ensures Valid(View())
    {
      SetAliasValid(env, View(), project, kind, value);
      if project !in slugs {
        return Some(NoProject);
      }
      var normalized := Normalize(env, kind, value);
      if normalized == "" {
        return Some(EmptyAlias);
      }
      if kind == PathAlias {
        var owners := OwnersOf(normalized);
        if !(owners <= {project}) {
          return Some(OwnedElsewhere);
        }
      }
      var key := (project, kind, normalized);
      if key in aliases && aliases[key] == value {
        assert aliases[key := value] == aliases;
        return None;
      }
      aliases := aliases[key := value];
      failed := None;
    }

    method RegisterIdentities(project: Uid, path: string) returns (failed: Option<Failure>)
      requires Valid(View())
      modifies this`aliases
      ensures (View(), failed) == Register(env, old(View()), project, path)
      ensures Valid(View())
    {
      failed := SetProjectAlias(project, PathAlias, path);
      if failed.None? {
        failed := SetProjectAlias(project, NameAlias, FileName(path));
      }
    }

    method AttachScope(project: Uid, name: string, path: string, register: bool, created: bool) returns (r: Result<Resolved, Failure>)
      requires Valid(View())
      modifies this
      ensures (View(), r) == Attach(env, old(View()), project, name, path, register, created)
      ensures Valid(View())
    {
      var scope := CreateScope(project, name, Some(path));
      if scope.Err? {
        return Err(scope.error);
      }
      if register {
        var failed := RegisterIdentities(project, path);
        if failed.Some? {
          return Err(failed.value);
        }
      }
      r := Ok(Resolved(project, scope.value, created));
    }

    /** Several transactions in turn: a call that raises keeps what they committed. */
    method ResolveProject(cwd: string) returns (r: Result<Resolved, Failure>)
      requires Valid(View())
      modifies this
      ensures (View(), r) == Resolve(env, old(View()), env.canon(cwd))
      ensures Valid(View())
    {
      var path := env.canon(cwd);
      var known := ScopeWithPath(path);
      if known.Some? {
        var project := scopes[known.value].project;
        var failed := RegisterIdentities(project, path);
        return if failed.Some? then Err(failed.value) else Ok(Resolved(project, known.value, false));
      }
      var matches := set k | k in aliases && k.1 == PathAlias && k.2 == path :: k.0;
      if |matches| == 1 {
        var project :| project in matches;
        SingleElement(matches, project);
        r := AttachScope(project, WorkspaceName(env, path), path, true, false);
        return;
      }
      r := RegisterDirectory(path);
    }

    method RegisterDirectory(path: string) returns (r: Result<Resolved, Failure>)
      requires Valid(View())
      modifies this
      ensures (View(), r) == ResolveBySlug(env, old(View()), path)
      ensures Valid(View())
    {
      var slug := BaseSlug(env, path);
      if holder :| holder in slugs && slugs[holder] == slug {
        if !(exists s :: s in scopes && scopes[s].project == holder && scopes[s].path.Some?) {
          r := AttachScope(holder, "__root__", path, false, false);
          return;
        }
        slug := DigestSlug(env, path);
      }
      var made := CreateProject(slug, Some(FileName(path)));
      if made.Err? {
        return Err(made.error);
      }
      r := AttachScope(made.value, "__root__", path, true, true);
    }

    method FindProject(cwd: string) returns (found: Found)
      requires Valid(View())
      ensures found == Find(View(), env.canon(cwd))
    {
      var path := env.canon(cwd);
      var owners := OwnersOf(path);
      if |owners| > 1 {
        return Ambiguous;
      }
      if owners == {} {
        return Unknown;
      }
      var project :| project in owners;
      SingleElement(owners, project);
      var scope := ScopeWithPath(path);
      found := Known(project, scope);
    }
  }
}
