/** Discovery profiles with their version log (backend/api/routes_discovery_profiles.py).

    Every accepted change appends a snapshot; restore copies an old snapshot back as a new one.
    The table of snapshots has a unique constraint on (profile, version)
    (backend/models/database.py:5112), so a commit that would reuse a version number fails and
    leaves both tables as they were; what the handler did to the loader before stays done. */
module ProfileVersions {
  import opened Options
  import Slug

  type Json = map<string, string>

  /** What a snapshot preserves. */
  datatype Content = Content(
    name: string, description: Option<string>, code: string, className: Option<string>,
    config: Json, schema: Json, kind: string)

  datatype Status = Unloaded | Loaded | Failed(message: string)

  datatype Row = Row(slug: string, content: Content, isSystem: bool, enabled: bool, active: bool, status: Status, version: int)

  datatype Snapshot = Snapshot(version: int, latest: bool, content: Content, enabled: bool, parent: Option<int>)

  /** A profile's row and its snapshots in the order they were added. */
  datatype Profile = Profile(row: Row, log: seq<Snapshot>)

  datatype Validation = Validation(valid: bool, className: Option<string>)

  /** A field that is None is left as it is. */
  datatype EditRequest = EditRequest(
    name: Option<string>, description: Option<string>, code: Option<string>,
    config: Option<Json>, schema: Option<Json>, enabled: Option<bool>, kind: Option<string>)

  function OrPython(kind: string): string { if kind == "" then "python" else kind }

  // ----- The log -----------------------------------------------------------------------------------

  function ClearLatest(log: seq<Snapshot>): (r: seq<Snapshot>)
    ensures |r| == |log| && forall i :: 0 <= i < |log| ==> r[i] == log[i].(latest := false)
  {
    seq(|log|, i requires 0 <= i < |log| => log[i].(latest := false))
  }

  /** The commit: refused when the version number is taken. */
  function Commit(row: Row, log: seq<Snapshot>, parent: int): Option<Profile> {
    if exists s <- log :: s.version == row.version then None
    else Some(Profile(row, ClearLatest(log) + [Snapshot(row.version, true, row.content, row.enabled, Some(parent))]))
  }

  /** Versions are 1, 2, 3, ... without gaps; the last snapshot alone is latest and is the row;
      every other snapshot is the parent of the next. */
  ghost predicate History(p: Profile) {
    && p.log != [] && p.row.version == |p.log|
    && (forall i :: 0 <= i < |p.log| ==>
          && p.log[i].version == i + 1
          && (p.log[i].latest <==> i == |p.log| - 1)
          && p.log[i].parent == (if i == 0 then None else Some(i)))
    && p.log[|p.log| - 1].content == p.row.content
    && p.log[|p.log| - 1].enabled == p.row.enabled
  }

  /** Earlier snapshots keep everything but the latest flag. */
  predicate Extends(later: seq<Snapshot>, earlier: seq<Snapshot>) {
    |earlier| <= |later| &&
    forall i :: 0 <= i < |earlier| ==> later[i].(latest := false) == earlier[i].(latest := false)
  }

  lemma CommitIff(p: Profile, row: Row)
    requires History(p) && row.version >= 1
    ensures Commit(row, p.log, p.row.version).Some? <==> row.version > p.row.version
  {
    if row.version <= p.row.version {
      assert p.log[row.version - 1] in p.log;
    }
  }

  lemma CommitKeeps(p: Profile, row: Row)
    requires History(p) && row.version == p.row.version + 1
    ensures var q := Commit(row, p.log, p.row.version);
            q.Some? && History(q.value) && q.value.row == row && Extends(q.value.log, p.log)
  {}

  // ----- Update -----------------------------------------------------------------------------------------

  predicate CodeChanges(row: Row, req: EditRequest) {
    req.code.Some? && req.code.value != row.content.code
  }

  /** Changes the loader must hear about. */
  predicate NeedsReload(row: Row, req: EditRequest) {
    || CodeChanges(row, req)
    || (req.config.Some? && req.config.value != row.content.config)
    || (req.enabled.Some? && req.enabled.value != row.enabled)
  }

  predicate NeedsSnapshot(row: Row, req: EditRequest) {
    NeedsReload(row, req) || req.schema.Some? || req.name.Some? || req.description.Some? || req.kind.Some?
  }

  /** The kind the new code is checked as: an empty one in the request counts as not given. */
  function CheckedKind(kind: string, req: EditRequest): string {
    if req.kind.Some? && req.kind.value != "" then req.kind.value else kind
  }

  predicate Rejected(row: Row, req: EditRequest, validate: string -> Validation) {
    CodeChanges(row, req) && CheckedKind(row.content.kind, req) == "python" && !validate(req.code.value).valid
  }

  /** The row an accepted request asks for; the version moves only with the code. */
  function Edited(row: Row, req: EditRequest, validate: string -> Validation): Row {
    var c := row.content;
    var className := if CodeChanges(row, req) && CheckedKind(row.content.kind, req) == "python"
                     then validate(req.code.value).className else c.className;
    row.(content := Content(OrElse(req.name, c.name),
                            if req.description.Some? then req.description else c.description,
                            OrElse(req.code, c.code), className,
                            OrElse(req.config, c.config), OrElse(req.schema, c.schema), OrElse(req.kind, c.kind)),
         enabled := OrElse(req.enabled, row.enabled),
         version := if CodeChanges(row, req) then row.version + 1 else row.version)
  }

  /** Field by field: what was asked for is there, what was not is as before; the class is what
      validation finds in new Python code; only the slug, the flags and the status are no
      business of the request. */
  ghost predicate AsRequested(row: Row, was: Row, req: EditRequest, validate: string -> Validation) {
    var c, o := row.content, was.content;
    && c.name == (if req.name.Some? then req.name.value else o.name)
    && c.description == (if req.description.Some? then req.description else o.description)
    && c.code == (if req.code.Some? then req.code.value else o.code)
    && c.config == (if req.config.Some? then req.config.value else o.config)
    && c.schema == (if req.schema.Some? then req.schema.value else o.schema)
    && c.kind == (if req.kind.Some? then req.kind.value else o.kind)
    && row.enabled == (if req.enabled.Some? then req.enabled.value else was.enabled)
    && row.slug == was.slug && row.isSystem == was.isSystem && row.active == was.active
    && (var kind := if req.kind.None? || req.kind.value == "" then o.kind else req.kind.value;
        c.className == if c.code != o.code && kind == "python" then validate(c.code).className else o.className)
  }

  lemma EditedMeans(row: Row, req: EditRequest, validate: string -> Validation)
    ensures AsRequested(Edited(row, req, validate), row, req, validate)
  {}

  /** The request asks for something: a name, description, schema or kind is given, or a config
      or enabled flag that differs. */
  ghost predicate AsksMore(row: Row, req: EditRequest) {
    || req.name.Some? || req.description.Some? || req.schema.Some? || req.kind.Some?
    || (req.config.Some? && req.config.value != row.content.config)
    || (req.enabled.Some? && req.enabled.value != row.enabled)
  }

  /** New code that is to be Python and is not valid. */
  ghost predicate AsksInvalidCode(row: Row, req: EditRequest, validate: string -> Validation) {
    && req.code.Some? && req.code.value != row.content.code && !validate(req.code.value).valid
    && (if req.kind.None? || req.kind.value == "" then row.content.kind else req.kind.value) == "python"
  }

  datatype EditResult = BadCode | Conflict | Unchanged | Committed(profile: Profile)

  function Edit(p: Profile, req: EditRequest, validate: string -> Validation): EditResult {
    if Rejected(p.row, req, validate) then BadCode
    else if !NeedsSnapshot(p.row, req) then Unchanged
    else
      var q := Commit(Edited(p.row, req, validate), p.log, p.row.version);
      if q.None? then Conflict else Committed(q.value)
  }

  /** An update is accepted exactly when it changes the code: renaming, reconfiguring, enabling
      or disabling alone reuses the current version number and is always refused. */
  lemma EditCommitsIff(p: Profile, req: EditRequest, validate: string -> Validation)
    requires History(p)
    ensures Edit(p, req, validate).Committed? <==> CodeChanges(p.row, req) && !Rejected(p.row, req, validate)
    ensures Edit(p, req, validate).Conflict? <==> NeedsSnapshot(p.row, req) && !CodeChanges(p.row, req)
    ensures CodeChanges(p.row, req) <==> req.code.Some? && req.code.value != p.row.content.code
    ensures Rejected(p.row, req, validate) <==> AsksInvalidCode(p.row, req, validate)
    ensures NeedsSnapshot(p.row, req) <==> CodeChanges(p.row, req) || AsksMore(p.row, req)
    ensures Edit(p, req, validate).Committed? ==>
              var q := Edit(p, req, validate).profile;
              && History(q) && Extends(q.log, p.log) && q.row == Edited(p.row, req, validate)
              && AsRequested(q.row, p.row, req, validate) && q.row.version == p.row.version + 1
  {
    CommitIff(p, Edited(p.row, req, validate));
    if CodeChanges(p.row, req) {
      CommitKeeps(p, Edited(p.row, req, validate));
    }
  }

  // ----- Restore -------------------------------------------------------------------------------------------

  function Find(log: seq<Snapshot>, version: int): Option<Snapshot> {
    if log == [] then None
    else if log[|log| - 1].version == version then Some(log[|log| - 1])
    else Find(log[..|log| - 1], version)
  }

  /** An empty kind comes back as "python". */
  function Normal(c: Content): Content { c.(kind := OrPython(c.kind)) }

  function Restored(row: Row, s: Snapshot): Row {
    row.(content := Normal(s.content), version := row.version + 1)
  }

  function Restore(p: Profile, version: int): Option<Profile> {
    var s := Find(p.log, version);
    if s.None? then None else Commit(Restored(p.row, s.value), p.log, p.row.version)
  }

  lemma {:induction false} FindIs(log: seq<Snapshot>, n: nat, version: int)
    requires n <= |log| && forall i :: 0 <= i < n ==> log[i].version == i + 1
    ensures Find(log[..n], version).Some? <==> 1 <= version <= n
    ensures 1 <= version <= n ==> Find(log[..n], version) == Some(log[version - 1])
  {
    if n > 0 {
      assert log[..n][..n - 1] == log[..n - 1];
      FindIs(log, n - 1, version);
    }
  }

  /** The content of the snapshot, with "python" for an empty kind. */
  lemma NormalMeans(c: Content)
    ensures Normal(c) == Content(c.name, c.description, c.code, c.className, c.config, c.schema,
                                 if c.kind == "" then "python" else c.kind)
  {}

  /** Restore succeeds for exactly the versions 1 to the current one and appends that content. */
  lemma RestoreWorks(p: Profile, version: int)
    requires History(p)
    ensures Restore(p, version).Some? <==> 1 <= version <= p.row.version
    ensures 1 <= version <= p.row.version ==>
              var q := Restore(p, version).value;
              && History(q) && Extends(q.log, p.log)
              && q.row == p.row.(content := Normal(p.log[version - 1].content), version := p.row.version + 1)
  {
    assert p.log[..|p.log|] == p.log;
    FindIs(p.log, |p.log|, version);
    if 1 <= version <= p.row.version {
      CommitKeeps(p, Restored(p.row, p.log[version - 1]));
    }
  }

  // ----- Every run ---------------------------------------------------------------------------------------------

  datatype Op = DoEdit(req: EditRequest) | DoRestore(version: int)

  /** A refused operation leaves the profile as it was. */
  function Apply(p: Profile, op: Op, validate: string -> Validation): Profile {
    match op
    case DoEdit(req) =>
      var r := Edit(p, req, validate);
      if r.Committed? then r.profile else p
    case DoRestore(v) =>
      var q := Restore(p, v);
      if q.Some? then q.value else p
  }

  function Run(p: Profile, ops: seq<Op>, validate: string -> Validation): Profile
    decreases |ops|
  {
    if ops == [] then p else Run(Apply(p, ops[0], validate), ops[1..], validate)
  }

  lemma ApplyKeeps(p: Profile, op: Op, validate: string -> Validation)
    requires History(p)
    ensures var q := Apply(p, op, validate); History(q) && Extends(q.log, p.log)
  {
    match op
    case DoEdit(req) => EditCommitsIff(p, req, validate);
    case DoRestore(v) => RestoreWorks(p, v);
  }

  lemma {:induction false} RunKeeps(p: Profile, ops: seq<Op>, validate: string -> Validation)
    requires History(p)
    ensures var q := Run(p, ops, validate); History(q) && Extends(q.log, p.log)
    decreases |ops|
  {
    if ops != [] {
      ApplyKeeps(p, ops[0], validate);
      RunKeeps(Apply(p, ops[0], validate), ops[1..], validate);
    }
  }

  /** Undo across any run: after any sequence of updates and restores, restoring the version
      that was current before brings back the content of that moment. */
  lemma RestoreUndoesAnyRun(p: Profile, ops: seq<Op>, validate: string -> Validation)
    requires History(p)
    ensures var q := Restore(Run(p, ops, validate), p.row.version);
            q.Some? && q.value.row.content == Normal(p.row.content) && History(q.value)
  {
    RunKeeps(p, ops, validate);
    var q := Run(p, ops, validate);
    RestoreWorks(q, p.row.version);
    var i := p.row.version - 1;
    assert q.log[i].(latest := false) == p.log[i].(latest := false);
  }

  // ----- The loader beside the tables -----------------------------------------------------------------------------

  /** What the loader runs for a slug. */
  datatype Runtime = Runtime(code: string, config: Json)

  datatype LoadOutcome = LoadOk | LoadError(message: string)

  type Loader = map<string, Runtime>

  /** Reload unloads first, so a load that fails leaves nothing; an enabled profile of another
      kind is left alone. */
  function Reloaded(loader: Loader, row: Row, outcome: LoadOutcome): (Loader, Status) {
    if row.enabled && OrPython(row.content.kind) == "python" then
      match outcome
      case LoadOk => (loader[row.slug := Runtime(row.content.code, row.content.config)], Loaded)
      case LoadError(m) => (loader - {row.slug}, Failed(m))
    else if !row.enabled then (loader - {row.slug}, Unloaded)
    else (loader, row.status)
  }

  /** A row marked loaded runs its own code and config; a disabled one does not run. */
  predicate InStep(row: Row, loader: Loader) {
    && (row.status.Loaded? ==>
          row.slug in loader && loader[row.slug] == Runtime(row.content.code, row.content.config))
    && (!row.enabled ==> row.slug !in loader)
  }

  /** The loader after an update request that got past validation. */
  function LoaderAfter(loader: Loader, row: Row, req: EditRequest, validate: string -> Validation, outcome: LoadOutcome): Loader {
    if NeedsReload(row, req) then Reloaded(loader, Edited(row, req, validate), outcome).0 else loader
  }

  /** What an update request past validation leaves in the loader: nothing changes unless code,
      config or the enabled flag does; then an enabled Python profile runs its new code and config
      or, if that does not load, nothing; a disabled one nothing; another kind what it ran. */
  lemma LoaderMeans(loader: Loader, row: Row, req: EditRequest, validate: string -> Validation, outcome: LoadOutcome)
    ensures var after := LoaderAfter(loader, row, req, validate, outcome);
            var code, config := OrElse(req.code, row.content.code), OrElse(req.config, row.content.config);
            var enabled, kind := OrElse(req.enabled, row.enabled), OrElse(req.kind, row.content.kind);
            if code == row.content.code && config == row.content.config && enabled == row.enabled then after == loader
            else if !enabled then after == loader - {row.slug}
            else if kind != "" && kind != "python" then after == loader
            else after == if outcome.LoadOk? then loader[row.slug := Runtime(code, config)] else loader - {row.slug}
  {}

  /** A refused update still reaches the loader.  Exactly when table and loader agree after a
      request that got past validation: the loader was not involved; or it left the profile
      alone, as it does with an enabled one that is not Python, and no new code was stored for a
      running one; or the code changed (and was committed); or the profile was not running and
      was not started either. */
  lemma RefusedUpdateDiverges(p: Profile, loader: Loader, req: EditRequest, validate: string -> Validation, outcome: LoadOutcome)
    requires History(p) && InStep(p.row, loader) && !Rejected(p.row, req, validate)
    ensures InStep(RowAfter(p, loader, req, validate, outcome), LoaderAfter(loader, p.row, req, validate, outcome)) <==>
            || !NeedsReload(p.row, req)
            || (if LeftAlone(p.row, req) then !(CodeChanges(p.row, req) && p.row.status.Loaded?)
                else CodeChanges(p.row, req) || (!p.row.status.Loaded? && !StartsUp(p.row, req, outcome)))
  {
    EditCommitsIff(p, req, validate);
  }

  predicate LeftAlone(row: Row, req: EditRequest) {
    OrElse(req.enabled, row.enabled) && OrPython(OrElse(req.kind, row.content.kind)) != "python"
  }

  /** A disabled profile asked to be enabled, which then loads. */
  predicate StartsUp(row: Row, req: EditRequest, outcome: LoadOutcome) {
    !row.enabled && req.enabled == Some(true) && outcome.LoadOk?
  }

  /** The stored row after an update request that got past validation. */
  function RowAfter(p: Profile, loader: Loader, req: EditRequest, validate: string -> Validation, outcome: LoadOutcome): Row {
    var edited := Edited(p.row, req, validate);
    if Edit(p, req, validate).Committed? then edited.(status := Reloaded(loader, edited, outcome).1) else p.row
  }

  /** Enabling a disabled profile and nothing else: the request fails, the row stays disabled,
      and the loader runs the profile. */
  lemma EnablingAloneRunsDisabled(p: Profile, loader: Loader, validate: string -> Validation)
    requires History(p) && !p.row.enabled && OrPython(p.row.content.kind) == "python"
    ensures var req := EditRequest(None, None, None, None, None, Some(true), None);
            && Edit(p, req, validate).Conflict? && RowAfter(p, loader, req, validate, LoadOk) == p.row
            && p.row.slug in LoaderAfter(loader, p.row, req, validate, LoadOk)
  {
    EditCommitsIff(p, EditRequest(None, None, None, None, None, Some(true), None), validate);
  }

  /** New code stored for a running profile together with a kind other than Python: the row says
      the new code is loaded, and the loader goes on running the old one. */
  lemma KindChangeKeepsOldCode(p: Profile, loader: Loader, code: string, kind: string, validate: string -> Validation, outcome: LoadOutcome)
    requires History(p) && p.row.enabled && p.row.status.Loaded? && InStep(p.row, loader)
    requires code != p.row.content.code && kind != "" && kind != "python"
    ensures var req := EditRequest(None, None, Some(code), None, None, None, Some(kind));
            var row := RowAfter(p, loader, req, validate, outcome);
            && Edit(p, req, validate).Committed? && row.content.code == code && row.status.Loaded?
            && LoaderAfter(loader, p.row, req, validate, outcome) == loader && loader[row.slug].code == p.row.content.code
  {
    EditCommitsIff(p, EditRequest(None, None, Some(code), None, None, None, Some(kind)), validate);
  }

  type Id = string

  datatype Response = Ok | Http(code: int)

  datatype CreateRequest = CreateRequest(
    slug: string, name: string, description: Option<string>, code: string,
    config: Json, schema: Json, kind: string, enabled: bool)

  /** Only Python code is looked at for its class. */
  function NewContent(req: CreateRequest, validate: string -> Validation): Content {
    Content(req.name, req.description, req.code, if req.kind == "python" then validate(req.code).className else None,
            req.config, req.schema, req.kind)
  }

  type Profiles = map<Id, Profile>

  ghost predicate StoreOk(ps: Profiles) {
    && (forall id <- ps :: ProfileOk(ps[id]))
    && (forall a <- ps, b <- ps :: ps[a].row.slug == ps[b].row.slug ==> a == b)
    && (forall a <- ps, b <- ps :: ps[a].row.active && ps[b].row.active ==> a == b)
  }

  ghost predicate ProfileOk(p: Profile) { History(p) && Slug.ValidSlug(p.row.slug) }

  /** Replacing a profile under the same slug and active flag. */
  lemma PutKeeps(ps: Profiles, id: Id, q: Profile)
    requires StoreOk(ps) && id in ps && History(q)
    requires q.row.slug == ps[id].row.slug && q.row.active == ps[id].row.active
    ensures StoreOk(ps[id := q])
  {
    assert ProfileOk(ps[id]);
  }

  lemma AddKeeps(ps: Profiles, id: Id, q: Profile)
    requires StoreOk(ps) && id !in ps && ProfileOk(q) && !q.row.active
    requires forall k <- ps :: ps[k].row.slug != q.row.slug
    ensures StoreOk(ps[id := q])
  {}

  function Activated(ps: Profiles, id: Id): Profiles {
    map k <- ps :: WithActive(ps[k], k == id)
  }

  function Deactivated(ps: Profiles): Profiles {
    map k <- ps :: WithActive(ps[k], false)
  }

  lemma ActivatedInSteps(ps: Profiles, id: Id)
    requires id in ps
    ensures Deactivated(ps)[id := WithActive(ps[id], true)] == Activated(ps, id)
  {}

  lemma ActivateKeeps(ps: Profiles, id: Id)
    requires StoreOk(ps) && id in ps
    ensures StoreOk(Activated(ps, id))
  {
    var qs := Activated(ps, id);
    forall k <- qs ensures ProfileOk(qs[k]) && qs[k].row.slug == ps[k].row.slug {
      assert ProfileOk(ps[k]);
    }
  }

  class Store {
    const validate: string -> Validation
    var profiles: Profiles
    var loader: Loader
    var activeSlug: Option<string>
    var tombstones: set<string>

    /** At most one profile is active; every profile's log is its history. */
    ghost predicate Valid()
      reads this
    {
      StoreOk(profiles)
    }

    constructor (validate: string -> Validation)
      ensures Valid() && profiles == map[] && loader == map[]
    {
      this.validate := validate;
      profiles, loader, activeSlug, tombstones := map[], map[], None, {};
    }

    method Create(req: CreateRequest, id: Id, outcome: LoadOutcome) returns (r: Response)
      requires Valid() && id !in profiles
      modifies `profiles, `loader
      ensures Valid()
      ensures r.Ok? <==>
                && Slug.ValidSlug(req.slug) && (req.kind == "python" ==> validate(req.code).valid)
                && forall k <- old(profiles) :: old(profiles)[k].row.slug != req.slug
      ensures !r.Ok? ==> profiles == old(profiles) && loader == old(loader)
      ensures r.Ok? ==> id in profiles && profiles == old(profiles)[id := profiles[id]]
      ensures r.Ok? ==> var p := profiles[id];
                && p.row == Row(req.slug, NewContent(req, validate), false, req.enabled, false, p.row.status, 1)
                && (var c := p.row.content;
                    && c.name == req.name && c.description == req.description && c.code == req.code
                    && c.config == req.config && c.schema == req.schema && c.kind == req.kind
                    && c.className == if req.kind == "python" then validate(req.code).className else None)
                && |p.log| == 1
                && (p.row.status.Loaded? <==> req.enabled && req.kind == "python" && outcome.LoadOk?)
                && (p.row.status.Loaded? ==> InStep(p.row, loader))
      ensures loader - {req.slug} == old(loader) - {req.slug}
    {
      if !Slug.ValidSlug(req.slug) {
        return Http(400);
      }
      var className := None;
      if req.kind == "python" {
        var v := validate(req.code);
        if !v.valid {
          return Http(400);
        }
        className := v.className;
      }
      if exists k <- profiles :: profiles[k].row.slug == req.slug {
        return Http(409);
      }
      var status := Launch(req, outcome);
      var content := Content(req.name, req.description, req.code, className, req.config, req.schema, req.kind);
      var row := Row(req.slug, content, false, req.enabled, false, status, 1);
      var p := Profile(row, [Snapshot(1, true, content, req.enabled, None)]);
      AddKeeps(profiles, id, p);
      profiles := profiles[id := p];
      r := Ok;
    }

    /** Loads a new profile; a load that fails leaves nothing under its slug. */
    method Launch(req: CreateRequest, outcome: LoadOutcome) returns (status: Status)
      modifies `loader
      ensures status.Loaded? <==> req.enabled && req.kind == "python" && outcome.LoadOk?
      ensures status.Loaded? ==> req.slug in loader && loader[req.slug] == Runtime(req.code, req.config)
      ensures loader - {req.slug} == old(loader) - {req.slug}
    {
      status := Unloaded;
      if req.enabled && req.kind == "python" {
        if outcome.LoadOk? {
          loader := loader[req.slug := Runtime(req.code, req.config)];
          status := Loaded;
        } else {
          loader := loader - {req.slug};
          status := Failed(outcome.message);
        }
      }
    }

    /** Deactivates all profiles, then activates one. */
    method SetActive(id: Id) returns (r: Response)
      requires Valid()
      modifies `profiles, `activeSlug
      ensures Valid() && (r.Ok? <==> id in old(profiles))
      ensures !r.Ok? ==> profiles == old(profiles) && activeSlug == old(activeSlug)
      ensures r.Ok? ==> profiles == Activated(old(profiles), id) && activeSlug == Some(old(profiles)[id].row.slug)
      ensures r.Ok? ==> profiles.Keys == old(profiles).Keys && forall k <- profiles ::
                profiles[k] == old(profiles)[k].(row := old(profiles)[k].row.(active := k == id))
    {
      if id !in profiles {
        return Http(404);
      }
      ActivateKeeps(profiles, id);
      ActivatedInSteps(profiles, id);
      var target := profiles[id];
      profiles := Deactivated(profiles);
      profiles := profiles[id := WithActive(target, true)];
      activeSlug := Some(target.row.slug);
      r := Ok;
    }

    /** Assigns new code and what validation finds in it. */
    method AmendCode(c0: Content, req: EditRequest) returns (bad: bool, c: Content, sourceChanged: bool)
      ensures bad <==> req.code.Some? && req.code.value != c0.code && !validate(req.code.value).valid
                       && CheckedKind(c0.kind, req) == "python"
      ensures !bad ==> c == c0.(code := OrElse(req.code, c0.code), className := c.className)
      ensures !bad ==> (sourceChanged <==> c.code != c0.code)
      ensures !bad ==> c.className == (if sourceChanged && CheckedKind(c0.kind, req) == "python"
                                       then validate(c.code).className else c0.className)
    {
      bad, c, sourceChanged := false, c0, false;
      if req.code.Some? && req.code.value != c.code {
        if (if req.kind.Some? && req.kind.value != "" then req.kind.value else c.kind) == "python" {
          var v := validate(req.code.value);
          if !v.valid {
            bad := true;
            return;
          }
          c := c.(className := v.className);
        }
        c := c.(code := req.code.value);
        sourceChanged := true;
      }
    }

    /** Assigns the requested fields one by one and notes what they call for. */
    method Amend(row0: Row, req: EditRequest)
      returns (bad: bool, row: Row, sourceChanged: bool, needsReload: bool, snapshotNeeded: bool)
      ensures bad <==> Rejected(row0, req, validate)
      ensures !bad ==> row == Edited(row0, req, validate).(version := row0.version)
      ensures !bad ==> AsRequested(row, row0, req, validate)
      ensures !bad ==> sourceChanged == CodeChanges(row0, req) && needsReload == NeedsReload(row0, req)
                       && snapshotNeeded == NeedsSnapshot(row0, req)
    {
      var c, reconfigured, asked;
      bad, c, sourceChanged := AmendCode(row0.content, req);
      if !bad {
        c, reconfigured, asked := AmendFields(c, req);
        EditedMeans(row0, req, validate);
        row := row0.(content := c);
        needsReload, snapshotNeeded := sourceChanged || reconfigured, sourceChanged || reconfigured || asked;
        if req.enabled.Some? && req.enabled.value != row.enabled {
          row := row.(enabled := req.enabled.value);
          needsReload, snapshotNeeded := true, true;
        }
      } else {
        row, needsReload, snapshotNeeded := row0, false, false;
      }
    }

    /** Assigns config, schema, name, description and kind. */
    method AmendFields(c0: Content, req: EditRequest) returns (c: Content, reconfigured: bool, asked: bool)
      ensures c == Content(OrElse(req.name, c0.name), if req.description.Some? then req.description else c0.description,
                           c0.code, c0.className, OrElse(req.config, c0.config), OrElse(req.schema, c0.schema), OrElse(req.kind, c0.kind))
      ensures reconfigured <==> c.config != c0.config
      ensures asked <==> req.schema.Some? || req.name.Some? || req.description.Some? || req.kind.Some?
    {
      c, reconfigured, asked := c0, false, false;
      if req.config.Some? && req.config.value != c.config {
        c, reconfigured := c.(config := req.config.value), true;
      }
      if req.schema.Some? {
        c, asked := c.(schema := req.schema.value), true;
      }
      if req.name.Some? {
        c, asked := c.(name := req.name.value), true;
      }
      if req.description.Some? {
        c, asked := c.(description := req.description), true;
      }
      if req.kind.Some? {
        c, asked := c.(kind := req.kind.value), true;
      }
    }

    method Restart(row0: Row, outcome: LoadOutcome) returns (row: Row)
      modifies `loader
      ensures row == row0.(status := row.status) && (loader, row.status) == Reloaded(old(loader), row0, outcome)
    {
      var (loader', status) := Reloaded(loader, row0, outcome);
      loader, row := loader', row0.(status := status);
    }

    /** The request on one profile: the loader is changed first, then the commit is tried. */
    method Process(p: Profile, req: EditRequest, outcome: LoadOutcome) returns (e: EditResult)
      requires History(p)
      modifies `loader
      ensures e == match Edit(p, req, validate)
                   case Committed(q) => Committed(WithStatus(q, Reloaded(old(loader), q.row, outcome).1))
                   case other => other
      ensures loader == if e.BadCode? then old(loader) else LoaderAfter(old(loader), p.row, req, validate, outcome)
    {
      CommitsOnlyCode(p, req, validate);
      var bad, row, sourceChanged, needsReload, snapshotNeeded := Amend(p.row, req);
      if bad {
        return BadCode;
      }
      ghost var edited := Edited(p.row, req, validate);
      if needsReload {
        ReloadIgnoresVersion(loader, row, edited, outcome);
        row := Restart(row, outcome);
      }
      if !snapshotNeeded {
        return Unchanged;
      }
      if sourceChanged {
        row := row.(version := p.row.version + 1);
      }
      CommitStatus(edited, p.log, p.row.version, row.status);
      var q := Commit(row, p.log, p.row.version);
      e := if q.None? then Conflict else Committed(q.value);
    }

    /** What a request comes to is `Edit`; when that is, `EditCommitsIff` says.  The loader has
        already been changed when the commit is refused. */
    method Update(id: Id, req: EditRequest, outcome: LoadOutcome) returns (r: Response)
      requires Valid()
      modifies `profiles, `loader
      ensures Valid()
      ensures id !in old(profiles) ==> r == Http(404) && profiles == old(profiles) && loader == old(loader)
      ensures id in old(profiles) ==>
                var was := old(profiles)[id].row;
                var recodes := req.code.Some? && req.code.value != was.content.code;
                && (r == Http(400) <==> AsksInvalidCode(was, req, validate))
                && (r == Http(500) <==> !recodes && AsksMore(was, req))
                && (r == Ok <==> r != Http(400) && r != Http(500))
                && (r != Ok || !recodes ==> profiles == old(profiles))
                && (r == Ok && recodes ==> id in profiles && Accepted(profiles[id].row, was, req, validate, outcome))
      ensures id in old(profiles) ==>
                var p := old(profiles)[id];
                && (loader == if r == Http(400) then old(loader) else LoaderAfter(old(loader), p.row, req, validate, outcome))
                && match Edit(p, req, validate)
                   case BadCode => r == Http(400) && profiles == old(profiles)
                   case Unchanged => r == Ok && profiles == old(profiles)
                   case Conflict => r == Http(500) && profiles == old(profiles)
                   case Committed(q) =>
                     r == Ok && profiles == old(profiles)[id := WithStatus(q, Reloaded(old(loader), q.row, outcome).1)]
    {
      if id !in profiles {
        return Http(404);
      }
      var p := profiles[id];
      assert ProfileOk(p);
      EditCommitsIff(p, req, validate);
      ghost var loader0 := loader;
      var e := Process(p, req, outcome);
      match e
      case BadCode => r := Http(400);
      case Unchanged => r := Ok;
      case Conflict => r := Http(500);
      case Committed(q) =>
        CommittedKeeps(p, req, validate, q.row.status);
        CommittedMeans(p, req, validate, loader0, outcome);
        PutKeeps(profiles, id, q);
        profiles := profiles[id := q];
        r := Ok;
    }

    method RestoreVersion(id: Id, version: int, outcome: LoadOutcome) returns (r: Response)
      requires Valid()
      modifies `profiles, `loader
      ensures Valid()
      ensures r.Ok? <==> id in old(profiles) && 1 <= version <= old(profiles)[id].row.version
      ensures !r.Ok? ==> profiles == old(profiles) && loader == old(loader)
      ensures r.Ok? ==> id in profiles && profiles == old(profiles)[id := profiles[id]]
      ensures r.Ok? ==> var p, q := old(profiles)[id], profiles[id];
                && Restore(p, version) == Some(WithStatus(q, p.row.status)) && Extends(q.log, p.log)
                && q.row.content == Normal(p.log[version - 1].content)
                && (q.row.status.Loaded? <==> q.row.enabled && q.row.content.kind == "python" && outcome.LoadOk?)
                && InStep(q.row, loader) && loader - {q.row.slug} == old(loader) - {q.row.slug}
    {
      if id !in profiles {
        return Http(404);
      }
      var p := profiles[id];
      RestoreWorks(p, version);
      var s := Find(p.log, version);
      if s.None? {
        return Http(404);
      }
      var row := Restored(p.row, s.value);
      var q := Commit(row, p.log, p.row.version);
      var status := Relaunch(row, outcome);
      PutKeeps(profiles, id, WithStatus(q.value, status));
      profiles := profiles[id := WithStatus(q.value, status)];
      r := Ok;
    }

    /** Starts a restored profile again, or stops it when it is disabled or not Python. */
    method Relaunch(row: Row, outcome: LoadOutcome) returns (status: Status)
      modifies `loader
      ensures InStep(row.(status := status), loader) && loader - {row.slug} == old(loader) - {row.slug}
      ensures status.Loaded? <==> row.enabled && OrPython(row.content.kind) == "python" && outcome.LoadOk?
    {
      if row.enabled && OrPython(row.content.kind) == "python" {
        var (loader', status') := Reloaded(loader, row, outcome);
        loader, status := loader', status';
      } else {
        loader, status := loader - {row.slug}, Unloaded;
      }
    }

    /** Deleting a profile deletes its snapshots with it; a system profile leaves a tombstone. */
    method Delete(id: Id) returns (r: Response)
      requires Valid()
      modifies `profiles, `loader, `tombstones
      ensures Valid() && (r.Ok? <==> id in old(profiles)) && profiles == old(profiles) - {id}
      ensures !r.Ok? ==> loader == old(loader) && tombstones == old(tombstones)
      ensures r.Ok? ==> var row := old(profiles)[id].row;
                loader == old(loader) - {row.slug} && tombstones == old(tombstones) + (if row.isSystem then {row.slug} else {})
    {
      if id !in profiles {
        return Http(404);
      }
      var row := profiles[id].row;
      if row.isSystem {
        tombstones := tombstones + {row.slug};
      }
      loader := loader - {row.slug};
      profiles := profiles - {id};
      r := Ok;
    }
  }

  function WithStatus(p: Profile, status: Status): Profile {
    p.(row := p.row.(status := status))
  }

  /** A committed update: as requested, one version on, and with the status of its load; an
      enabled profile that is not Python keeps the status it had. */
  ghost predicate Accepted(row: Row, was: Row, req: EditRequest, validate: string -> Validation, outcome: LoadOutcome) {
    && AsRequested(row, was, req, validate)
    && row.version == was.version + 1
    && row.status == (if !row.enabled then Unloaded
                      else if row.content.kind != "" && row.content.kind != "python" then was.status
                      else if outcome.LoadOk? then Loaded else Failed(outcome.message))
  }

  lemma CommittedMeans(p: Profile, req: EditRequest, validate: string -> Validation, loader: Loader, outcome: LoadOutcome)
    requires History(p) && Edit(p, req, validate).Committed?
    ensures var q := Edit(p, req, validate).profile;
            Accepted(WithStatus(q, Reloaded(loader, q.row, outcome).1).row, p.row, req, validate, outcome)
  {
    EditCommitsIff(p, req, validate);
  }

  lemma CommitsOnlyCode(p: Profile, req: EditRequest, validate: string -> Validation)
    requires History(p)
    ensures Edit(p, req, validate).Committed? ==> CodeChanges(p.row, req)
  {
    EditCommitsIff(p, req, validate);
  }

  lemma CommittedKeeps(p: Profile, req: EditRequest, validate: string -> Validation, status: Status)
    requires History(p) && Edit(p, req, validate).Committed?
    ensures var q := WithStatus(Edit(p, req, validate).profile, status);
            History(q) && q.row.slug == p.row.slug && q.row.active == p.row.active
  {
    EditCommitsIff(p, req, validate);
  }

  lemma ReloadIgnoresVersion(loader: Loader, row: Row, edited: Row, outcome: LoadOutcome)
    requires row == edited.(version := row.version)
    ensures Reloaded(loader, row, outcome) == Reloaded(loader, edited, outcome)
  {}

  /** The status plays no part in the commit. */
  lemma CommitStatus(row: Row, log: seq<Snapshot>, parent: int, status: Status)
    ensures var q, q' := Commit(row, log, parent), Commit(row.(status := status), log, parent);
            (q.Some? <==> q'.Some?) && (q.Some? ==> q'.value == WithStatus(q.value, status))
  {}

  function WithActive(p: Profile, active: bool): Profile {
    p.(row := p.row.(active := active))
  }
}
