/** Data sources: database rows and the in-memory loader that must stay in step with them
    (backend/api/routes_data_sources.py, backend/services/data_source_loader.py).

    Handlers run one at a time and a commit takes effect as a whole.  Validation of source code
    and the source template are functions given from outside; whether a load succeeds is the
    environment's choice on every call. */
module DataSources {
  import opened Options
  import opened PythonText
  import Slug

  datatype Kind = Python | Rss | RestApi | Twitter

  predicate Templated(k: Kind) { k != Python }

  /** `unloaded`, `loaded`, or `error` with its message. */
  datatype Status = Unloaded | Loaded | Failed(message: string)

  type Id = string
  type Config = map<string, string>

  datatype Row = Row(
    slug: string,
    kind: Kind,
    name: string,
    code: string,
    className: Option<string>,
    isSystem: bool,
    enabled: bool,
    status: Status,
    config: Config,
    version: int)

  /** What the loader holds for a slug. */
  datatype Runtime = Runtime(code: string, config: Config, className: string)

  datatype LoadOutcome = LoadOk(className: string) | LoadError(message: string)

  /** What validation reads off the code; a class without a name of its own gives "". */
  datatype Validation = Validation(valid: bool, className: Option<string>, sourceName: string)

  datatype Response = Ok(id: Id) | Http(code: int)

  type Rows = map<Id, Row>
  type Loader = map<string, Runtime>

  // ----- Consistency of the two stores ----------------------------------------------------------

  function Slugs(rows: Rows): set<string> { set id <- rows :: rows[id].slug }

  predicate SlugTaken(rows: Rows, slug: string, except: set<Id>) {
    exists id <- rows :: id !in except && rows[id].slug == slug
  }

  /** A disabled row is not in the loader; a row marked loaded is there with its current code
      and config under its current slug. */
  predicate RowAgrees(r: Row, loader: Loader) {
    && (r.status.Unloaded? <==> !r.enabled)
    && (!r.enabled ==> r.slug !in loader)
    && (r.status.Loaded? ==>
          r.slug in loader && loader[r.slug].code == r.code && loader[r.slug].config == r.config)
  }

  /** Slugs are valid and unique. */
  ghost predicate RowsOk(rows: Rows) {
    && (forall id <- rows :: Slug.ValidSlug(rows[id].slug) && rows[id].version >= 1)
    && (forall a <- rows, b <- rows :: rows[a].slug == rows[b].slug ==> a == b)
  }

  ghost predicate Consistent(rows: Rows, loader: Loader) {
    && RowsOk(rows)
    && loader.Keys <= Slugs(rows)
    && forall id <- rows :: RowAgrees(rows[id], loader)
  }

  /** Writing one row and touching the loader only at its old and new slugs. */
  lemma PutKeeps(rows: Rows, loader: Loader, id: Id, r: Row, loader': Loader)
    requires Consistent(rows, loader) && Slug.ValidSlug(r.slug) && r.version >= 1
    requires !SlugTaken(rows, r.slug, {id}) && RowAgrees(r, loader')
    requires forall s :: s != r.slug && (id in rows ==> s != rows[id].slug) ==>
               (s in loader' <==> s in loader) && (s in loader ==> loader'[s] == loader[s])
    requires id in rows && rows[id].slug != r.slug ==> rows[id].slug !in loader'
    ensures Consistent(rows[id := r], loader')
  {
    var rows' := rows[id := r];
    assert id in rows' && rows'[id] == r;
    forall s <- loader' ensures s in Slugs(rows') {
      if s != r.slug {
        assert s in loader;
        var k :| k in rows && rows[k].slug == s;
        assert k != id;
        assert rows'[k].slug == s;
      }
    }
    forall k <- rows' ensures RowAgrees(rows'[k], loader') {
      if k != id {
        assert rows[k].slug != r.slug;
        assert id in rows ==> rows[k].slug != rows[id].slug;
      }
    }
  }

  // ----- Requests ---------------------------------------------------------------------------------

  /** Slugs arrive stripped and lower-cased, `title` is the slug in title case.  `fieldsOk`:
      source key, name and retention pass their own checks; `kind` is None when the given one
      is not supported. */
  datatype CreateRequest = CreateRequest(
    slug: string, title: string, fieldsOk: bool, kind: Option<Kind>, name: string, code: string,
    config: Config, enabled: bool)

  /** A field that is None is left as it is. */
  datatype UpdateRequest = UpdateRequest(
    slug: Option<string>, fieldsOk: bool, kind: Option<Option<Kind>>, name: Option<string>,
    code: Option<string>, config: Option<Config>, enabled: Option<bool>, unlockSystem: bool)

  datatype Call =
    | CallCreate(create: CreateRequest, id: Id, outcome: LoadOutcome)
    | CallUpdate(id: Id, update: UpdateRequest, outcome: LoadOutcome)
    | CallDelete(id: Id)
    | CallReload(id: Id, outcome: LoadOutcome)

  function FirstNonEmpty(a: string, b: string): string { if a != "" then a else b }

  predicate KindChanges(was: Row, req: UpdateRequest) {
    req.kind.Some? && req.kind.value.Some? && req.kind.value.value != was.kind
  }

  /** The row with the requested fields in place, before its code is looked at. */
  function Requested(was: Row, req: UpdateRequest): Row {
    was.(slug := OrElse(req.slug, was.slug),
         kind := if req.kind.Some? then OrElse(req.kind.value, was.kind) else was.kind,
         name := OrElse(req.name, was.name),
         config := OrElse(req.config, was.config))
  }

  /** The loader has to hear about the change. */
  predicate Touches(row: Row, was: Row, req: UpdateRequest) {
    row.slug != was.slug || req.config.Some? || row.code != was.code || KindChanges(was, req) || row.enabled != was.enabled
  }

  /** What an update writes besides slug and status. */
  predicate Reflects(row: Row, was: Row, req: UpdateRequest) {
    && row.config == OrElse(req.config, was.config) && row.enabled == OrElse(req.enabled, was.enabled)
    && row.version == was.version + (if row.code != was.code then 1 else 0)
    && (req.code.Some? && !Blank(req.code.value) ==> row.code == req.code.value)
    && (req.code.None? && req.kind.None? && !Blank(was.code) ==> row.code == was.code)
    && row.isSystem == was.isSystem && (req.name.Some? ==> row.name == req.name.value)
    && row.kind == Requested(was, req).kind && row.status == was.status
  }

  /** Nothing the loader depends on differs. */
  predicate SameRuntime(row: Row, was: Row) {
    row.slug == was.slug && row.config == was.config && row.code == was.code && row.enabled == was.enabled
  }

  ghost predicate SameOutside(loader: Loader, was: Loader, slugs: set<string>) {
    forall s :: s !in slugs ==> (s in loader <==> s in was) && (s in was ==> loader[s] == was[s])
  }

  /** A row whose load failed still runs exactly if it ran before under the same slug, and then
      it runs what it ran before. */
  predicate FailureKeepsRunning(row: Row, from: string, loader: Loader, was: Loader) {
    row.status.Failed? ==>
      && (row.slug in loader <==> row.slug == from && row.slug in was)
      && (row.slug in loader ==> loader[row.slug] == was[row.slug])
  }

  function StatusAfter(enabled: bool, outcome: LoadOutcome): Status {
    if !enabled then Unloaded else if outcome.LoadOk? then Loaded else Failed(outcome.message)
  }

  /** What the loader holds after a row has been brought in step; `from` is its old slug. */
  function Synchronised(loader: Loader, from: string, row: Row, outcome: LoadOutcome): Loader {
    var kept := if from != row.slug then loader - {from} else loader;
    if !row.enabled then kept - {row.slug}
    else if outcome.LoadOk? then kept[row.slug := Runtime(row.code, row.config, outcome.className)]
    else kept
  }

  class Service {
    const validate: string -> Validation
    const template: Row -> string
    var rows: Rows
    var loader: Loader
    var tombstones: set<string>

    ghost predicate Valid()
      reads this
    {
      Consistent(rows, loader)
    }

    constructor (validate: string -> Validation, template: Row -> string)
      ensures Valid() && rows == map[] && loader == map[] && this.validate == validate && this.template == template
    {
      this.validate, this.template := validate, template;
      rows, loader, tombstones := map[], map[], {};
    }

    /** The loader keeps the old runtime when a load fails. */
    method Load(slug: string, code: string, config: Config, outcome: LoadOutcome)
      modifies `loader
      ensures loader == if outcome.LoadOk? then old(loader)[slug := Runtime(code, config, outcome.className)] else old(loader)
    {
      if outcome.LoadOk? {
        loader := loader[slug := Runtime(code, config, outcome.className)];
      }
    }

    method Unload(slug: string)
      modifies `loader
      ensures loader == old(loader) - {slug}
    {
      loader := loader - {slug};
    }

    /** The row as the request describes it, before any load. */
    function Draft(req: CreateRequest): Row
      requires req.kind.Some?
    {
      Row(req.slug, req.kind.value, FirstNonEmpty(req.name, req.title), req.code, None, false, req.enabled, Unloaded, req.config, 1)
    }

    /** The code a new source is stored with: its own, or the template of its kind. */
    function NewCode(req: CreateRequest): string
      requires req.kind.Some?
    {
      if Blank(req.code) && Templated(req.kind.value) then template(Draft(req)) else req.code
    }

    /** The row as it is stored: version 1, named by the request, the code or the slug. */
    function Created(req: CreateRequest, outcome: LoadOutcome): Row
      requires req.kind.Some?
    {
      var code := NewCode(req);
      var v := validate(code);
      Draft(req).(code := code, className := v.className, status := StatusAfter(req.enabled, outcome),
                  name := FirstNonEmpty(req.name, FirstNonEmpty(v.sourceName, req.title)))
    }

    predicate CreateAccepted(req: CreateRequest)
      reads this
    {
      && Slug.ValidSlug(req.slug) && req.fieldsOk && req.kind.Some?
      && !(Blank(NewCode(req)) && req.kind.value == Python) && validate(NewCode(req)).valid
      && !SlugTaken(rows, req.slug, {})
    }

    method Create(req: CreateRequest, id: Id, outcome: LoadOutcome) returns (r: Response)
      requires Valid() && id !in rows
      modifies this
      ensures Valid() && tombstones == old(tombstones)
      ensures r.Ok? <==> old(CreateAccepted(req))
      ensures r.Ok? <==>
                && Slug.ValidSlug(req.slug) && !old(SlugTaken(rows, req.slug, {})) && req.fieldsOk && req.kind.Some?
                && (Blank(req.code) ==> !req.kind.value.Python?)
                && validate(if Blank(req.code) then template(Draft(req)) else req.code).valid
      ensures r == Http(409) ==> old(SlugTaken(rows, req.slug, {}))
      ensures !r.Ok? ==> rows == old(rows) && loader == old(loader)
      ensures r.Ok? ==> r.id == id && id in rows && rows == old(rows)[id := rows[id]]
      ensures r.Ok? ==> rows[id] == Created(req, outcome)
      ensures r.Ok? ==> var row := rows[id];
                        && row.slug == req.slug && Some(row.kind) == req.kind && row.config == req.config
                        && row.enabled == req.enabled && !row.isSystem && row.version == 1
                        && row.className == validate(row.code).className && validate(row.code).valid
                        && row.code == (if !Blank(req.code) || row.kind.Python? then req.code else template(Draft(req)))
                        && row.name == (if req.name != "" then req.name
                                        else if validate(row.code).sourceName != "" then validate(row.code).sourceName
                                        else req.title)
                        && (row.status.Loaded? <==> req.enabled && outcome.LoadOk?)
      ensures r.Ok? ==> loader == if rows[id].status.Loaded? then old(loader)[req.slug := Runtime(NewCode(req), req.config, outcome.className)]
                                  else old(loader)
      ensures r.Ok? && !rows[id].status.Loaded? ==> req.slug !in loader
    {
      if !Slug.ValidSlug(req.slug) || !req.fieldsOk || req.kind.None? {
        return Http(400);
      }
      var code := req.code;
      if Blank(code) && Templated(req.kind.value) {
        code := template(Draft(req));
      }
      if Blank(code) && req.kind.value == Python {
        return Http(400);
      }
      var v := validate(code);
      if !v.valid {
        return Http(400);
      }
      if SlugTaken(rows, req.slug, {}) {
        return Http(409);
      }
      ghost var loader0 := loader;
      var status := Unloaded;
      if req.enabled {
        Load(req.slug, code, req.config, outcome);
        status := if outcome.LoadOk? then Loaded else Failed(outcome.message);
      }
      var name := FirstNonEmpty(req.name, FirstNonEmpty(v.sourceName, req.title));
      var row := Row(req.slug, req.kind.value, name, code, v.className, false, req.enabled, status, req.config, 1);
      NoEntryWithoutRow(rows, loader0, req.slug);
      PutKeeps(rows, loader0, id, row, loader);
      rows := rows[id := row];
      r := Ok(id);
    }

    /** Loads or unloads what a changed row now needs; `from` is the slug it had before. */
    method Synchronise(row0: Row, from: string, outcome: LoadOutcome) returns (row: Row)
      modifies `loader
      ensures row == row0.(status := row.status, className := row.className)
      ensures RowAgrees(row, loader)
      ensures row.status == StatusAfter(row.enabled, outcome)
      ensures loader == Synchronised(old(loader), from, row, outcome)
    {
      row := row0;
      if from != row.slug {
        Unload(from);
      }
      if row.enabled {
        Load(row.slug, row.code, row.config, outcome);
        row := if outcome.LoadOk? then row.(status := Loaded, className := Some(outcome.className))
               else row.(status := Failed(outcome.message));
      } else {
        Unload(row.slug);
        row := row.(status := Unloaded);
      }
    }

    /** Rename: the new slug must be valid and not another row's. */
    method Rename(id: Id, row0: Row, slug: Option<string>) returns (error: Option<int>, row: Row)
      requires RowsOk(rows) && id in rows && row0 == rows[id]
      ensures error.None? ==> row == row0.(slug := OrElse(slug, row0.slug))
      ensures error.None? ==> Slug.ValidSlug(row.slug) && !SlugTaken(rows, row.slug, {id})
      ensures error.Some? <==> slug.Some? && (!Slug.ValidSlug(slug.value) || SlugTaken(rows, slug.value, {id}))
      ensures error.Some? ==> error.value == if Slug.ValidSlug(slug.value) then 409 else 400
    {
      error, row := None, row0;
      if slug.Some? {
        if !Slug.ValidSlug(slug.value) {
          return Some(400), row;
        }
        if slug.value != row.slug {
          if SlugTaken(rows, slug.value, {id}) {
            return Some(409), row;
          }
          row := row.(slug := slug.value);
        }
      }
    }

    /** The code an update resolves to: given, kept, or the template of a templated kind. */
    function Resolve(row: Row, given: Option<string>, kindChanged: bool): Option<string> {
      var input := if given.Some? then given.value
                   else if kindChanged && Templated(row.kind) then "" else row.code;
      if !Blank(input) then Some(input)
      else if Templated(row.kind) then Some(template(row))
      else None
    }

    /** The code is looked at when it is given, when the kind changes and when there is none. */
    predicate Recodes(row: Row, given: Option<string>, kindChanged: bool) {
      given.Some? || kindChanged || (Templated(row.kind) && Blank(row.code))
    }

    predicate CodeOk(row: Row, given: Option<string>, kindChanged: bool) {
      var code := Resolve(row, given, kindChanged);
      code.Some? && (Recodes(row, given, kindChanged) ==> validate(code.value).valid)
    }

    function CodeAfter(row: Row, given: Option<string>, kindChanged: bool): string {
      if Recodes(row, given, kindChanged) then OrElse(Resolve(row, given, kindChanged), row.code) else row.code
    }

    /** Stores new code when the request calls for it; the version counts stored changes.  A
        name found in the code is taken over unless the request gives one. */
    method Recode(row0: Row, given: Option<string>, kindChanged: bool, named: bool)
      returns (error: Option<int>, row: Row, reload: bool)
      ensures error == if CodeOk(row0, given, kindChanged) then None else Some(400)
      ensures error.None? ==> row == row0.(code := row.code, version := row.version, className := row.className, name := row.name)
      ensures error.None? ==> row.version == row0.version + if row.code != row0.code then 1 else 0
      ensures error.None? ==> row.code == CodeAfter(row0, given, kindChanged)
      ensures error.None? ==> row.name == if named || !Recodes(row0, given, kindChanged) then row0.name
                                          else FirstNonEmpty(validate(row.code).sourceName, row0.name)
      ensures error.None? ==> (reload <==> row.code != row0.code || kindChanged)
    {
      error, row, reload := None, row0, false;
      var resolved := Resolve(row, given, kindChanged);
      if resolved.None? {
        return Some(400), row, false;
      }
      if given.Some? || kindChanged || (Templated(row.kind) && Blank(row.code)) {
        var v := validate(resolved.value);
        if !v.valid {
          return Some(400), row, false;
        }
        if row.code != resolved.value {
          row := row.(code := resolved.value, version := row.version + 1);
          reload := true;
        }
        row := row.(className := v.className);
        if !named && v.sourceName != "" {
          row := row.(name := v.sourceName);
        }
        if kindChanged {
          reload := true;
        }
      }
    }

    method SetFields(row0: Row, req: UpdateRequest, ghost was: Row) returns (row: Row, kindChanged: bool)
      requires row0 == was.(slug := OrElse(req.slug, was.slug)) && req.kind != Some(None)
      ensures row == Requested(was, req) && kindChanged == KindChanges(was, req)
    {
      row, kindChanged := row0, req.kind.Some? && req.kind.value.value != row0.kind;
      if req.kind.Some? {
        row := row.(kind := req.kind.value.value);
      }
      row := row.(name := OrElse(req.name, row.name));
      if req.config.Some? {
        row := row.(config := req.config.value);
      }
    }

    /** Everything the request asks of the renamed row, before the loader is touched. */
    method ReviseFields(row0: Row, req: UpdateRequest, ghost was: Row) returns (error: Option<int>, row: Row, reload: bool)
      requires row0 == was.(slug := OrElse(req.slug, was.slug))
      ensures error == if FieldsAccepted(was, req) then None else Some(400)
      ensures error.None? ==> Reflects(row, was, req) && row.slug == row0.slug
      ensures error.None? ==> row.code == CodeAfter(Requested(was, req), req.code, KindChanges(was, req))
      ensures error.None? ==> row.name == NameAfter(was, req, row.code)
      ensures error.None? ==> (reload || row.slug != was.slug <==> Touches(row, was, req))
    {
      error, row, reload := None, row0, false;
      if !req.fieldsOk || req.kind == Some(None) {
        return Some(400), row, reload;
      }
      var kindChanged, recoded;
      row, kindChanged := SetFields(row, req, was);
      reload := req.config.Some?;
      error, row, recoded := Recode(row, req.code, kindChanged, req.name.Some?);
      reload := reload || recoded;
      if error.None? && req.enabled.Some? && req.enabled.value != row.enabled {
        row := row.(enabled := req.enabled.value);
        reload := true;
      }
    }

    /** The name given, else the one found in code that was looked at, else the old one. */
    function NameAfter(was: Row, req: UpdateRequest, code: string): string {
      if req.name.Some? then req.name.value
      else if Recodes(Requested(was, req), req.code, KindChanges(was, req)) then FirstNonEmpty(validate(code).sourceName, was.name)
      else was.name
    }

    predicate FieldsAccepted(was: Row, req: UpdateRequest) {
      req.fieldsOk && req.kind != Some(None) && CodeOk(Requested(was, req), req.code, KindChanges(was, req))
    }

    predicate SlugAccepted(id: Id, slug: Option<string>)
      reads this
    {
      slug.Some? ==> Slug.ValidSlug(slug.value) && !SlugTaken(rows, slug.value, {id})
    }

    /** The row the request asks for; `reload` when the loader has to hear about it. */
    method Revise(id: Id, req: UpdateRequest) returns (error: Option<int>, row: Row, reload: bool)
      requires RowsOk(rows) && id in rows
      ensures error.None? <==> SlugAccepted(id, req.slug) && FieldsAccepted(rows[id], req)
      ensures error.Some? ==> error.value == 400 || error.value == 409
      ensures error == Some(409) <==> req.slug.Some? && Slug.ValidSlug(req.slug.value) && !SlugAccepted(id, req.slug)
      ensures error.None? ==> Slug.ValidSlug(row.slug) && !SlugTaken(rows, row.slug, {id})
      ensures error.None? ==> row.slug == OrElse(req.slug, rows[id].slug) && Reflects(row, rows[id], req)
      ensures error.None? ==> row.code == CodeAfter(Requested(rows[id], req), req.code, KindChanges(rows[id], req))
      ensures error.None? ==> row.name == NameAfter(rows[id], req, row.code)
      ensures error.None? ==> (reload <==> Touches(row, rows[id], req))
    {
      reload := false;
      error, row := Rename(id, rows[id], req.slug);
      if error.None? {
        error, row, reload := ReviseFields(row, req, rows[id]);
        reload := reload || row.slug != rows[id].slug;
      }
    }

    /** Writes a revised row, bringing the loader in step with it first. */
    method WriteRow(id: Id, row0: Row, reload: bool, outcome: LoadOutcome)
      requires Valid() && id in rows && Slug.ValidSlug(row0.slug) && !SlugTaken(rows, row0.slug, {id})
      requires row0.version >= 1 && row0.status == rows[id].status && (!reload ==> SameRuntime(row0, rows[id]))
      modifies `rows, `loader
      ensures Valid() && id in rows && rows == old(rows)[id := rows[id]]
      ensures rows[id] == row0.(status := rows[id].status, className := rows[id].className)
      ensures FailureKeepsRunning(rows[id], old(rows)[id].slug, loader, old(loader))
      ensures SameOutside(loader, old(loader), {rows[id].slug, old(rows)[id].slug})
      ensures reload ==> loader == Synchronised(old(loader), old(rows)[id].slug, rows[id], outcome)
      ensures reload ==> rows[id].status == StatusAfter(rows[id].enabled, outcome)
      ensures !reload ==> rows[id] == row0 && loader == old(loader)
    {
      ghost var loader0 := loader;
      var row := row0;
      if reload {
        row := Synchronise(row0, rows[id].slug, outcome);
      }
      NewSlugUnused(rows, loader0, id, row0.slug);
      PutKeeps(rows, loader0, id, row, loader);
      rows := rows[id := row];
    }

    /** An update either fails and changes nothing, or writes one row and brings the loader in
        step with it.  The version rises by one exactly when the stored code changes. */
    method Update(id: Id, req: UpdateRequest, outcome: LoadOutcome) returns (r: Response)
      requires Valid()
      modifies `rows, `loader
      ensures Valid()
      ensures id !in old(rows) ==> r == Http(404)
      ensures r == Http(403) <==> id in old(rows) && old(rows)[id].isSystem && !req.unlockSystem
      ensures r == Http(409) <==> id in old(rows) && (!old(rows)[id].isSystem || req.unlockSystem) && req.slug.Some?
                                  && Slug.ValidSlug(req.slug.value) && old(SlugTaken(rows, req.slug.value, {id}))
      ensures r.Ok? <==> id in old(rows) && (!old(rows)[id].isSystem || req.unlockSystem)
                         && (req.slug.Some? ==> Slug.ValidSlug(req.slug.value) && !old(SlugTaken(rows, req.slug.value, {id})))
                         && req.fieldsOk && req.kind != Some(None)
                         && var was := old(rows)[id]; CodeOk(Requested(was, req), req.code, KindChanges(was, req))
      ensures !r.Ok? ==> rows == old(rows) && loader == old(loader)
      ensures r.Ok? ==> id in old(rows) && id in rows && rows == old(rows)[id := rows[id]]
      ensures r.Ok? ==> var row, was := rows[id], old(rows)[id];
                && row.slug == OrElse(req.slug, was.slug) && Reflects(row.(status := was.status), was, req)
                && row.code == CodeAfter(Requested(was, req), req.code, KindChanges(was, req))
                && row.name == NameAfter(was, req, row.code)
      ensures r.Ok? ==> var row, was := rows[id], old(rows)[id];
                if || row.slug != was.slug || req.config.Some? || row.code != was.code || row.enabled != was.enabled
                   || (req.kind.Some? && req.kind.value != Some(was.kind))
                then && row.status == StatusAfter(row.enabled, outcome)
                     && loader == Synchronised(old(loader), was.slug, row, outcome)
                else row.status == was.status && loader == old(loader)
      ensures r.Ok? ==> (rows[id].status.Loaded? ==> rows[id].enabled) && (!rows[id].enabled ==> rows[id].status.Unloaded?)
      ensures r.Ok? ==> SameOutside(loader, old(loader), {rows[id].slug, old(rows)[id].slug})
      ensures r.Ok? ==> FailureKeepsRunning(rows[id], old(rows)[id].slug, loader, old(loader))
    {
      if id !in rows {
        return Http(404);
      }
      if rows[id].isSystem && !req.unlockSystem {
        return Http(403);
      }
      var error, row, reload := Revise(id, req);
      if error.Some? {
        return Http(error.value);
      }
      WriteRow(id, row, reload, outcome);
      r := Ok(id);
    }

    method Delete(id: Id) returns (r: Response)
      requires Valid()
      modifies this
      ensures Valid() && (r.Ok? <==> id in old(rows))
      ensures !r.Ok? ==> rows == old(rows) && loader == old(loader) && tombstones == old(tombstones)
      ensures r.Ok? ==> rows == old(rows) - {id} && loader == old(loader) - {old(rows)[id].slug}
      ensures r.Ok? ==> tombstones == old(tombstones) + if old(rows)[id].isSystem then {old(rows)[id].slug} else {}
    {
      if id !in rows {
        return Http(404);
      }
      var row := rows[id];
      if row.isSystem {
        tombstones := tombstones + {row.slug};
      }
      DeleteKeeps(rows, loader, id);
      Unload(row.slug);
      rows := rows - {id};
      r := Ok(id);
    }

    method Reload(id: Id, outcome: LoadOutcome) returns (r: Response)
      requires Valid()
      modifies `rows, `loader
      ensures Valid()
      ensures id !in old(rows) ==> r == Http(404) && rows == old(rows) && loader == old(loader)
      ensures id in old(rows) ==>
                && id in rows && rows == old(rows)[id := rows[id]]
                && rows[id] == old(rows)[id].(status := rows[id].status, className := rows[id].className)
                && (r.Ok? <==> !rows[id].enabled || outcome.LoadOk?)
                && rows[id].status == StatusAfter(rows[id].enabled, outcome)
                && loader == Synchronised(old(loader), rows[id].slug, rows[id], outcome)
                && SameOutside(loader, old(loader), {rows[id].slug})
                && FailureKeepsRunning(rows[id], rows[id].slug, loader, old(loader))
    {
      if id !in rows {
        return Http(404);
      }
      ghost var loader0 := loader;
      var row := Synchronise(rows[id], rows[id].slug, outcome);
      OwnSlugFree(rows, loader0, id);
      PutKeeps(rows, loader0, id, row, loader);
      rows := rows[id := row];
      r := if row.enabled && outcome.LoadError? then Http(400) else Ok(id);
    }

    /** Any sequence of calls keeps the two stores consistent. */
    method Serve(calls: seq<Call>)
      requires Valid()
      modifies this
      ensures Valid()
    {
      for i := 0 to |calls|
        invariant Valid()
      {
        match calls[i] {
          case CallCreate(req, id, outcome) =>
            if id !in rows {  // uuid4 ids do not repeat
              var _ := Create(req, id, outcome);
            }
          case CallUpdate(id, req, outcome) => var _ := Update(id, req, outcome);
          case CallDelete(id) => var _ := Delete(id);
          case CallReload(id, outcome) => var _ := Reload(id, outcome);
        }
      }
    }

    /** Unloads what belongs to no row. */
    method DropStrays(active: set<string>)
      modifies `loader
      ensures loader == old(loader) - (old(loader).Keys - active)
    {
      var strays := loader.Keys - active;
      var left := strays;
      while left != {}
        invariant left <= strays && loader == old(loader) - (strays - left)
        decreases left
      {
        var slug :| slug in left;
        Unload(slug);
        left := left - {slug};
      }
    }

    /** `refresh_all_from_db`: whatever the loader holds and whatever the statuses say, both
        stores are consistent afterwards.  `order` is the order of the query. */
    method RefreshAll(order: seq<Id>, outcome: Id -> LoadOutcome)
      requires RowsOk(rows) && (forall id :: id in order <==> id in rows)
      modifies `rows, `loader
      ensures Valid() && rows.Keys == old(rows).Keys
      ensures forall id <- rows :: rows[id] == old(rows)[id].(status := rows[id].status, className := rows[id].className)
      ensures forall id <- rows :: rows[id].status.Loaded? <==> rows[id].enabled && outcome(id).LoadOk?
      ensures forall id <- rows :: FailureKeepsRunning(rows[id], rows[id].slug, loader, old(loader))
    {
      var updates: Updates := map[];
      for i := 0 to |order|
        invariant rows == old(rows) && FailuresKept(rows, loader, old(loader), outcome)
        invariant forall id <- order[..i] :: id in rows && Settled(Patched(rows[id], updates), loader, outcome(id))
      {
        ghost var updates0, loader0 := updates, loader;
        var id := order[i];
        assert id in order;
        var row := Synchronise(rows[id], rows[id].slug, outcome(id));
        updates := updates[row.slug := (row.status, row.className)];
        SettleOne(rows, updates0, loader0, updates, loader, order[..i], id, outcome);
        KeepFailures(rows, loader0, loader, old(loader), id, row, outcome);
        assert order[..i + 1] == order[..i] + [id];
      }
      assert order[..|order|] == order;
      ghost var loader0 := loader;
      DropStrays(Slugs(rows));
      AllSettled(rows, updates, loader0, loader, order, outcome);
      FailuresRun(rows, updates, loader0, loader, old(loader), outcome);
      rows := PatchAll(rows, updates);
    }
  }

  /** The status changes a refresh collects, by slug. */
  type Updates = map<string, (Status, Option<string>)>

  function Patched(r: Row, updates: Updates): Row {
    if r.slug in updates then r.(status := updates[r.slug].0, className := updates[r.slug].1) else r
  }

  /** What runs under the slug of an enabled row whose load fails is what ran before. */
  ghost predicate FailuresKept(rows: Rows, loader: Loader, was: Loader, outcome: Id -> LoadOutcome) {
    forall id <- rows :: rows[id].enabled && outcome(id).LoadError? ==> SameAt(loader, was, rows[id].slug)
  }

  predicate SameAt(loader: Loader, was: Loader, slug: string) {
    (slug in loader <==> slug in was) && (slug in was ==> loader[slug] == was[slug])
  }

  lemma KeepFailures(rows: Rows, loader0: Loader, loader: Loader, was: Loader, id: Id, row: Row, outcome: Id -> LoadOutcome)
    requires RowsOk(rows) && id in rows && FailuresKept(rows, loader0, was, outcome)
    requires row.slug == rows[id].slug && row.enabled == rows[id].enabled
    requires loader == Synchronised(loader0, row.slug, row, outcome(id))
    ensures FailuresKept(rows, loader, was, outcome)
  {}

  lemma FailuresRun(rows: Rows, updates: Updates, loader0: Loader, loader: Loader, was: Loader, outcome: Id -> LoadOutcome)
    requires FailuresKept(rows, loader0, was, outcome) && loader == loader0 - (loader0.Keys - Slugs(rows))
    requires forall id <- rows :: Settled(Patched(rows[id], updates), loader, outcome(id))
    ensures forall id <- rows :: FailureKeepsRunning(Patched(rows[id], updates), rows[id].slug, loader, was)
  {
    forall id <- rows ensures FailureKeepsRunning(Patched(rows[id], updates), rows[id].slug, loader, was) {
      assert rows[id].slug in Slugs(rows);
    }
  }

  ghost predicate Settled(r: Row, loader: Loader, o: LoadOutcome) {
    RowAgrees(r, loader) && (r.status.Loaded? <==> r.enabled && o.LoadOk?)
  }

  /** What the template of a new source is built from. */
  lemma DraftMeans(s: Service, req: CreateRequest)
    requires req.kind.Some?
    ensures var row := s.Draft(req);
            && row.slug == req.slug && row.kind == req.kind.value && row.config == req.config
            && row.name == (if req.name != "" then req.name else req.title)
  {}

  /** Which code an update stores and when it is refused for it; `row` has the requested kind. */
  lemma CodeMeans(s: Service, row: Row, given: Option<string>, kindChanged: bool)
    ensures var code, ok := s.CodeAfter(row, given, kindChanged), s.CodeOk(row, given, kindChanged);
            match given
            case Some(text) =>
              if !Blank(text) then code == text && (ok <==> s.validate(text).valid)
              else if row.kind.Python? then !ok
              else code == s.template(row) && (ok <==> s.validate(code).valid)
            case None =>
              if row.kind.Python? then (if Blank(row.code) then !ok else code == row.code && (ok <==> !kindChanged || s.validate(code).valid))
              else if kindChanged || Blank(row.code) then code == s.template(row) && (ok <==> s.validate(code).valid)
              else code == row.code && ok
  {}

  /** Which name an update stores. */
  lemma NameMeans(s: Service, was: Row, req: UpdateRequest, code: string)
    ensures var name, row := s.NameAfter(was, req, code), Requested(was, req);
            var looked := req.code.Some? || row.kind != was.kind || (!row.kind.Python? && Blank(was.code));
            if req.name.Some? then name == req.name.value
            else if looked && s.validate(code).sourceName != "" then name == s.validate(code).sourceName
            else name == was.name
  {}

  lemma StatusMeans(enabled: bool, outcome: LoadOutcome)
    ensures StatusAfter(enabled, outcome).Unloaded? <==> !enabled
    ensures StatusAfter(enabled, outcome).Loaded? <==> enabled && outcome.LoadOk?
    ensures enabled && outcome.LoadError? ==> StatusAfter(enabled, outcome) == Failed(outcome.message)
  {}

  /** The requested fields, one by one. */
  lemma RequestedMeans(was: Row, req: UpdateRequest)
    ensures var row := Requested(was, req);
            && row.slug == (if req.slug.Some? then req.slug.value else was.slug)
            && row.name == (if req.name.Some? then req.name.value else was.name)
            && row.config == (if req.config.Some? then req.config.value else was.config)
            && (req.kind.Some? && req.kind.value.Some? ==> row.kind == req.kind.value.value)
            && (req.kind.None? ==> row.kind == was.kind)
            && row.code == was.code && row.enabled == was.enabled && row.version == was.version
    ensures KindChanges(was, req) <==> Requested(was, req).kind != was.kind
  {}

  lemma NoEntryWithoutRow(rows: Rows, loader: Loader, slug: string)
    requires Consistent(rows, loader) && !SlugTaken(rows, slug, {})
    ensures slug !in loader
  {}

  /** A slug that no other row has is the row's own or runs nothing. */
  lemma NewSlugUnused(rows: Rows, loader: Loader, id: Id, slug: string)
    requires Consistent(rows, loader) && id in rows && !SlugTaken(rows, slug, {id})
    ensures slug == rows[id].slug || slug !in loader
  {}

  lemma OwnSlugFree(rows: Rows, loader: Loader, id: Id)
    requires Consistent(rows, loader) && id in rows
    ensures !SlugTaken(rows, rows[id].slug, {id})
  {}

  lemma DeleteKeeps(rows: Rows, loader: Loader, id: Id)
    requires Consistent(rows, loader) && id in rows
    ensures Consistent(rows - {id}, loader - {rows[id].slug})
  {
    var rows', loader' := rows - {id}, loader - {rows[id].slug};
    forall s <- loader' ensures s in Slugs(rows') {
      var k :| k in rows && rows[k].slug == s;
      assert k in rows' && rows'[k].slug == s;
    }
  }

  /** Settling one row does not disturb the rows settled before it. */
  lemma SettleOne(rows: Rows, updates0: Updates, loader0: Loader, updates: Updates, loader: Loader,
                  done: seq<Id>, id: Id, outcome: Id -> LoadOutcome)
    requires RowsOk(rows) && id in rows && (forall k <- done :: k in rows)
    requires forall k <- done :: Settled(Patched(rows[k], updates0), loader0, outcome(k))
    requires var slug := rows[id].slug;
             && slug in updates && updates == updates0[slug := updates[slug]]
             && (forall s :: s != slug ==> (s in loader <==> s in loader0) && (s in loader ==> loader[s] == loader0[s]))
    requires Settled(Patched(rows[id], updates), loader, outcome(id))
    ensures forall k <- done + [id] :: Settled(Patched(rows[k], updates), loader, outcome(k))
  {}

  function PatchAll(rows: Rows, updates: Updates): Rows {
    map id <- rows :: Patched(rows[id], updates)
  }

  lemma PatchKeepsSlugs(rows: Rows, updates: Updates)
    requires RowsOk(rows)
    ensures RowsOk(PatchAll(rows, updates)) && Slugs(PatchAll(rows, updates)) == Slugs(rows)
  {
    var rows' := PatchAll(rows, updates);
    forall id <- rows ensures id in rows' && rows'[id].slug == rows[id].slug {
    }
    forall s <- Slugs(rows) ensures s in Slugs(rows') {
      var id :| id in rows && rows[id].slug == s;
      assert id in rows' && rows'[id].slug == s;
    }
    forall s <- Slugs(rows') ensures s in Slugs(rows) {
      var id :| id in rows' && rows'[id].slug == s;
      assert id in rows && rows[id].slug == s;
    }
  }

  lemma AllSettled(rows: Rows, updates: Updates, loader0: Loader, loader: Loader, order: seq<Id>, outcome: Id -> LoadOutcome)
    requires RowsOk(rows) && (forall id :: id in order <==> id in rows)
    requires forall id <- order :: Settled(Patched(rows[id], updates), loader0, outcome(id))
    requires loader == loader0 - (loader0.Keys - Slugs(rows))
    ensures Consistent(PatchAll(rows, updates), loader)
    ensures forall id <- rows :: Settled(Patched(rows[id], updates), loader, outcome(id))
  {
    PatchKeepsSlugs(rows, updates);
    forall id <- rows ensures Settled(Patched(rows[id], updates), loader, outcome(id)) {
      assert id in order && rows[id].slug in Slugs(rows);
    }
  }

  /** A running source updated with code that does not load is stored with the new code
      under an error, and goes on running the old one. */
  method FailedUpdate(s: Service, id: Id, code: string, message: string)
    requires s.Valid() && id in s.rows && s.rows[id].status.Loaded? && !s.rows[id].isSystem
    requires !Blank(code) && code != s.rows[id].code && s.validate(code).valid
    modifies s`rows, s`loader
    ensures s.Valid() && id in s.rows
    ensures var row, was := s.rows[id], old(s.rows)[id];
            && row.slug == was.slug && row.code == code && row.version == was.version + 1 && row.status == Failed(message)
            && row.slug in s.loader && s.loader[row.slug] == old(s.loader)[row.slug] && s.loader[row.slug].code == was.code
  {
    var req := UpdateRequest(None, true, None, None, Some(code), None, None, false);
    var r := s.Update(id, req, LoadError(message));
  }

  method RunningFeed() returns (s: Service)
    ensures fresh(s) && s.Valid() && "id" in s.rows && s.validate("class Feed: pass").valid
    ensures s.rows["id"] == Row("feed", Python, "Feed", "class Feed: ...", None, false, true, Loaded, map[], 1)
    ensures "feed" in s.loader && s.loader["feed"] == Runtime("class Feed: ...", map[], "Feed")
  {
    s := new Service(_ => Validation(true, None, ""), _ => "");
    LetterNotBlank("class Feed: ...");
    var req := CreateRequest("feed", "Feed", true, Some(Python), "", "class Feed: ...", map[], true);
    assert Slug.ValidSlug(req.slug);
    var created := s.Create(req, "id", LoadOk("Feed"));
  }

  /** The same on concrete values, from an empty service. */
  method StaleRuntime() returns (stored: Row, running: Runtime)
    ensures stored.slug == "feed" && stored.code == "class Feed: pass" && stored.version == 2 && stored.status == Failed("boom")
    ensures running == Runtime("class Feed: ...", map[], "Feed")
  {
    var s := RunningFeed();
    LetterNotBlank("class Feed: pass");
    FailedUpdate(s, "id", "class Feed: pass", "boom");
    stored, running := s.rows["id"], s.loader["feed"];
  }
}
