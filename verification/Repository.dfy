/**
 The repository's reads through the cache and its writes with invalidation, for one repository
 without populated references.  What a filter selects, in which order, and what a projection keeps are
 parameters: the results hold for any database engine.
 */
module Repository {
  import opened Common
  import opened Json
  import opened CacheKeys
  import opened CacheService

  /** What MongoDB makes of projections and filters. */
  datatype Engine = Engine(
    project: (Json, Option<Json>) -> Json,
    list: (map<string, Json>, Json, Option<Json>) -> seq<Json>,
    pick: (map<string, Json>, Json) -> Option<string>)

  datatype Repo = Repo(engine: Engine, namespace: string, prefix: string, hasIsDeleted: bool)

  /** The collection, and everything the cache holds under its Redis keys. */
  datatype State = State(docs: map<string, Json>, cache: map<string, Value>)

  function RedisKey(repo: Repo, q: Query): string { InNamespace(repo.namespace) + Key(repo.prefix, q) }

  // ---------- direct reads ----------

  function Projected(e: Engine, documents: seq<Json>, select: Option<Json>): seq<Json> {
    seq(|documents|, i requires 0 <= i < |documents| => e.project(documents[i], select))
  }

  function PageOf<T>(s: seq<T>, page: Positive, limit: Positive): seq<T> { Window(s, (page - 1) * limit, limit) }

  /** Math.ceil of the quotient. */
  function Pages(count: nat, limit: Positive): nat { (count + limit - 1) / limit }

  /** The answer of the database itself; None stands for null. */
  function Direct(repo: Repo, docs: map<string, Json>, q: Query): Option<Value> {
    match q
    case ById(id, select, _) =>
      if id in docs then Some(DocumentV(repo.engine.project(docs[id], select))) else None
    case ByFilter(where, select, _) =>
      var found := repo.engine.pick(docs, JObject(where));
      if found.Some? && found.value in docs then Some(DocumentV(repo.engine.project(docs[found.value], select)))
      else None
    case Listing(filter, select, sort, _) =>
      Some(ListV(Projected(repo.engine, repo.engine.list(docs, filter, sort), select)))
    case Paged(page, limit, filter, select, sort, _) =>
      var all := repo.engine.list(docs, filter, sort);
      Some(PageV(Projected(repo.engine, PageOf(all, page, limit), select), page, limit, Pages(|all|, limit)))
  }

  /** Nulls and empty lists are not cached. */
  predicate Cacheable(v: Option<Value>) {
    match v
    case None => false
    case Some(DocumentV(_)) => true
    case Some(ListV(documents)) => documents != []
    case Some(PageV(data, _, _, _)) => data != []
  }

  // ---------- steps ----------

  /** find, findMultiple and findMultiplePaging. */
  function Fetch(repo: Repo, s: State, q: Query, force: bool): (State, Option<Value>) {
    var key := RedisKey(repo, q);
    if !force && key in s.cache then (s, Some(s.cache[key])) else
    var v := Direct(repo, s.docs, q);
    (if Cacheable(v) then s.(cache := s.cache[key := v.value]) else s, v)
  }

  /** CacheService.del of a pattern under the repository's prefix. */
  function Drop(repo: Repo, cache: map<string, Value>, word: string): map<string, Value> {
    cache - Targets(repo.namespace, SelectedKeys(repo.namespace, repo.prefix, word, cache.Keys))
  }

  /** refreshCache */
  function Refresh(repo: Repo, cache: map<string, Value>, id: Option<string>): map<string, Value> {
    Drop(repo, if id.Some? then Drop(repo, cache, id.value) else cache, "listing")
  }

  predicate FreshIds(docs: map<string, Json>, added: seq<(string, Json)>) {
    && (forall i :: 0 <= i < |added| ==> added[i].0 !in docs && IsObjectId(added[i].0))
    && (forall i, j :: 0 <= i < j < |added| ==> added[i].0 != added[j].0)
  }

  function Inserted(docs: map<string, Json>, added: seq<(string, Json)>): map<string, Json> {
    if added == [] then docs
    else Inserted(docs, added[..|added| - 1])[added[|added| - 1].0 := added[|added| - 1].1]
  }

  /** Every created document is cached under its id. */
  function Remembered(repo: Repo, cache: map<string, Value>, added: seq<(string, Json)>): map<string, Value> {
    if added == [] then cache else
    var last := added[|added| - 1];
    Remembered(repo, cache, added[..|added| - 1])
      [InNamespace(repo.namespace) + DocumentKey(repo.prefix, last.0) := DocumentV(last.1)]
  }

  function CreateStep(repo: Repo, s: State, added: seq<(string, Json)>): (State, bool) {
    if !FreshIds(s.docs, added) then (s, false)
    else (State(Inserted(s.docs, added), Refresh(repo, Remembered(repo, s.cache, added), None)), true)
  }

  datatype Which = Id(id: string) | Where(filter: Json)

  /** The document findOneAndUpdate or findOneAndDelete works on. */
  function Resolve(repo: Repo, docs: map<string, Json>, t: Which): Option<string> {
    var found := match t case Id(id) => Some(id) case Where(filter) => repo.engine.pick(docs, filter);
    if found.Some? && found.value in docs then found else None
  }

  function UpdateStep(repo: Repo, s: State, t: Which, change: Json -> Json): (State, Option<Json>) {
    var found := Resolve(repo, s.docs, t);
    if found.None? then (s, None) else
    var id := found.value;
    var document := change(s.docs[id]);
    (State(s.docs[id := document], Refresh(repo, s.cache, Some(id))), Some(document))
  }

  function DeleteStep(repo: Repo, s: State, t: Which): (State, bool) {
    var found := Resolve(repo, s.docs, t);
    if found.None? then (s, false)
    else (State(s.docs - {found.value}, Refresh(repo, s.cache, found)), true)
  }

  function SetField(f: Fields, name: string, value: Json): Fields {
    match f
    case NoFields => Field(name, value, NoFields)
    case Field(n, v, r) => if n == name then Field(n, value, r) else Field(n, v, SetField(r, name, value))
  }

  function MarkDeleted(document: Json): Json {
    if document.JObject? then JObject(SetField(document.fields, "isDeleted", JBool(true))) else document
  }

  function SafeDeleteStep(repo: Repo, s: State, t: Which): (State, bool) {
    if !repo.hasIsDeleted then (s, false) else
    var (s', updated) := UpdateStep(repo, s, t, MarkDeleted);
    (s', updated.Some?)
  }

  datatype Event =
    | Read(query: Query, force: bool)
    | Create(documents: seq<(string, Json)>)
    | Update(target: Which, change: Json -> Json)
    | Delete(target: Which)
    | SafeDelete(target: Which)
    | Expire(key: string)

  function Step(repo: Repo, s: State, e: Event): State {
    match e
    case Read(q, force) => Fetch(repo, s, q, force).0
    case Create(added) => CreateStep(repo, s, added).0
    case Update(t, change) => UpdateStep(repo, s, t, change).0
    case Delete(t) => DeleteStep(repo, s, t).0
    case SafeDelete(t) => SafeDeleteStep(repo, s, t).0
    case Expire(key) => s.(cache := s.cache - {InNamespace(repo.namespace) + key})
  }

  function Run(repo: Repo, docs: map<string, Json>, events: seq<Event>): State {
    if events == [] then State(docs, map[])
    else Step(repo, Run(repo, docs, events[..|events| - 1]), events[|events| - 1])
  }

  // ---------- the service ----------

  class RepositoryService {
    const repo: Repo
    const cacheService: CacheService
    var model: map<string, Json>

    constructor (repo: Repo, cacheService: CacheService, docs: map<string, Json>)
      ensures this.repo == repo && this.cacheService == cacheService && model == docs
    {
      this.repo, this.cacheService, model := repo, cacheService, docs;
    }

    ghost predicate Valid() { cacheService.Valid() && cacheService.namespace == repo.namespace }

    ghost function Contents(): State
      reads this, cacheService
    {
      State(model, cacheService.redis)
    }

    method RefreshCache(id: Option<string>)
      requires Valid()
      modifies cacheService
      ensures cacheService.redis == Refresh(repo, old(cacheService.redis), id)
    {
      if id.Some? {
        cacheService.DeleteKeysByRegex(id.value, repo.prefix);
      }
      cacheService.DeleteKeysByRegex("listing", repo.prefix);
    }

    method Create(added: seq<(string, Json)>) returns (ok: bool)
      requires Valid()
      modifies this, cacheService
      ensures (Contents(), ok) == CreateStep(repo, old(Contents()), added)
    {
      if !FreshIds(model, added) {
        return false;
      }
      for i := 0 to |added|
        invariant model == Inserted(old(model), added[..i]) && cacheService.redis == old(cacheService.redis)
      {
        model := model[added[i].0 := added[i].1];
        assert added[..i + 1][..i] == added[..i];
      }
      assert added[..|added|] == added;
      for i := 0 to |added|
        invariant model == Inserted(old(model), added)
        invariant cacheService.redis == Remembered(repo, old(cacheService.redis), added[..i])
      {
        cacheService.Set(DocumentKey(repo.prefix, added[i].0), DocumentV(added[i].1));
        assert added[..i + 1][..i] == added[..i];
      }
      RefreshCache(None);
      ok := true;
    }

    /** The read-through pattern shared by find, findMultiple and findMultiplePaging. */
    method Read(q: Query, force: bool) returns (value: Option<Value>)
      requires Valid()
      modifies cacheService
      ensures (Contents(), value) == Fetch(repo, old(Contents()), q, force)
    {
      var key := Key(repo.prefix, q);
      if !force {
        value := cacheService.Get(key);
        if value.Some? {
          return;
        }
      }
      value := Direct(repo, model, q);
      if Cacheable(value) {
        cacheService.Set(key, value.value);
      }
    }

    method Update(t: Which, change: Json -> Json) returns (updated: Option<Json>)
      requires Valid()
      modifies this, cacheService
      ensures (Contents(), updated) == UpdateStep(repo, old(Contents()), t, change)
    {
      var found := Resolve(repo, model, t);
      updated := None;
      if found.Some? {
        var document := change(model[found.value]);
        model := model[found.value := document];
        RefreshCache(found);
        updated := Some(document);
      }
    }

    method Delete(t: Which) returns (deleted: bool)
      requires Valid()
      modifies this, cacheService
      ensures (Contents(), deleted) == DeleteStep(repo, old(Contents()), t)
    {
      var found := Resolve(repo, model, t);
      if found.Some? {
        model := model - {found.value};
        RefreshCache(found);
      }
      deleted := found.Some?;
    }

    method SafeDelete(t: Which) returns (deleted: bool)
      requires Valid()
      modifies this, cacheService
      ensures (Contents(), deleted) == SafeDeleteStep(repo, old(Contents()), t)
    {
      if !repo.hasIsDeleted {
        return false;
      }
      var updated := Update(t, MarkDeleted);
      deleted := updated.Some?;
    }
  }
}
