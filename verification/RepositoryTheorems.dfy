/** The cache agrees with the database, and the pages of a list are the list. */
module RepositoryTheorems {
  import opened Common
  import opened Json
  import opened CacheKeys
  import opened CacheService
  import opened JsonText
  import opened Repository

  // ---------- which keys a write removes ----------

  /** All keys are in the cache's namespace. */
  ghost predicate Own(repo: Repo, cache: map<string, Value>) {
    forall k :: k in cache ==> At(k, InNamespace(repo.namespace), 0)
  }

  /** Deletion of a pattern, key by key. */
  lemma DropKeeps(repo: Repo, cache: map<string, Value>, word: string, k: string)
    requires Own(repo, cache)
    ensures Own(repo, Drop(repo, cache, word))
    ensures k in Drop(repo, cache, word) <==> k in cache && !Selected(repo.namespace, repo.prefix, word, k)
    ensures k in Drop(repo, cache, word) ==> Drop(repo, cache, word)[k] == cache[k]
  {
    var selected := SelectedKeys(repo.namespace, repo.prefix, word, cache.Keys);
    forall s | s in selected ensures Target(repo.namespace, s) == s {
      TargetOfOwn(repo.namespace, s);
    }
    assert Targets(repo.namespace, selected) == selected;
  }

  lemma PrefixAt(a: string, b: string, w: string)
    ensures At(a + w + b, w, |a|) && (a + w + b)[|a| + |w|..] == b
  {
    assert (a + w + b)[|a|..|a| + |w|] == w;
  }

  lemma OwnShape(n: string, p: string, key: string, body: string)
    requires key == Before(p) + body
    ensures At(n + key, n, 0) && Contains(n + key, n + p)
  {
    var s := n + key;
    assert s[0..|n|] == n;
    assert key == p + key[|p|..];
    assert s[0..|n + p|] == n + p;
    assert At(s, n + p, 0);
  }

  /** Every key of the repository passes the SCAN pattern. */
  lemma OwnKeyScanned(repo: Repo, q: Query)
    ensures At(RedisKey(repo, q), InNamespace(repo.namespace), 0)
    ensures Contains(RedisKey(repo, q), InNamespace(repo.namespace) + repo.prefix)
  {
    KeyShape(repo.prefix, q);
    OwnShape(InNamespace(repo.namespace), repo.prefix, Key(repo.prefix, q), Body(q));
  }

  /** The pattern that is meant to remove the key of a read. */
  function Word(q: Query): string
    requires !q.ByFilter?
  {
    if q.ById? then q.id else "listing"
  }

  /** The pattern reaches the key: no line terminator stands between the word and the end of the key. */
  predicate Invalidated(repo: Repo, q: Query)
    requires !q.ByFilter?
  {
    Tests(Word(q), RedisKey(repo, q))
  }

  lemma RefreshKeeps(repo: Repo, cache: map<string, Value>, id: Option<string>, k: string)
    requires Own(repo, cache)
    ensures Own(repo, Refresh(repo, cache, id))
    ensures k in Refresh(repo, cache, id) <==>
              k in cache && !Selected(repo.namespace, repo.prefix, "listing", k)
              && (id.Some? ==> !Selected(repo.namespace, repo.prefix, id.value, k))
    ensures k in Refresh(repo, cache, id) ==> Refresh(repo, cache, id)[k] == cache[k]
  {
    if id.Some? {
      DropKeeps(repo, cache, id.value, k);
      DropKeeps(repo, Drop(repo, cache, id.value), "listing", k);
    } else {
      DropKeeps(repo, cache, "listing", k);
    }
  }

  // ---------- agreement ----------

  /** What is cached for a read is what the database would answer, for every read the writes can invalidate. */
  ghost predicate Agrees(repo: Repo, s: State) {
    forall q: Query :: !q.ByFilter? && Invalidated(repo, q) && RedisKey(repo, q) in s.cache ==>
      Direct(repo, s.docs, q) == Some(s.cache[RedisKey(repo, q)])
  }

  ghost predicate Good(repo: Repo, s: State) { Own(repo, s.cache) && Agrees(repo, s) }

  lemma RedisKeyUnique(repo: Repo, q: Query, r: Query)
    requires RedisKey(repo, q) == RedisKey(repo, r)
    ensures q == r
  {
    CancelPrefix(InNamespace(repo.namespace), Key(repo.prefix, q), Key(repo.prefix, r));
    KeyUnique(repo.prefix, q, r);
  }

  lemma FetchKeepsGood(repo: Repo, s: State, q: Query, force: bool)
    requires Good(repo, s)
    ensures Good(repo, Fetch(repo, s, q, force).0)
  {
    var s' := Fetch(repo, s, q, force).0;
    OwnKeyScanned(repo, q);
    forall r: Query | !r.ByFilter? && Invalidated(repo, r) && RedisKey(repo, r) in s'.cache
      ensures Direct(repo, s'.docs, r) == Some(s'.cache[RedisKey(repo, r)])
    {
      if RedisKey(repo, r) == RedisKey(repo, q) { RedisKeyUnique(repo, r, q); }
    }
  }

  lemma {:induction false} RememberedKeeps(repo: Repo, cache: map<string, Value>, added: seq<(string, Json)>, q: Query)
    requires Own(repo, cache) && forall i :: 0 <= i < |added| ==> IsObjectId(added[i].0)
    ensures Own(repo, Remembered(repo, cache, added))
    ensures RedisKey(repo, q) in Remembered(repo, cache, added) <==> RedisKey(repo, q) in cache
    ensures RedisKey(repo, q) in cache ==> Remembered(repo, cache, added)[RedisKey(repo, q)] == cache[RedisKey(repo, q)]
  {
    if added != [] {
      var n := |added| - 1;
      RememberedKeeps(repo, cache, added[..n], q);
      DocumentKeyUnread(repo.prefix, added[n].0, q);
      var w, key := InNamespace(repo.namespace), DocumentKey(repo.prefix, added[n].0);
      if w + key == RedisKey(repo, q) { CancelPrefix(w, key, Key(repo.prefix, q)); }
      assert (w + key)[0..|w|] == w;
    }
  }

  lemma {:induction false} InsertedKeeps(docs: map<string, Json>, added: seq<(string, Json)>, id: string)
    requires id in docs && forall i :: 0 <= i < |added| ==> added[i].0 != id
    ensures id in Inserted(docs, added) && Inserted(docs, added)[id] == docs[id]
  {
    if added != [] { InsertedKeeps(docs, added[..|added| - 1], id); }
  }

  lemma CreateKeepsGood(repo: Repo, s: State, added: seq<(string, Json)>)
    requires Good(repo, s)
    ensures Good(repo, CreateStep(repo, s, added).0)
  {
    if FreshIds(s.docs, added) {
      var s' := CreateStep(repo, s, added).0;
      var remembered := Remembered(repo, s.cache, added);
      RememberedKeeps(repo, s.cache, added, ById("", None, ""));
      RefreshKeeps(repo, remembered, None, "");
      forall q: Query | !q.ByFilter? && Invalidated(repo, q) && RedisKey(repo, q) in s'.cache
        ensures Direct(repo, s'.docs, q) == Some(s'.cache[RedisKey(repo, q)])
      {
        RememberedKeeps(repo, s.cache, added, q);
        RefreshKeeps(repo, remembered, None, RedisKey(repo, q));
        OwnKeyScanned(repo, q);
        assert q.ById?;
        assert q.id in s.docs;
        InsertedKeeps(s.docs, added, q.id);
      }
    }
  }

  /** A write to one document, whatever it writes. */
  lemma WriteKeepsGood(repo: Repo, s: State, id: string, docs: map<string, Json>)
    requires Good(repo, s)
    requires forall k :: k != id ==> (k in docs <==> k in s.docs) && (k in docs ==> docs[k] == s.docs[k])
    ensures Good(repo, State(docs, Refresh(repo, s.cache, Some(id))))
  {
    var s' := State(docs, Refresh(repo, s.cache, Some(id)));
    RefreshKeeps(repo, s.cache, Some(id), "");
    forall q: Query | !q.ByFilter? && Invalidated(repo, q) && RedisKey(repo, q) in s'.cache
      ensures Direct(repo, s'.docs, q) == Some(s'.cache[RedisKey(repo, q)])
    {
      RefreshKeeps(repo, s.cache, Some(id), RedisKey(repo, q));
      OwnKeyScanned(repo, q);
      assert q.ById? && q.id != id;
    }
  }

  lemma StepKeepsGood(repo: Repo, s: State, e: Event)
    requires Good(repo, s)
    ensures Good(repo, Step(repo, s, e))
  {
    match e
    case Read(q, force) => FetchKeepsGood(repo, s, q, force);
    case Create(added) => CreateKeepsGood(repo, s, added);
    case Update(t, change) =>
      var found := Resolve(repo, s.docs, t);
      if found.Some? { WriteKeepsGood(repo, s, found.value, s.docs[found.value := change(s.docs[found.value])]); }
    case Delete(t) =>
      var found := Resolve(repo, s.docs, t);
      if found.Some? { WriteKeepsGood(repo, s, found.value, s.docs - {found.value}); }
    case SafeDelete(t) =>
      var found := Resolve(repo, s.docs, t);
      if repo.hasIsDeleted && found.Some? {
        WriteKeepsGood(repo, s, found.value, s.docs[found.value := MarkDeleted(s.docs[found.value])]);
      }
    case Expire(_) =>
  }

  lemma {:induction false} RunIsGood(repo: Repo, docs: map<string, Json>, events: seq<Event>)
    ensures Good(repo, Run(repo, docs, events))
  {
    if events != [] {
      var n := |events| - 1;
      RunIsGood(repo, docs, events[..n]);
      StepKeepsGood(repo, Run(repo, docs, events[..n]), events[n]);
    }
  }

  /**
   Cache transparency: after every run of reads, writes and expiries, a read by id, a listing or a page
   whose key the patterns reach answers what the database itself would answer, forced or not.
   */
  lemma CacheIsTransparent(repo: Repo, docs: map<string, Json>, events: seq<Event>, q: Query, force: bool)
    requires !q.ByFilter? && Invalidated(repo, q)
    ensures var s := Run(repo, docs, events);
            Fetch(repo, s, q, force).1 == Direct(repo, s.docs, q)
  {
    RunIsGood(repo, docs, events);
  }

  // ---------- when the patterns reach a key ----------

  lemma TestsAfter(s: string, a: string, w: string, b: string)
    requires s == a + (w + b) && OneLine(b)
    ensures Tests(w, s)
  {
    assert s == a + w + b;
    PrefixAt(a, b, w);
  }

  lemma ListingShape(n: string, p: string, tail: string)
    ensures n + (p + ("listing:" + tail)) == (n + p) + ("listing" + (":" + tail))
  {
    assert "listing:" + tail == "listing" + (":" + tail);
  }

  lemma ListingReached(repo: Repo, q: Query)
    requires IsListing(q) && OneLine(Text(q)) && OneLine(q.postfix)
    ensures Invalidated(repo, q)
  {
    KeyShape(repo.prefix, q);
    var n, p, tail := InNamespace(repo.namespace), Before(repo.prefix), Text(q) + After(q.postfix);
    ListingShape(n, p, tail);
    OneLineParts(":", q.postfix);
    OneLineParts(Text(q), After(q.postfix));
    OneLineParts(":", tail);
    TestsAfter(RedisKey(repo, q), n + p, "listing", ":" + tail);
  }

  lemma IdShape(n: string, p: string, name: string, id: string, rest: string, after: string)
    ensures n + (p + ("" + ("{" + (name + ":" + ("\"" + id + "\"") + rest) + after)))
            == (n + p + "{" + name + ":" + "\"") + (id + ("\"" + rest + after))
  {
  }

  lemma ObjectIdQuoted(id: string)
    requires IsObjectId(id)
    ensures Stringify(JString(id)) == "\"" + id + "\""
  {
    Unescaped(id);
  }

  lemma FieldText(name: string, value: Json, rest: Fields)
    ensures Stringify(JObject(Field(name, value, rest)))
            == "{" + (Quote(name) + ":" + Stringify(value) + FieldsTail(rest))
  {
  }

  lemma ByIdText(q: Query)
    requires q.ById? && IsObjectId(q.id)
    ensures Text(q) == "{" + (Quote("idOrFilter") + ":" + ("\"" + q.id + "\"") + FieldsTail(KeyFields(q).rest))
  {
    ObjectIdQuoted(q.id);
    var f := KeyFields(q);
    assert f.name == "idOrFilter" && f.value == JString(q.id);
    FieldText(f.name, f.value, f.rest);
  }

  lemma TextEnds(name: string, id: string, rest: string)
    requires OneLine("{" + (name + ":" + ("\"" + id + "\"") + rest))
    ensures OneLine("\"" + rest)
  {
    var text := "{" + (name + ":" + ("\"" + id + "\"") + rest);
    assert text == ("{" + name + ":" + "\"" + id) + ("\"" + rest);
    OneLineParts("{" + name + ":" + "\"" + id, "\"" + rest);
  }

  /** The id in the key of a read, and what is behind it. */
  lemma ByIdKey(repo: Repo, q: Query) returns (front: string, rest: string)
    requires q.ById? && IsObjectId(q.id) && OneLine(Text(q))
    ensures RedisKey(repo, q) == front + (q.id + ("\"" + rest + After(q.postfix))) && OneLine("\"" + rest)
  {
    KeyShape(repo.prefix, q);
    ByIdText(q);
    var n, p, name := InNamespace(repo.namespace), Before(repo.prefix), Quote("idOrFilter");
    rest := FieldsTail(KeyFields(q).rest);
    front := n + p + "{" + name + ":" + "\"";
    IdShape(n, p, name, q.id, rest, After(q.postfix));
    TextEnds(name, q.id, rest);
  }

  lemma ByIdReached(repo: Repo, q: Query)
    requires q.ById? && IsObjectId(q.id) && OneLine(Text(q)) && OneLine(q.postfix)
    ensures Invalidated(repo, q)
  {
    var front, rest := ByIdKey(repo, q);
    OneLineParts(":", q.postfix);
    OneLineParts("\"" + rest, After(q.postfix));
    TestsAfter(RedisKey(repo, q), front, q.id, "\"" + rest + After(q.postfix));
  }

  /**
   Cache transparency in the caller's terms: by object id, listing or page, whenever no name and no string
   in the query has a Unicode line or paragraph separator, and the postfix has no line terminator.
   */
  lemma PlainReadsAreTransparent(repo: Repo, docs: map<string, Json>, events: seq<Event>, q: Query, force: bool)
    requires SeparatorFree(JObject(KeyFields(q))) && OneLine(q.postfix)
    requires IsListing(q) || (q.ById? && IsObjectId(q.id))
    ensures var s := Run(repo, docs, events);
            Fetch(repo, s, q, force).1 == Direct(repo, s.docs, q)
  {
    TextLines(JObject(KeyFields(q)));
    if IsListing(q) { ListingReached(repo, q); } else { ByIdReached(repo, q); }
    CacheIsTransparent(repo, docs, events, q, force);
  }

  // ---------- exactly when a listing is fresh ----------

  /** The document a write changes or removes; None for a create, which changes no stored one. */
  function WrittenId(repo: Repo, s: State, e: Event): Option<string> {
    match e
    case Update(t, _) => Resolve(repo, s.docs, t)
    case Delete(t) => Resolve(repo, s.docs, t)
    case SafeDelete(t) => Resolve(repo, s.docs, t)
    case _ => None
  }

  /** The event is a write that finds something to do. */
  predicate Writes(repo: Repo, s: State, e: Event) {
    if e.Create? then FreshIds(s.docs, e.documents)
    else WrittenId(repo, s, e).Some? && (e.SafeDelete? ==> repo.hasIsDeleted)
  }

  /** One of the patterns of the write reaches the key of the listing. */
  predicate Reached(repo: Repo, s: State, e: Event, q: Query)
    requires IsListing(q)
  {
    Invalidated(repo, q)
    || (WrittenId(repo, s, e).Some? && Tests(WrittenId(repo, s, e).value, RedisKey(repo, q)))
  }

  lemma WriteSurvivesExactly(repo: Repo, s: State, e: Event, q: Query)
    requires Good(repo, s) && Writes(repo, s, e) && IsListing(q) && RedisKey(repo, q) in s.cache
    ensures var cache := Step(repo, s, e).cache;
            && (RedisKey(repo, q) in cache <==> !Reached(repo, s, e, q))
            && (RedisKey(repo, q) in cache ==> cache[RedisKey(repo, q)] == s.cache[RedisKey(repo, q)])
  {
    OwnKeyScanned(repo, q);
    if e.Create? {
      RememberedKeeps(repo, s.cache, e.documents, q);
      RefreshKeeps(repo, Remembered(repo, s.cache, e.documents), None, RedisKey(repo, q));
    } else {
      RefreshKeeps(repo, s.cache, WrittenId(repo, s, e), RedisKey(repo, q));
    }
  }

  /**
   In every reachable state and for every write: a cached listing or page answers like the database after
   the write if and only if one of the patterns reaches its key, or the answer is the cached one anyway.
   */
  lemma ListingFreshExactly(repo: Repo, docs: map<string, Json>, events: seq<Event>, e: Event, q: Query)
    requires var s := Run(repo, docs, events); Writes(repo, s, e) && IsListing(q) && RedisKey(repo, q) in s.cache
    ensures var s := Run(repo, docs, events);
            var s' := Step(repo, s, e);
            Fetch(repo, s', q, false).1 == Direct(repo, s'.docs, q) <==>
              Reached(repo, s, e, q) || Direct(repo, s'.docs, q) == Some(s.cache[RedisKey(repo, q)])
  {
    RunIsGood(repo, docs, events);
    WriteSurvivesExactly(repo, Run(repo, docs, events), e, q);
  }

  // ---------- paging ----------

  /** Pages 1..n of a list, one after the other. */
  function FirstPages<T>(s: seq<T>, limit: Positive, n: nat): seq<T> {
    if n == 0 then [] else FirstPages(s, limit, n - 1) + PageOf(s, n, limit)
  }

  lemma {:induction false} FirstPagesIs<T>(s: seq<T>, limit: Positive, n: nat)
    ensures FirstPages(s, limit, n) == if n * limit <= |s| then s[..n * limit] else s
  {
    if n > 0 {
      FirstPagesIs(s, limit, n - 1);
      assert n * limit == (n - 1) * limit + limit;
    }
  }

  /** `pages` is the least number of pages of that size that hold the list. */
  lemma PagesIsLeast(count: nat, limit: Positive)
    ensures count <= Pages(count, limit) * limit < count + limit
  {
    var p := Pages(count, limit);
    assert count + limit - 1 == p * limit + (count + limit - 1) % limit;
  }

  /** Where page number `page` starts, against the length of the list. */
  lemma PageStart(count: nat, limit: Positive, page: Positive)
    ensures var skip, pages := (page - 1) * limit, Pages(count, limit);
            && (page < pages ==> skip + limit <= count)
            && (page == pages ==> skip < count)
            && (page > pages ==> skip >= count)
  {
    var p := Pages(count, limit);
    PagesIsLeast(count, limit);
    assert p * limit == (p - 1) * limit + limit;
    if page < p {
      assert page * limit == (page - 1) * limit + limit;
      MulMonotone(page, p - 1, limit);
    }
    if page > p { MulMonotone(p, page - 1, limit); }
  }

  lemma PageLength<T>(s: seq<T>, limit: Positive, p: Positive, skip: nat)
    requires skip == (p - 1) * limit
    ensures skip + limit <= |s| ==> |PageOf(s, p, limit)| == limit
    ensures skip < |s| <==> PageOf(s, p, limit) != []
  {
  }

  lemma PageSize<T>(s: seq<T>, limit: Positive, p: Positive)
    ensures p < Pages(|s|, limit) ==> |PageOf(s, p, limit)| == limit
    ensures p == Pages(|s|, limit) ==> PageOf(s, p, limit) != []
    ensures p > Pages(|s|, limit) ==> PageOf(s, p, limit) == []
  {
    PageStart(|s|, limit, p);
    PageLength(s, limit, p, (p - 1) * limit);
  }

  /**
   Pages 1..pages of a list are the list, without gap or repetition; every page but the last is full,
   the last is not empty, and pages beyond are empty.
   */
  lemma PagesCoverList<T>(s: seq<T>, limit: Positive)
    ensures FirstPages(s, limit, Pages(|s|, limit)) == s
    ensures forall p: Positive :: p < Pages(|s|, limit) ==> |PageOf(s, p, limit)| == limit
    ensures forall p: Positive :: p == Pages(|s|, limit) ==> PageOf(s, p, limit) != []
    ensures forall p: Positive :: p > Pages(|s|, limit) ==> PageOf(s, p, limit) == []
  {
    PagesIsLeast(|s|, limit);
    FirstPagesIs(s, limit, Pages(|s|, limit));
    forall p: Positive {
      PageSize(s, limit, p);
    }
  }

  /** What a listing reads from the database, and what its page number p does. */
  function ListData(repo: Repo, docs: map<string, Json>, filter: Json, select: Option<Json>, sort: Option<Json>)
    : seq<Json>
  {
    Projected(repo.engine, repo.engine.list(docs, filter, sort), select)
  }

  function PageData(repo: Repo, docs: map<string, Json>, q: Query): seq<Json>
    requires q.Paged?
  {
    match Direct(repo, docs, q) case Some(PageV(data, _, _, _)) => data case _ => []
  }

  /** The data of the first n pages, one after the other. */
  function FirstPageData(repo: Repo, docs: map<string, Json>, q: Query, n: nat): seq<Json>
    requires q.Paged?
  {
    if n == 0 then [] else FirstPageData(repo, docs, q, n - 1) + PageData(repo, docs, q.(page := n))
  }

  lemma PageDataIs(repo: Repo, docs: map<string, Json>, q: Query)
    requires q.Paged?
    ensures PageData(repo, docs, q) == PageOf(ListData(repo, docs, q.filter, q.select, q.sort), q.page, q.limit)
  {
    var all := repo.engine.list(docs, q.filter, q.sort);
    var data := PageOf(ListData(repo, docs, q.filter, q.select, q.sort), q.page, q.limit);
    assert data == Projected(repo.engine, PageOf(all, q.page, q.limit), q.select);
  }

  lemma {:induction false} FirstPageDataIs(repo: Repo, docs: map<string, Json>, q: Query, n: nat)
    requires q.Paged?
    ensures FirstPageData(repo, docs, q, n)
            == FirstPages(ListData(repo, docs, q.filter, q.select, q.sort), q.limit, n)
  {
    if n > 0 {
      FirstPageDataIs(repo, docs, q, n - 1);
      PageDataIs(repo, docs, q.(page := n));
    }
  }

  /**
   Paging through a listing: the pages that findMultiplePaging reads from the database, 1 to the number of
   pages it reports, are what findMultiple reads; all but the last are full, the last is not empty, and
   further pages are.
   */
  lemma PagedReadsCover(repo: Repo, docs: map<string, Json>, q: Query)
    requires q.Paged?
    ensures var all := ListData(repo, docs, q.filter, q.select, q.sort);
            var data, pages := PageData(repo, docs, q), Pages(|all|, q.limit);
            && Direct(repo, docs, q) == Some(PageV(data, q.page, q.limit, pages))
            && Direct(repo, docs, Listing(q.filter, q.select, q.sort, q.postfix)) == Some(ListV(all))
            && FirstPageData(repo, docs, q, pages) == all
            && (q.page < pages ==> |data| == q.limit)
            && (q.page == pages ==> data != [])
            && (q.page > pages ==> data == [])
  {
    var all := ListData(repo, docs, q.filter, q.select, q.sort);
    PageDataIs(repo, docs, q);
    FirstPageDataIs(repo, docs, q, Pages(|all|, q.limit));
    PagesCoverList(all, q.limit);
  }
}
