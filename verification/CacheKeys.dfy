/** The cache keys of a repository's reads, and the proof that no two reads share one. */
module CacheKeys {
  import opened Common
  import opened Json

  // ---------- joinCacheKey ----------

  function NonEmpty(segments: seq<string>): seq<string> {
    if segments == [] then []
    else (if segments[0] == "" then [] else [segments[0]]) + NonEmpty(segments[1..])
  }

  function Join(parts: seq<string>): string {
    if parts == [] then "" else if |parts| == 1 then parts[0] else parts[0] + ":" + Join(parts[1..])
  }

  function JoinCacheKey(segments: seq<string>): string { Join(NonEmpty(segments)) }

  // ---------- queries ----------

  datatype Query =
    | ById(id: string, select: Option<Json>, postfix: string)
    | ByFilter(where: Fields, select: Option<Json>, postfix: string)
    | Listing(filter: Json, select: Option<Json>, sort: Option<Json>, postfix: string)
    | Paged(page: Positive, limit: Positive, filter: Json, select: Option<Json>, sort: Option<Json>, postfix: string)

  /** A property that JSON.stringify leaves out when its value is undefined. */
  function Optional(name: string, value: Option<Json>, rest: Fields): Fields {
    if value.None? then rest else Field(name, value.value, rest)
  }

  /** The object whose text goes into the key. */
  function KeyFields(q: Query): Fields {
    match q
    case ById(id, select, _) => Field("idOrFilter", JString(id), Optional("select", select, NoFields))
    case ByFilter(where, select, _) => Field("idOrFilter", JObject(where), Optional("select", select, NoFields))
    case Listing(filter, select, sort, _) =>
      Field("filter", filter, Optional("select", select, Optional("sort", sort, NoFields)))
    case Paged(page, limit, filter, select, sort, _) =>
      Field("pagination", JObject(Field("page", JInt(page), Field("limit", JInt(limit), NoFields))),
            Field("filter", filter, Optional("select", select, Optional("sort", sort, NoFields))))
  }

  predicate IsListing(q: Query) { q.Listing? || q.Paged? }

  function Text(q: Query): string { Stringify(JObject(KeyFields(q))) }

  function Key(prefix: string, q: Query): string {
    if IsListing(q) then JoinCacheKey([prefix, "listing", Text(q), q.postfix])
    else JoinCacheKey([prefix, Text(q), q.postfix])
  }

  /** The key under which `create` caches a document. */
  function DocumentKey(prefix: string, id: string): string { JoinCacheKey([prefix, id]) }

  // ---------- the shape of a key ----------

  function Before(prefix: string): string { if prefix == "" then "" else prefix + ":" }

  function After(postfix: string): string { if postfix == "" then "" else ":" + postfix }

  lemma JoinTwo(a: string, b: string)
    requires b != ""
    ensures JoinCacheKey([a, b]) == Before(a) + b
  {
    assert [a, b][1..] == [b] && [b][1..] == [];
    assert NonEmpty([b]) == [b];
    if a != "" {
      assert NonEmpty([a, b]) == [a, b];
      assert Join([a, b]) == a + ":" + Join([b]);
    } else {
      assert NonEmpty([a, b]) == [b];
    }
  }

  lemma JoinPostfix(b: string, c: string)
    requires b != ""
    ensures JoinCacheKey([b, c]) == b + After(c)
  {
    assert [b, c][1..] == [c] && [c][1..] == [];
    assert NonEmpty([c]) == if c == "" then [] else [c];
    if c != "" {
      assert NonEmpty([b, c]) == [b, c];
      assert Join([b, c]) == b + ":" + Join([c]);
      assert b + ":" + c == b + (":" + c);
    } else {
      assert NonEmpty([b, c]) == [b];
    }
  }

  lemma JoinMore(a: string, rest: seq<string>)
    requires rest != [] && rest[0] != ""
    ensures JoinCacheKey([a] + rest) == Before(a) + JoinCacheKey(rest)
  {
    assert NonEmpty(rest)[0] == rest[0];
    assert ([a] + rest)[1..] == rest;
    if a != "" {
      var parts := NonEmpty([a] + rest);
      assert parts == [a] + NonEmpty(rest) && parts[1..] == NonEmpty(rest);
      assert Join(parts) == a + ":" + Join(parts[1..]);
    } else {
      assert NonEmpty([a] + rest) == NonEmpty(rest);
    }
  }

  function Body(q: Query): string { (if IsListing(q) then "listing:" else "") + (Text(q) + After(q.postfix)) }

  lemma FindKeyShape(prefix: string, text: string, postfix: string)
    requires text != ""
    ensures JoinCacheKey([prefix, text, postfix]) == Before(prefix) + (text + After(postfix))
  {
    JoinPostfix(text, postfix);
    assert [prefix, text, postfix] == [prefix] + [text, postfix];
    JoinMore(prefix, [text, postfix]);
  }

  lemma ListingKeyShape(prefix: string, text: string, postfix: string)
    requires text != ""
    ensures JoinCacheKey([prefix, "listing", text, postfix])
            == Before(prefix) + ("listing:" + (text + After(postfix)))
  {
    FindKeyShape("listing", text, postfix);
    assert [prefix, "listing", text, postfix] == [prefix] + ["listing", text, postfix];
    JoinMore(prefix, ["listing", text, postfix]);
  }

  lemma KeyShape(prefix: string, q: Query)
    ensures Key(prefix, q) == Before(prefix) + Body(q)
  {
    if IsListing(q) {
      ListingKeyShape(prefix, Text(q), q.postfix);
    } else {
      FindKeyShape(prefix, Text(q), q.postfix);
      assert "" + (Text(q) + After(q.postfix)) == Text(q) + After(q.postfix);
    }
  }

  lemma BodyStarts(q: Query)
    ensures Body(q) != "" && Body(q)[0] == (if IsListing(q) then 'l' else '{')
  {
  }

  lemma KeyFieldsUnique(q: Query, r: Query)
    requires KeyFields(q) == KeyFields(r) && q.postfix == r.postfix
    ensures q == r
  {
    assert "filter" != "idOrFilter" && "filter" != "pagination" && "pagination" != "idOrFilter";
    assert "select" != "sort";
  }

  lemma CancelPrefix(p: string, x: string, y: string)
    requires p + x == p + y
    ensures x == y
  {
    assert x == (p + x)[|p|..] && y == (p + y)[|p|..];
  }

  lemma BodyUnique(q: Query, r: Query)
    requires Body(q) == Body(r)
    ensures q == r
  {
    BodyStarts(q);
    BodyStarts(r);
    assert Text(q) + After(q.postfix) == Text(r) + After(r.postfix) by {
      if IsListing(q) {
        CancelPrefix("listing:", Text(q) + After(q.postfix), Text(r) + After(r.postfix));
      } else {
        assert "" + (Text(q) + After(q.postfix)) == Text(q) + After(q.postfix);
        assert "" + (Text(r) + After(r.postfix)) == Text(r) + After(r.postfix);
      }
    }
    StringifyUnique(JObject(KeyFields(q)), After(q.postfix), JObject(KeyFields(r)), After(r.postfix));
    AfterUnique(q.postfix, r.postfix);
    KeyFieldsUnique(q, r);
  }

  lemma AfterUnique(p: string, q: string)
    requires After(p) == After(q)
    ensures p == q
  {
    if p != "" && q != "" { CancelPrefix(":", p, q); }
  }

  /** Find, listing and paged reads never share a key: the key determines the whole query. */
  lemma KeyUnique(prefix: string, q: Query, r: Query)
    requires Key(prefix, q) == Key(prefix, r)
    ensures q == r
  {
    KeyShape(prefix, q);
    KeyShape(prefix, r);
    CancelPrefix(Before(prefix), Body(q), Body(r));
    BodyUnique(q, r);
  }

  /** An object id, as text: 24 lower-case hexadecimal digits. */
  predicate IsObjectId(id: string) {
    |id| == 24 && forall i :: 0 <= i < 24 ==> '0' <= id[i] <= '9' || 'a' <= id[i] <= 'f'
  }

  /** A document cached by `create` is never found by a read. */
  lemma DocumentKeyUnread(prefix: string, id: string, q: Query)
    requires IsObjectId(id)
    ensures DocumentKey(prefix, id) != Key(prefix, q)
  {
    JoinTwo(prefix, id);
    KeyShape(prefix, q);
    BodyStarts(q);
    if DocumentKey(prefix, id) == Key(prefix, q) {
      CancelPrefix(Before(prefix), id, Body(q));
      assert false;
    }
  }
}
