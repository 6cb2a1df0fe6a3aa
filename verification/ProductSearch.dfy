/** The product search, whose text goes into a cache key: exactly when its cached result is invalidated. */
module ProductSearch {
  import opened Common
  import opened Json
  import opened CacheKeys
  import opened CacheService
  import opened JsonText
  import opened Repository
  import opened RepositoryTheorems

  // ---------- lines and words ----------

  lemma EndsAfter(s: string, k: nat, j: nat)
    requires k <= |s| && j < |s| && OneLine(s[k..]) && IsLineTerminator(s[j])
    ensures j < k
  {
  }

  lemma Misses(s: string, w: string, i: nat, j: nat)
    requires At(s, w, i) && j < |s| && s[j] !in w
    ensures j < i || i + |w| <= j
  {
  }

  lemma Behind(s: string, a: string, c: char, b: string, i: nat, n: nat)
    requires s == a + [c] + b && |a| + 1 <= i && i + n <= |s|
    ensures s[i..i + n] == b[i - |a| - 1..i - |a| - 1 + n] && s[i + n..] == b[i - |a| - 1 + n..]
  {
    assert s[|a| + 1..] == b;
  }

  lemma TestedBehind(w: string, s: string, a: string, c: char, b: string, i: nat)
    requires s == a + [c] + b && IsLineTerminator(c) && c !in w && w != ""
    requires i <= |s| && At(s, w, i) && OneLine(s[i + |w|..])
    ensures Contains(b, w)
  {
    assert s[|a|] == c;
    EndsAfter(s, i + |w|, |a|);
    Misses(s, w, i, |a|);
    Behind(s, a, c, b, i, |w|);
    assert At(b, w, i - |a| - 1);
  }

  /** With a last line terminator at c, a word is tested for in what follows it only. */
  lemma TestsLastLine(w: string, s: string, a: string, c: char, b: string)
    requires s == a + [c] + b && IsLineTerminator(c) && OneLine(b) && c !in w && w != ""
    ensures Tests(w, s) <==> Contains(b, w)
  {
    if Tests(w, s) {
      var i :| 0 <= i <= |s| && At(s, w, i) && OneLine(s[i + |w|..]);
      TestedBehind(w, s, a, c, b, i);
    }
    if Contains(b, w) {
      var i :| 0 <= i <= |b| && At(b, w, i);
      Behind(s, a, c, b, |a| + 1 + i, |w|);
      assert At(s, w, |a| + 1 + i);
    }
  }

  // ---------- the product search ----------

  const OR := "$or"
  const NAME := "name"
  const REGEX := "$regex"
  const OPTIONS := "$options"
  const CASELESS := "i"
  const ID := "_id"
  const IMAGES := "images"
  const DESCRIPTION := "description"

  const SEARCH_OPTIONS := Field(OPTIONS, JString(CASELESS), NoFields)
  const SEARCH_SELECT := JArray(Cons(JString(ID), Cons(JString(NAME), Cons(JString(IMAGES), Cons(JString(DESCRIPTION),
                                                                                                   Nil)))))

  /** A listing of what satisfies one condition on one field, as the only alternative of a disjunction. */
  function OrQuery(o: string, n: string, r: string, text: string, options: Fields, select: Json): Query {
    var regex := JObject(Field(r, JString(text), options));
    Listing(JObject(Field(o, JArray(Cons(JObject(Field(n, regex, NoFields)), Nil)), NoFields)), Some(select), None, "")
  }

  /** The listing that searchProduct asks for, when the search text is not an object id. */
  function SearchQuery(text: string): Query { OrQuery(OR, NAME, REGEX, text, SEARCH_OPTIONS, SEARCH_SELECT) }

  /** What the text of such a query has behind the quoted search text. */
  function OrRest(options: Fields, select: Json): string {
    FieldsTail(options) + ("}" + ("]" + ("}" + FieldsTail(Field("select", select, NoFields)))))
  }

  lemma OrText(o: string, n: string, r: string, text: string, options: Fields)
    ensures Stringify(JObject(Field(o, JArray(Cons(JObject(Field(n, JObject(Field(r, JString(text), options)),
                                                                 NoFields)), Nil)), NoFields)))
            == "{" + (Quote(o) + ":" + ("[" + ("{" + (Quote(n) + ":" + ("{" + (Quote(r) + ":" + Quote(text)
                 + FieldsTail(options))) + "}") + "]")) + "}")
  {
    FieldText(r, JString(text), options);
    var regex := JObject(Field(r, JString(text), options));
    FieldText(n, regex, NoFields);
    var name := JObject(Field(n, regex, NoFields));
    FieldText(o, JArray(Cons(name, Nil)), NoFields);
  }

  lemma OrNesting(key: string, f: string, o: string, n: string, r: string, e: string, t: string, u: string)
    ensures key + ("{" + (f + ":" + ("{" + (o + ":" + ("[" + ("{" + (n + ":" + ("{" + (r + ":" + ("\"" + e + "\"") + t))
                                                                   + "}") + "]")) + "}")) + u))
            == (key + ("{" + (f + (":" + ("{" + (o + (":" + ("[" + ("{" + (n + (":" + ("{" + (r
                 + (":" + "\""))))))))))))))
               + e + ("\"" + (t + ("}" + ("]" + ("}" + u)))))
  {
  }

  lemma ListingPrefix(n: string, p: string, text: string)
    ensures n + (p + ("listing:" + (text + ""))) == n + p + "listing:" + text
  {
  }

  lemma OrQueryText(o: string, n: string, r: string, text: string, options: Fields, select: Json)
    ensures Text(OrQuery(o, n, r, text, options, select))
            == "{" + (Quote("filter") + ":"
                      + ("{" + (Quote(o) + ":" + ("[" + ("{" + (Quote(n) + ":" + ("{" + (Quote(r) + ":" + Quote(text)
                           + FieldsTail(options))) + "}") + "]")) + "}"))
                      + FieldsTail(Field("select", select, NoFields)))
  {
    OrText(o, n, r, text, options);
    FieldText("filter", OrQuery(o, n, r, text, options, select).filter, Field("select", select, NoFields));
  }

  lemma OrKey(repo: Repo, o: string, n: string, r: string, text: string, options: Fields, select: Json)
    returns (head: string)
    ensures RedisKey(repo, OrQuery(o, n, r, text, options, select))
            == head + Escape(text) + ("\"" + OrRest(options, select))
  {
    var q := OrQuery(o, n, r, text, options, select);
    var key := InNamespace(repo.namespace) + Before(repo.prefix) + "listing:";
    KeyShape(repo.prefix, q);
    ListingPrefix(InNamespace(repo.namespace), Before(repo.prefix), Text(q));
    OrQueryText(o, n, r, text, options, select);
    OrNesting(key, Quote("filter"), Quote(o), Quote(n), Quote(r), Escape(text), FieldsTail(options),
              FieldsTail(Field("select", select, NoFields)));
    head := key + ("{" + (Quote("filter") + (":" + ("{" + (Quote(o) + (":" + ("[" + ("{" + (Quote(n)
                 + (":" + ("{" + (Quote(r) + (":" + "\"")))))))))))));
  }

  /** Words that stand behind the search text. */
  lemma OrRestWords(options: Fields, select: Json, w: string)
    requires IsWord(w)
    ensures Contains(OrRest(options, select), w)
            <==> FieldsMention(options, w) || FieldsMention(Field("select", select, NoFields), w)
  {
    var selected := Field("select", select, NoFields);
    var u := FieldsTail(selected);
    FieldsWords(options, "}" + ("]" + ("}" + u)), w);
    WordInFront('}', "]" + ("}" + u), w);
    WordInFront(']', "}" + u, w);
    WordInFront('}', u, w);
    FieldsWordsAtEnd(selected, w);
  }

  lemma FieldsWordsAtEnd(f: Fields, w: string)
    requires IsWord(w)
    ensures Contains(FieldsTail(f), w) <==> FieldsMention(f, w)
  {
    FieldsWords(f, "}", w);
    WordBefore(FieldsTail(f), "}", w);
    WordInFront('}', "", w);
    assert "}" == ['}'] + "";
    assert !Contains("", w);
  }

  lemma ClosedLine(t: string, u: string)
    requires OneLine(t) && OneLine(u)
    ensures OneLine(t + ("}" + ("]" + ("}" + u))))
  {
  }

  lemma OrRestLine(options: Fields, select: Json)
    requires FieldsSeparatorFree(options) && SeparatorFree(select)
    ensures OneLine(OrRest(options, select))
  {
    var selected := Field("select", select, NoFields);
    FieldsLines(options);
    FieldsLines(selected);
    ClosedLine(FieldsTail(options), FieldsTail(selected));
  }

  /** A text that is printed as it is, on one line, and has no place for the word. */
  predicate Lacks(s: string, w: string) {
    NeedsNoEscape(s) && NoSeparators(s) && w != "" && (|w| > |s| || w[0] !in s)
  }

  lemma EscapedLacks(s: string, w: string)
    requires Lacks(s, w)
    ensures !Contains(Escape(s), w)
  {
    Unescaped(s);
    forall i | 0 <= i && i + |w| <= |s| ensures !At(s, w, i) {
      assert s[i..i + |w|][0] == s[i];
    }
  }

  lemma OneFieldLacks(n: string, value: string, w: string)
    requires Lacks(n, w) && Lacks(value, w)
    ensures var f := Field(n, JString(value), NoFields); !FieldsMention(f, w) && FieldsSeparatorFree(f)
  {
    EscapedLacks(n, w);
    EscapedLacks(value, w);
  }

  lemma ElemLacks(a: string, e: Elems, w: string)
    requires Lacks(a, w) && !ElemsMention(e, w) && ElemsSeparatorFree(e)
    ensures !ElemsMention(Cons(JString(a), e), w) && ElemsSeparatorFree(Cons(JString(a), e))
  {
    EscapedLacks(a, w);
  }

  lemma FourElemsLack(a: string, b: string, c: string, d: string, w: string)
    requires Lacks(a, w) && Lacks(b, w) && Lacks(c, w) && Lacks(d, w)
    ensures var j := JArray(Cons(JString(a), Cons(JString(b), Cons(JString(c), Cons(JString(d), Nil)))));
            !Mentions(j, w) && SeparatorFree(j)
  {
    ElemLacks(d, Nil, w);
    ElemLacks(c, Cons(JString(d), Nil), w);
    ElemLacks(b, Cons(JString(c), Cons(JString(d), Nil)), w);
    ElemLacks(a, Cons(JString(b), Cons(JString(c), Cons(JString(d), Nil))), w);
  }

  /** The words of patterns: `listing`, and anything as long as an object id. */
  predicate IsPatternWord(w: string) { IsWord(w) && (|w| > 11 || w == "listing") }

  lemma OptionNamesLack(w: string)
    requires IsPatternWord(w)
    ensures Lacks(OPTIONS, w) && Lacks(CASELESS, w)
  {
  }

  lemma SelectNamesLack(w: string)
    requires IsPatternWord(w)
    ensures Lacks(ID, w) && Lacks(NAME, w) && Lacks(IMAGES, w) && Lacks(DESCRIPTION, w)
  {
  }

  lemma SearchLacks(w: string)
    requires IsPatternWord(w)
    ensures !FieldsMention(SEARCH_OPTIONS, w) && FieldsSeparatorFree(SEARCH_OPTIONS)
    ensures !Mentions(SEARCH_SELECT, w) && SeparatorFree(SEARCH_SELECT)
  {
    OptionNamesLack(w);
    SelectNamesLack(w);
    OneFieldLacks(OPTIONS, CASELESS, w);
    FourElemsLack(ID, NAME, IMAGES, DESCRIPTION, w);
  }

  lemma NameLacks(n: string, value: Json, w: string)
    requires Lacks(n, w) && !Mentions(value, w)
    ensures !FieldsMention(Field(n, value, NoFields), w)
  {
    EscapedLacks(n, w);
  }

  lemma SelectLacks(w: string)
    requires IsPatternWord(w)
    ensures Lacks("select", w)
  {
  }

  /** The search text after its last separator. */
  function LastLine(s: string): string {
    if s == "" || IsSeparator(s[|s| - 1]) then "" else LastLine(s[..|s| - 1]) + [s[|s| - 1]]
  }

  lemma {:induction false} LastLineSplit(s: string) returns (a: string, c: char)
    requires !NoSeparators(s)
    ensures IsSeparator(c) && NoSeparators(LastLine(s)) && s == a + [c] + LastLine(s)
  {
    var n := |s| - 1;
    if IsSeparator(s[n]) {
      a, c := s[..n], s[n];
      assert s == s[..n] + [s[n]] + "";
    } else {
      a, c := LastLineSplit(s[..n]);
      assert s == s[..n] + [s[n]];
      Regroup(a + [c], LastLine(s[..n]), [s[n]]);
    }
  }

  lemma EscapeLastLine(s: string) returns (front: string, c: char)
    requires !NoSeparators(s)
    ensures IsSeparator(c) && OneLine(Escape(LastLine(s))) && Escape(s) == front + [c] + Escape(LastLine(s))
  {
    var a;
    a, c := LastLineSplit(s);
    EscapeAppend(a + [c], LastLine(s));
    EscapeAppend(a, [c]);
    EscapeCons(c, "");
    assert [c] + "" == [c];
    EscapedLines(LastLine(s));
    front := Escape(a);
  }

  /** In any text around an escaped string with separators, a word is tested for after the last of them only. */
  lemma ReachedAfter(key: string, head: string, text: string, rest: string, w: string)
    requires key == head + Escape(text) + ("\"" + rest) && !NoSeparators(text)
    requires OneLine(rest) && !Contains(rest, w) && IsWord(w)
    ensures Tests(w, key) <==> Contains(Escape(LastLine(text)), w)
  {
    var front, c := EscapeLastLine(text);
    var last := Escape(LastLine(text));
    OneLineParts("\"", rest);
    OneLineParts(last, "\"" + rest);
    SeparatorShape(head, front, c, last, "\"" + rest);
    TestsLastLine(w, key, head + front, c, last + ("\"" + rest));
    WordInParts(last, '"', rest, w);
    Regroup(last, "\"", rest);
  }

  lemma SeparatorShape(head: string, front: string, c: char, last: string, rest: string)
    ensures head + (front + [c] + last) + rest == (head + front) + [c] + (last + rest)
  {
  }

  lemma OrIsPlain(o: string, n: string, r: string, text: string, options: Fields, select: Json)
    requires NoSeparators(o) && NoSeparators(n) && NoSeparators(r) && NoSeparators(text)
    requires FieldsSeparatorFree(options) && SeparatorFree(select)
    ensures SeparatorFree(JObject(KeyFields(OrQuery(o, n, r, text, options, select))))
  {
    var regex := JObject(Field(r, JString(text), options));
    var name := JObject(Field(n, regex, NoFields));
    assert SeparatorFree(JString(text));
    ObjectIsPlain(r, JString(text), options);
    ObjectIsPlain(n, regex, NoFields);
    assert ElemsSeparatorFree(Cons(name, Nil));
    var filter := JObject(Field(o, JArray(Cons(name, Nil)), NoFields));
    ObjectIsPlain(o, JArray(Cons(name, Nil)), NoFields);
    var q := OrQuery(o, n, r, text, options, select);
    assert KeyFields(q) == Field("filter", filter, Field("select", select, NoFields));
    PlainLetters();
    ObjectIsPlain("select", select, NoFields);
    ObjectIsPlain("filter", filter, Field("select", select, NoFields));
  }

  lemma ObjectIsPlain(n: string, v: Json, rest: Fields)
    requires NoSeparators(n) && SeparatorFree(v) && FieldsSeparatorFree(rest)
    ensures SeparatorFree(JObject(Field(n, v, rest))) && FieldsSeparatorFree(Field(n, v, rest))
  {
  }

  lemma PlainLetters()
    ensures NoSeparators("filter") && NoSeparators("select")
  {
  }

  lemma SearchWithout(repo: Repo, text: string)
    requires NoSeparators(text)
    ensures Invalidated(repo, SearchQuery(text))
  {
    IsPatternListing();
    SearchLacks("listing");
    OptionNamesLack("listing");
    SelectNamesLack("listing");
    SearchNamesPlain();
    OrIsPlain(OR, NAME, REGEX, text, SEARCH_OPTIONS, SEARCH_SELECT);
    TextLines(JObject(KeyFields(SearchQuery(text))));
    ListingReached(repo, SearchQuery(text));
  }

  lemma SearchNamesPlain()
    ensures NoSeparators(OR) && NoSeparators(NAME) && NoSeparators(REGEX)
  {
  }

  lemma IsPatternListing()
    ensures IsPatternWord("listing")
  {
  }

  lemma SearchWith(repo: Repo, text: string, w: string)
    requires !NoSeparators(text) && IsPatternWord(w)
    ensures Tests(w, RedisKey(repo, SearchQuery(text))) <==> Contains(Escape(LastLine(text)), w)
  {
    var head := OrKey(repo, OR, NAME, REGEX, text, SEARCH_OPTIONS, SEARCH_SELECT);
    SearchLacks(w);
    SelectLacks(w);
    NameLacks("select", SEARCH_SELECT, w);
    OrRestWords(SEARCH_OPTIONS, SEARCH_SELECT, w);
    OrRestLine(SEARCH_OPTIONS, SEARCH_SELECT);
    ReachedAfter(RedisKey(repo, SearchQuery(text)), head, text, OrRest(SEARCH_OPTIONS, SEARCH_SELECT), w);
  }

  /**
   When the pattern for listings reaches a product search, exactly: the search text has no Unicode line or
   paragraph separator, or `listing` stands after the last one.
   */
  lemma SearchInvalidatedExactly(repo: Repo, text: string)
    ensures Invalidated(repo, SearchQuery(text)) <==> NoSeparators(text) || Contains(Escape(LastLine(text)), "listing")
  {
    if NoSeparators(text) {
      SearchWithout(repo, text);
    } else {
      IsPatternListing();
      SearchWith(repo, text, "listing");
    }
  }

  /** The same for the pattern of a written document. */
  lemma SearchReachedById(repo: Repo, text: string, id: string)
    requires IsObjectId(id) && !NoSeparators(text)
    ensures Tests(id, RedisKey(repo, SearchQuery(text))) <==> Contains(Escape(LastLine(text)), id)
  {
    assert IsPatternWord(id);
    SearchWith(repo, text, id);
  }

  /** The word stands in the search text after its last separator. */
  predicate StandsLast(text: string, w: string) { Contains(Escape(LastLine(text)), w) }

  lemma SearchReachedExactly(repo: Repo, s: State, e: Event, text: string)
    requires WrittenId(repo, s, e).Some? ==> IsObjectId(WrittenId(repo, s, e).value)
    ensures Reached(repo, s, e, SearchQuery(text)) <==>
              || NoSeparators(text) || StandsLast(text, "listing")
              || (WrittenId(repo, s, e).Some? && StandsLast(text, WrittenId(repo, s, e).value))
  {
    SearchInvalidatedExactly(repo, text);
    var id := WrittenId(repo, s, e);
    if id.Some? && !NoSeparators(text) { SearchReachedById(repo, text, id.value); }
  }

  /**
   In every reachable state and for every write: a cached product search answers like the database after the
   write if and only if its text has no Unicode separator, or the word of one of the patterns stands after
   the last one, or the answer is the cached one anyway.
   */
  lemma SearchFreshExactly(repo: Repo, docs: map<string, Json>, events: seq<Event>, e: Event, text: string)
    requires var s := Run(repo, docs, events);
             && Writes(repo, s, e) && RedisKey(repo, SearchQuery(text)) in s.cache
             && (WrittenId(repo, s, e).Some? ==> IsObjectId(WrittenId(repo, s, e).value))
    ensures var s, q := Run(repo, docs, events), SearchQuery(text);
            var s', id := Step(repo, s, e), WrittenId(repo, s, e);
            Fetch(repo, s', q, false).1 == Direct(repo, s'.docs, q) <==>
              || NoSeparators(text) || StandsLast(text, "listing") || (id.Some? && StandsLast(text, id.value))
              || Direct(repo, s'.docs, q) == Some(s.cache[RedisKey(repo, q)])
  {
    ListingFreshExactly(repo, docs, events, e, SearchQuery(text));
    SearchReachedExactly(repo, Run(repo, docs, events), e, text);
  }

  // ---------- a stale search ----------

  const SHELF_ID := "000000000000000000000000"

  function Whole(document: Json, select: Option<Json>): Json { document }

  function OnShelf(docs: map<string, Json>, filter: Json, sort: Option<Json>): seq<Json> {
    if SHELF_ID in docs then [docs[SHELF_ID]] else []
  }

  function NonePicked(docs: map<string, Json>, filter: Json): Option<string> { None }

  /** A database whose searches find the document under one id, if there is one. */
  const SHELF := Engine(Whole, OnShelf, NonePicked)

  function Rewritten(document: Json): Json { JInt(2) }

  const SEPARATOR := "\U{2028}"

  lemma ShelfListing(repo: Repo, n: nat, q: Query)
    requires repo.engine == SHELF && q.Listing?
    ensures Direct(repo, map[SHELF_ID := JInt(n)], q) == Some(ListV([JInt(n)]))
  {
    var docs := map[SHELF_ID := JInt(n)];
    assert SHELF.list(docs, q.filter, q.sort) == OnShelf(docs, q.filter, q.sort) == [JInt(n)];
    assert SHELF.project(JInt(n), q.select) == Whole(JInt(n), q.select) == JInt(n);
    assert Projected(SHELF, [JInt(n)], q.select) == [JInt(n)];
  }

  lemma ReadFirst(repo: Repo, q: Query)
    requires repo.engine == SHELF && q.Listing?
    ensures Run(repo, map[SHELF_ID := JInt(1)], [Read(q, false)])
            == State(map[SHELF_ID := JInt(1)], map[RedisKey(repo, q) := ListV([JInt(1)])])
  {
    ShelfListing(repo, 1, q);
    assert [Read(q, false)][..0] == [];
  }

  /** A listing that no pattern of an update reaches is answered as before the update. */
  lemma StaleListing(repo: Repo, q: Query, e: Event)
    requires repo.engine == SHELF && q.Listing? && e == Update(Id(SHELF_ID), Rewritten)
    requires var s := State(map[SHELF_ID := JInt(1)], map[RedisKey(repo, q) := ListV([JInt(1)])]);
             Good(repo, s) && !Reached(repo, s, e, q)
    ensures var s := State(map[SHELF_ID := JInt(1)], map[RedisKey(repo, q) := ListV([JInt(1)])]);
            var s' := Step(repo, s, e);
            && Fetch(repo, s', q, false).1 == Some(ListV([JInt(1)]))
            && Direct(repo, s'.docs, q) == Some(ListV([JInt(2)]))
  {
    var docs := map[SHELF_ID := JInt(1)];
    WriteSurvivesExactly(repo, State(docs, map[RedisKey(repo, q) := ListV([JInt(1)])]), e, q);
    ShelfListing(repo, 2, q);
    assert docs[SHELF_ID := JInt(2)] == map[SHELF_ID := JInt(2)];
  }

  lemma NothingStandsLast(w: string)
    requires w != ""
    ensures !NoSeparators(SEPARATOR) && !StandsLast(SEPARATOR, w)
  {
    assert IsSeparator(SEPARATOR[0]);
    assert LastLine(SEPARATOR) == "" && Escape("") == "";
  }

  lemma ShelfId()
    ensures IsObjectId(SHELF_ID)
  {
  }

  lemma SeparatorUnreached(repo: Repo, s: State, e: Event)
    requires e == Update(Id(SHELF_ID), Rewritten) && SHELF_ID in s.docs
    ensures !Reached(repo, s, e, SearchQuery(SEPARATOR))
  {
    ShelfId();
    SearchReachedExactly(repo, s, e, SEPARATOR);
    NothingStandsLast(SHELF_ID);
    NothingStandsLast("listing");
  }

  /** A search for a line separator, an update, and the search again: it answers what it did before the update. */
  lemma StaleSearch(repo: Repo)
    requires repo.engine == SHELF
    ensures var q := SearchQuery(SEPARATOR);
            var s := Step(repo, Run(repo, map[SHELF_ID := JInt(1)], [Read(q, false)]), Update(Id(SHELF_ID), Rewritten));
            && Fetch(repo, s, q, false).1 == Some(ListV([JInt(1)]))
            && Direct(repo, s.docs, q) == Some(ListV([JInt(2)]))
  {
    StaleRun(repo, SearchQuery(SEPARATOR), Update(Id(SHELF_ID), Rewritten));
  }

  lemma StaleRun(repo: Repo, q: Query, e: Event)
    requires repo.engine == SHELF && q == SearchQuery(SEPARATOR) && e == Update(Id(SHELF_ID), Rewritten)
    ensures var s := Step(repo, Run(repo, map[SHELF_ID := JInt(1)], [Read(q, false)]), e);
            && Fetch(repo, s, q, false).1 == Some(ListV([JInt(1)]))
            && Direct(repo, s.docs, q) == Some(ListV([JInt(2)]))
  {
    ReadFirst(repo, q);
    RunIsGood(repo, map[SHELF_ID := JInt(1)], [Read(q, false)]);
    SeparatorUnreached(repo, Run(repo, map[SHELF_ID := JInt(1)], [Read(q, false)]), e);
    StaleListing(repo, q, e);
  }
}
