/**
 What the requests of a repository leave stored and what reads answer afterwards, told document by
 document, in every reachable state.
 */
module RepositoryWrites {
  import opened Common
  import opened Json
  import opened CacheKeys
  import opened CacheService
  import opened JsonText
  import opened Repository
  import opened RepositoryTheorems

  lemma RunOne(repo: Repo, docs: map<string, Json>, events: seq<Event>, e: Event)
    ensures Run(repo, docs, events + [e]) == Step(repo, Run(repo, docs, events), e)
  {
    assert (events + [e])[..|events|] == events;
  }

  // ---------- reads ----------

  /** A read that writes invalidate: by object id, a listing or a page, without Unicode separators. */
  ghost predicate PlainRead(q: Query) {
    && SeparatorFree(JObject(KeyFields(q))) && OneLine(q.postfix)
    && (IsListing(q) || (q.ById? && IsObjectId(q.id)))
  }

  /** The answer to a read by id is the stored document, as selected; to a listing, the documents that match. */
  ghost predicate Answers(e: Engine, docs: map<string, Json>, q: Query, answer: Option<Value>) {
    match q
    case ById(id, select, _) =>
      answer == if id in docs then Some(DocumentV(e.project(docs[id], select))) else None
    case Listing(filter, select, sort, _) =>
      && answer.Some? && answer.value.ListV?
      && |answer.value.documents| == |e.list(docs, filter, sort)|
      && forall i :: 0 <= i < |answer.value.documents| ==>
           answer.value.documents[i] == e.project(e.list(docs, filter, sort)[i], select)
    case Paged(page, limit, _, _, _, _) =>
      answer.Some? && answer.value.PageV? && answer.value.page == page && answer.value.limit == limit
    case ByFilter(where, select, _) =>
      var found := e.pick(docs, JObject(where));
      answer == if found.Some? && found.value in docs then Some(DocumentV(e.project(docs[found.value], select)))
                else None
  }

  lemma DirectAnswers(repo: Repo, docs: map<string, Json>, q: Query)
    ensures Answers(repo.engine, docs, q, Direct(repo, docs, q))
  {
  }

  /** In every run a plain read, and any forced one, answers from what is stored. */
  lemma ReadsAnswer(repo: Repo, docs: map<string, Json>, events: seq<Event>, q: Query, force: bool)
    requires PlainRead(q) || force
    ensures var s := Run(repo, docs, events);
            Answers(repo.engine, s.docs, q, Fetch(repo, s, q, force).1)
  {
    var s := Run(repo, docs, events);
    DirectAnswers(repo, s.docs, q);
    if PlainRead(q) {
      PlainReadsAreTransparent(repo, docs, events, q, force);
    }
  }

  /** There is something to keep: a document, or a list or page with one. */
  predicate Found(v: Option<Value>) {
    v.Some? && (v.value.ListV? ==> |v.value.documents| > 0) && (v.value.PageV? ==> |v.value.data| > 0)
  }

  /**
   A read changes no document.  What it finds is kept, and answers the same unforced read without the
   database, whatever is stored by then; what it does not find is not kept; other entries stay.
   */
  lemma ReadsAreKept(repo: Repo, s: State, q: Query, force: bool, docs: map<string, Json>)
    ensures var (s', v) := Fetch(repo, s, q, force);
            && s'.docs == s.docs
            && (Found(v) ==> Fetch(repo, s'.(docs := docs), q, false) == (s'.(docs := docs), v))
            && (!Found(v) ==> s'.cache == s.cache)
            && (forall k :: k != RedisKey(repo, q) ==>
                  (k in s'.cache <==> k in s.cache) && (k in s.cache ==> s'.cache[k] == s.cache[k]))
  {
  }

  // ---------- writes ----------

  /** Only the one document may differ. */
  ghost predicate OthersStay(docs: map<string, Json>, later: map<string, Json>, id: string) {
    forall k :: k != id ==> (k in later <==> k in docs) && (k in docs ==> later[k] == docs[k])
  }

  /** The document a request is about: the one with that id, or the one the filter picks. */
  function Subject(e: Engine, docs: map<string, Json>, t: Which): Option<string> {
    match t
    case Id(id) => if id in docs then Some(id) else None
    case Where(filter) =>
      match e.pick(docs, filter) case Some(id) => (if id in docs then Some(id) else None) case None => None
  }

  ghost predicate ReadsNothing(repo: Repo, s: State, id: string) {
    forall select, postfix :: PlainRead(ById(id, select, postfix)) ==>
      Fetch(repo, s, ById(id, select, postfix), false).1 == None
  }

  ghost predicate ReadsBack(repo: Repo, s: State, id: string, document: Json) {
    forall select, postfix :: PlainRead(ById(id, select, postfix)) ==>
      Fetch(repo, s, ById(id, select, postfix), false).1 == Some(DocumentV(repo.engine.project(document, select)))
  }

  lemma ReadsTheStored(repo: Repo, docs: map<string, Json>, events: seq<Event>, id: string)
    ensures var s := Run(repo, docs, events);
            && (id !in s.docs ==> ReadsNothing(repo, s, id))
            && (id in s.docs ==> ReadsBack(repo, s, id, s.docs[id]))
  {
    forall select, postfix | PlainRead(ById(id, select, postfix))
      ensures var s := Run(repo, docs, events);
              Answers(repo.engine, s.docs, ById(id, select, postfix),
                      Fetch(repo, s, ById(id, select, postfix), false).1)
    {
      ReadsAnswer(repo, docs, events, ById(id, select, postfix), false);
    }
  }

  lemma DeleteStored(repo: Repo, s: State, t: Which)
    ensures var (s', deleted) := DeleteStep(repo, s, t);
            var subject := Subject(repo.engine, s.docs, t);
            && (deleted <==> subject.Some?)
            && (deleted ==> subject.value !in s'.docs && OthersStay(s.docs, s'.docs, subject.value))
            && (!deleted ==> s' == s)
  {
  }

  /**
   A deletion answers true exactly when its subject is stored; then the subject is stored no more, reads of it
   answer null, and every other document is as before.  Otherwise nothing changes.
   */
  lemma DeleteExactly(repo: Repo, docs: map<string, Json>, events: seq<Event>, t: Which)
    ensures var s := Run(repo, docs, events);
            var (s', deleted) := DeleteStep(repo, s, t);
            var subject := Subject(repo.engine, s.docs, t);
            && (deleted <==> subject.Some?)
            && (deleted ==>
                  && subject.value !in s'.docs && OthersStay(s.docs, s'.docs, subject.value)
                  && ReadsNothing(repo, s', subject.value))
            && (!deleted ==> s' == s)
  {
    var s := Run(repo, docs, events);
    var subject := Subject(repo.engine, s.docs, t);
    DeleteStored(repo, s, t);
    RunOne(repo, docs, events, Delete(t));
    if subject.Some? { ReadsTheStored(repo, docs, events + [Delete(t)], subject.value); }
  }

  /**
   An update answers with the changed document exactly when its subject is stored; then that is what is stored
   and what reads of it answer, and every other document is as before.  Otherwise nothing changes.
   */
  lemma UpdateExactly(repo: Repo, docs: map<string, Json>, events: seq<Event>, t: Which, change: Json -> Json)
    ensures var s := Run(repo, docs, events);
            var (s', updated) := UpdateStep(repo, s, t, change);
            var subject := Subject(repo.engine, s.docs, t);
            && (updated.Some? <==> subject.Some?)
            && (updated.Some? ==>
                  && updated.value == change(s.docs[subject.value])
                  && subject.value in s'.docs && s'.docs[subject.value] == change(s.docs[subject.value])
                  && OthersStay(s.docs, s'.docs, subject.value)
                  && ReadsBack(repo, s', subject.value, change(s.docs[subject.value])))
            && (updated.None? ==> s' == s)
  {
    var s := Run(repo, docs, events);
    var subject := Subject(repo.engine, s.docs, t);
    RunOne(repo, docs, events, Update(t, change));
    if subject.Some? { ReadsTheStored(repo, docs, events + [Update(t, change)], subject.value); }
  }

  function FieldOf(f: Fields, name: string): Option<Json> {
    match f
    case NoFields => None
    case Field(n, v, r) => if n == name then Some(v) else FieldOf(r, name)
  }

  lemma {:induction false} SetFieldExactly(f: Fields, name: string, value: Json, other: string)
    ensures FieldOf(SetField(f, name, value), other) == if other == name then Some(value) else FieldOf(f, other)
  {
    match f
    case NoFields =>
    case Field(n, v, r) => SetFieldExactly(r, name, value, other);
  }

  /** A document that is marked as deleted and otherwise as before. */
  ghost predicate IsMarked(document: Json, marked: Json) {
    if document.JObject? then
      && marked.JObject?
      && forall name :: FieldOf(marked.fields, name) ==
                          if name == "isDeleted" then Some(JBool(true)) else FieldOf(document.fields, name)
    else marked == document
  }

  /**
   A soft deletion answers true exactly when the collection can mark documents and its subject is stored; then
   the subject is marked and every other document as before.  Otherwise nothing changes.
   */
  lemma SafeDeleteExactly(repo: Repo, docs: map<string, Json>, events: seq<Event>, t: Which)
    ensures var s := Run(repo, docs, events);
            var (s', deleted) := SafeDeleteStep(repo, s, t);
            var subject := Subject(repo.engine, s.docs, t);
            && (deleted <==> repo.hasIsDeleted && subject.Some?)
            && (deleted ==>
                  && subject.value in s'.docs && IsMarked(s.docs[subject.value], s'.docs[subject.value])
                  && OthersStay(s.docs, s'.docs, subject.value))
            && (!deleted ==> s' == s)
  {
    var s := Run(repo, docs, events);
    var subject := Subject(repo.engine, s.docs, t);
    UpdateExactly(repo, docs, events, t, MarkDeleted);
    if subject.Some? && s.docs[subject.value].JObject? {
      forall name
        ensures FieldOf(SetField(s.docs[subject.value].fields, "isDeleted", JBool(true)), name) ==
                  if name == "isDeleted" then Some(JBool(true)) else FieldOf(s.docs[subject.value].fields, name)
      {
        SetFieldExactly(s.docs[subject.value].fields, "isDeleted", JBool(true), name);
      }
    }
  }

  // ---------- creation ----------

  /** All documents from before, and the new ones. */
  ghost predicate DocsAdded(docs: map<string, Json>, added: seq<(string, Json)>, later: map<string, Json>) {
    && (forall i :: 0 <= i < |added| ==> added[i].0 in later && later[added[i].0] == added[i].1)
    && (forall k :: k in docs ==> k in later && later[k] == docs[k])
    && (forall k :: k in later ==> k in docs || IsNew(added, k))
  }

  ghost predicate IsNew(added: seq<(string, Json)>, k: string) { exists i :: 0 <= i < |added| && added[i].0 == k }

  lemma AddedOne(docs: map<string, Json>, added: seq<(string, Json)>, before: map<string, Json>)
    requires FreshIds(docs, added) && added != [] && DocsAdded(docs, added[..|added| - 1], before)
    ensures var last := added[|added| - 1]; DocsAdded(docs, added, before[last.0 := last.1])
  {
    var n := |added| - 1;
    var later := before[added[n].0 := added[n].1];
    forall i | 0 <= i < |added| ensures added[i].0 in later && later[added[i].0] == added[i].1 {
      if i < n { assert added[..n][i] == added[i]; }
    }
    forall k | k in later && k !in docs ensures IsNew(added, k) {
      if k != added[n].0 {
        assert IsNew(added[..n], k);
        var i :| 0 <= i < n && added[..n][i].0 == k;
        assert added[i].0 == k;
      }
    }
  }

  lemma {:induction false} InsertedExactly(docs: map<string, Json>, added: seq<(string, Json)>)
    requires FreshIds(docs, added)
    ensures DocsAdded(docs, added, Inserted(docs, added))
  {
    if added != [] {
      InsertedExactly(docs, added[..|added| - 1]);
      AddedOne(docs, added, Inserted(docs, added[..|added| - 1]));
    }
  }

  /**
   A creation answers true exactly when the new ids are object ids, differ and are not stored; then every new
   document is stored and read back, and the others are as before.  Otherwise nothing changes.
   */
  lemma CreateExactly(repo: Repo, docs: map<string, Json>, events: seq<Event>, added: seq<(string, Json)>)
    ensures var s := Run(repo, docs, events);
            var (s', created) := CreateStep(repo, s, added);
            && (created <==>
                  && (forall j :: 0 <= j < |added| ==> added[j].0 !in s.docs && IsObjectId(added[j].0))
                  && (forall j, k :: 0 <= j < k < |added| ==> added[j].0 != added[k].0))
            && (created ==>
                  && DocsAdded(s.docs, added, s'.docs)
                  && forall i :: 0 <= i < |added| ==> ReadsBack(repo, s', added[i].0, added[i].1))
            && (!created ==> s' == s)
  {
    var s := Run(repo, docs, events);
    if FreshIds(s.docs, added) {
      InsertedExactly(s.docs, added);
      RunOne(repo, docs, events, Create(added));
      forall i | 0 <= i < |added|
        ensures ReadsBack(repo, CreateStep(repo, s, added).0, added[i].0, added[i].1)
      {
        ReadsTheStored(repo, docs, events + [Create(added)], added[i].0);
      }
    }
  }
}
