/** Every result the aggregation allows is the ranking the direct specification asks for. */
module TopProductsTheorems {
  import opened Common
  import opened TopProducts

  // ---------- sums and keys over rows ----------

  lemma {:induction false} SumAppend(a: seq<Row>, b: seq<Row>, k: Key)
    ensures Sum(a + b, k) == Sum(a, k) + Sum(b, k)
  {
    if a == [] {
      assert a + b == b;
    } else {
      SumAppend(a[1..], b, k);
      assert (a + b)[1..] == a[1..] + b;
    }
  }

  lemma HasKeyAppend(a: seq<Row>, b: seq<Row>, k: Key)
    ensures HasKey(a + b, k) <==> HasKey(a, k) || HasKey(b, k)
  {
    if HasKey(a, k) {
      var r :| 0 <= r < |a| && KeyOf(a[r]) == k;
      assert KeyOf((a + b)[r]) == k;
    }
    if HasKey(b, k) {
      var r :| 0 <= r < |b| && KeyOf(b[r]) == k;
      assert KeyOf((a + b)[|a| + r]) == k;
    }
  }

  /** Rows whose category or product differs from the key's. */
  lemma {:induction false} SumNone(rows: seq<Row>, k: Key)
    requires !HasKey(rows, k)
    ensures Sum(rows, k) == 0.0
  {
    if rows != [] {
      assert KeyOf(rows[0]) != k;
      assert forall r :: 0 <= r < |rows[1..]| ==> KeyOf(rows[1..][r]) == KeyOf(rows[r + 1]);
      SumNone(rows[1..], k);
    }
  }

  /** n times q, by addition. */
  function Repeated(n: nat, q: real): real { if n == 0 then 0.0 else q + Repeated(n - 1, q) }

  lemma {:induction false} RepeatedIs(n: nat, q: real)
    ensures Repeated(n, q) == n as real * q
  {
    if n > 0 {
      RepeatedIs(n - 1, q);
      var m := (n - 1) as real;
      assert n as real == m + 1.0;
      assert (m + 1.0) * q == m * q + q;
    }
  }

  // ---------- order items ----------

  /** The rows of one product carry the quantities of its order items. */
  lemma {:induction false} SumOfRows(category: string, product: Product, items: seq<OrderItem>)
    ensures Sum(RowsOf(category, product, LookupItems(product.id, items)), Key(category, product.id))
            == SoldQuantity(items, product.id)
  {
    if items != [] {
      SumOfRows(category, product, items[1..]);
      var found, rest := LookupItems(product.id, items), LookupItems(product.id, items[1..]);
      if items[0].product == product.id {
        assert found == [items[0]] + rest && found[1..] == rest;
        var rows := RowsOf(category, product, found);
        assert rows[1..] == RowsOf(category, product, rest);
      } else {
        assert found == rest;
      }
    }
  }

  lemma {:induction false} KeysOfRows(category: string, product: Product, items: seq<OrderItem>, r: nat)
    requires r < |RowsOf(category, product, items)|
    ensures KeyOf(RowsOf(category, product, items)[r]) == Key(category, product.id)
  {
    if r > 0 {
      KeysOfRows(category, product, items[1..], r - 1);
    }
  }

  function RowsOfOne(db: Catalogue, doc: (Category, Product)): seq<Row> {
    var found := LookupItems(doc.1.id, db.items);
    if found == [] then [Row(doc.0.name, doc.1, Missing)] else RowsOf(doc.0.name, doc.1, found)
  }

  lemma KeysOfOne(db: Catalogue, doc: (Category, Product), k: Key)
    ensures HasKey(RowsOfOne(db, doc), k) <==> k == Key(doc.0.name, doc.1.id)
  {
    var found, rows := LookupItems(doc.1.id, db.items), RowsOfOne(db, doc);
    forall r | 0 <= r < |rows|
      ensures KeyOf(rows[r]) == Key(doc.0.name, doc.1.id)
    {
      if found != [] { KeysOfRows(doc.0.name, doc.1, found, r); }
    }
    assert KeyOf(rows[0]) == Key(doc.0.name, doc.1.id);
  }

  lemma SumOfOne(db: Catalogue, doc: (Category, Product), k: Key)
    ensures Sum(RowsOfOne(db, doc), k)
            == if k == Key(doc.0.name, doc.1.id) then SoldQuantity(db.items, k.product) else 0.0
  {
    if k == Key(doc.0.name, doc.1.id) {
      SumOfRows(doc.0.name, doc.1, db.items);
    } else {
      KeysOfOne(db, doc, k);
      SumNone(RowsOfOne(db, doc), k);
    }
  }

  /** How many documents before the last $unwind carry the key. */
  function Matches(docs: seq<(Category, Product)>, k: Key): nat {
    if docs == [] then 0 else (if k == Key(docs[0].0.name, docs[0].1.id) then 1 else 0) + Matches(docs[1..], k)
  }

  lemma {:induction false} ItemsSum(db: Catalogue, docs: seq<(Category, Product)>, k: Key)
    ensures Sum(UnwindItems(db, docs), k) == Repeated(Matches(docs, k), SoldQuantity(db.items, k.product))
  {
    if docs != [] {
      var first, rest := docs[0], docs[1..];
      ItemsSum(db, rest, k);
      SumOfOne(db, first, k);
      assert UnwindItems(db, docs) == RowsOfOne(db, first) + UnwindItems(db, rest);
      SumAppend(RowsOfOne(db, first), UnwindItems(db, rest), k);
    }
  }

  lemma {:induction false} ItemsReach(db: Catalogue, docs: seq<(Category, Product)>, k: Key)
    ensures HasKey(UnwindItems(db, docs), k) <==> Matches(docs, k) > 0
  {
    if docs != [] {
      ItemsReach(db, docs[1..], k);
      KeysOfOne(db, docs[0], k);
      assert UnwindItems(db, docs) == RowsOfOne(db, docs[0]) + UnwindItems(db, docs[1..]);
      HasKeyAppend(RowsOfOne(db, docs[0]), UnwindItems(db, docs[1..]), k);
    }
  }

  // ---------- products ----------

  lemma {:induction false} MatchesAppend(a: seq<(Category, Product)>, b: seq<(Category, Product)>, k: Key)
    ensures Matches(a + b, k) == Matches(a, k) + Matches(b, k)
  {
    if a == [] {
      assert a + b == b;
    } else {
      MatchesAppend(a[1..], b, k);
      assert (a + b)[1..] == a[1..] + b;
    }
  }

  /** How often an id occurs; at most once in a collection with unique ids. */
  function Occurrences(products: seq<Product>, id: Id): nat {
    if products == [] then 0 else (if products[0].id == id then 1 else 0) + Occurrences(products[1..], id)
  }

  lemma {:induction false} OccursOnce(products: seq<Product>, id: Id)
    requires forall i, j :: 0 <= i < j < |products| ==> products[i].id != products[j].id
    ensures Occurrences(products, id) == if exists i :: 0 <= i < |products| && products[i].id == id then 1 else 0
  {
    if products != [] {
      OccursOnce(products[1..], id);
      if i :| 0 <= i < |products| && products[i].id == id {
        assert i > 0 ==> products[1..][i - 1].id == id;
      }
    }
  }

  lemma {:induction false} LookupOccurrences(ids: seq<Id>, products: seq<Product>, id: Id)
    ensures Occurrences(Lookup(ids, products, ProductId), id) == if id in ids then Occurrences(products, id) else 0
  {
    if products != [] {
      LookupOccurrences(ids, products[1..], id);
      var found, rest := Lookup(ids, products, ProductId), Lookup(ids, products[1..], ProductId);
      if products[0].id in ids {
        assert found == [products[0]] + rest && found[1..] == rest;
      } else {
        assert found == rest;
      }
    }
  }

  lemma {:induction false} MatchesOfOne(c: Category, products: seq<Product>, k: Key)
    ensures Matches(seq(|products|, i requires 0 <= i < |products| => (c, products[i])), k)
            == if k.category == c.name then Occurrences(products, k.product) else 0
  {
    if products != [] {
      MatchesOfOne(c, products[1..], k);
      var docs := seq(|products|, i requires 0 <= i < |products| => (c, products[i]));
      assert docs[1..] == seq(|products[1..]|, i requires 0 <= i < |products[1..]| => (c, products[1..][i]));
    }
  }

  predicate OnPath(doc: (Category, Group, Collection), k: Key) {
    doc.0.name == k.category && k.product in doc.2.products
  }

  /** How many (category, group, collection) documents lead to the product. */
  function PathCount(docs: seq<(Category, Group, Collection)>, k: Key): nat {
    if docs == [] then 0 else (if OnPath(docs[0], k) then 1 else 0) + PathCount(docs[1..], k)
  }

  lemma {:induction false} ProductsMatch(db: Catalogue, docs: seq<(Category, Group, Collection)>, k: Key)
    requires KeysUnique(db)
    ensures Matches(UnwindProducts(db, docs), k) == if Exists(db, k.product) then PathCount(docs, k) else 0
  {
    if docs != [] {
      ProductsMatch(db, docs[1..], k);
      var found := Lookup(docs[0].2.products, db.products, ProductId);
      LookupOccurrences(docs[0].2.products, db.products, k.product);
      OccursOnce(db.products, k.product);
      MatchesOfOne(docs[0].0, found, k);
      MatchesAppend(seq(|found|, i requires 0 <= i < |found| => (docs[0].0, found[i])),
                    UnwindProducts(db, docs[1..]), k);
    }
  }

  // ---------- paths ----------

  lemma DistinctAppend<T(!new)>(a: seq<T>, b: seq<T>)
    requires Distinct(a) && Distinct(b) && forall i, j :: 0 <= i < |a| && 0 <= j < |b| ==> a[i] != b[j]
    ensures Distinct(a + b)
  {
  }

  lemma {:induction false} LookupIs<T(!new)>(ids: seq<Id>, docs: seq<T>, idOf: T -> Id)
    requires Distinct(docs)
    ensures Distinct(Lookup(ids, docs, idOf))
    ensures forall d :: d in Lookup(ids, docs, idOf) <==> d in docs && idOf(d) in ids
  {
    if docs != [] {
      LookupIs(ids, docs[1..], idOf);
    }
  }

  lemma {:induction false} UnwindGroupsIs(db: Catalogue, docs: seq<Category>)
    requires Distinct(db.groups) && Distinct(docs)
    ensures Distinct(UnwindGroups(db, docs))
    ensures forall c, g :: (c, g) in UnwindGroups(db, docs) <==>
              c in docs && g in db.groups && g.id in c.collectionGroups
  {
    if docs != [] {
      var found, rest := Lookup(docs[0].collectionGroups, db.groups, GroupId), UnwindGroups(db, docs[1..]);
      UnwindGroupsIs(db, docs[1..]);
      LookupIs(docs[0].collectionGroups, db.groups, GroupId);
      var here := seq(|found|, i requires 0 <= i < |found| => (docs[0], found[i]));
      forall c, g
        ensures (c, g) in here <==> c == docs[0] && g in found
      {
        if c == docs[0] && g in found {
          var i :| 0 <= i < |found| && found[i] == g;
          assert here[i] == (c, g);
        }
      }
      assert docs[0] !in docs[1..];
      forall i, j | 0 <= i < |here| && 0 <= j < |rest|
        ensures here[i] != rest[j]
      {
        assert (rest[j].0, rest[j].1) in rest;
      }
      DistinctAppend(here, rest);
    }
  }

  lemma {:induction false} UnwindCollectionsIs(db: Catalogue, docs: seq<(Category, Group)>)
    requires Distinct(db.collections) && Distinct(docs)
    ensures Distinct(UnwindCollections(db, docs))
    ensures forall c, g, k :: (c, g, k) in UnwindCollections(db, docs) <==>
              (c, g) in docs && k in db.collections && k.id in g.collections
  {
    if docs != [] {
      var found, rest := Lookup(docs[0].1.collections, db.collections, CollectionId), UnwindCollections(db, docs[1..]);
      UnwindCollectionsIs(db, docs[1..]);
      LookupIs(docs[0].1.collections, db.collections, CollectionId);
      var here := seq(|found|, i requires 0 <= i < |found| => (docs[0].0, docs[0].1, found[i]));
      forall c, g, k
        ensures (c, g, k) in here <==> (c, g) == docs[0] && k in found
      {
        if (c, g) == docs[0] && k in found {
          var i :| 0 <= i < |found| && found[i] == k;
          assert here[i] == (c, g, k);
        }
      }
      assert docs[0] !in docs[1..];
      forall i, j | 0 <= i < |here| && 0 <= j < |rest|
        ensures here[i] != rest[j]
      {
        assert (rest[j].0, rest[j].1, rest[j].2) in rest;
      }
      DistinctAppend(here, rest);
    }
  }

  ghost function PathsAmong(docs: seq<(Category, Group, Collection)>, k: Key): set<(Category, Group, Collection)> {
    set d | d in docs && OnPath(d, k)
  }

  lemma {:induction false} PathCountIs(docs: seq<(Category, Group, Collection)>, k: Key)
    requires Distinct(docs)
    ensures PathCount(docs, k) == |PathsAmong(docs, k)|
  {
    if docs == [] {
      assert PathsAmong(docs, k) == {};
    } else {
      PathCountIs(docs[1..], k);
      var rest := PathsAmong(docs[1..], k);
      assert docs[0] !in docs[1..];
      assert PathsAmong(docs, k) == (if OnPath(docs[0], k) then {docs[0]} else {}) + rest;
    }
  }

  /** The unwound paths of a catalogue are its paths. */
  lemma AllPaths(db: Catalogue, k: Key)
    requires KeysUnique(db)
    ensures PathCount(UnwindCollections(db, UnwindGroups(db, db.categories)), k)
            == |Paths(db, k.category, k.product)|
  {
    UnwindGroupsIs(db, db.categories);
    var pairs := UnwindGroups(db, db.categories);
    UnwindCollectionsIs(db, pairs);
    var docs := UnwindCollections(db, pairs);
    PathCountIs(docs, k);
    var paths := Paths(db, k.category, k.product);
    forall d: (Category, Group, Collection)
      ensures d in PathsAmong(docs, k) <==> d in paths
    {
      assert d == (d.0, d.1, d.2);
      assert d in docs <==> (d.0, d.1) in pairs && d.2 in db.collections && d.2.id in d.1.collections;
    }
    assert PathsAmong(docs, k) == paths;
  }

  /** The documents before the last $unwind: one per path to an existing product. */
  lemma PathMatches(db: Catalogue, k: Key)
    requires KeysUnique(db)
    ensures Matches(UnwindProducts(db, UnwindCollections(db, UnwindGroups(db, db.categories))), k)
            == if Exists(db, k.product) then |Paths(db, k.category, k.product)| else 0
  {
    AllPaths(db, k);
    ProductsMatch(db, UnwindCollections(db, UnwindGroups(db, db.categories)), k);
  }

  /** The rows that reach the first grouping hold a (category, product) pair exactly when one reaches the other. */
  lemma RowsReach(db: Catalogue, k: Key)
    requires KeysUnique(db)
    ensures HasKey(Rows(db), k) <==> Reaches(db, k.category, k.product)
  {
    PathMatches(db, k);
    ItemsReach(db, UnwindProducts(db, UnwindCollections(db, UnwindGroups(db, db.categories))), k);
  }

  lemma RowsRepeat(db: Catalogue, k: Key)
    requires KeysUnique(db) && Exists(db, k.product)
    ensures Sum(Rows(db), k) == Repeated(|Paths(db, k.category, k.product)|, SoldQuantity(db.items, k.product))
  {
    PathMatches(db, k);
    ItemsSum(db, UnwindProducts(db, UnwindCollections(db, UnwindGroups(db, db.categories))), k);
  }

  lemma SalesRepeat(db: Catalogue, category: string, product: Id)
    ensures Sales(db, category, product) == Repeated(|Paths(db, category, product)|, SoldQuantity(db.items, product))
  {
    RepeatedIs(|Paths(db, category, product)|, SoldQuantity(db.items, product));
  }

  /** Their quantities add up to the product's sales, once per path. */
  lemma RowsSum(db: Catalogue, k: Key)
    requires KeysUnique(db) && Reaches(db, k.category, k.product)
    ensures Sum(Rows(db), k) == Sales(db, k.category, k.product)
  {
    RowsRepeat(db, k);
    SalesRepeat(db, k.category, k.product);
  }
}
