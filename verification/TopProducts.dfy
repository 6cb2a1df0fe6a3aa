/**
 The aggregation behind getTopProductsByCategory.  The stages up to the first grouping are
 functions on sequences of rows; the two groupings and the sort, whose order MongoDB leaves open,
 are relations, so that every result they allow is covered.
 */
module TopProducts {
  import opened StringOrder

  type Id = nat

  datatype Category = Category(id: Id, name: string, collectionGroups: seq<Id>)
  datatype Group = Group(id: Id, collections: seq<Id>)
  datatype Collection = Collection(id: Id, products: seq<Id>)
  datatype Product = Product(id: Id, name: string)
  datatype OrderItem = OrderItem(product: Id, quantity: real)

  datatype Catalogue = Catalogue(categories: seq<Category>, groups: seq<Group>, collections: seq<Collection>,
                                 products: seq<Product>, items: seq<OrderItem>)

  // ---------- lookup and unwind ----------

  function GroupId(g: Group): Id { g.id }
  function CollectionId(k: Collection): Id { k.id }
  function ProductId(p: Product): Id { p.id }

  /** $lookup of an array of ids against _id: the foreign documents it names, each once. */
  function Lookup<T>(ids: seq<Id>, docs: seq<T>, idOf: T -> Id): seq<T> {
    if docs == [] then []
    else (if idOf(docs[0]) in ids then [docs[0]] else []) + Lookup(ids, docs[1..], idOf)
  }

  /** $lookup of a product's order items. */
  function LookupItems(product: Id, items: seq<OrderItem>): seq<OrderItem> {
    if items == [] then []
    else (if items[0].product == product then [items[0]] else []) + LookupItems(product, items[1..])
  }

  /** Each $lookup is followed by an $unwind: a document becomes one document per match. */
  function UnwindGroups(db: Catalogue, docs: seq<Category>): seq<(Category, Group)> {
    if docs == [] then [] else
    var found := Lookup(docs[0].collectionGroups, db.groups, GroupId);
    seq(|found|, i requires 0 <= i < |found| => (docs[0], found[i])) + UnwindGroups(db, docs[1..])
  }

  function UnwindCollections(db: Catalogue, docs: seq<(Category, Group)>): seq<(Category, Group, Collection)> {
    if docs == [] then [] else
    var found := Lookup(docs[0].1.collections, db.collections, CollectionId);
    seq(|found|, i requires 0 <= i < |found| => (docs[0].0, docs[0].1, found[i])) + UnwindCollections(db, docs[1..])
  }

  function UnwindProducts(db: Catalogue, docs: seq<(Category, Group, Collection)>): seq<(Category, Product)> {
    if docs == [] then [] else
    var found := Lookup(docs[0].2.products, db.products, ProductId);
    seq(|found|, i requires 0 <= i < |found| => (docs[0].0, found[i])) + UnwindProducts(db, docs[1..])
  }

  /** A row after the last $unwind; a product without order items keeps one row without a quantity. */
  datatype Row = Row(category: string, product: Product, quantity: Quantity)
  datatype Quantity = Missing | Sold(amount: real)

  function RowsOf(category: string, product: Product, items: seq<OrderItem>): seq<Row> {
    if items == [] then []
    else [Row(category, product, Sold(items[0].quantity))] + RowsOf(category, product, items[1..])
  }

  function UnwindItems(db: Catalogue, docs: seq<(Category, Product)>): seq<Row> {
    if docs == [] then [] else
    var found := LookupItems(docs[0].1.id, db.items);
    (if found == [] then [Row(docs[0].0.name, docs[0].1, Missing)] else RowsOf(docs[0].0.name, docs[0].1, found))
    + UnwindItems(db, docs[1..])
  }

  /** The documents that reach the first $group. */
  function Rows(db: Catalogue): seq<Row> {
    UnwindItems(db, UnwindProducts(db, UnwindCollections(db, UnwindGroups(db, db.categories))))
  }

  // ---------- group, sort, group, slice ----------

  datatype Key = Key(category: string, product: Id)
  datatype Total = Total(key: Key, totalSold: real)

  function KeyOf(r: Row): Key { Key(r.category, r.product.id) }

  /** $sum over the rows of a key; a missing quantity adds nothing. */
  function Sum(rows: seq<Row>, k: Key): real {
    if rows == [] then 0.0
    else (if KeyOf(rows[0]) == k && rows[0].quantity.Sold? then rows[0].quantity.amount else 0.0) + Sum(rows[1..], k)
  }

  ghost predicate HasKey(rows: seq<Row>, k: Key) { exists r :: 0 <= r < |rows| && KeyOf(rows[r]) == k }

  ghost predicate HasTotal(totals: seq<Total>, k: Key) { exists i :: 0 <= i < |totals| && totals[i].key == k }

  /** $group by category and product: one document per key, in any order. */
  ghost predicate Grouped(rows: seq<Row>, totals: seq<Total>) {
    && (forall i, j :: 0 <= i < j < |totals| ==> totals[i].key != totals[j].key)
    && (forall i :: 0 <= i < |totals| ==> totals[i].totalSold == Sum(rows, totals[i].key))
    && (forall k :: HasTotal(totals, k) <==> HasKey(rows, k))
  }

  predicate InOrder(a: Total, b: Total) {
    Less(a.key.category, b.key.category) || (a.key.category == b.key.category && a.totalSold >= b.totalSold)
  }

  /** $sort by category, then by sales downwards; ties may come in any order. */
  ghost predicate Sorted(totals: seq<Total>, sorted: seq<Total>) {
    && multiset(sorted) == multiset(totals)
    && forall i, j :: 0 <= i < j < |sorted| ==> InOrder(sorted[i], sorted[j])
  }

  datatype Ranked = Ranked(product: Id, totalSold: real)
  datatype Ranking = Ranking(category: string, topProducts: seq<Ranked>)

  /** $push in arrival order of everything that falls into one category. */
  function Pushed(sorted: seq<Total>, category: string): seq<Ranked> {
    if sorted == [] then []
    else (if sorted[0].key.category == category then [Ranked(sorted[0].key.product, sorted[0].totalSold)] else [])
         + Pushed(sorted[1..], category)
  }

  /** $slice: the first entries for a positive limit, the last ones for a negative limit. */
  function Slice(s: seq<Ranked>, limit: int): seq<Ranked> {
    if limit >= 0 then (if limit <= |s| then s[..limit] else s)
    else (if -limit <= |s| then s[|s| + limit..] else s)
  }

  ghost predicate HasCategory(totals: seq<Total>, c: string) {
    exists t :: 0 <= t < |totals| && totals[t].key.category == c
  }

  ghost predicate HasRanking(rankings: seq<Ranking>, c: string) {
    exists i :: 0 <= i < |rankings| && rankings[i].category == c
  }

  /** The second $group and the final $project: one document per category, in any order. */
  ghost predicate Ranks(sorted: seq<Total>, limit: int, rankings: seq<Ranking>) {
    && (forall i, j :: 0 <= i < j < |rankings| ==> rankings[i].category != rankings[j].category)
    && (forall i :: 0 <= i < |rankings| ==>
          rankings[i].topProducts == Slice(Pushed(sorted, rankings[i].category), limit))
    && (forall c :: HasRanking(rankings, c) <==> HasCategory(sorted, c))
  }

  /** `rankings` is a possible result of getTopProductsByCategory. */
  ghost predicate GetTopProductsByCategory(db: Catalogue, limit: int, rankings: seq<Ranking>) {
    exists totals, sorted :: Grouped(Rows(db), totals) && Sorted(totals, sorted) && Ranks(sorted, limit, rankings)
  }

  // ---------- the direct specification ----------

  /** The ways a category of that name reaches a product. */
  ghost function Paths(db: Catalogue, category: string, product: Id): set<(Category, Group, Collection)> {
    set c, g, k | c in db.categories && g in db.groups && k in db.collections
                  && c.name == category && g.id in c.collectionGroups && k.id in g.collections && product in k.products
      :: (c, g, k)
  }

  ghost predicate Exists(db: Catalogue, product: Id) {
    exists i :: 0 <= i < |db.products| && db.products[i].id == product
  }

  /** The category lists the product. */
  ghost predicate Reaches(db: Catalogue, category: string, product: Id) {
    Exists(db, product) && |Paths(db, category, product)| > 0
  }

  /** The quantity of a product in all order items. */
  function SoldQuantity(items: seq<OrderItem>, product: Id): real {
    if items == [] then 0.0
    else (if items[0].product == product then items[0].quantity else 0.0) + SoldQuantity(items[1..], product)
  }

  /** A product's sales within a category: the quantity sold, once per path from the category. */
  ghost function Sales(db: Catalogue, category: string, product: Id): real {
    |Paths(db, category, product)| as real * SoldQuantity(db.items, product)
  }

  /** _id is a primary key of every collection. */
  ghost predicate KeysUnique(db: Catalogue) {
    && (forall i, j :: 0 <= i < j < |db.categories| ==> db.categories[i].id != db.categories[j].id)
    && (forall i, j :: 0 <= i < j < |db.groups| ==> db.groups[i].id != db.groups[j].id)
    && (forall i, j :: 0 <= i < j < |db.collections| ==> db.collections[i].id != db.collections[j].id)
    && (forall i, j :: 0 <= i < j < |db.products| ==> db.products[i].id != db.products[j].id)
  }
}
