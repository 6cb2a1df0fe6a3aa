/** The ranking itself: which categories and products appear, with which sales, and in which order. */
module TopProductsRanking {
  import StringOrder
  import opened TopProducts
  import opened TopProductsTheorems

  lemma InOrderTransitive(a: Total, b: Total, c: Total)
    requires InOrder(a, b) && InOrder(b, c)
    ensures InOrder(a, c)
  {
    if StringOrder.Less(a.key.category, b.key.category) && StringOrder.Less(b.key.category, c.key.category) {
      StringOrder.Transitive(a.key.category, b.key.category, c.key.category);
    }
  }

  // ---------- sorting keeps the totals ----------

  ghost predicate KeysDiffer(totals: seq<Total>) {
    forall i, j :: 0 <= i < j < |totals| ==> totals[i].key != totals[j].key
  }

  lemma {:induction false} OccursOnceAtMost(totals: seq<Total>, x: Total)
    requires KeysDiffer(totals)
    ensures multiset(totals)[x] <= 1
  {
    if totals != [] {
      OccursOnceAtMost(totals[1..], x);
      assert totals == [totals[0]] + totals[1..];
      assert forall i :: 0 <= i < |totals[1..]| ==>
          totals[1..][i] == totals[i + 1] && totals[i + 1].key != totals[0].key;
      assert totals[0] !in totals[1..];
    }
  }

  lemma TwiceInSequence(s: seq<Total>, i: nat, j: nat)
    requires i < j < |s| && s[i] == s[j]
    ensures multiset(s)[s[i]] >= 2
  {
    assert s == s[..j] + s[j..];
    assert s[i] in s[..j] && s[j] in s[j..];
  }

  /** The sorted totals are the same totals, still one per key. */
  lemma SortedKeepsTotals(totals: seq<Total>, sorted: seq<Total>)
    requires KeysDiffer(totals) && multiset(sorted) == multiset(totals)
    ensures KeysDiffer(sorted)
    ensures forall x :: x in sorted <==> x in totals
  {
    forall x
      ensures x in sorted <==> x in totals
    {
      assert x in sorted <==> x in multiset(sorted);
      assert x in totals <==> x in multiset(totals);
    }
    forall i, j | 0 <= i < j < |sorted|
      ensures sorted[i].key != sorted[j].key
    {
      if sorted[i].key == sorted[j].key {
        assert sorted[i] in totals && sorted[j] in totals;
        var a :| 0 <= a < |totals| && totals[a] == sorted[i];
        var b :| 0 <= b < |totals| && totals[b] == sorted[j];
        assert a == b;
        TwiceInSequence(sorted, i, j);
        OccursOnceAtMost(totals, sorted[i]);
      }
    }
  }

  // ---------- the second grouping ----------

  /** The pushed entries of a category: its totals, each once, in descending order of sales. */
  lemma {:induction false} PushedIs(sorted: seq<Total>, category: string)
    requires KeysDiffer(sorted) && forall i, j :: 0 <= i < j < |sorted| ==> InOrder(sorted[i], sorted[j])
    ensures var top := Pushed(sorted, category);
            && (forall p, t :: Ranked(p, t) in top <==> Total(Key(category, p), t) in sorted)
            && (forall i, j :: 0 <= i < j < |top| ==> top[i].product != top[j].product)
            && (forall i, j :: 0 <= i < j < |top| ==> top[i].totalSold >= top[j].totalSold)
  {
    if sorted != [] {
      var first, rest := sorted[0], sorted[1..];
      PushedIs(rest, category);
      var top, more := Pushed(sorted, category), Pushed(rest, category);
      forall p, t
        ensures Ranked(p, t) in top <==> Total(Key(category, p), t) in sorted
      {
        var x := Total(Key(category, p), t);
        assert x in sorted <==> x == first || x in rest;
      }
      if first.key.category == category {
        assert top == [Ranked(first.key.product, first.totalSold)] + more;
        forall j | 0 <= j < |more|
          ensures more[j].product != first.key.product && first.totalSold >= more[j].totalSold
        {
          assert Ranked(more[j].product, more[j].totalSold) in more;
          var i :| 0 <= i < |rest| && rest[i] == Total(Key(category, more[j].product), more[j].totalSold);
          assert InOrder(sorted[0], sorted[i + 1]) && sorted[0].key != sorted[i + 1].key;
          StringOrder.Irreflexive(category);
        }
      }
    }
  }

  /** What the two stages before the second $group make of any rows: one total per key, with its sum. */
  lemma TotalsMeaning(rows: seq<Row>, totals: seq<Total>, sorted: seq<Total>, k: Key, sold: real)
    requires Grouped(rows, totals) && Sorted(totals, sorted)
    ensures Total(k, sold) in sorted <==> HasKey(rows, k) && sold == Sum(rows, k)
  {
    SortedKeepsTotals(totals, sorted);
    if HasKey(rows, k) {
      assert HasTotal(totals, k);
      var i :| 0 <= i < |totals| && totals[i].key == k;
      assert totals[i] == Total(k, Sum(rows, k));
      if Total(k, sold) in totals {
        var j :| 0 <= j < |totals| && totals[j] == Total(k, sold);
        assert i == j;
      }
    } else if Total(k, sold) in totals {
      var i :| 0 <= i < |totals| && totals[i] == Total(k, sold);
      assert HasTotal(totals, k);
    }
  }

  // ---------- the specification ----------

  /** The sales of the products a category reaches: the quantity sold, once per path to the product. */
  ghost function SalesOf(db: Catalogue, category: string): map<Id, real> {
    map p | p in (set x | x in db.products :: x.id) && Reaches(db, category, p)
      :: Sales(db, category, p)
  }

  /** `top` is a list of the `limit` best sellers among `sales`. */
  ghost predicate IsTopList(top: seq<Ranked>, sales: map<Id, real>, limit: nat) {
    && |top| == (if limit <= |sales| then limit else |sales|)
    && (forall i :: 0 <= i < |top| ==> top[i].product in sales && top[i].totalSold == sales[top[i].product])
    && (forall i, j :: 0 <= i < j < |top| ==> top[i].product != top[j].product)
    && (forall i, j :: 0 <= i < j < |top| ==> top[i].totalSold >= top[j].totalSold)
    && (forall p, i :: p in sales && 0 <= i < |top| && (forall j :: 0 <= j < |top| ==> top[j].product != p)
          ==> top[i].totalSold >= sales[p])
  }

  /** The totals of a category are exactly the entries of `sales`. */
  ghost predicate Represents(sorted: seq<Total>, category: string, sales: map<Id, real>) {
    forall p, t :: Total(Key(category, p), t) in sorted <==> p in sales && sales[p] == t
  }

  lemma SalesOfReached(db: Catalogue, category: string, p: Id)
    ensures p in SalesOf(db, category) <==> Reaches(db, category, p)
  {
    if Reaches(db, category, p) {
      var i :| 0 <= i < |db.products| && db.products[i].id == p;
      assert db.products[i] in db.products;
    }
  }

  lemma SalesOfSales(db: Catalogue, category: string, p: Id)
    requires Reaches(db, category, p)
    ensures p in SalesOf(db, category) && SalesOf(db, category)[p] == Sales(db, category, p)
  {
    SalesOfReached(db, category, p);
  }

  lemma SalesAreSums(db: Catalogue, category: string, p: Id)
    requires KeysUnique(db)
    ensures p in SalesOf(db, category) <==> HasKey(Rows(db), Key(category, p))
    ensures p in SalesOf(db, category) ==> SalesOf(db, category)[p] == Sum(Rows(db), Key(category, p))
  {
    SalesOfReached(db, category, p);
    RowsReach(db, Key(category, p));
    if Reaches(db, category, p) {
      SalesOfSales(db, category, p);
      RowsSum(db, Key(category, p));
    }
  }

  lemma RepresentedBy(rows: seq<Row>, totals: seq<Total>, sorted: seq<Total>, category: string, sales: map<Id, real>)
    requires Grouped(rows, totals) && Sorted(totals, sorted)
    requires forall p :: p in sales <==> HasKey(rows, Key(category, p))
    requires forall p :: p in sales ==> sales[p] == Sum(rows, Key(category, p))
    ensures Represents(sorted, category, sales)
  {
    forall p, t
      ensures Total(Key(category, p), t) in sorted <==> p in sales && sales[p] == t
    {
      TotalsMeaning(rows, totals, sorted, Key(category, p), t);
    }
  }

  lemma TotalsRepresentSales(db: Catalogue, totals: seq<Total>, sorted: seq<Total>, category: string)
    requires KeysUnique(db) && Grouped(Rows(db), totals) && Sorted(totals, sorted)
    ensures Represents(sorted, category, SalesOf(db, category))
  {
    forall p {
      SalesAreSums(db, category, p);
    }
    RepresentedBy(Rows(db), totals, sorted, category, SalesOf(db, category));
  }

  // ---------- the list of one category ----------

  lemma {:induction false} CountProducts(top: seq<Ranked>, ids: set<Id>)
    requires forall i, j :: 0 <= i < j < |top| ==> top[i].product != top[j].product
    requires forall p :: p in ids <==> exists i :: 0 <= i < |top| && top[i].product == p
    ensures |top| == |ids|
  {
    if top == [] {
      assert ids == {};
    } else {
      var rest := top[1..];
      var fewer := ids - {top[0].product};
      assert top[0].product in ids;
      forall p
        ensures p in fewer <==> exists i :: 0 <= i < |rest| && rest[i].product == p
      {
        if p in fewer {
          var i :| 0 <= i < |top| && top[i].product == p;
          assert rest[i - 1].product == p;
        }
        if i :| 0 <= i < |rest| && rest[i].product == p {
          assert top[i + 1].product == p;
        }
      }
      CountProducts(rest, fewer);
    }
  }

  /** All entries pushed for a category, before the slice. */
  lemma PushedMeaning(sorted: seq<Total>, category: string, sales: map<Id, real>)
    requires KeysDiffer(sorted) && forall i, j :: 0 <= i < j < |sorted| ==> InOrder(sorted[i], sorted[j])
    requires Represents(sorted, category, sales)
    ensures IsTopList(Pushed(sorted, category), sales, |sales|)
    ensures forall p :: p in sales ==> Ranked(p, sales[p]) in Pushed(sorted, category)
  {
    var top := Pushed(sorted, category);
    PushedIs(sorted, category);
    forall i | 0 <= i < |top|
      ensures top[i].product in sales && top[i].totalSold == sales[top[i].product]
    {
      assert Ranked(top[i].product, top[i].totalSold) in top;
    }
    forall p
      ensures p in sales.Keys <==> exists i :: 0 <= i < |top| && top[i].product == p
    {
      if p in sales {
        assert Total(Key(category, p), sales[p]) in sorted;
        var i :| 0 <= i < |top| && top[i] == Ranked(p, sales[p]);
        assert top[i].product == p;
      }
    }
    CountProducts(top, sales.Keys);
  }

  /** What stands behind position i of a complete top list sells no more. */
  lemma LaterSellsLess(all: seq<Ranked>, sales: map<Id, real>, limit: nat, p: Id, i: nat)
    requires IsTopList(all, sales, |sales|) && p in sales && Ranked(p, sales[p]) in all
    requires i < limit <= |all| && forall j :: 0 <= j < limit ==> all[j].product != p
    ensures all[i].totalSold >= sales[p]
  {
    var q :| 0 <= q < |all| && all[q] == Ranked(p, sales[p]);
    assert q >= limit;
  }

  lemma PrefixOfTopList(all: seq<Ranked>, sales: map<Id, real>, limit: nat)
    requires IsTopList(all, sales, |sales|) && forall p :: p in sales ==> Ranked(p, sales[p]) in all
    requires limit <= |all|
    ensures IsTopList(all[..limit], sales, limit)
  {
    forall p, i | p in sales && 0 <= i < limit && forall j :: 0 <= j < limit ==> all[..limit][j].product != p
      ensures all[i].totalSold >= sales[p]
    {
      forall j | 0 <= j < limit ensures all[j].product != p { assert all[..limit][j] == all[j]; }
      LaterSellsLess(all, sales, limit, p, i);
    }
  }

  lemma SliceOfTopList(all: seq<Ranked>, sales: map<Id, real>, limit: nat)
    requires IsTopList(all, sales, |sales|) && forall p :: p in sales ==> Ranked(p, sales[p]) in all
    ensures IsTopList(Slice(all, limit), sales, limit)
  {
    if limit <= |all| {
      PrefixOfTopList(all, sales, limit);
    }
  }

  // ---------- main results ----------

  /**
   Every result the aggregation allows, category by category: a list of the `limit` best sellers the
   category reaches, each with the quantity sold counted once per (group, collection) path.
   */
  lemma TopProductsAreTop(db: Catalogue, limit: nat, rankings: seq<Ranking>, n: nat)
    requires KeysUnique(db) && GetTopProductsByCategory(db, limit, rankings) && n < |rankings|
    ensures IsTopList(rankings[n].topProducts, SalesOf(db, rankings[n].category), limit)
  {
    var totals: seq<Total>, sorted: seq<Total> :|
      Grouped(Rows(db), totals) && Sorted(totals, sorted) && Ranks(sorted, limit, rankings);
    var category := rankings[n].category;
    SortedKeepsTotals(totals, sorted);
    TotalsRepresentSales(db, totals, sorted, category);
    PushedMeaning(sorted, category, SalesOf(db, category));
    SliceOfTopList(Pushed(sorted, category), SalesOf(db, category), limit);
  }

  lemma RankedCategories(sorted: seq<Total>, limit: int, rankings: seq<Ranking>, category: string, sales: map<Id, real>)
    requires Ranks(sorted, limit, rankings) && Represents(sorted, category, sales)
    ensures HasRanking(rankings, category) <==> sales != map[]
  {
    if HasCategory(sorted, category) {
      var t :| 0 <= t < |sorted| && sorted[t].key.category == category;
      assert sorted[t] == Total(Key(category, sorted[t].key.product), sorted[t].totalSold);
      assert sorted[t].key.product in sales;
    }
    if sales != map[] {
      var p :| p in sales;
      assert Total(Key(category, p), sales[p]) in sorted;
      var t :| 0 <= t < |sorted| && sorted[t] == Total(Key(category, p), sales[p]);
      assert HasCategory(sorted, category);
    }
  }

  /** Categories appear once each, and exactly those that reach some product. */
  lemma CategoriesListed(db: Catalogue, limit: int, rankings: seq<Ranking>, category: string)
    requires KeysUnique(db) && GetTopProductsByCategory(db, limit, rankings)
    ensures HasRanking(rankings, category) <==> SalesOf(db, category) != map[]
    ensures forall i, j :: 0 <= i < j < |rankings| ==> rankings[i].category != rankings[j].category
  {
    var totals: seq<Total>, sorted: seq<Total> :|
      Grouped(Rows(db), totals) && Sorted(totals, sorted) && Ranks(sorted, limit, rankings);
    TotalsRepresentSales(db, totals, sorted, category);
    RankedCategories(sorted, limit, rankings, category, SalesOf(db, category));
  }

  lemma {:induction false} UnsoldSumsToZero(items: seq<OrderItem>, product: Id)
    requires forall i :: 0 <= i < |items| ==> items[i].product != product
    ensures SoldQuantity(items, product) == 0.0
  {
    if items != [] { UnsoldSumsToZero(items[1..], product); }
  }

  /** A limit that is no shorter than the list leaves nothing out. */
  lemma TopListIsComplete(top: seq<Ranked>, sales: map<Id, real>, limit: nat, p: Id)
    requires IsTopList(top, sales, limit) && limit >= |sales| && p in sales
    ensures Ranked(p, sales[p]) in top
  {
    var listed := set i | 0 <= i < |top| :: top[i].product;
    CountProducts(top, listed);
    assert listed <= sales.Keys;
    if p !in listed {
      assert listed < sales.Keys;
      SmallerSet(listed, sales.Keys);
    }
    var i :| 0 <= i < |top| && top[i].product == p;
    assert top[i] == Ranked(p, sales[p]);
  }

  lemma {:induction false} SmallerSet(a: set<Id>, b: set<Id>)
    requires a < b
    ensures |a| < |b|
  {
    var x :| x in b && x !in a;
    if a == {} {
      assert b != {};
    } else {
      var y :| y in a;
      SmallerSet(a - {y}, b - {y});
    }
  }

  /** The product is in the category's list, with that quantity. */
  ghost predicate Lists(rankings: seq<Ranking>, category: string, product: Id, sold: real) {
    exists n :: 0 <= n < |rankings| && rankings[n].category == category
                && Ranked(product, sold) in rankings[n].topProducts
  }

  /** If the limit leaves room for all, every product that the category reaches is listed. */
  lemma ReachedIsListed(db: Catalogue, limit: nat, rankings: seq<Ranking>, category: string, product: Id)
    requires KeysUnique(db) && GetTopProductsByCategory(db, limit, rankings)
    requires Reaches(db, category, product) && limit >= |SalesOf(db, category)|
    ensures Lists(rankings, category, product, Sales(db, category, product))
  {
    SalesOfSales(db, category, product);
    CategoriesListed(db, limit, rankings, category);
    assert SalesOf(db, category) != map[];
    var n :| 0 <= n < |rankings| && rankings[n].category == category;
    TopProductsAreTop(db, limit, rankings, n);
    ListedAt(rankings, n, SalesOf(db, category), limit, product);
  }

  lemma ListedAt(rankings: seq<Ranking>, n: nat, sales: map<Id, real>, limit: nat, product: Id)
    requires n < |rankings| && IsTopList(rankings[n].topProducts, sales, limit)
    requires limit >= |sales| && product in sales
    ensures Lists(rankings, rankings[n].category, product, sales[product])
  {
    TopListIsComplete(rankings[n].topProducts, sales, limit, product);
  }

  /**
   preserveNullAndEmptyArrays keeps unsold products: in every result the aggregation allows, a product that
   a category reaches and nobody ordered is in the category's list, with 0, if the limit leaves room for all.
   */
  lemma UnsoldStaysListed(db: Catalogue, limit: nat, rankings: seq<Ranking>, category: string, product: Id)
    requires KeysUnique(db) && GetTopProductsByCategory(db, limit, rankings)
    requires Reaches(db, category, product) && limit >= |SalesOf(db, category)|
    requires forall i :: 0 <= i < |db.items| ==> db.items[i].product != product
    ensures Lists(rankings, category, product, 0.0)
  {
    UnsoldSumsToZero(db.items, product);
    ReachedIsListed(db, limit, rankings, category, product);
  }

  // ---------- there is always a result ----------

  lemma {:induction false} SomeGrouping(rows: seq<Row>, source: seq<Row>) returns (totals: seq<Total>)
    ensures KeysDiffer(totals)
    ensures forall i :: 0 <= i < |totals| ==> totals[i].totalSold == Sum(source, totals[i].key)
    ensures forall k :: HasTotal(totals, k) <==> HasKey(rows, k)
  {
    totals := [];
    if rows != [] {
      var fewer := SomeGrouping(rows[1..], source);
      var k0 := KeyOf(rows[0]);
      assert rows == [rows[0]] + rows[1..];
      forall k
        ensures HasKey(rows, k) <==> k == k0 || HasKey(rows[1..], k)
      {
        HasKeyAppend([rows[0]], rows[1..], k);
        assert HasKey([rows[0]], k) <==> KeyOf([rows[0]][0]) == k;
      }
      if HasKey(rows[1..], k0) {
        totals := fewer;
      } else {
        totals := [Total(k0, Sum(source, k0))] + fewer;
        assert !HasTotal(fewer, k0);
        forall k
          ensures HasTotal(totals, k) <==> k == k0 || HasTotal(fewer, k)
        {
          if k == k0 { assert totals[0].key == k; }
          if HasTotal(fewer, k) {
            var i :| 0 <= i < |fewer| && fewer[i].key == k;
            assert totals[i + 1].key == k;
          }
        }
      }
    }
  }

  ghost predicate Ordered(s: seq<Total>) { forall i, j :: 0 <= i < j < |s| ==> InOrder(s[i], s[j]) }

  lemma {:induction false} InsertOrdered(s: seq<Total>, x: Total) returns (r: seq<Total>)
    requires Ordered(s)
    ensures Ordered(r) && multiset(r) == multiset(s) + multiset{x}
  {
    if s == [] {
      r := [x];
    } else if InOrder(x, s[0]) {
      r := [x] + s;
      forall j | 0 <= j < |s| ensures InOrder(x, s[j]) {
        if j > 0 { InOrderTransitive(x, s[0], s[j]); }
      }
    } else {
      StringOrder.Total(x.key.category, s[0].key.category);
      assert InOrder(s[0], x);
      var t := InsertOrdered(s[1..], x);
      assert s == [s[0]] + s[1..];
      r := [s[0]] + t;
      forall j | 0 <= j < |t| ensures InOrder(s[0], t[j]) {
        assert t[j] in multiset(t);
        assert t[j] == x || t[j] in s[1..];
      }
    }
  }

  lemma {:induction false} SomeOrder(totals: seq<Total>) returns (sorted: seq<Total>)
    ensures Sorted(totals, sorted)
  {
    if totals == [] {
      sorted := [];
    } else {
      var rest := SomeOrder(totals[1..]);
      sorted := InsertOrdered(rest, totals[0]);
      assert totals == [totals[0]] + totals[1..];
    }
  }

  lemma {:induction false} SomeCategories(sorted: seq<Total>) returns (names: seq<string>)
    ensures forall i, j :: 0 <= i < j < |names| ==> names[i] != names[j]
    ensures forall c :: c in names <==> HasCategory(sorted, c)
  {
    names := [];
    if sorted != [] {
      var fewer := SomeCategories(sorted[1..]);
      var first := sorted[0].key.category;
      names := if first in fewer then fewer else [first] + fewer;
      forall c
        ensures HasCategory(sorted, c) <==> c == first || HasCategory(sorted[1..], c)
      {
        if c == first { assert sorted[0].key.category == c; }
        if HasCategory(sorted[1..], c) {
          var t :| 0 <= t < |sorted[1..]| && sorted[1..][t].key.category == c;
          assert sorted[t + 1].key.category == c;
        }
        if HasCategory(sorted, c) && c != first {
          var t :| 0 <= t < |sorted| && sorted[t].key.category == c;
          assert sorted[1..][t - 1].key.category == c;
        }
      }
    }
  }

  lemma SomeRanking(sorted: seq<Total>, limit: int) returns (rankings: seq<Ranking>)
    ensures Ranks(sorted, limit, rankings)
  {
    var names := SomeCategories(sorted);
    rankings := seq(|names|, i requires 0 <= i < |names| => Ranking(names[i], Slice(Pushed(sorted, names[i]), limit)));
    forall c
      ensures HasRanking(rankings, c) <==> c in names
    {
      if c in names {
        var i :| 0 <= i < |names| && names[i] == c;
        assert rankings[i].category == c;
      }
    }
  }

  lemma SomeResult(rows: seq<Row>, limit: int) returns (totals: seq<Total>, sorted: seq<Total>, rankings: seq<Ranking>)
    ensures Grouped(rows, totals) && Sorted(totals, sorted) && Ranks(sorted, limit, rankings)
  {
    totals := SomeGrouping(rows, rows);
    sorted := SomeOrder(totals);
    rankings := SomeRanking(sorted, limit);
  }

  /** The aggregation has a result on every catalogue. */
  lemma TopProductsExist(db: Catalogue, limit: int)
    ensures exists rankings :: GetTopProductsByCategory(db, limit, rankings)
  {
    var totals, sorted, rankings := SomeResult(Rows(db), limit);
    assert GetTopProductsByCategory(db, limit, rankings);
  }
}
