/** LIMIT/OFFSET paging over an ordered result, and the operator's product list
    as such a result (catalog_admin_repository.go, ListProducts). */
module Paging {
  import opened Domain
  import opened Catalog

  function Min(a: int, b: int): int { if a < b then a else b }

  /** LIMIT limit OFFSET offset of a result. */
  function Page<T>(rows: seq<T>, limit: nat, offset: nat): (page: seq<T>)
    ensures |page| == Min(limit, if offset < |rows| then |rows| - offset else 0)
  {
    rows[Min(offset, |rows|)..Min(offset + limit, |rows|)]
  }

  /** The first `n` pages of size `limit`, one after the other. */
  function Pages<T>(rows: seq<T>, limit: nat, n: nat): seq<T> {
    if n == 0 then [] else Pages(rows, limit, n - 1) + Page(rows, limit, (n - 1) * limit)
  }

  lemma PageExtendsPrefix<T>(rows: seq<T>, limit: nat, offset: nat)
    ensures rows[..Min(offset, |rows|)] + Page(rows, limit, offset) == rows[..Min(offset + limit, |rows|)]
  {
  }

  lemma OneMorePage(limit: nat, n: nat)
    requires n > 0
    ensures (n - 1) * limit >= 0 && n * limit == (n - 1) * limit + limit
  {
  }

  lemma {:induction false} PagesArePrefix<T>(rows: seq<T>, limit: nat, n: nat)
    ensures Pages(rows, limit, n) == rows[..Min(n * limit, |rows|)]
  {
    if n > 0 {
      OneMorePage(limit, n);
      PagesArePrefix(rows, limit, n - 1);
      PageExtendsPrefix(rows, limit, (n - 1) * limit);
    }
  }

  // ------------------------------------------------- the operator's list

  ghost function Matching(products: map<nat, Product>, status: Option<ProductStatus>): set<nat> {
    set id | id in products && (status.None? || products[id].status == status.value)
  }

  /** ORDER BY created_at DESC, id DESC: a total order, because ids are unique. */
  predicate Newer(products: map<nat, Product>, a: nat, b: nat)
    requires a in products && b in products
  {
    products[a].createdAt > products[b].createdAt || (products[a].createdAt == products[b].createdAt && a > b)
  }

  /** Every matching row once, newest first. */
  ghost predicate IsListing(products: map<nat, Product>, rows: set<nat>, ids: seq<nat>)
    requires rows <= products.Keys
  {
    && (forall id :: id in ids <==> id in rows)
    && forall i, j | 0 <= i < j < |ids| :: ids[i] in products && ids[j] in products && Newer(products, ids[i], ids[j])
  }

  lemma NewestExists(products: map<nat, Product>, rows: set<nat>) returns (newest: nat)
    requires |rows| > 0 && rows <= products.Keys
    ensures newest in rows
    ensures forall id | id in rows && id != newest :: Newer(products, newest, id)
    decreases |rows|
  {
    var some :| some in rows;
    var rest := rows - {some};
    if |rest| == 0 {
      newest := some;
    } else {
      var other := NewestExists(products, rest);
      newest := if Newer(products, other, some) then other else some;
      forall id | id in rows && id != newest
        ensures Newer(products, newest, id)
      {
        if id != some && id != other { assert Newer(products, other, id); }
      }
    }
  }

  lemma NoDuplicatesLength(ids: seq<nat>, rows: set<nat>)
    requires forall id :: id in ids <==> id in rows
    requires forall i, j | 0 <= i < j < |ids| :: ids[i] != ids[j]
    ensures |ids| == |rows|
    decreases |ids|
  {
    if |ids| == 0 {
      assert rows == {};
    } else {
      var rest := rows - {ids[0]};
      forall id
        ensures id in ids[1..] <==> id in rest
      {
        assert ids == [ids[0]] + ids[1..];
      }
      NoDuplicatesLength(ids[1..], rest);
    }
  }

  lemma HeadIsNewest(products: map<nat, Product>, rows: set<nat>, ids: seq<nat>)
    requires rows <= products.Keys && IsListing(products, rows, ids) && |ids| > 0
    ensures forall id | id in rows && id != ids[0] :: Newer(products, ids[0], id)
  {
    forall id | id in rows && id != ids[0]
      ensures Newer(products, ids[0], id)
    {
      assert id in ids;
      var i :| 0 <= i < |ids| && ids[i] == id;
    }
  }

  lemma ListingLength(products: map<nat, Product>, rows: set<nat>, ids: seq<nat>)
    requires rows <= products.Keys && IsListing(products, rows, ids)
    ensures |ids| == |rows|
    ensures forall i, j | 0 <= i < |ids| && 0 <= j < |ids| && ids[i] == ids[j] :: i == j
  {
    forall i, j | 0 <= i < j < |ids|
      ensures ids[i] != ids[j]
    {
      assert Newer(products, ids[i], ids[j]);
    }
    NoDuplicatesLength(ids, rows);
  }

  /** The order of the rows is determined: two listings of the same rows are equal. */
  lemma {:induction false} ListingUnique(products: map<nat, Product>, rows: set<nat>, a: seq<nat>, b: seq<nat>)
    requires rows <= products.Keys && IsListing(products, rows, a) && IsListing(products, rows, b)
    ensures a == b
    decreases |a|
  {
    ListingLength(products, rows, a);
    ListingLength(products, rows, b);
    if |a| > 0 {
      HeadIsNewest(products, rows, a);
      HeadIsNewest(products, rows, b);
      var x, y := a[0], b[0];
      assert x in a && y in b;
      assert x in rows && y in rows;
      assert x == y;
      TailListing(products, rows, a);
      TailListing(products, rows, b);
      ListingUnique(products, rows - {x}, a[1..], b[1..]);
      assert a == [x] + a[1..] && b == [y] + b[1..];
    }
  }

  lemma TailListing(products: map<nat, Product>, rows: set<nat>, ids: seq<nat>)
    requires rows <= products.Keys && IsListing(products, rows, ids) && |ids| > 0
    ensures IsListing(products, rows - {ids[0]}, ids[1..])
  {
    forall id
      ensures id in ids[1..] <==> id in rows - {ids[0]}
    {
      if id in rows && id != ids[0] {
        var i :| 0 <= i < |ids| && ids[i] == id;
        assert ids[1..][i - 1] == id;
      }
    }
  }

  /** For every status filter and page size: the pages at offsets 0, limit,
      2 * limit, ... hold every matching row exactly once, in order, and the
      reported total is their number. */
  lemma PagesPartitionListing(products: map<nat, Product>, status: Option<ProductStatus>, ids: seq<nat>, limit: nat,
      n: nat)
    requires IsListing(products, Matching(products, status), ids) && n * limit >= |Matching(products, status)|
    ensures Pages(ids, limit, n) == ids
    ensures |ids| == |Matching(products, status)|
    ensures forall id | id in Matching(products, status) :: exists i :: 0 <= i < |ids| && ids[i] == id
    ensures forall i, j | 0 <= i < |ids| && 0 <= j < |ids| && ids[i] == ids[j] :: i == j
  {
    ListingLength(products, Matching(products, status), ids);
    PagesArePrefix(ids, limit, n);
    forall id | id in Matching(products, status)
      ensures exists i :: 0 <= i < |ids| && ids[i] == id
    {
      assert id in ids;
    }
  }
}
