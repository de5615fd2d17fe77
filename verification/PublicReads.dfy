/** The public reads of one committed state (postgres_product_repository.go):
    FindByID, and what FindAll and Count select. */
module PublicReads {
  import opened Domain
  import opened Catalog
  import opened Paging

  datatype PublicProduct = PublicProduct(id: nat, name: string, cents: int, description: string, category: string)

  /** The row as a public read shows it, whatever its status. */
  function PublicRow(categories: map<nat, Category>, id: nat, p: Product): PublicProduct {
    PublicProduct(id, p.name, p.cents, p.description,
                  if p.category.Some? && p.category.value in categories then categories[p.category.value].name
                      else "Uncategorized")
  }

  /** FindByID: ACTIVE rows only; None is ErrNotFound. */
  function FindByID(db: State, id: nat): (found: Option<PublicProduct>)
    ensures found.Some? <==> id in db.products && db.products[id].status == Active
  {
    if id in db.products && db.products[id].status == Active then Some(PublicRow(db.categories, id, db.products[id]))
        else None
  }

  datatype SortColumn = ById | ByName | ByPrice | ByCreatedAt

  /** A list query as the database receives it: `like` is the ILIKE pattern. */
  datatype Query = Query(category: Option<string>, like: Option<string>, column: SortColumn, descending: bool,
      limit: int, offset: int)

  function Lower(c: char): char { if 'A' <= c <= 'Z' then (c as int + 32) as char else c }

  /** text ILIKE pattern */
  predicate ILike(text: string, pattern: string)
    decreases |text| + |pattern|
  {
    if pattern == "" then text == ""
    else if pattern[0] == '%' then ILike(text, pattern[1..]) || (text != "" && ILike(text[1..], pattern))
    else if pattern[0] == '\\' && |pattern| > 1 then
      text != "" && Lower(text[0]) == Lower(pattern[1]) && ILike(text[1..], pattern[2..])
    else text != "" && (pattern[0] == '_' || Lower(text[0]) == Lower(pattern[0])) && ILike(text[1..], pattern[1..])
  }

  /** The WHERE clause of both list statements. */
  predicate Selects(db: State, category: Option<string>, like: Option<string>, id: nat) {
    && id in db.products
    && var p := db.products[id];
       && p.status == Active
       && (category.Some? ==>
             && p.category.Some? && p.category.value in db.categories
             && db.categories[p.category.value].name == category.value)
       && (like.Some? ==> ILike(p.name, like.value))
  }

  ghost function Selected(db: State, category: Option<string>, like: Option<string>): set<nat> {
    set id | id in db.products && Selects(db, category, like, id)
  }

  predicate TextBefore(a: string, b: string)
    decreases |a|
  {
    b != "" && (a == "" || a[0] < b[0] || (a[0] == b[0] && TextBefore(a[1..], b[1..])))
  }

  /** a sorts strictly before b, ascending, on the one sort column. */
  predicate ColumnBefore(products: map<nat, Product>, column: SortColumn, a: nat, b: nat)
    requires a in products && b in products
  {
    match column
    case ById => a < b
    case ByName => TextBefore(products[a].name, products[b].name)
    case ByPrice => products[a].cents < products[b].cents
    case ByCreatedAt => products[a].createdAt < products[b].createdAt
  }

  /** One order the database may return the selected rows in: each once, no pair
      out of order on the sort column. Rows that tie may come either way. */
  ghost predicate IsOrdering(db: State, q: Query, ids: seq<nat>) {
    && (forall i | 0 <= i < |ids| :: ids[i] in Selected(db, q.category, q.like))
    && (forall id | id in Selected(db, q.category, q.like) :: exists i :: 0 <= i < |ids| && ids[i] == id)
    && (forall i, j | 0 <= i < j < |ids| ::
          && ids[i] != ids[j]
          && !(if q.descending then ColumnBefore(db.products, q.column, ids[i], ids[j])
             else ColumnBefore(db.products, q.column, ids[j], ids[i])))
  }

  ghost predicate IsPageOf(db: State, q: Query, ids: seq<nat>, page: seq<PublicProduct>)
    requires q.limit >= 0 && q.offset >= 0
  {
    && IsOrdering(db, q, ids)
    && |page| == |Page(ids, q.limit, q.offset)|
    && forall i | 0 <= i < |page| ::
         var id := Page(ids, q.limit, q.offset)[i];
         id in db.products && page[i] == PublicRow(db.categories, id, db.products[id])
  }

  /** FindAll may answer `page`. A negative LIMIT or OFFSET is an error, so no page. */
  ghost predicate FindAll(db: State, q: Query, page: seq<PublicProduct>) {
    q.limit >= 0 && q.offset >= 0 && exists ids: seq<nat> :: IsPageOf(db, q, ids, page)
  }

  ghost function Count(db: State, q: Query): nat { |Selected(db, q.category, q.like)| }

  lemma {:induction false} DistinctCount(ids: seq<nat>, rows: set<nat>)
    requires forall i | 0 <= i < |ids| :: ids[i] in rows
    requires forall id | id in rows :: exists i :: 0 <= i < |ids| && ids[i] == id
    requires forall i, j | 0 <= i < j < |ids| :: ids[i] != ids[j]
    ensures |ids| == |rows|
  {
    forall id: nat
      ensures id in ids <==> id in rows
    {
    }
    NoDuplicatesLength(ids, rows);
  }

  /** A page of FindAll is as long as Count says it must be, and every product on
      it is what FindByID answers for its id in the same state. */
  lemma PageAgreesWithCountAndDetail(db: State, q: Query, page: seq<PublicProduct>)
    requires FindAll(db, q, page)
    ensures |page| == Min(q.limit, if q.offset < Count(db, q) then Count(db, q) - q.offset else 0)
    ensures forall i | 0 <= i < |page| :: FindByID(db, page[i].id) == Some(page[i])
  {
    var ids: seq<nat> :| IsPageOf(db, q, ids, page);
    DistinctCount(ids, Selected(db, q.category, q.like));
    forall i | 0 <= i < |page|
      ensures FindByID(db, page[i].id) == Some(page[i])
    {
      var id := Page(ids, q.limit, q.offset)[i];
      assert id == ids[Min(q.offset, |ids|) + i];
    }
  }
}
