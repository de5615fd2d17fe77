/** The public list: how FindAll and Count build their statements
    (postgres_product_repository.go) and the key its cache entry is stored under
    (product_cache.go, generateProductListKey). */
module ListQuery {
  import opened Domain
  import opened Catalog
  import opened PublicReads
  import opened Text

  datatype ProductFilters = ProductFilters(category: string, search: string, sortBy: string, order: string, page: int,
      limit: int)

  // -------------------------------------------------------- what is meant

  /** int arithmetic wraps at 64 bits. */
  function Wrap(n: int): int { (n + 0x8000_0000_0000_0000) % 0x1_0000_0000_0000_0000 - 0x8000_0000_0000_0000 }

  predicate IsInt64(n: int) { -0x8000_0000_0000_0000 <= n < 0x8000_0000_0000_0000 }

  predicate IsSpace(c: char) { c == ' ' || c == '\t' || c == '\n' || c == '\r' || c == '\U{b}' || c == '\U{c}' }

  function Trim(s: string): string
    decreases |s|
  {
    if s != "" && IsSpace(s[0]) then Trim(s[1..])
    else if s != "" && IsSpace(s[|s| - 1]) then Trim(s[..|s| - 1])
    else s
  }

  function Upper(s: string): string {
    if s == "" then "" else [if 'a' <= s[0] <= 'z' then (s[0] as int - 32) as char else s[0]] + Upper(s[1..])
  }

  function Column(sortBy: string): SortColumn {
    if sortBy == "id" then ById
    else if sortBy == "name" then ByName
    else if sortBy == "price" then ByPrice
    else ByCreatedAt
  }

  function Offset(page: int, limit: int): int {
    var offset := Wrap(Wrap(page - 1) * limit);
    if offset < 0 then 0 else offset
  }

  function NonEmpty(s: string): Option<string> { if s != "" then Some(s) else None }

  /** The query a filter set asks for. */
  function Asked(f: ProductFilters): Query {
    var limit := if f.limit == 0 then 20 else f.limit;
    Query(NonEmpty(f.category),
          if f.search != "" then Some("%" + f.search + "%") else None,
          Column(f.sortBy), Upper(Trim(f.order)) != "ASC", limit, Offset(f.page, limit))
  }

  /** The query that takes effect: none, when LIMIT is negative and the statement fails. */
  function Effective(f: ProductFilters): Option<Query> {
    if Asked(f).limit < 0 then None else Some(Asked(f))
  }

  // --------------------------------------------------- statement builders

  /** A piece of SQL text; the numbers are its $n placeholders. */
  datatype Fragment =
    | SelectActive
    | CategoryIs(at: nat)
    | NameLike(at: nat)
    | OrderBy(column: SortColumn, descending: bool)
    | LimitOffset(limitAt: nat, offsetAt: nat)

  datatype Arg = TextArg(text: string) | IntArg(number: int)

  function Placeholders(query: seq<Fragment>): seq<nat>
    decreases |query|
  {
    if query == [] then []
    else
      Placeholders(query[..|query| - 1]) +
      match query[|query| - 1]
      case CategoryIs(at) => [at]
      case NameLike(at) => [at]
      case LimitOffset(l, o) => [l, o]
      case _ => []
  }

  function ArgText(args: seq<Arg>, at: nat): Option<string> {
    if 1 <= at <= |args| && args[at - 1].TextArg? then Some(args[at - 1].text) else None
  }

  function ArgNumber(args: seq<Arg>, at: nat): int {
    if 1 <= at <= |args| && args[at - 1].IntArg? then args[at - 1].number else 0
  }

  /** What a statement means, read off its text and its bound arguments; what the
      text does not say is left at `SELECT ... FROM products` without a limit. */
  function Denote(query: seq<Fragment>, args: seq<Arg>): Query
    decreases |query|
  {
    if query == [] then Query(None, None, ByCreatedAt, true, 0, 0)
    else
      var before := Denote(query[..|query| - 1], args);
      match query[|query| - 1]
      case SelectActive => before
      case CategoryIs(at) => before.(category := ArgText(args, at))
      case NameLike(at) => before.(like := ArgText(args, at))
      case OrderBy(column, descending) => before.(column := column, descending := descending)
      case LimitOffset(l, o) => before.(limit := ArgNumber(args, l), offset := ArgNumber(args, o))
  }

  function UpTo(n: nat): seq<nat> { seq(n, i requires 0 <= i < n => i + 1) }

  lemma AppendedLast(query: seq<Fragment>, fragment: Fragment)
    ensures (query + [fragment])[..|query + [fragment]| - 1] == query
    ensures (query + [fragment])[|query + [fragment]| - 1] == fragment
  {
  }

  /** Arguments appended later do not change what the placeholders so far mean. */
  lemma {:induction false} DenoteStable(query: seq<Fragment>, args: seq<Arg>, more: seq<Arg>)
    requires forall at | at in Placeholders(query) :: 1 <= at <= |args|
    ensures Denote(query, args + more) == Denote(query, args)
    decreases |query|
  {
    if query != [] {
      var front := query[..|query| - 1];
      forall at | at in Placeholders(front)
        ensures at in Placeholders(query)
      {
      }
      DenoteStable(front, args, more);
      match query[|query| - 1]
      case CategoryIs(at) => assert at in Placeholders(query);
      case NameLike(at) => assert at in Placeholders(query);
      case LimitOffset(l, o) => assert l in Placeholders(query) && o in Placeholders(query);
      case _ =>
    }
  }

  /** The category as it was sent, and the search text between wildcards. */
  function WhereArgs(f: ProductFilters): seq<Arg> {
    (if f.category == "" then [] else [TextArg(f.category)])
    + if f.search == "" then [] else [TextArg("%" + f.search + "%")]
  }

  /** Rows on sale only, then the two optional conditions, numbered as they come. */
  function WhereText(f: ProductFilters): seq<Fragment> {
    [SelectActive]
    + (if f.category == "" then [] else [CategoryIs(1)])
    + if f.search == "" then [] else [NameLike(if f.category == "" then 1 else 2)]
  }

  /** The WHERE clause both builders grow, placeholder by placeholder. */
  method BuildWhere(f: ProductFilters) returns (query: seq<Fragment>, args: seq<Arg>, argPos: nat)
    ensures argPos == |args| + 1
    ensures Placeholders(query) == UpTo(|args|)
    ensures Denote(query, args) == Query(Asked(f).category, Asked(f).like, ByCreatedAt, true, 0, 0)
    ensures args == WhereArgs(f) && query == WhereText(f)
  {
    query, args, argPos := [SelectActive], [], 1;
    assert query[..0] == [];
    if f.category != "" {
      AppendedLast(query, CategoryIs(argPos));
      DenoteStable(query, args, [TextArg(f.category)]);
      query := query + [CategoryIs(argPos)];
      args := args + [TextArg(f.category)];
      argPos := argPos + 1;
    }
    if f.search != "" {
      AppendedLast(query, NameLike(argPos));
      DenoteStable(query, args, [TextArg("%" + f.search + "%")]);
      query := query + [NameLike(argPos)];
      args := args + [TextArg("%" + f.search + "%")];
      argPos := argPos + 1;
    }
  }

  /** ORDER BY: only allow-listed columns and the two directions reach the text. */
  method BuildOrder(f: ProductFilters) returns (column: SortColumn, descending: bool)
    ensures column == Asked(f).column && descending == Asked(f).descending
  {
    column := ByCreatedAt;
    if f.sortBy != "" {
      if f.sortBy in ["id", "name", "price", "created_at"] {
        column := Column(f.sortBy);
      }
    }
    var order := Upper(Trim(f.order));
    if order != "ASC" && order != "DESC" {
      order := "DESC";
    }
    descending := order == "DESC";
  }

  method BuildWindow(f: ProductFilters) returns (limit: int, offset: int)
    ensures limit == Asked(f).limit && offset == Asked(f).offset
  {
    limit := f.limit;
    if limit == 0 {
      limit := 20;
    }
    offset := Wrap(Wrap(f.page - 1) * limit);
    if offset < 0 {
      offset := 0;
    }
  }

  /** FindAll's statement: the placeholders are 1..len(args) in order, and text and
      arguments together mean the query that was asked for. */
  method BuildFindAll(f: ProductFilters) returns (query: seq<Fragment>, args: seq<Arg>)
    ensures Placeholders(query) == UpTo(|args|)
    ensures Denote(query, args) == Asked(f)
    ensures args == WhereArgs(f) + [IntArg(Asked(f).limit), IntArg(Asked(f).offset)]
    ensures query == WhereText(f)
                     + [OrderBy(Asked(f).column, Asked(f).descending)] + [LimitOffset(|args| - 1, |args|)]
  {
    var argPos;
    query, args, argPos := BuildWhere(f);
    var column, descending := BuildOrder(f);
    AppendedLast(query, OrderBy(column, descending));
    query := query + [OrderBy(column, descending)];
    var limit, offset := BuildWindow(f);
    AppendedLast(query, LimitOffset(argPos, argPos + 1));
    DenoteStable(query, args, [IntArg(limit), IntArg(offset)]);
    query := query + [LimitOffset(argPos, argPos + 1)];
    args := args + [IntArg(limit), IntArg(offset)];
  }

  /** Count's statement selects by the same predicate as FindAll's. */
  method BuildCount(f: ProductFilters) returns (query: seq<Fragment>, args: seq<Arg>)
    ensures Placeholders(query) == UpTo(|args|)
    ensures Denote(query, args).category == Asked(f).category && Denote(query, args).like == Asked(f).like
    ensures args == WhereArgs(f) && query == WhereText(f)
  {
    var argPos;
    query, args, argPos := BuildWhere(f);
  }

  // ------------------------------------------------------------ list key

  const SEP := '\U{1f}'

  function OrDefault(s: string, default: string): string { if s == "" then default else s }

  function DefaultNumber(n: int, default: int): int { if n == 0 then default else n }

  function Join(parts: seq<string>): string
    decreases |parts|
  {
    if |parts| == 0 then "" else if |parts| == 1 then parts[0] else parts[0] + [SEP] + Join(parts[1..])
  }

  function KeyParts(f: ProductFilters): seq<string> {
    [OrDefault(f.category, "all"), OrDefault(f.search, "none"), OrDefault(f.sortBy, "created_at"),
        OrDefault(f.order, "desc"),
     Signed(DefaultNumber(f.page, 1)), Signed(DefaultNumber(f.limit, 20))]
  }

  /** The canonical tuple that is hashed. SHA-256 (FIPS 180-4 section 6.2) is taken
      as injective, so the tuple stands for the key. */
  function ListKey(f: ProductFilters): string { Join(KeyParts(f)) }

  /** Joined parts can be told apart again when no part holds the separator. */
  lemma {:induction false} JoinInjective(a: seq<string>, b: seq<string>)
    requires |a| == |b| && Join(a) == Join(b)
    requires forall i | 0 <= i < |a| :: SEP !in a[i] && SEP !in b[i]
    ensures a == b
    decreases |a|
  {
    if |a| > 1 {
      SplitUnique(a[0], Join(a[1..]), b[0], Join(b[1..]), SEP);
      JoinInjective(a[1..], b[1..]);
      assert a == [a[0]] + a[1..] && b == [b[0]] + b[1..];
    } else if |a| == 1 {
      assert a == [a[0]] && b == [b[0]];
    }
  }

  predicate SeparatorFree(f: ProductFilters) {
    SEP !in f.category && SEP !in f.search && SEP !in f.sortBy && SEP !in f.order
  }

  predicate GoInts(f: ProductFilters) { IsInt64(f.page) && IsInt64(f.limit) }

  /** The key is a faithful printer of the defaulted tuple. */
  lemma ListKeyInjective(f: ProductFilters, g: ProductFilters)
    requires SeparatorFree(f) && SeparatorFree(g) && ListKey(f) == ListKey(g)
    ensures OrDefault(f.category, "all") == OrDefault(g.category, "all")
    ensures OrDefault(f.search, "none") == OrDefault(g.search, "none")
    ensures OrDefault(f.sortBy, "created_at") == OrDefault(g.sortBy, "created_at")
    ensures OrDefault(f.order, "desc") == OrDefault(g.order, "desc")
    ensures DefaultNumber(f.page, 1) == DefaultNumber(g.page, 1)
    ensures DefaultNumber(f.limit, 20) == DefaultNumber(g.limit, 20)
  {
    var a, b := KeyParts(f), KeyParts(g);
    JoinInjective(a, b);
    assert a[0] == b[0] && a[1] == b[1] && a[2] == b[2] && a[3] == b[3] && a[4] == b[4] && a[5] == b[5];
    SignedInjective(DefaultNumber(f.page, 1), DefaultNumber(g.page, 1));
    SignedInjective(DefaultNumber(f.limit, 20), DefaultNumber(g.limit, 20));
  }

  lemma DefaultPage(page: int, limit: int)
    requires IsInt64(page) && 0 <= limit && IsInt64(limit)
    ensures Offset(DefaultNumber(page, 1), limit) == Offset(page, limit)
  {
    if page == 0 {
      assert Wrap(-1) == -1 && Wrap(0) == 0;
      assert Wrap(-1 * limit) == -limit;
      assert Wrap(0 * limit) == 0;
    }
  }

  lemma DefaultOrder(order: string)
    ensures (Upper(Trim(OrDefault(order, "desc"))) != "ASC") == (Upper(Trim(order)) != "ASC")
  {
    assert Trim("desc") == "desc" && Trim("") == "";
    assert Upper("desc")[0] == 'D';
  }

  /** Filling in the defaults first does not change sort, order, limit or offset. */
  lemma DefaultsAgree(f: ProductFilters)
    requires GoInts(f) && Asked(f).limit >= 0
    ensures var limit := DefaultNumber(f.limit, 20);
      && Asked(f).limit == limit
      && Asked(f).offset == Offset(DefaultNumber(f.page, 1), limit)
      && Asked(f).column == Column(OrDefault(f.sortBy, "created_at"))
      && Asked(f).descending == (Upper(Trim(OrDefault(f.order, "desc"))) != "ASC")
  {
    DefaultPage(f.page, DefaultNumber(f.limit, 20));
    DefaultOrder(f.order);
  }

  /** Exactly when two filter sets that share a key ask for the same thing: always,
      except that the words "all" and "none" themselves are taken for no filter. */
  lemma SameKeySameQueryExactly(f: ProductFilters, g: ProductFilters)
    requires SeparatorFree(f) && SeparatorFree(g) && GoInts(f) && GoInts(g) && ListKey(f) == ListKey(g)
    ensures Effective(f) == Effective(g)
            <==> (|| f.limit < 0
                  || ((f.category == "all" <==> g.category == "all") && (f.search == "none" <==> g.search == "none")))
  {
    ListKeyInjective(f, g);
    if f.limit >= 0 {
      DefaultsAgree(f);
      DefaultsAgree(g);
      if f.search != "" && g.search != "" {
        assert ("%" + f.search + "%")[1..|f.search| + 1] == f.search;
      }
      assert Asked(f).category == Asked(g).category <==> (f.category == "all" <==> g.category == "all");
      assert Asked(f).like == Asked(g).like <==> (f.search == "none" <==> g.search == "none");
    }
  }

  /** So a request for the category "all" shares its cache entry with the
      unfiltered list and asks for something else. */
  lemma CategoryAllCollides(f: ProductFilters)
    requires f.category == "all" && f.limit >= 0
    ensures ListKey(f) == ListKey(f.(category := "")) && Effective(f) != Effective(f.(category := ""))
  {
  }

  lemma SearchNoneCollides(f: ProductFilters)
    requires f.search == "none" && f.limit >= 0
    ensures ListKey(f) == ListKey(f.(search := "")) && Effective(f) != Effective(f.(search := ""))
  {
  }

  lemma JoinMerge(parts: seq<string>, i: nat)
    requires i + 1 < |parts|
    ensures Join(parts[..i] + [parts[i] + [SEP] + parts[i + 1]] + parts[i + 2..]) == Join(parts)
    decreases i
  {
    var merged := parts[..i] + [parts[i] + [SEP] + parts[i + 1]] + parts[i + 2..];
    if i == 0 {
      assert merged[1..] == parts[2..] && parts[1..][1..] == parts[2..];
    } else {
      JoinMerge(parts[1..], i - 1);
      assert merged[1..] == parts[1..][..i - 1] + [parts[i] + [SEP] + parts[i + 1]] + parts[1..][i + 1..];
    }
  }

  /** And a separator inside a text field can move the field boundary. */
  lemma SeparatorCollides(a: string, b: string, f: ProductFilters)
    requires a != "" && b != "" && f.limit >= 0
    requires f.category == a + [SEP] + b && f.search != "" && f.sortBy == f.order == "" && f.page == f.limit == 0
    ensures var g := ProductFilters(a, b, f.search, "created_at" + [SEP] + "desc", 0, 0);
      ListKey(f) == ListKey(g) && Effective(f) != Effective(g)
  {
    var g := ProductFilters(a, b, f.search, "created_at" + [SEP] + "desc", 0, 0);
    var parts := [a, b, f.search, "created_at", "desc", Signed(1), Signed(20)];
    JoinMerge(parts, 0);
    assert KeyParts(f) == parts[..0] + [parts[0] + [SEP] + parts[1]] + parts[2..];
    JoinMerge(parts, 3);
    assert KeyParts(g) == parts[..3] + [parts[3] + [SEP] + parts[4]] + parts[5..];
    assert f.category != a;
  }
}
