/** Checkout's price authority: FindByIDs and BatchGetCurrentPrices
    (internal/core/repository/postgres_product_repository.go,
    internal/grpc/v1/server.go). */
module Prices {
  import opened Domain
  import opened Catalog
  import opened PublicReads
  import opened Text
  import opened ListQuery
  import opened MinorUnits

  const MAX_PRICE_BATCH := 200

  /** A product as FindByIDs scans it; the price is a double. */
  datatype ScannedProduct = ScannedProduct(id: string, name: string, description: string, price: real, category: string)

  datatype CurrentPrice = CurrentPrice(skuId: string, name: string, priceMinor: int, currency: string, sellable: bool)

  // ------------------------------------------------------------------- ids

  predicate AllDigits(s: string) { s != "" && forall c | c in s :: '0' <= c <= '9' }

  /** strconv.Atoi: an optional sign, digits, and a value that fits an int. */
  function Atoi(s: string): Option<int> {
    var digits := if s != "" && (s[0] == '-' || s[0] == '+') then s[1..] else s;
    if !AllDigits(digits) then None
    else
      var n := if s[0] == '-' then -Value(digits) else Value(digits);
      if IsInt64(n) then Some(n) else None
  }

  /** Atoi reads back every int that was printed, so a canonical id names its row. */
  lemma AtoiReadsBack(n: int)
    requires IsInt64(n)
    ensures Atoi(Signed(n)) == Some(n)
  {
    SignFirst(n);
    if n < 0 {
      assert Signed(n)[1..] == Decimal(-n);
      ValueOfDecimal(-n);
    } else {
      var first := Decimal(n)[0];
      assert first in Decimal(n);
      ValueOfDecimal(n);
    }
  }

  lemma {:induction false} ZeroFirst(s: string)
    ensures Value("0" + s) == Value(s)
    decreases |s|
  {
    if s == "" {
      assert ("0" + s)[..0] == "";
    } else {
      ZeroFirst(s[..|s| - 1]);
      assert ("0" + s)[..|s|] == "0" + s[..|s| - 1];
    }
  }

  /** Another spelling of the same number asks for the same row. */
  lemma SpellingsAgree(n: nat)
    requires IsInt64(n)
    ensures Atoi(Decimal(n)) == Atoi("+" + Decimal(n)) == Atoi("0" + Decimal(n)) == Some(n)
  {
    var d := Decimal(n);
    AtoiReadsBack(n);
    ZeroFirst(d);
    ValueOfDecimal(n);
    assert ("+" + d)[1..] == d;
    var first := d[0];
    assert first in d;
    forall c | c in "0" + d
      ensures '0' <= c <= '9'
    {
    }
  }

  /** What is no number asks for nothing. */
  lemma NoNumberNoRow(s: string, i: nat)
    requires i < |s| && !('0' <= s[i] <= '9') && (i > 0 || (s[0] != '-' && s[0] != '+'))
    ensures Atoi(s) == None
  {
    var digits := if s[0] == '-' || s[0] == '+' then s[1..] else s;
    var k := if s[0] == '-' || s[0] == '+' then i - 1 else i;
    assert digits[k] == s[i] && digits[k] in digits;
    assert !AllDigits(digits);
  }

  predicate Requested(ids: seq<string>, id: int) { exists i | 0 <= i < |ids| :: Atoi(ids[i]) == Some(id) }

  predicate Distinct(s: seq<nat>) { forall i, j | 0 <= i < j < |s| :: s[i] != s[j] }

  /** A table scan: every row once, in an order of the database's choosing. */
  ghost predicate IsScan(products: map<nat, Product>, scan: seq<nat>) {
    Distinct(scan) && forall id: nat :: id in scan <==> id in products
  }

  function ScannedRow(db: State, id: nat): ScannedProduct
    requires id in db.products && 0 <= db.products[id].cents <= MAX_CENTS
  {
    var row := PublicRow(db.categories, id, db.products[id]);
    ScannedProduct(Decimal(id), row.name, row.description, ScannedPrice(row.cents), row.category)
  }

  predicate AnyOf(numbers: seq<int>, id: int) { exists j | 0 <= j < |numbers| :: numbers[j] == id }

  predicate SomeNumeric(ids: seq<string>) { exists i | 0 <= i < |ids| :: Atoi(ids[i]).Some? }

  /** The rows a batch read must answer with: every existing row that is asked for,
      under any spelling of its number, each once. */
  ghost predicate IsBatch(products: map<nat, Product>, ids: seq<string>, found: seq<nat>) {
    Distinct(found) && forall id: nat :: id in found <==> id in products && Requested(ids, id)
  }

  /** The ids that are numbers; the others cannot exist in the catalogue. */
  method ParseIds(ids: seq<string>) returns (numbers: seq<int>)
    ensures forall id: int :: AnyOf(numbers, id) <==> Requested(ids, id)
    ensures |numbers| > 0 <==> SomeNumeric(ids)
  {
    numbers := [];
    for i := 0 to |ids|
      invariant forall id: int :: AnyOf(numbers, id) <==> Requested(ids[..i], id)
      invariant |numbers| > 0 <==> SomeNumeric(ids[..i])
    {
      var n := Atoi(ids[i]);
      RequestedGrows(ids, i);
      if n.Some? {
        AnyOfAppend(numbers, n.value);
        numbers := numbers + [n.value];
      }
    }
    assert ids[..|ids|] == ids;
  }

  lemma AnyOfAppend(numbers: seq<int>, n: int)
    ensures forall id: int :: AnyOf(numbers + [n], id) <==> AnyOf(numbers, id) || id == n
  {
    forall id: int
      ensures AnyOf(numbers + [n], id) <==> AnyOf(numbers, id) || id == n
    {
      var longer := numbers + [n];
      assert longer[|numbers|] == n;
      if AnyOf(numbers, id) {
        var j :| 0 <= j < |numbers| && numbers[j] == id;
        assert longer[j] == id;
      }
    }
  }

  lemma RequestedGrows(ids: seq<string>, i: nat)
    requires i < |ids|
    ensures forall id: int :: Requested(ids[..i + 1], id) <==> Requested(ids[..i], id) || Atoi(ids[i]) == Some(id)
    ensures SomeNumeric(ids[..i + 1]) <==> SomeNumeric(ids[..i]) || Atoi(ids[i]).Some?
  {
    var longer := ids[..i + 1];
    assert longer[i] == ids[i];
    assert forall j | 0 <= j < i :: longer[j] == ids[..i][j];
  }

  ghost predicate AreRows(db: State, found: seq<nat>, products: seq<ScannedProduct>) {
    && |products| == |found|
    && forall i | 0 <= i < |found| ::
         && found[i] in db.products && 0 <= db.products[found[i]].cents <= MAX_CENTS
         && products[i] == ScannedRow(db, found[i])
  }

  /** WHERE p.id = ANY(numbers), over the rows in scan order. */
  function Picked(numbers: seq<int>, scan: seq<nat>): seq<nat>
    decreases |scan|
  {
    if scan == [] then []
    else Picked(numbers, scan[..|scan| - 1]) + if AnyOf(numbers, scan[|scan| - 1]) then [scan[|scan| - 1]] else []
  }

  lemma {:induction false} PickedExactly(numbers: seq<int>, scan: seq<nat>)
    requires Distinct(scan)
    ensures Distinct(Picked(numbers, scan))
    ensures forall id: nat :: id in Picked(numbers, scan) <==> id in scan && AnyOf(numbers, id)
    decreases |scan|
  {
    if scan != [] {
      var front, last := scan[..|scan| - 1], scan[|scan| - 1];
      PickedExactly(numbers, front);
      assert scan == front + [last];
      assert last !in front;
    }
  }

  lemma PickedNext(numbers: seq<int>, scan: seq<nat>, n: nat)
    requires n < |scan|
    ensures Picked(numbers, scan[..n + 1]) == Picked(numbers, scan[..n]) + if AnyOf(numbers, scan[n]) then [scan[n]]
            else []
  {
    assert scan[..n + 1][..n] == scan[..n];
  }

  lemma PickedIsBatch(products: map<nat, Product>, ids: seq<string>, numbers: seq<int>, scan: seq<nat>)
    requires IsScan(products, scan)
    requires forall id: int :: AnyOf(numbers, id) <==> Requested(ids, id)
    ensures IsBatch(products, ids, Picked(numbers, scan))
  {
    PickedExactly(numbers, scan);
  }

  lemma RowAppend(db: State, found: seq<nat>, products: seq<ScannedProduct>, id: nat)
    requires Valid(db) && AreRows(db, found, products) && id in db.products
    ensures RowOk(db.categories, db.products[id])
    ensures AreRows(db, found + [id], products + [ScannedRow(db, id)])
  {
    assert RowOk(db.categories, db.products[id]);
  }

  /** `scan` is the order the database reads its rows in; `dbFails` stands for any
      error of the query, such as a number too large for the id column. */
  method FindByIDs(db: State, ids: seq<string>, scan: seq<nat>, dbFails: bool)
      returns (r: Result<seq<ScannedProduct>>, ghost found: seq<nat>)
    requires Valid(db) && IsScan(db.products, scan)
    ensures r.Err? <==> dbFails && SomeNumeric(ids)
    ensures r.Err? ==> r.error == Internal
    ensures r.Ok? ==> IsBatch(db.products, ids, found) && AreRows(db, found, r.value)
  {
    var numbers := ParseIds(ids);
    found := [];
    if |numbers| == 0 {
      assert forall id: int :: !AnyOf(numbers, id);
      return Ok([]), found;
    }
    if dbFails {
      return Err(Internal), found;
    }
    var products: seq<ScannedProduct> := [];
    for n := 0 to |scan|
      invariant found == Picked(numbers, scan[..n])
      invariant AreRows(db, found, products)
    {
      PickedNext(numbers, scan, n);
      if AnyOf(numbers, scan[n]) {
        var id := scan[n];
        assert id in db.products;
        RowAppend(db, found, products, id);
        products := products + [ScannedRow(db, id)];
        found := found + [id];
      }
    }
    assert scan[..|scan|] == scan;
    PickedIsBatch(db.products, ids, numbers, scan);
    return Ok(products), found;
  }

  // ---------------------------------------------------------------- prices

  /** The price of a row in minor units: its stored cents, whatever its status. */
  function PriceOf(products: map<nat, Product>, id: nat): CurrentPrice
    requires id in products
  {
    CurrentPrice(Decimal(id), products[id].name, products[id].cents, "USD", true)
  }

  ghost predicate IsPrice(products: map<nat, Product>, ids: seq<string>, p: CurrentPrice) {
    exists id: nat :: id in products && Requested(ids, id) && p == PriceOf(products, id)
  }

  ghost predicate ArePrices(products: map<nat, Product>, found: seq<nat>, n: nat, prices: seq<CurrentPrice>) {
    && n <= |found| && |prices| == n
    && forall i | 0 <= i < n :: found[i] in products && prices[i] == PriceOf(products, found[i])
  }

  ghost predicate IsAnswer(products: map<nat, Product>, ids: seq<string>, prices: seq<CurrentPrice>) {
    && (forall i | 0 <= i < |prices| :: IsPrice(products, ids, prices[i]))
    && (forall p | IsPrice(products, ids, p) :: exists i :: 0 <= i < |prices| && prices[i] == p)
    && (forall i, j | 0 <= i < j < |prices| :: prices[i].skuId != prices[j].skuId)
  }

  lemma BatchPrices(products: map<nat, Product>, ids: seq<string>, found: seq<nat>, prices: seq<CurrentPrice>)
    requires IsBatch(products, ids, found) && ArePrices(products, found, |found|, prices)
    ensures IsAnswer(products, ids, prices)
  {
    forall i | 0 <= i < |prices|
      ensures IsPrice(products, ids, prices[i])
    {
      var id := found[i];
      assert id in found;
    }
    forall p | IsPrice(products, ids, p)
      ensures exists i :: 0 <= i < |prices| && prices[i] == p
    {
      var id: nat :| id in products && Requested(ids, id) && p == PriceOf(products, id);
      var i :| 0 <= i < |found| && found[i] == id;
      assert prices[i] == p;
    }
    forall i, j | 0 <= i < j < |prices|
      ensures prices[i].skuId != prices[j].skuId
    {
      if prices[i].skuId == prices[j].skuId { DecimalInjective(found[i], found[j]); }
    }
  }

  /** A scanned row is priced at exactly its stored cents. */
  lemma ScannedRowPrice(db: State, id: nat)
    requires id in db.products && 0 <= db.products[id].cents <= MAX_CENTS
    ensures var p := ScannedRow(db, id);
      && (p.price * 100.0 == 0.0 || IsNormal(p.price * 100.0))
      && CurrentPrice(p.id, p.name, MinorUnits.MinorUnits(p.price), "USD", true) == PriceOf(db.products, id)
  {
    PricesKeepTheirCents(db.products[id].cents);
  }

  lemma RowPrice(db: State, found: seq<nat>, products: seq<ScannedProduct>, i: nat)
    requires AreRows(db, found, products) && i < |products|
    ensures var p := products[i];
      && found[i] in db.products && (p.price * 100.0 == 0.0 || IsNormal(p.price * 100.0))
      && CurrentPrice(p.id, p.name, MinorUnits.MinorUnits(p.price), "USD", true) == PriceOf(db.products, found[i])
  {
    assert products[i] == ScannedRow(db, found[i]);
    ScannedRowPrice(db, found[i]);
  }

  /** Between 1 and 200 ids; then the price of every existing row asked for, each
      once, in exact cents. The cache is not consulted. */
  method BatchGetCurrentPrices(db: State, skuIds: seq<string>, scan: seq<nat>, dbFails: bool)
      returns (r: Result<seq<CurrentPrice>>)
    requires Valid(db) && IsScan(db.products, scan)
    ensures r.Err? <==> |skuIds| == 0 || |skuIds| > 200 || (dbFails && SomeNumeric(skuIds))
    ensures r.Err? ==> r.error == if 0 < |skuIds| <= 200 then Internal else InvalidInput
    ensures r.Ok? ==> IsAnswer(db.products, skuIds, r.value)
  {
    if |skuIds| == 0 {
      return Err(InvalidInput);
    }
    if |skuIds| > MAX_PRICE_BATCH {
      return Err(InvalidInput);
    }
    var products, found := FindByIDs(db, skuIds, scan, dbFails);
    if products.Err? {
      return Err(Internal);
    }
    var out: seq<CurrentPrice> := [];
    for i := 0 to |products.value|
      invariant ArePrices(db.products, found, i, out)
    {
      var p := products.value[i];
      RowPrice(db, found, products.value, i);
      out := out + [CurrentPrice(p.id, p.name, MinorUnits.MinorUnits(p.price), "USD", true)];
    }
    BatchPrices(db.products, skuIds, found, out);
    return Ok(out);
  }

  /** What a price says, column by column. */
  lemma PriceSays(products: map<nat, Product>, ids: seq<string>, p: CurrentPrice)
    ensures IsPrice(products, ids, p) <==> exists id: nat ::
      && id in products && Requested(ids, id) && p.skuId == Decimal(id) && p.name == products[id].name
      && p.priceMinor == products[id].cents && p.currency == "USD" && p.sellable
  {
    if IsPrice(products, ids, p) {
      var id: nat :| id in products && Requested(ids, id) && p == PriceOf(products, id);
      assert p.skuId == Decimal(id);
    }
    if id: nat :| id in products && Requested(ids, id) && p.skuId == Decimal(id) && p.name == products[id].name
                  && p.priceMinor == products[id].cents && p.currency == "USD" && p.sellable {
      assert p == PriceOf(products, id);
    }
  }

  // ------------------------------------------------------ lifecycle-blind

  predicate SamePricing(a: map<nat, Product>, b: map<nat, Product>) {
    && a.Keys == b.Keys
    && forall id | id in a :: a[id].name == b[id].name && a[id].cents == b[id].cents
  }

  lemma TransitionKeepsPricing(s: State, c: Command)
    requires c.Transition?
    ensures SamePricing(s.products, Exec(s, c).state.products)
  {
  }

  lemma {:induction false} TransitionsKeepPricing(s: State, cs: seq<Command>)
    requires forall i | 0 <= i < |cs| :: cs[i].Transition?
    ensures SamePricing(s.products, Run(s, cs).products)
    decreases |cs|
  {
    if cs != [] {
      TransitionsKeepPricing(s, cs[..|cs| - 1]);
      TransitionKeepsPricing(Run(s, cs[..|cs| - 1]), cs[|cs| - 1]);
    }
  }

  /** No run of publish, archive and restore commands changes what any batch of ids
      is priced at. */
  lemma {:induction false} PricesIgnoreLifecycle(s: State, cs: seq<Command>, ids: seq<string>, p: CurrentPrice)
    requires forall i | 0 <= i < |cs| :: cs[i].Transition?
    ensures IsPrice(s.products, ids, p) <==> IsPrice(Run(s, cs).products, ids, p)
  {
    TransitionsKeepPricing(s, cs);
    SamePricingSamePrices(s.products, Run(s, cs).products, ids, p);
  }

  lemma SamePricingSamePrices(a: map<nat, Product>, b: map<nat, Product>, ids: seq<string>, p: CurrentPrice)
    requires SamePricing(a, b)
    ensures IsPrice(a, ids, p) <==> IsPrice(b, ids, p)
  {
    if IsPrice(a, ids, p) {
      var id: nat :| id in a && Requested(ids, id) && p == PriceOf(a, id);
      assert id in b && p == PriceOf(b, id);
    }
    if IsPrice(b, ids, p) {
      var id: nat :| id in b && Requested(ids, id) && p == PriceOf(b, id);
      assert id in a && p == PriceOf(a, id);
    }
  }

  /** An archived product is gone from the public read and still priced. */
  lemma ArchivedIsHiddenButPriced(s: State, c: Command, ids: seq<string>)
    requires c.Transition? && c.transition.step == Archive && Exec(s, c).result.Ok?
    requires Requested(ids, c.transition.id)
    ensures c.transition.id in s.products
    ensures var s', id := Exec(s, c).state, c.transition.id;
      FindByID(s', id) == None && IsPrice(s'.products, ids, PriceOf(s.products, id))
  {
    var s', id := Exec(s, c).state, c.transition.id;
    TransitionKeepsPricing(s, c);
    assert id in s'.products && PriceOf(s'.products, id) == PriceOf(s.products, id);
  }
}
