/** The public list read as it runs: cache first, then the two statements, then
    the cache again (internal/logic/v1/service.go, internal/core/cache/
    product_cache.go). */
module ListService {
  import opened Domain
  import opened Catalog
  import opened PublicReads
  import opened ListQuery
  import opened ValkeyStore
  import opened ReadProtocol
  import opened CacheAside

  function PageKey(f: ProductFilters): string { KeyText(ListEntryKey(ListKey(f))) }

  predicate HasPage(data: Contents, now: int, f: ProductFilters) {
    Live(data, PageKey(f), now) && data[PageKey(f)].value.ListValue?
  }

  /** What the database holds when each statement runs, whether it answers, and the
      page it chooses among those FindAll allows. */
  datatype ListWorld = ListWorld(
    ghost found: State, ghost counted: State, page: Result<seq<PublicProduct>>, total: Result<int>,
    getFault: Fault, setFault: Fault, ttl: int)

  ghost predicate Answers(w: ListWorld, f: ProductFilters) {
    && (w.page.Ok? ==> FindAll(w.found, Asked(f), w.page.value))
    && (w.total.Ok? ==> w.total.value == Count(w.counted, Asked(f)))
  }

  method ListProducts(client: Client, f: ProductFilters, ttlList: int, w: ListWorld) returns (r: Result<ListPage>)
    requires Answers(w, f) && Jittered(ttlList, w.ttl)
    modifies client`data, client`log
    ensures w.getFault == NoFault && HasPage(old(client.data), client.now, f) ==>
      r == Ok(old(client.data)[PageKey(f)].value.page) && client.data == old(client.data)
    ensures w.getFault != NoFault || !HasPage(old(client.data), client.now, f) ==>
      (r.Ok? <==> w.page.Ok? && w.total.Ok?)
      && (r.Ok? ==> FindAll(w.found, Asked(f), r.value.products) && r.value.total == Count(w.counted, Asked(f)))
      && SameBut(old(client.data), client.data, {PageKey(f)})
      && (if r.Ok? && w.setFault != LostRequest
          then PageKey(f) in client.data && client.data[PageKey(f)] == Entry(ListValue(r.value), client.now + w.ttl)
          else SameAt(old(client.data), client.data, PageKey(f)))
  {
    var cached := client.Get(PageKey(f), w.getFault);
    if cached.Ok? && cached.value.Some? && cached.value.value.ListValue? {
      return Ok(cached.value.value.page);
    }
    if w.page.Err? {
      return Err(Internal);
    }
    if w.total.Err? {
      return Err(Internal);
    }
    var page := ListPage(w.page.value, w.total.value);
    var _ := client.Set(PageKey(f), ListValue(page), w.ttl, w.setFault);
    return Ok(page);
  }
}
