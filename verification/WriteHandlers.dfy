/** The operator's write handlers: commit first, then invalidate, and answer with
    the command's own result whatever becomes of the cache
    (internal/web/v1/protected.go). */
module WriteHandlers {
  import opened Domain
  import opened Catalog
  import opened CatalogRepository
  import opened ValkeyStore
  import opened CacheAside

  /** What befalls an invalidation: the DELETE, the SCAN and each UNLINK. */
  datatype CacheLuck = CacheLuck(detail: Fault, scan: seq<string>, scanOk: bool, unlinks: seq<Fault>)

  predicate Spared(luck: CacheLuck) {
    luck.detail == NoFault && luck.scanOk && forall i | 0 <= i < |luck.unlinks| :: luck.unlinks[i] == NoFault
  }

  ghost predicate NoListIn(data: Contents) { forall digest :: KeyText(ListEntryKey(digest)) !in data }

  /** Nothing is added, and no key but the lists and `dropped` goes. */
  ghost predicate OnlyDropped(before: Contents, after: Contents, dropped: set<Key>) {
    && after.Keys <= before.Keys
    && forall key: Key | !key.ListEntryKey? && key !in dropped && KeyText(key) in before ::
         KeyText(key) in after && after[KeyText(key)] == before[KeyText(key)]
  }

  /** What a SCAN for the list pattern promises: matching keys only, and, when it
      runs to its end, every one that was there. */
  ghost predicate IsScan(data: Contents, luck: CacheLuck) {
    && (forall k | k in luck.scan :: Text.Glob(LIST_PATTERN, k))
    && (luck.scanOk ==> forall k | k in data && Text.Glob(LIST_PATTERN, k) :: k in luck.scan)
  }

  class ProtectedHandler {
    const repo: CatalogAdminRepository
    const cache: ProductCache

    constructor (repo: CatalogAdminRepository, cache: ProductCache)
      ensures this.repo == repo && this.cache == cache
    {
      this.repo, this.cache := repo, cache;
    }

    method InvalidateList(luck: CacheLuck)
      requires IsScan(cache.client.data, luck)
      modifies cache.client`data
      ensures OnlyDropped(old(cache.client.data), cache.client.data, {})
      ensures Spared(luck) ==> NoListIn(cache.client.data)
    {
      var _ := cache.InvalidateProductList(luck.scan, luck.scanOk, luck.unlinks);
    }

    method InvalidateProduct(id: nat, luck: CacheLuck)
      requires IsScan(cache.client.data, luck)
      modifies cache.client`data
      ensures OnlyDropped(old(cache.client.data), cache.client.data, {DetailKey(id)})
      ensures Spared(luck) ==> KeyText(DetailKey(id)) !in cache.client.data && NoListIn(cache.client.data)
    {
      ghost var before := cache.client.data;
      var _ := cache.InvalidateProduct(id, luck.detail);
      forall key: Key | key != DetailKey(id) && KeyText(key) in before
        ensures KeyText(key) in cache.client.data
      {
        if KeyText(key) == KeyText(DetailKey(id)) { KeySpacesDisjoint(key, DetailKey(id)); }
      }
      InvalidateList(luck);
    }

    /** A refused edit touches nothing. An accepted one is answered as committed
        however the cache fares; if the cache is spared, neither the product's
        detail nor any list survives, and locks and other details do. */
    method UpdateProduct(input: UpdateProductInput, luck: CacheLuck) returns (r: Result<Reply>)
      requires repo.Valid() && IsScan(cache.client.data, luck)
      modifies repo, cache.client`data
      ensures repo.Valid()
      ensures var o := Exec(old(repo.Db()), Command.UpdateProduct(input)); repo.Db() == o.state && r == o.result
      ensures r.Err? ==> cache.client.data == old(cache.client.data)
      ensures OnlyDropped(old(cache.client.data), cache.client.data, {DetailKey(input.id)})
      ensures r.Ok? && Spared(luck) ==>
              KeyText(DetailKey(input.id)) !in cache.client.data && NoListIn(cache.client.data)
    {
      r := repo.UpdateProduct(input);
      if r.Err? {
        return;
      }
      InvalidateProduct(input.id, luck);
    }

    method Transition(input: TransitionInput, luck: CacheLuck) returns (r: Result<Reply>)
      requires repo.Valid() && IsScan(cache.client.data, luck)
      modifies repo, cache.client`data
      ensures repo.Valid()
      ensures var o := Exec(old(repo.Db()), Command.Transition(input)); repo.Db() == o.state && r == o.result
      ensures r.Err? ==> cache.client.data == old(cache.client.data)
      ensures OnlyDropped(old(cache.client.data), cache.client.data, {DetailKey(input.id)})
      ensures r.Ok? && Spared(luck) ==>
              KeyText(DetailKey(input.id)) !in cache.client.data && NoListIn(cache.client.data)
    {
      r := repo.Transition(input);
      if r.Err? {
        return;
      }
      InvalidateProduct(input.id, luck);
    }

    /** A create drops lists only: no detail entry of a fresh id can exist. */
    method CreateProduct(input: CreateProductInput, now: int, luck: CacheLuck) returns (r: Result<Reply>)
      requires repo.Valid() && IsScan(cache.client.data, luck)
      modifies repo, cache.client`data
      ensures repo.Valid()
      ensures var o := Exec(old(repo.Db()), Command.CreateProduct(old(repo.nextProductId), now, input));
        repo.Db() == o.state && r == o.result
      ensures r.Err? ==> cache.client.data == old(cache.client.data)
      ensures OnlyDropped(old(cache.client.data), cache.client.data, {})
      ensures r.Ok? && Spared(luck) ==> NoListIn(cache.client.data)
    {
      r := repo.CreateProduct(input, now);
      if r.Err? {
        return;
      }
      InvalidateList(luck);
    }

    /** A rename drops lists and leaves every detail entry, with the old category
        name in it, to its TTL. */
    method UpdateCategory(id: nat, input: CategoryInput, luck: CacheLuck) returns (r: Result<Reply>)
      requires repo.Valid() && IsScan(cache.client.data, luck)
      modifies repo, cache.client`data
      ensures repo.Valid()
      ensures var o := Exec(old(repo.Db()), Command.UpdateCategory(id, input)); repo.Db() == o.state && r == o.result
      ensures r.Err? ==> cache.client.data == old(cache.client.data)
      ensures OnlyDropped(old(cache.client.data), cache.client.data, {})
      ensures r.Ok? && Spared(luck) ==> NoListIn(cache.client.data)
    {
      r := repo.UpdateCategory(id, input);
      if r.Err? {
        return;
      }
      InvalidateList(luck);
    }
  }
}
