/** Two reads in a row: what the first one put into the cache is what the second one
    is served, for as long as the TTL says and no longer. */
module CacheLaws {
  import opened Domain
  import opened PublicReads
  import opened ValkeyStore
  import opened ReadProtocol
  import opened CacheAside

  /** The entry a call that got the lock leaves is read back as what was fetched, up to
      its expiry, and not after. */
  lemma StoredIsServed(cache: ProductCache, data: Contents, data': Contents, now: int, id: nat, token: nat, w: World,
      later: int)
    requires FillsAsOwner(data, data', now, id, token, w) && w.fetched.DbFound? && w.setFault != LostRequest
    ensures later <= now + w.ttl ==> cache.Lookup(data', later, id) == Hit(w.fetched.product, w.fetched.at)
    ensures later > now + w.ttl ==> cache.Lookup(data', later, id) == Miss
  {
  }

  /** A lock that was got and not released keeps every other call out for five
      seconds, and no longer. */
  lemma HeldForFiveSeconds(data: Contents, data': Contents, now: int, id: nat, token: nat, later: int)
    requires LocksFor(data, data', now, id, token, NoFault) && !Live(data, KeyText(LockKey(id)), now)
    ensures Live(data', KeyText(LockKey(id)), later) <==> later <= now + 5000
    ensures data'[KeyText(LockKey(id))].value == TokenValue(token)
  {
  }

  /** A read that finds nothing cached and gets the lock, and, within the TTL and
      undisturbed, another: the second answers what the first one fetched, from the
      cache and without asking the database. */
  method ReadTwice(cache: ProductCache, id: nat, token: nat, token': nat, w: World, w': World, pause: nat)
      returns (r: ReadResult, r': ReadResult, ghost replies': seq<Reply>)
    requires IsFetch(w.fetched) && IsFetch(w'.fetched) && Jittered(cache.ttlDetail, w.ttl)
             && Jittered(cache.ttlDetail, w'.ttl)
    requires KeyText(DetailKey(id)) !in cache.client.data && KeyText(LockKey(id)) !in cache.client.data
    requires w.fetched.DbFound? && w.lockFault == NoFault && w.setFault == NoFault && w'.getFault == NoFault
    requires 0 < cache.ttlDetail && pause <= cache.ttlDetail
    modifies cache.client
    ensures r == Found(w.fetched.product, w.fetched.at, FromFetch)
    ensures r' == Found(w.fetched.product, w.fetched.at, FromCache)
    ensures replies' == [Hit(w.fetched.product, w.fetched.at)] && CountFetches(replies') == 0
    ensures cache.client.now == old(cache.client.now) + pause
  {
    ghost var data, now := cache.client.data, cache.client.now;
    ghost var replies, polls;
    r, replies, polls := cache.GetProductOrSet(id, token, w);
    StoredIsServed(cache, data, cache.client.data, now, id, token, w, now + pause);
    cache.client.now := cache.client.now + pause;
    r', replies', polls := cache.GetProductOrSet(id, token', w');
    assert replies'[..0] == [];
  }

  /** The same read when the database has no such product: nothing is cached, and the
      next read asks again. */
  method ReadAbsentTwice(cache: ProductCache, id: nat, token: nat, token': nat, w: World, w': World, pause: nat)
      returns (r: ReadResult, r': ReadResult)
    requires IsFetch(w.fetched) && IsFetch(w'.fetched) && Jittered(cache.ttlDetail, w.ttl)
             && Jittered(cache.ttlDetail, w'.ttl)
    requires KeyText(DetailKey(id)) !in cache.client.data && KeyText(LockKey(id)) !in cache.client.data
    requires w.fetched.DbAbsent? && w.lockFault == NoFault && w.unlockFault == NoFault && w'.lockFault == NoFault
    modifies cache.client
    ensures r == Absent(w.fetched.at) && AnswersAs(w'.fetched, r')
  {
    ghost var replies, polls;
    r, replies, polls := cache.GetProductOrSet(id, token, w);
    cache.client.now := cache.client.now + pause;
    r', replies, polls := cache.GetProductOrSet(id, token', w');
  }
}
