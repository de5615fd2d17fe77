/** GetProductOrSet and its neighbours as they run against the client
    (internal/core/cache/product_cache.go, internal/logic/v1/service.go). What
    the network, the database and the other workers do meanwhile is given in. */
module CacheAside {
  import opened Domain
  import opened PublicReads
  import opened ValkeyStore
  import opened ReadProtocol

  datatype ListPage = ListPage(products: seq<PublicProduct>, total: int)

  /** The JSON of a product or a list page, which decodes to what was encoded, or a
      lock token. */
  datatype CacheValue = DetailValue(product: PublicProduct, at: nat) | ListValue(page: ListPage)
      | TokenValue(token: nat)

  type Contents = map<string, Entry<CacheValue>>

  /** One turn of the wait loop: what the others have made of the store when the
      poll is served, how long the poll takes, and which of two ready channels
      select happens to take. */
  datatype Turn = Turn(others: Contents, duration: nat, fault: Fault, tickFirst: bool)

  datatype World = World(
    getFault: Fault, lockFault: Fault, setFault: Fault, unlockFault: Fault,
    fetched: Reply, ttl: int, turns: seq<Turn>, cancelAt: Option<nat>)

  predicate PromptPolls(w: World) { forall i | 0 <= i < |w.turns| :: w.turns[i].duration < TICK }

  type Client = ValkeyCacheClient<CacheValue, Reply>

  type Log = seq<Served<CacheValue, Reply>>

  /** What a request on record was to the read of product `id` under `token`; None
      when that read makes no such request. */
  function ReplyOf(id: nat, token: nat, s: Served<CacheValue, Reply>): Option<Reply> {
    match s
    case GetServed(key, found) =>
      if key != KeyText(DetailKey(id)) then None
      else (match found
            case Ok(Some(DetailValue(p, at))) => Some(Hit(p, at))
            case _ => Some(Miss))
    case SetServed(key, _, _) => if key == KeyText(DetailKey(id)) then Some(Ack) else None
    case SetNXServed(key, value, ttl, at, acquired) =>
      if key != KeyText(LockKey(id)) || value != TokenValue(token) || ttl != LOCK_TTL then None
      else (match acquired
            case Ok(true) => Some(Acquired(at))
            case Ok(false) => Some(HeldElsewhere(at))
            case Err(_) => Some(LockError))
    case DeleteIfEqualServed(key, value) =>
      if key == KeyText(LockKey(id)) && value == TokenValue(token) then Some(Ack) else None
    case Outside(event) => Some(event)
  }

  /** The conversation is what the log says was asked and answered. */
  predicate ReadsAs(id: nat, token: nat, log: Log, replies: seq<Reply>) {
    |log| == |replies| && forall i | 0 <= i < |log| :: ReplyOf(id, token, log[i]) == Some(replies[i])
  }

  /** `log` continues `before` by the conversation `replies`. */
  predicate Recorded(id: nat, token: nat, before: Log, log: Log, replies: seq<Reply>) {
    before <= log && ReadsAs(id, token, log[|before|..], replies)
  }

  /** The conversation so far: on record, begun with `first`, and where it stands. */
  predicate Spoken(id: nat, token: nat, from: Log, log: Log, first: seq<Reply>, replies: seq<Reply>, pc: Pc,
      looks: nat) {
    && first <= replies && Recorded(id, token, from, log, replies)
    && Converse(replies) == Some(pc) && CountReads(replies) == looks
  }

  /** The reads of the detail entry, the first one included. */
  function CountReads(replies: seq<Reply>): nat
    decreases |replies|
  {
    if replies == [] then 0
    else CountReads(replies[..|replies| - 1]) + if replies[|replies| - 1].Hit? || replies[|replies| - 1].Miss? then 1
        else 0
  }

  lemma RecordedAppend(id: nat, token: nat, before: Log, log: Log, replies: seq<Reply>, s: Served<CacheValue, Reply>,
      r: Reply)
    requires Recorded(id, token, before, log, replies) && ReplyOf(id, token, s) == Some(r)
    ensures Recorded(id, token, before, log + [s], replies + [r])
  {
    var tail, longer := log[|before|..], (log + [s])[|before|..];
    assert longer == tail + [s];
    forall i | 0 <= i < |longer|
      ensures ReplyOf(id, token, longer[i]) == Some((replies + [r])[i])
    {
      if i < |tail| { assert longer[i] == tail[i]; }
    }
  }

  lemma CountReadsAppend(replies: seq<Reply>, r: Reply)
    ensures CountReads(replies + [r]) == CountReads(replies) + if r.Hit? || r.Miss? then 1 else 0
  {
    assert (replies + [r])[..|replies|] == replies;
  }

  /** One more request on record is one more turn of the conversation. */
  lemma Extend(id: nat, token: nat, before: Log, log: Log, replies: seq<Reply>, s: Served<CacheValue, Reply>, r: Reply)
    requires Recorded(id, token, before, log, replies) && ReplyOf(id, token, s) == Some(r) && Converse(replies).Some?
    ensures Recorded(id, token, before, log + [s], replies + [r])
    ensures Converse(replies + [r]) == OnReply(Converse(replies).value, r)
    ensures CountReads(replies + [r]) == CountReads(replies) + if r.Hit? || r.Miss? then 1 else 0
  {
    RecordedAppend(id, token, before, log, replies, s, r);
    CountReadsAppend(replies, r);
    ConverseAppend(replies, r);
  }

  /** The store as the others have left it after so many turns. */
  function OthersLeft(data: Contents, turns: seq<Turn>, n: nat): Contents {
    var seen := if n < |turns| then n else |turns|;
    if seen == 0 then data else turns[seen - 1].others
  }

  lemma OthersLeftNext(data: Contents, turns: seq<Turn>, n: nat)
    ensures OthersLeft(data, turns, n + 1) == if n < |turns| then turns[n].others else OthersLeft(data, turns, n)
  {
  }

  /** What a waiter finds in the store at its end: what the others had made of it by
      its last poll, or what was there when it made none. */
  predicate LeftByOthers(data: Contents, data': Contents, turns: seq<Turn>, polls: nat) {
    && (polls == 0 || |turns| == 0 ==> data' == data)
    && (0 < polls <= |turns| ==> data' == turns[polls - 1].others)
    && (0 < |turns| < polls ==> data' == turns[|turns| - 1].others)
  }

  lemma LeftSoFar(data: Contents, turns: seq<Turn>, polls: nat)
    ensures LeftByOthers(data, OthersLeft(data, turns, polls), turns, polls)
  {
  }

  predicate ServedFromCache(r: ReadResult) { r.Found? && r.source.FromCache? }

  /** A waiter whose polls end within a tick makes at most ten, and unless it finds the
      entry or is cancelled at least nine, and gives up after half a second. */
  predicate LookedThroughout(w: World, r: ReadResult, polls: nat, waited: int) {
    && waited >= 0
    && (PromptPolls(w) ==> polls <= 10 && waited < 550)
    && (w.cancelAt.None? && !ServedFromCache(r) ==> waited >= 500 && (PromptPolls(w) ==> polls >= 9))
  }

  /** Where a wait is after so many polls: with prompt polls, one at every tick. */
  predicate Paced(w: World, polls: nat, elapsed: nat, lastTick: nat) {
    && TICK * lastTick <= elapsed
    && (PromptPolls(w) ==> polls == lastTick && TICK * lastTick <= PATIENCE && elapsed < TICK * (lastTick + 1))
  }

  /** A waiter's answer: the entry it found, what the database said, or nothing when
      it was cancelled. */
  predicate EndsWell(w: World, r: ReadResult) {
    ServedFromCache(r) || AnswersAs(w.fetched, r) || (w.cancelAt.Some? && r == Failed)
  }

  // ------------------------------------------- what a call leaves in the store

  predicate SameAt(a: Contents, b: Contents, key: string) {
    (key in a <==> key in b) && (key in a && key in b ==> a[key] == b[key])
  }

  ghost predicate SameBut(a: Contents, b: Contents, keys: set<string>) {
    forall key: string | key !in keys :: SameAt(a, b, key)
  }

  predicate AnswersAs(fetched: Reply, r: ReadResult) {
    match fetched
    case DbFound(p, at) => r == Found(p, at, FromFetch)
    case DbAbsent(at) => r == Absent(at)
    case _ => r == Failed
  }

  /** The lock request: a lock of this call's token for five seconds, where there is
      none and the request arrives. */
  ghost predicate LocksFor(data: Contents, data': Contents, now: int, id: nat, token: nat, fault: Fault) {
    var lock := KeyText(LockKey(id));
    && SameBut(data, data', {lock})
    && (if fault != LostRequest && !Live(data, lock, now)
        then lock in data' && data'[lock] == Entry(TokenValue(token), now + 5000)
        else SameAt(data, data', lock))
  }

  /** The detail entry holds what was fetched, for the TTL; an absence, or a Set that
      does not arrive, leaves it as it was. */
  predicate StoresDetail(data: Contents, data': Contents, now: int, id: nat, w: World) {
    var detail := KeyText(DetailKey(id));
    if w.fetched.DbFound? && w.setFault != LostRequest
    then detail in data' && data'[detail] == Entry(DetailValue(w.fetched.product, w.fetched.at), now + w.ttl)
    else SameAt(data, data', detail)
  }

  /** The unlock: gone if it is still this call's and the request arrives. */
  predicate Unlocks(data: Contents, data': Contents, now: int, id: nat, token: nat, fault: Fault) {
    var lock := KeyText(LockKey(id));
    if fault != LostRequest && Live(data, lock, now) && data[lock].value == TokenValue(token)
    then lock !in data'
    else SameAt(data, data', lock)
  }

  ghost predicate OwnerLeaves(data: Contents, data': Contents, now: int, id: nat, token: nat, w: World) {
    && SameBut(data, data', {KeyText(LockKey(id)), KeyText(DetailKey(id))})
    && StoresDetail(data, data', now, id, w) && Unlocks(data, data', now, id, token, w.unlockFault)
  }

  /** A call that got the lock leaves the entry and no lock, unless the unlock is lost. */
  ghost predicate FillsAsOwner(data: Contents, data': Contents, now: int, id: nat, token: nat, w: World) {
    var lock := KeyText(LockKey(id));
    && SameBut(data, data', {lock, KeyText(DetailKey(id))})
    && StoresDetail(data, data', now, id, w)
    && (if w.unlockFault != LostRequest then lock !in data'
        else lock in data' && data'[lock] == Entry(TokenValue(token), now + 5000))
  }

  lemma LockIsNoDetail(id: nat)
    ensures KeyText(LockKey(id)) != KeyText(DetailKey(id))
  {
    if KeyText(LockKey(id)) == KeyText(DetailKey(id)) { KeySpacesDisjoint(LockKey(id), DetailKey(id)); }
  }

  lemma SameTwice(a: Contents, b: Contents, c: Contents, keys: set<string>, more: set<string>)
    requires SameBut(a, b, keys) && SameBut(b, c, more)
    ensures SameBut(a, c, keys + more)
  {
    forall key: string | key !in keys + more
      ensures SameAt(a, c, key)
    {
      assert SameAt(a, b, key) && SameAt(b, c, key);
    }
  }

  lemma LockUnchanged(a: Contents, b: Contents, now: int, id: nat, token: nat)
    requires LocksFor(a, b, now, id, token, NoFault) && Live(a, KeyText(LockKey(id)), now)
    ensures a == b
  {
    forall key: string
      ensures key in a <==> key in b
      ensures key in a ==> a[key] == b[key]
    {
      assert SameAt(a, b, key);
    }
    assert a.Keys == b.Keys;
  }

  lemma StoreThenUnlock(a: Contents, b: Contents, c: Contents, now: int, id: nat, token: nat, w: World)
    requires SameBut(a, b, {KeyText(DetailKey(id))}) && StoresDetail(a, b, now, id, w)
    requires SameBut(b, c, {KeyText(LockKey(id))}) && Unlocks(b, c, now, id, token, w.unlockFault)
    ensures OwnerLeaves(a, c, now, id, token, w)
  {
    var lock, detail := KeyText(LockKey(id)), KeyText(DetailKey(id));
    LockIsNoDetail(id);
    SameTwice(a, b, c, {detail}, {lock});
    assert {detail} + {lock} == {lock, detail};
    assert SameAt(a, b, lock) && SameAt(b, c, detail);
  }

  lemma LockThenOwn(a: Contents, b: Contents, c: Contents, now: int, id: nat, token: nat, w: World)
    requires LocksFor(a, b, now, id, token, NoFault) && !Live(a, KeyText(LockKey(id)), now)
    requires OwnerLeaves(b, c, now, id, token, w)
    ensures FillsAsOwner(a, c, now, id, token, w)
  {
    var lock, detail := KeyText(LockKey(id)), KeyText(DetailKey(id));
    LockIsNoDetail(id);
    SameTwice(a, b, c, {lock}, {lock, detail});
    assert {lock} + {lock, detail} == {lock, detail};
    assert SameAt(a, b, detail);
  }

  datatype Wake = OnCancel | OnTimeout(at: nat) | OnTick(at: nat)

  /** What select wakes on next, in ms since the refusal: ticks fire every 50 ms
      and at most one is pending, the timeout fires once at 500 ms and stays ready. */
  function Select(elapsed: nat, lastTick: nat, tickFirst: bool, cancelAt: Option<nat>): (wake: Wake)
    requires lastTick <= elapsed / TICK
    ensures wake.OnCancel? ==> cancelAt.Some?
    ensures wake.OnTimeout? ==> wake.at == if elapsed > PATIENCE then elapsed else PATIENCE
    ensures wake.OnTimeout? && elapsed < TICK * (lastTick + 1) ==> TICK * (lastTick + 1) >= PATIENCE
    ensures wake.OnTick? ==> wake.at >= elapsed && wake.at / TICK > lastTick
    ensures wake.OnTick? && elapsed < TICK * (lastTick + 1) ==> wake.at == TICK * (lastTick + 1) && wake.at <= PATIENCE
    ensures wake.OnTick? && !tickFirst ==> wake.at < PATIENCE
  {
    var tickAt := if elapsed / TICK > lastTick then elapsed else TICK * (lastTick + 1);
    var timeoutAt := if elapsed > PATIENCE then elapsed else PATIENCE;
    if cancelAt.Some? && cancelAt.value <= tickAt && cancelAt.value <= timeoutAt then OnCancel
    else if timeoutAt < tickAt || (timeoutAt == tickAt && !tickFirst) then OnTimeout(timeoutAt)
    else OnTick(tickAt)
  }

  class ProductCache {
    const client: Client
    const ttlDetail: int

    constructor (client: Client, ttlDetail: int)
      ensures this.client == client && this.ttlDetail == ttlDetail
    {
      this.client, this.ttlDetail := client, ttlDetail;
    }

    /** The entry as a read of the store sees it; an undecodable one reads as an error. */
    ghost function Lookup(data: Contents, now: int, id: nat): Reply {
      var key := KeyText(DetailKey(id));
      if Live(data, key, now) && data[key].value.DetailValue? then Hit(data[key].value.product, data[key].value.at)
          else Miss
    }

    method GetProduct(id: nat, fault: Fault) returns (reply: Reply, ghost served: Served<CacheValue, Reply>)
      modifies client`log
      ensures reply == if fault == NoFault then Lookup(client.data, client.now, id) else Miss
      ensures client.log == old(client.log) + [served]
      ensures served.GetServed? && forall token :: ReplyOf(id, token, served) == Some(reply)
    {
      var data := client.Get(KeyText(DetailKey(id)), fault);
      served := GetServed(KeyText(DetailKey(id)), data);
      reply := match data
        case Ok(Some(DetailValue(p, at))) => Hit(p, at)
        case _ => Miss;
    }

    method SetProduct(id: nat, product: PublicProduct, at: nat, ttl: int, fault: Fault)
      requires Jittered(ttlDetail, ttl)
      modifies client`data, client`log
      ensures client.log == old(client.log) + [SetServed(KeyText(DetailKey(id)), DetailValue(product, at), ttl)]
      ensures client.data == if IsApplied(fault)
                             then Stored(old(client.data), KeyText(DetailKey(id)), DetailValue(product, at),
                                 client.now + ttl)
                             else old(client.data)
    {
      var _ := client.Set(KeyText(DetailKey(id)), DetailValue(product, at), ttl, fault);
    }

    /** fetchFunc, the only place where a read asks the database. */
    method Fetch(fetched: Reply) returns (r: ReadResult)
      requires IsFetch(fetched)
      modifies client`log
      ensures AnswersAs(fetched, r) && client.log == old(client.log) + [Outside(fetched)]
    {
      client.Note(fetched);
      r := FetchResult(fetched);
    }

    method InvalidateProduct(id: nat, fault: Fault) returns (ok: bool)
      modifies client`data
      ensures ok == (fault == NoFault)
      ensures client.data == if IsApplied(fault) then old(client.data) - {KeyText(DetailKey(id))} else old(client.data)
    {
      ok := client.Delete(KeyText(DetailKey(id)), fault);
    }

    /** Whatever the scan yields before it ends or breaks off, only list entries go;
        without a failure, and if a complete scan covers the pattern, all of them do. */
    method InvalidateProductList(scan: seq<string>, scanOk: bool, faults: seq<Fault>) returns (ok: bool)
      requires forall k | k in scan :: Text.Glob(LIST_PATTERN, k)
      requires scanOk ==> forall k | k in client.data && Text.Glob(LIST_PATTERN, k) :: k in scan
      modifies client`data
      ensures client.data.Keys <= old(client.data).Keys
      ensures forall key: Key | !key.ListEntryKey? && KeyText(key) in old(client.data) ::
        KeyText(key) in client.data && client.data[KeyText(key)] == old(client.data)[KeyText(key)]
      ensures ok ==> forall digest :: KeyText(ListEntryKey(digest)) !in client.data
      ensures scanOk && (forall i | 0 <= i < |faults| :: faults[i] == NoFault) ==> ok
    {
      ghost var removed;
      ok, removed := client.DeleteByPattern(scan, scanOk, faults);
      forall key: Key
        ensures Text.Glob(LIST_PATTERN, KeyText(key)) <==> key.ListEntryKey?
      {
        ListPatternExact(key);
      }
    }

    /** The fall-back of a caller that waited out its patience. */
    method FetchLate(id: nat, token: nat, w: World, ghost log: Log, ghost before: seq<Reply>)
        returns (r: ReadResult, ghost replies: seq<Reply>)
      requires IsFetch(w.fetched) && Recorded(id, token, log, client.log, before)
      requires Converse(before).Some? && Converse(before).value.Waiting?
               && client.now >= Converse(before).value.since + PATIENCE
      modifies client`log
      ensures before <= replies && Converse(replies) == Some(Done(r)) && Recorded(id, token, log, client.log, replies)
      ensures CountReads(replies) == CountReads(before) && AnswersAs(w.fetched, r)
    {
      Extend(id, token, log, client.log, before, Outside(TimedOut(client.now)), TimedOut(client.now));
      client.Note(TimedOut(client.now));
      replies := before + [TimedOut(client.now)];
      Extend(id, token, log, client.log, replies, Outside(w.fetched), w.fetched);
      r := Fetch(w.fetched);
      replies := replies + [w.fetched];
    }

    /** One tick of the wait: what the others have done by then, and a look at it. */
    method Poll(id: nat, token: nat, turn: Turn, at: int, ghost log: Log, ghost before: seq<Reply>)
        returns (reply: Reply, ghost replies: seq<Reply>)
      requires Converse(before).Some? && Converse(before).value.Waiting? && Recorded(id, token, log, client.log, before)
      modifies client
      ensures client.data == turn.others && client.now == at
      ensures replies == before + [reply] && Recorded(id, token, log, client.log, replies)
      ensures reply.Hit? || reply.Miss?
      ensures Converse(replies) == if reply.Hit? then Some(Done(Found(reply.product, reply.at, FromCache)))
              else Converse(before)
      ensures CountReads(replies) == CountReads(before) + 1
    {
      ghost var logged, served := client.log, Outside(Ack);
      client.data, client.now := turn.others, at;
      reply, served := GetProduct(id, turn.fault);
      Extend(id, token, log, logged, before, served, reply);
      replies := before + [reply];
    }

    method GiveUp(id: nat, token: nat, ghost log: Log, ghost before: seq<Reply>)
        returns (r: ReadResult, ghost replies: seq<Reply>)
      requires Converse(before).Some? && Converse(before).value.Waiting? && Recorded(id, token, log, client.log, before)
      modifies client`log
      ensures before <= replies && Converse(replies) == Some(Done(r)) && Recorded(id, token, log, client.log, replies)
      ensures CountReads(replies) == CountReads(before) && r == Failed
    {
      Extend(id, token, log, client.log, before, Outside(Cancelled), Cancelled);
      client.Note(Cancelled);
      r, replies := Failed, before + [Cancelled];
    }

    /** Up to the end of the call or the next poll, whichever select wakes on. */
    method Await(id: nat, token: nat, w: World, turn: Turn, since: int, elapsed: nat, lastTick: nat, ghost log: Log,
        ghost before: seq<Reply>)
      returns (done: Option<ReadResult>, at: nat, tick: nat, ghost replies: seq<Reply>)
      requires IsFetch(w.fetched) && TICK * lastTick <= elapsed && since <= client.now <= since + elapsed
      requires Converse(before) == Some(Waiting(since)) && Recorded(id, token, log, client.log, before)
      modifies client
      ensures before <= replies && Recorded(id, token, log, client.log, replies)
      ensures done.Some? ==>
        && Converse(replies) == Some(Done(done.value)) && CountReads(replies) == CountReads(before)
        && client.data == old(client.data)
      ensures done.Some? && w.cancelAt.None? && elapsed < TICK * (lastTick + 1) ==> TICK * (lastTick + 1) >= PATIENCE
      ensures done.Some? ==> EndsWell(w, done.value) && since <= client.now
      ensures done.Some? && w.cancelAt.None? ==> client.now >= since + 500
      ensures elapsed < TICK * (lastTick + 1) && TICK * lastTick <= PATIENCE ==> client.now < since + 550
      ensures done.None? ==>
        && replies == before && client.data == old(client.data) && client.log == old(client.log)
        && TICK * tick <= at < TICK * (tick + 1) && tick > lastTick
        && (elapsed < TICK * (lastTick + 1) ==> tick == lastTick + 1 && at == TICK * tick <= PATIENCE)
        && (!turn.tickFirst ==> at < PATIENCE)
    {
      replies, at, tick, done := before, elapsed, lastTick, None;
      var wake := Select(elapsed, lastTick, turn.tickFirst, w.cancelAt);
      match wake {
        case OnCancel =>
          var r;
          r, replies := GiveUp(id, token, log, replies);
          done := Some(r);
        case OnTimeout(timeoutAt) =>
          client.now := since + timeoutAt;
          var r;
          r, replies := FetchLate(id, token, w, log, replies);
          done := Some(r);
        case OnTick(tickAt) =>
          at, tick := tickAt, tickAt / TICK;
      }
    }

    /** One turn of the wait: the end of the call, or one poll. */
    method TakeTurn(id: nat, token: nat, w: World, turn: Turn, since: int, elapsed: nat, lastTick: nat,
        ghost polls: nat, ghost log: Log, ghost before: seq<Reply>)
      returns (done: Option<ReadResult>, later: nat, tick: nat, ghost replies: seq<Reply>, ghost polled: nat)
      requires IsFetch(w.fetched) && Paced(w, polls, elapsed, lastTick) && since <= client.now <= since + elapsed
      requires PromptPolls(w) ==> turn.duration < TICK
      requires Converse(before) == Some(Waiting(since)) && Recorded(id, token, log, client.log, before)
      modifies client
      ensures before <= replies && Recorded(id, token, log, client.log, replies)
      ensures Converse(replies) == Some(if done.Some? then Done(done.value) else Waiting(since))
      ensures polled <= 1 && CountReads(replies) == CountReads(before) + polled
      ensures client.data == if polled == 0 then old(client.data) else turn.others
      ensures done.Some? ==> EndsWell(w, done.value)
      ensures done.Some? ==> LookedThroughout(w, done.value, polls + polled, client.now - since)
      ensures done.None? ==>
        && polled == 1 && Paced(w, polls + 1, later, tick) && since <= client.now <= since + later
        && tick > lastTick && (!turn.tickFirst ==> TICK * tick < PATIENCE)
    {
      var at;
      done, at, tick, replies := Await(id, token, w, turn, since, elapsed, lastTick, log, before);
      later, polled := at, 0;
      if done.None? {
        var reply;
        reply, replies := Poll(id, token, turn, since + at, log, before);
        later, polled := at + turn.duration, 1;
        if reply.Hit? {
          done := Some(Found(reply.product, reply.at, FromCache));
        }
      }
    }

    /** The turn that is next in the world's list, or an idle one past its end. */
    method NextTurn(id: nat, token: nat, w: World, used: nat, since: int, elapsed: nat, lastTick: nat,
        ghost start: Contents, ghost polls: nat, ghost log: Log, ghost first: seq<Reply>, ghost looks: nat,
        ghost before: seq<Reply>)
      returns (done: Option<ReadResult>, later: nat, tick: nat, ghost replies: seq<Reply>, ghost polled: nat)
      requires IsFetch(w.fetched) && Paced(w, polls, elapsed, lastTick) && since <= client.now <= since + elapsed
      requires used == (if polls < |w.turns| then polls else |w.turns|)
      requires client.data == OthersLeft(start, w.turns, polls)
      requires Spoken(id, token, log, client.log, first, before, Waiting(since), looks)
      modifies client
      ensures polled <= 1 && client.data == OthersLeft(start, w.turns, polls + polled)
      ensures Spoken(id, token, log, client.log, first, replies, Stands(done, since), looks + polled)
      ensures done.Some? ==> EndsWell(w, done.value)
      ensures done.Some? ==> LookedThroughout(w, done.value, polls + polled, client.now - since)
      ensures done.None? ==> polled == 1 && Paced(w, polls + 1, later, tick) && since <= client.now <= since + later
      ensures done.None? ==> tick > lastTick && (used == |w.turns| ==> TICK * tick < PATIENCE)
    {
      var turn := if used < |w.turns| then w.turns[used] else Turn(client.data, 0, NoFault, false);
      OthersLeftNext(start, w.turns, polls);
      done, later, tick, replies, polled := TakeTurn(id, token, w, turn, since, elapsed, lastTick, polls, log, before);
    }

    function Stands(done: Option<ReadResult>, since: int): Pc {
      if done.Some? then Done(done.value) else Waiting(since)
    }

    /** The wait of a caller that was refused the lock: ticks every 50 ms, at most
        one of them pending, against one 500 ms timeout. It writes nothing. */
    method AwaitHolder(id: nat, token: nat, w: World, ghost log: Log, ghost before: seq<Reply>)
      returns (r: ReadResult, ghost replies: seq<Reply>, ghost polls: nat)
      requires IsFetch(w.fetched)
      requires Converse(before) == Some(Waiting(client.now)) && Recorded(id, token, log, client.log, before)
      modifies client
      ensures before <= replies && Converse(replies) == Some(Done(r)) && Recorded(id, token, log, client.log, replies)
      ensures CountReads(replies) == CountReads(before) + polls
      ensures LeftByOthers(old(client.data), client.data, w.turns, polls)
      ensures LookedThroughout(w, r, polls, client.now - old(client.now)) && EndsWell(w, r)
    {
      var since := client.now;
      ghost var start, looks := client.data, CountReads(before);
      var elapsed: nat, lastTick: nat, used: nat := 0, 0, 0;
      var done: Option<ReadResult> := None;
      polls, replies := 0, before;
      while done.None?
        invariant Spoken(id, token, log, client.log, before, replies, Stands(done, since), looks + polls)
        invariant used <= |w.turns| && client.data == OthersLeft(start, w.turns, polls)
        invariant done.Some? ==> EndsWell(w, done.value)
        invariant done.Some? ==> LookedThroughout(w, done.value, polls, client.now - since)
        invariant done.None? ==> used == if polls < |w.turns| then polls else |w.turns|
        invariant done.None? ==> Paced(w, polls, elapsed, lastTick) && since <= client.now <= since + elapsed
        decreases done.None?, |w.turns| - used, PATIENCE - TICK * lastTick
      {
        ghost var polled;
        done, elapsed, lastTick, replies, polled :=
          NextTurn(id, token, w, used, since, elapsed, lastTick, start, polls, log, before, looks + polls, replies);
        polls := polls + polled;
        if done.None? && used < |w.turns| {
          used := used + 1;
        }
      }
      r := done.value;
      LeftSoFar(start, w.turns, polls);
    }

    /** Fetch, and store what was found; an absence is not stored. */
    method FetchAndStore(id: nat, token: nat, w: World, ghost log: Log, ghost before: seq<Reply>)
        returns (r: ReadResult, ghost replies: seq<Reply>)
      requires IsFetch(w.fetched) && Jittered(ttlDetail, w.ttl)
      requires Converse(before).Some? && Converse(before).value.Fetching?
               && Recorded(id, token, log, client.log, before)
      modifies client`data, client`log
      ensures before <= replies && Converse(replies) == Some(Releasing(r))
              && Recorded(id, token, log, client.log, replies)
      ensures AnswersAs(w.fetched, r) && CountReads(replies) == CountReads(before)
      ensures SameBut(old(client.data), client.data, {KeyText(DetailKey(id))})
      ensures StoresDetail(old(client.data), client.data, client.now, id, w)
    {
      Extend(id, token, log, client.log, before, Outside(w.fetched), w.fetched);
      r := Fetch(w.fetched);
      replies := before + [w.fetched];
      if w.fetched.DbFound? {
        Extend(id, token, log, client.log, replies,
               SetServed(KeyText(DetailKey(id)), DetailValue(w.fetched.product, w.fetched.at), w.ttl), Ack);
        SetProduct(id, w.fetched.product, w.fetched.at, w.ttl, w.setFault);
        replies := replies + [Ack];
      }
    }

    method ReleaseLock(id: nat, token: nat, fault: Fault, ghost log: Log, ghost before: seq<Reply>)
        returns (ghost replies: seq<Reply>)
      requires Converse(before).Some? && Converse(before).value.Releasing?
               && Recorded(id, token, log, client.log, before)
      modifies client`data, client`log
      ensures replies == before + [Ack] && Converse(replies) == Some(Done(Converse(before).value.outcome))
      ensures Recorded(id, token, log, client.log, replies) && CountReads(replies) == CountReads(before)
      ensures SameBut(old(client.data), client.data, {KeyText(LockKey(id))})
      ensures Unlocks(old(client.data), client.data, client.now, id, token, fault)
    {
      Extend(id, token, log, client.log, before, DeleteIfEqualServed(KeyText(LockKey(id)), TokenValue(token)), Ack);
      var _ := client.DeleteIfEqual(KeyText(LockKey(id)), TokenValue(token), fault);
      replies := before + [Ack];
    }

    /** The owner's path: fetch, store if found, and always release by
        compare-and-delete. */
    method FetchAsOwner(id: nat, token: nat, w: World, ghost log: Log, ghost before: seq<Reply>)
        returns (r: ReadResult, ghost replies: seq<Reply>)
      requires IsFetch(w.fetched) && Jittered(ttlDetail, w.ttl)
      requires Converse(before).Some? && Converse(before).value.Fetching?
               && Recorded(id, token, log, client.log, before)
      modifies client`data, client`log
      ensures before <= replies && Converse(replies) == Some(Done(r)) && Recorded(id, token, log, client.log, replies)
      ensures AnswersAs(w.fetched, r) && CountReads(replies) == CountReads(before)
      ensures OwnerLeaves(old(client.data), client.data, client.now, id, token, w)
    {
      r, replies := FetchAndStore(id, token, w, log, before);
      ghost var stored := client.data;
      replies := ReleaseLock(id, token, w.unlockFault, log, replies);
      StoreThenUnlock(old(client.data), stored, client.data, client.now, id, token, w);
    }

    /** SETNX of the lock key under this call's token. */
    method AcquireLock(id: nat, token: nat, fault: Fault, ghost log: Log, ghost before: seq<Reply>)
        returns (acquired: Result<bool>, ghost replies: seq<Reply>)
      requires Converse(before) == Some(Acquiring) && Recorded(id, token, log, client.log, before)
      modifies client`data, client`log
      ensures acquired == if fault == NoFault then Ok(!Live(old(client.data), KeyText(LockKey(id)), client.now))
              else Err(Internal)
      ensures replies == before + [if acquired.Err? then LockError else if acquired.value then Acquired(client.now)
              else HeldElsewhere(client.now)]
      ensures Recorded(id, token, log, client.log, replies) && CountReads(replies) == CountReads(before)
      ensures Converse(replies)
           == Some(if acquired.Err? then OpenFetching else if acquired.value then Fetching(client.now)
               else Waiting(client.now))
      ensures LocksFor(old(client.data), client.data, client.now, id, token, fault)
    {
      ghost var logged := client.log;
      acquired := client.SetNX(KeyText(LockKey(id)), TokenValue(token), LOCK_TTL, fault);
      ghost var served := SetNXServed(KeyText(LockKey(id)), TokenValue(token), LOCK_TTL, client.now, acquired);
      ghost var asked := if acquired.Err? then LockError else if acquired.value then Acquired(client.now)
          else HeldElsewhere(client.now);
      Extend(id, token, log, logged, before, served, asked);
      replies := before + [asked];
    }

    method FetchOpen(id: nat, token: nat, w: World, ghost log: Log, ghost before: seq<Reply>)
        returns (r: ReadResult, ghost replies: seq<Reply>)
      requires IsFetch(w.fetched) && Converse(before) == Some(OpenFetching)
               && Recorded(id, token, log, client.log, before)
      modifies client`log
      ensures replies == before + [w.fetched] && Converse(replies) == Some(Done(r))
              && Recorded(id, token, log, client.log, replies)
      ensures AnswersAs(w.fetched, r) && CountReads(replies) == CountReads(before)
    {
      Extend(id, token, log, client.log, before, Outside(w.fetched), w.fetched);
      r := Fetch(w.fetched);
      replies := before + [w.fetched];
    }

    /** Past the miss, when the conversation so far is `before`: by the lock, by its
        failure, or by waiting for its holder. What each path answers, asks first,
        leaves in the store and takes in time. */
    ghost predicate MissPath(id: nat, token: nat, w: World, before: seq<Reply>, data: Contents, now: int,
                             r: ReadResult, replies: seq<Reply>, polls: nat, data': Contents, now': int) {
      if w.lockFault != NoFault then
        && AnswersAs(w.fetched, r) && replies == before + [LockError] + [w.fetched] && polls == 0 && now' == now
        && LocksFor(data, data', now, id, token, w.lockFault)
      else if !Live(data, KeyText(LockKey(id)), now) then
        && AnswersAs(w.fetched, r) && before + [Acquired(now)] <= replies && polls == 0 && now' == now
        && FillsAsOwner(data, data', now, id, token, w)
      else
        && before + [HeldElsewhere(now)] <= replies && LeftByOthers(data, data', w.turns, polls)
        && LookedThroughout(w, r, polls, now' - now)
        && EndsWell(w, r)
    }

    method FetchOrWait(id: nat, token: nat, w: World, ghost log: Log, ghost before: seq<Reply>)
      returns (r: ReadResult, ghost replies: seq<Reply>, ghost polls: nat)
      requires IsFetch(w.fetched) && Jittered(ttlDetail, w.ttl)
      requires Converse(before) == Some(Acquiring) && Recorded(id, token, log, client.log, before)
      modifies client
      ensures before <= replies && Converse(replies) == Some(Done(r)) && Recorded(id, token, log, client.log, replies)
      ensures CountReads(replies) == CountReads(before) + polls
      ensures MissPath(id, token, w, before, old(client.data), old(client.now), r, replies, polls,
                       client.data, client.now)
    {
      polls := 0;
      var acquired;
      acquired, replies := AcquireLock(id, token, w.lockFault, log, before);
      if acquired.Err? {
        r, replies := FetchOpen(id, token, w, log, replies);
      } else if acquired.value {
        ghost var locked := client.data;
        r, replies := FetchAsOwner(id, token, w, log, replies);
        LockThenOwn(old(client.data), locked, client.data, client.now, id, token, w);
      } else {
        LockUnchanged(old(client.data), client.data, client.now, id, token);
        r, replies, polls := AwaitHolder(id, token, w, log, replies);
      }
    }

    /** One whole call. What it asked of the store and the database, in order, is one
        conversation of the protocol that ends with its answer, whatever fails; so it
        asks the database at most once and with a license, and a waiter whose polls
        end within a tick makes at most ten. A hit changes nothing; past a miss the
        store ends as the requests of the path taken leave it. */
    method GetProductOrSet(id: nat, token: nat, w: World)
        returns (r: ReadResult, ghost replies: seq<Reply>, ghost polls: nat)
      requires IsFetch(w.fetched) && Jittered(ttlDetail, w.ttl)
      modifies client
      ensures Converse(replies) == Some(Done(r)) && Recorded(id, token, old(client.log), client.log, replies)
      ensures CountFetches(replies) <= 1 && (CountFetches(replies) == 1 ==> Licensed(replies))
      ensures CountReads(replies) == 1 + polls
      ensures var first := if w.getFault == NoFault then Lookup(old(client.data), old(client.now), id) else Miss;
        if first.Hit? then
          && r == Found(first.product, first.at, FromCache) && replies == [first]
          && client.data == old(client.data) && client.now == old(client.now)
        else
          MissPath(id, token, w, [Miss], old(client.data), old(client.now), r, replies, polls, client.data, client.now)
    {
      ghost var log, served := client.log, Outside(Ack);
      var reply;
      reply, served := GetProduct(id, w.getFault);
      Extend(id, token, log, log, [], served, reply);
      replies, polls := [reply], 0;
      assert [] + [reply] == replies && CountReads([]) == 0;
      if reply.Hit? {
        r := Found(reply.product, reply.at, FromCache);
      } else {
        r, replies, polls := FetchOrWait(id, token, w, log, replies);
      }
      FetchAttribution(replies);
    }
  }
}
