/** What the invariant says about the service: where a cached value came from, why
    it may be stale, how stale, what can never be cached, and who holds the lock. */
module CacheTheorems {
  import opened Domain
  import opened Catalog
  import opened PublicReads
  import opened ListQuery
  import opened ValkeyStore
  import opened ReadProtocol
  import opened CacheSystem
  import opened CacheInvariant

  // ------------------------------------------------------------- provenance

  /** Every answer of every call, on every path, is what FindByID answered for that
      id at some instant of the run; unless it was served from the cache, at an
      instant since the call began. */
  lemma AnswersAreHistoric(s: Sys, es: seq<Event>, token: nat)
    requires Initial(s) && Legal(s, es) && token in RunEvents(s, es).readers && RunEvents(s, es).readers[token].pc.Done?
    ensures var end := RunEvents(s, es);
      var id, startedAt := end.readers[token].id, end.readers[token].startedAt;
      match end.readers[token].pc.result
      case Found(p, at, source) =>
        at < |end.past| && FindByID(end.past[at].db, id) == Some(p) && (source.FromFetch? ==> startedAt <= at)
      case Absent(at) => startedAt <= at < |end.past| && FindByID(end.past[at].db, id) == None
      case Failed => true
  {
    Reachable(s, es);
    assert ReaderOk(RunEvents(s, es).past, RunEvents(s, es).readers[token]);
  }

  // -------------------------------------------------------------- staleness

  lemma ChangePoint(past: seq<Moment>, id: nat, i: nat, j: nat) returns (k: nat)
    requires i < j < |past| && FindByID(past[i].db, id) != FindByID(past[j].db, id)
    ensures i < k <= j && FindByID(past[k].db, id) != FindByID(past[k - 1].db, id)
    decreases j
  {
    if FindByID(past[j].db, id) != FindByID(past[j - 1].db, id) {
      k := j;
    } else {
      k := ChangePoint(past, id, i, j - 1);
    }
  }

  /** Commit k changed the product's public row after the entry was read, and either
      is an edit whose invalidation is owed, was lost, or came before the entry was
      stored, or is a rename of its category, which invalidates lists only. */
  ghost predicate ToBlame(s: Sys, id: nat, d: CachedDetail, k: nat) {
    && d.readAt < k < |s.past| && k in s.commits
    && FindByID(s.past[k].db, id) != FindByID(s.past[k - 1].db, id)
    && var c := s.commits[k].command;
       if OwesDetail(c) then EditedId(c) == id && Survived(s.commits[k], d.setAt)
       else c.UpdateCategory? && Touches(s.past[k - 1].db, c, id)
  }

  /** In every reachable state, a detail entry that is not the current ACTIVE row
      has a commit to blame. */
  lemma StaleEntryHasCulprit(s: Sys, es: seq<Event>, id: nat) returns (k: nat)
    requires Initial(s) && Legal(s, es) && id in RunEvents(s, es).details
    requires var end := RunEvents(s, es);
      FindByID(end.db, id) != Some(end.details[id].value.product)
    ensures ToBlame(RunEvents(s, es), id, RunEvents(s, es).details[id].value, k)
  {
    Reachable(s, es);
    var end := RunEvents(s, es);
    k := Culprit(end, id);
  }

  lemma Blamed(s: Sys, id: nat, d: CachedDetail, k: nat)
    requires ChangesAccounted(s.past, s.commits) && DetailOk(s.past, s.commits, id, d)
    requires d.readAt < k < |s.past| && FindByID(s.past[k].db, id) != FindByID(s.past[k - 1].db, id)
    ensures ToBlame(s, id, d, k)
  {
    assert k in s.commits && Touches(s.past[k - 1].db, s.commits[k].command, id);
  }

  lemma EntryWasRow(s: Sys, id: nat)
    requires Inv(s) && id in s.details
    ensures var d := s.details[id].value;
      && DetailOk(s.past, s.commits, id, d) && d.readAt < |s.past|
      && FindByID(s.past[d.readAt].db, id) == Some(d.product)
      && ChangesAccounted(s.past, s.commits) && s.past[|s.past| - 1].db == s.db
  {
  }

  lemma Culprit(s: Sys, id: nat) returns (k: nat)
    requires Inv(s) && id in s.details && FindByID(s.db, id) != Some(s.details[id].value.product)
    ensures ToBlame(s, id, s.details[id].value, k)
  {
    EntryWasRow(s, id);
    k := CulpritOf(s, id, s.details[id].value);
  }

  lemma CulpritOf(s: Sys, id: nat, d: CachedDetail) returns (k: nat)
    requires |s.past| > 0 && s.past[|s.past| - 1].db == s.db && d.readAt < |s.past|
    requires ChangesAccounted(s.past, s.commits) && DetailOk(s.past, s.commits, id, d)
    requires FindByID(s.past[d.readAt].db, id) == Some(d.product) && FindByID(s.db, id) != Some(d.product)
    ensures ToBlame(s, id, d, k)
  {
    k := ChangePoint(s.past, id, d.readAt, |s.past| - 1);
    Blamed(s, id, d, k);
  }

  /** With no one to blame, the entry is the row. */
  lemma UnblamedEntryIsFresh(s: Sys, es: seq<Event>, id: nat)
    requires Initial(s) && Legal(s, es) && id in RunEvents(s, es).details
    requires forall k: nat :: !ToBlame(RunEvents(s, es), id, RunEvents(s, es).details[id].value, k)
    ensures FindByID(RunEvents(s, es).db, id) == Some(RunEvents(s, es).details[id].value.product)
  {
    var end := RunEvents(s, es);
    if FindByID(end.db, id) != Some(end.details[id].value.product) {
      var k := StaleEntryHasCulprit(s, es, id);
    }
  }

  /** Fetches reach the store within `delay`. */
  predicate Timely(s: Sys, e: Event, delay: int) {
    e.Read? && e.act.Set? && e.token in s.readers && s.readers[e.token].pc.Storing?
        && s.readers[e.token].pc.at < |s.past| ==>
      s.now - s.past[s.readers[e.token].pc.at].time <= delay
  }

  ghost predicate TimelyRun(s: Sys, es: seq<Event>, delay: int)
    requires Legal(s, es)
    decreases |es|
  {
    es == [] || (TimelyRun(s, es[..|es| - 1], delay) && Timely(RunEvents(s, es[..|es| - 1]), es[|es| - 1], delay))
  }

  ghost predicate AgeBounded(s: Sys, delay: int) {
    forall id | id in s.details && s.details[id].value.readAt < |s.past| ::
      s.details[id].expires <= s.past[s.details[id].value.readAt].time + delay + s.ttlDetail + s.ttlDetail / 10
  }

  lemma AgeStays(s: Sys, s': Sys, delay: int)
    requires DetailsOk(s.past, s.commits, s.details) && AgeBounded(s, delay) && Grown(s, s')
             && s'.ttlDetail == s.ttlDetail
    requires forall id | id in s'.details :: id in s.details && s'.details[id] == s.details[id]
    ensures AgeBounded(s', delay)
  {
    forall id | id in s'.details
      ensures s'.details[id].expires <= s'.past[s'.details[id].value.readAt].time + delay + s'.ttlDetail
              + s'.ttlDetail / 10
    {
      assert DetailOk(s.past, s.commits, id, s.details[id].value);
    }
  }

  lemma AgeStored(s: Sys, s': Sys, id: nat, d: CachedDetail, ttl: int, delay: int)
    requires DetailsOk(s.past, s.commits, s.details) && AgeBounded(s, delay) && Grown(s, s')
             && s'.ttlDetail == s.ttlDetail > 0
    requires d.readAt < |s.past| && s.now - s.past[d.readAt].time <= delay && Jittered(s.ttlDetail, ttl)
    requires s'.details == Stored(s.details, id, d, s.now + ttl)
    ensures AgeBounded(s', delay)
  {
    forall other | other in s'.details && s'.details[other].value.readAt < |s'.past|
      ensures s'.details[other].expires <= s'.past[s'.details[other].value.readAt].time + delay + s'.ttlDetail
              + s'.ttlDetail / 10
    {
      if other != id { assert DetailOk(s.past, s.commits, other, s.details[other].value); }
    }
  }

  predicate Stores(e: Event) { e.Read? && e.act.Set? && IsApplied(e.act.fault) }

  lemma ReadKeepsClock(s: Sys, token: nat, act: Act)
    requires ReadEnabled(s, token, act)
    ensures var s' := DoRead(s, token, act);
      s'.ttlDetail == s.ttlDetail && s'.ttlList == s.ttlList && s'.now == s.now
  {
  }

  lemma EffectKeepsClock(s: Sys, e: Event)
    requires Enabled(s, e)
    ensures Effect(s, e).ttlDetail == s.ttlDetail && Effect(s, e).ttlList == s.ttlList && Effect(s, e).now >= s.now
  {
    match e
    case Read(token, act) => ReadKeepsClock(s, token, act);
    case ReadList(lid, act) => DoListShape(s, lid, act);
    case _ =>
  }

  lemma StepShape(s: Sys, e: Event)
    requires Enabled(s, e)
    ensures var s' := Step(s, e);
      Grown(s, s') && s'.ttlDetail == s.ttlDetail && s'.ttlList == s.ttlList
  {
    EffectKeepsClock(s, e);
  }

  /** Only an owner's Set adds or replaces a detail entry. */
  lemma OnlySetStores(s: Sys, e: Event)
    requires Enabled(s, e) && !Stores(e)
    ensures forall id | id in Step(s, e).details :: id in s.details && Step(s, e).details[id] == s.details[id]
  {
    match e
    case ReadList(lid, act) => DoListShape(s, lid, act);
    case _ =>
  }

  lemma SetStores(s: Sys, e: Event)
    requires Enabled(s, e) && Stores(e)
    ensures e.token in s.readers && s.readers[e.token].pc.Storing? && Jittered(s.ttlDetail, e.act.ttl)
    ensures var r := s.readers[e.token];
      Step(s, e).details == Stored(s.details, r.id, CachedDetail(r.pc.product, r.pc.at, |s.past|), s.now + e.act.ttl)
  {
  }

  lemma StoringWasPublic(s: Sys, token: nat)
    requires ReadersOk(s.past, s.readers) && token in s.readers && s.readers[token].pc.Storing?
    ensures s.readers[token].pc.at < |s.past|
  {
    assert ReaderOk(s.past, s.readers[token]);
  }

  lemma AgeStep(s: Sys, e: Event, s': Sys, delay: int)
    requires DetailsOk(s.past, s.commits, s.details) && ReadersOk(s.past, s.readers) && AgeBounded(s, delay)
             && s.ttlDetail > 0
    requires Enabled(s, e) && s' == Step(s, e) && Timely(s, e, delay)
    ensures AgeBounded(s', delay)
  {
    StepShape(s, e);
    if Stores(e) {
      SetStores(s, e);
      StoringWasPublic(s, e.token);
      var r := s.readers[e.token];
      AgeStored(s, s', r.id, CachedDetail(r.pc.product, r.pc.at, |s.past|), e.act.ttl, delay);
    } else {
      OnlySetStores(s, e);
      AgeStays(s, s', delay);
    }
  }

  lemma LastStep(s: Sys, es: seq<Event>) returns (mid: Sys, e: Event)
    requires Initial(s) && Legal(s, es) && es != []
    ensures Legal(s, es[..|es| - 1]) && mid == RunEvents(s, es[..|es| - 1]) && e == es[|es| - 1]
    ensures Inv(mid) && Enabled(mid, e) && RunEvents(s, es) == Step(mid, e)
  {
    mid, e := RunEvents(s, es[..|es| - 1]), es[|es| - 1];
    Reachable(s, es[..|es| - 1]);
  }

  lemma {:induction false} AgeReachable(s: Sys, es: seq<Event>, delay: int)
    requires Initial(s) && Legal(s, es) && TimelyRun(s, es, delay)
    ensures AgeBounded(RunEvents(s, es), delay) && RunEvents(s, es).ttlDetail == s.ttlDetail
    decreases |es|
  {
    if es != [] {
      var mid, e := LastStep(s, es);
      AgeReachable(s, es[..|es| - 1], delay);
      AgeOn(mid, e, RunEvents(s, es), s.ttlDetail, delay);
    }
  }

  lemma AgeOn(s: Sys, e: Event, s': Sys, ttl: int, delay: int)
    requires Inv(s) && AgeBounded(s, delay) && s.ttlDetail == ttl > 0
    requires Enabled(s, e) && s' == Step(s, e) && Timely(s, e, delay)
    ensures AgeBounded(s', delay) && s'.ttlDetail == ttl
  {
    StepShape(s, e);
    AgeStep(s, e, s', delay);
  }

  /** A value served from the cache, on the first check or a poll, was the row at
      most the fetch delay plus the jittered TTL ago. */
  lemma ServedFromCacheIsRecent(s: Sys, es: seq<Event>, delay: int, token: nat, fault: Fault)
    requires Initial(s) && Legal(s, es) && TimelyRun(s, es, delay)
    requires Enabled(RunEvents(s, es), Read(token, Get(fault)))
    requires ReplyFor(RunEvents(s, es), token, RunEvents(s, es).readers[token].id, Get(fault)).Hit?
    ensures var end := RunEvents(s, es);
      var hit := ReplyFor(end, token, end.readers[token].id, Get(fault));
      && Step(end, Read(token, Get(fault))).readers[token].pc == Done(Found(hit.product, hit.at, FromCache))
      && hit.at < |end.past|
      && FindByID(end.past[hit.at].db, end.readers[token].id) == Some(hit.product)
      && end.now - end.past[hit.at].time <= delay + s.ttlDetail + s.ttlDetail / 10
  {
    AgeReachable(s, es, delay);
    Reachable(s, es);
    var end := RunEvents(s, es);
    var id := end.readers[token].id;
    assert DetailOk(end.past, end.commits, id, end.details[id].value);
  }

  // ------------------------------------------------------------------ drafts

  predicate Carries(pc: Pc, id: nat) {
    match pc
    case Storing(p, _) => p.id == id
    case Releasing(outcome) => outcome.Found? && outcome.product.id == id
    case Done(result) => result.Found? && result.product.id == id
    case _ => false
  }

  predicate OnList(products: seq<PublicProduct>, id: nat) {
    exists i :: 0 <= i < |products| && products[i].id == id
  }

  predicate ListCarries(pc: ListPc, id: nat) {
    match pc
    case ListCounting(products, _) => OnList(products, id)
    case ListStoring(l) => OnList(l.products, id)
    case ListDone(l) => OnList(l.products, id)
    case _ => false
  }

  lemma PublicHasLeftDraft(s: Sys, p: PublicProduct, at: nat)
    requires Inv(s) && WasPublic(s.past, p, at)
    ensures LeftDraft(s.db, p.id)
  {
    assert LeftDraft(s.past[at].db, p.id);
  }

  lemma ListedHasLeftDraft(s: Sys, q: Query, products: seq<PublicProduct>, at: nat, id: nat)
    requires Inv(s) && at < |s.past| && FindAll(s.past[at].db, q, products) && OnList(products, id)
    ensures LeftDraft(s.db, id)
  {
    PageAgreesWithCountAndDetail(s.past[at].db, q, products);
    var i :| 0 <= i < |products| && products[i].id == id;
    PublicHasLeftDraft(s, products[i], at);
  }

  lemma CarriedHasLeftDraft(s: Sys, token: nat, id: nat)
    requires Inv(s) && token in s.readers && Carries(s.readers[token].pc, id)
    ensures LeftDraft(s.db, id)
  {
    assert ReaderOk(s.past, s.readers[token]);
    match s.readers[token].pc
    case Storing(p, at) => PublicHasLeftDraft(s, p, at);
    case Releasing(outcome) => PublicHasLeftDraft(s, outcome.product, outcome.at);
    case Done(result) => PublicHasLeftDraft(s, result.product, result.at);
  }

  lemma ListCarriedHasLeftDraft(s: Sys, lid: nat, id: nat)
    requires Inv(s) && lid in s.listReaders && ListCarries(s.listReaders[lid].pc, id)
    ensures LeftDraft(s.db, id)
  {
    var r := s.listReaders[lid];
    assert ListReaderOk(s.past, r);
    match r.pc
    case ListCounting(products, at) => ListedHasLeftDraft(s, Asked(r.filters), products, at, id);
    case ListStoring(l) => ListedHasLeftDraft(s, Asked(l.filters), l.products, l.readAt, id);
    case ListDone(l) => ListedHasLeftDraft(s, Asked(l.filters), l.products, l.readAt, id);
  }

  /** A product that is in DRAFT has no detail entry, is in no call's hands and on
      no cached list, in every interleaving of reads, writes and expiries. */
  lemma DraftIsNeverCached(s: Sys, es: seq<Event>, id: nat)
    requires Initial(s) && Legal(s, es)
    requires id in RunEvents(s, es).db.products && RunEvents(s, es).db.products[id].status == Draft
    ensures var end := RunEvents(s, es);
      && id !in end.details
      && (forall t | t in end.readers :: !Carries(end.readers[t].pc, id))
      && (forall key | key in end.lists :: !OnList(end.lists[key].value.page.products, id))
      && (forall l | l in end.listReaders :: !ListCarries(end.listReaders[l].pc, id))
  {
    Reachable(s, es);
    DraftUncached(RunEvents(s, es), id);
  }

  lemma DraftUncached(s: Sys, id: nat)
    requires Inv(s) && !LeftDraft(s.db, id)
    ensures id !in s.details
    ensures forall t | t in s.readers :: !Carries(s.readers[t].pc, id)
    ensures forall key | key in s.lists :: !OnList(s.lists[key].value.page.products, id)
    ensures forall l | l in s.listReaders :: !ListCarries(s.listReaders[l].pc, id)
  {
    if id in s.details {
      assert DetailOk(s.past, s.commits, id, s.details[id].value);
      PublicHasLeftDraft(s, s.details[id].value.product, s.details[id].value.readAt);
    }
    forall t | t in s.readers
      ensures !Carries(s.readers[t].pc, id)
    {
      if Carries(s.readers[t].pc, id) { CarriedHasLeftDraft(s, t, id); }
    }
    forall l | l in s.listReaders
      ensures !ListCarries(s.listReaders[l].pc, id)
    {
      if ListCarries(s.listReaders[l].pc, id) { ListCarriedHasLeftDraft(s, l, id); }
    }
    forall key | key in s.lists
      ensures !OnList(s.lists[key].value.page.products, id)
    {
      var l := s.lists[key].value.page;
      assert ListEntryOk(s.past, s.commits, s.now, s.lists[key]);
      if OnList(l.products, id) { ListedHasLeftDraft(s, Asked(l.filters), l.products, l.readAt, id); }
    }
  }
}
