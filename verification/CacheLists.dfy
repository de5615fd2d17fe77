/** The list cache: what a list read is answered with when a read of other filters
    may have stored it, why a stored page may be stale, and how stale. */
module CacheLists {
  import opened Domain
  import opened Catalog
  import opened PublicReads
  import opened ListQuery
  import opened ValkeyStore
  import opened ReadProtocol
  import opened CacheSystem
  import opened CacheInvariant
  import opened CacheTheorems

  // ---------------------------------------------------- whose page it is

  /** No two filter sets that share a key ask for different things. */
  ghost predicate Agreeing(asked: set<ProductFilters>) {
    forall f, g | f in asked && g in asked && ListKey(f) == ListKey(g) :: Effective(f) == Effective(g)
  }

  ghost function AskedIn(es: seq<Event>): set<ProductFilters> {
    set i | 0 <= i < |es| && es[i].StartList? :: es[i].filters
  }

  /** Filters without a separator and without the two words the key uses for `no
      filter` always agree. */
  lemma PlainFiltersAgree(asked: set<ProductFilters>)
    requires forall f | f in asked :: SeparatorFree(f) && GoInts(f) && f.category != "all" && f.search != "none"
    ensures Agreeing(asked)
  {
    forall f, g | f in asked && g in asked && ListKey(f) == ListKey(g)
      ensures Effective(f) == Effective(g)
    {
      SameKeySameQueryExactly(f, g);
    }
  }

  predicate PcAmong(pc: ListPc, asked: set<ProductFilters>) {
    match pc
    case ListStoring(l) => l.filters in asked
    case ListDone(l) => l.filters in asked
    case _ => true
  }

  ghost predicate AllAmong(s: Sys, asked: set<ProductFilters>) {
    && (forall key | key in s.lists :: s.lists[key].value.page.filters in asked)
    && (forall l | l in s.listReaders :: s.listReaders[l].filters in asked && PcAmong(s.listReaders[l].pc, asked))
  }

  lemma NextPcAmong(s: Sys, lid: nat, act: ListAct, asked: set<ProductFilters>)
    requires AllAmong(s, asked) && ListEnabled(s, lid, act)
    ensures PcAmong(NextListPc(s, s.listReaders[lid].filters, s.listReaders[lid].pc, act), asked)
  {
    var r := s.listReaders[lid];
    assert r.filters in asked && PcAmong(r.pc, asked);
    if act.GetList? && Live(s.lists, ListKey(r.filters), s.now) {
      assert s.lists[ListKey(r.filters)].value.page.filters in asked;
    }
  }

  lemma ListReadAmong(s: Sys, s': Sys, lid: nat, act: ListAct, asked: set<ProductFilters>)
    requires AllAmong(s, asked) && ListEnabled(s, lid, act) && ListShaped(s, s', lid, act)
    ensures AllAmong(s', asked)
  {
    NextPcAmong(s, lid, act, asked);
    assert PcAmong(s.listReaders[lid].pc, asked);
  }

  lemma OtherShape(s: Sys, e: Event)
    requires Enabled(s, e) && !e.ReadList?
    ensures var s' := Step(s, e);
      && (forall key | key in s'.lists :: key in s.lists && s'.lists[key] == s.lists[key])
      && s'.listReaders == if e.StartList? then s.listReaders[e.lid := ListReader(e.filters, ListChecking)]
         else s.listReaders
  {
    if IsQuiet(e) { QuietShape(s, e); } else if IsInvalidation(e) { InvalidationShape(s, e); }
    else if e.CommitCommand? { CacheInvariant.CommitShape(s, e.command); } else { ReadShape(s, e.token, e.act); }
  }

  lemma StepAmong(s: Sys, e: Event, s': Sys, asked: set<ProductFilters>)
    requires AllAmong(s, asked) && Enabled(s, e) && s' == Step(s, e) && (e.StartList? ==> e.filters in asked)
    ensures AllAmong(s', asked)
  {
    if e.ReadList? {
      ListShape(s, e.lid, e.listAct);
      ListReadAmong(s, s', e.lid, e.listAct, asked);
    } else {
      OtherShape(s, e);
    }
  }

  lemma {:induction false} AmongReachable(s: Sys, es: seq<Event>, asked: set<ProductFilters>)
    requires Initial(s) && Legal(s, es) && AskedIn(es) <= asked
    ensures AllAmong(RunEvents(s, es), asked)
    decreases |es|
  {
    if es != [] {
      var mid, e := LastStep(s, es);
      if e.StartList? { assert es[|es| - 1].filters in AskedIn(es); }
      forall f | f in AskedIn(es[..|es| - 1])
        ensures f in AskedIn(es)
      {
        var i :| 0 <= i < |es| - 1 && es[..|es| - 1][i].StartList? && es[..|es| - 1][i].filters == f;
        assert es[i].StartList? && es[i].filters == f;
      }
      AmongReachable(s, es[..|es| - 1], asked);
      StepAmong(mid, e, RunEvents(s, es), asked);
    }
  }

  /** As long as no two filter sets of a run share a key and ask for different
      things, every list read is answered, from the cache or not, with a page and a
      total that its own filters had at instants of the run. */
  lemma ListAnswersAreHistoric(s: Sys, es: seq<Event>, lid: nat)
    requires Initial(s) && Legal(s, es) && Agreeing(AskedIn(es))
    requires lid in RunEvents(s, es).listReaders && RunEvents(s, es).listReaders[lid].pc.ListDone?
    ensures var end := RunEvents(s, es);
      var asked, l := Asked(end.listReaders[lid].filters), end.listReaders[lid].pc.result;
      && l.readAt < |end.past| && FindAll(end.past[l.readAt].db, asked, l.products)
      && l.countedAt < |end.past| && l.total == Count(end.past[l.countedAt].db, asked)
  {
    Reachable(s, es);
    AmongReachable(s, es, AskedIn(es));
    DoneListAnswers(RunEvents(s, es), lid, AskedIn(es));
  }

  lemma DoneListAnswers(s: Sys, lid: nat, asked: set<ProductFilters>)
    requires ListReadersOk(s.past, s.listReaders) && AllAmong(s, asked) && Agreeing(asked)
    requires lid in s.listReaders && s.listReaders[lid].pc.ListDone?
    ensures var asked, l := Asked(s.listReaders[lid].filters), s.listReaders[lid].pc.result;
      && l.readAt < |s.past| && FindAll(s.past[l.readAt].db, asked, l.products)
      && l.countedAt < |s.past| && l.total == Count(s.past[l.countedAt].db, asked)
  {
    var r := s.listReaders[lid];
    var l := r.pc.result;
    assert ListReaderOk(s.past, r) && PcAmong(r.pc, asked);
    assert Effective(l.filters) == Effective(r.filters);
  }

  // ------------------------------------------------- and when it is not

  lemma ThenEvent(s: Sys, es: seq<Event>, mid: Sys, e: Event)
    requires Legal(s, es) && RunEvents(s, es) == mid && Enabled(mid, e)
    ensures Legal(s, es + [e]) && RunEvents(s, es + [e]) == Step(mid, e)
  {
    assert (es + [e])[..|es|] == es;
  }

  /** A list read from its start to the storing of its page. */
  function Filling(lid: nat, f: ProductFilters, page: seq<PublicProduct>, ttl: int): seq<Event> {
    [StartList(lid, f), ReadList(lid, GetList(NoFault)), ReadList(lid, FindPage(page)), ReadList(lid, CountAll),
     ReadList(lid, StoreList(ttl, NoFault))]
  }

  /** Only the list side moved, in no time. */
  predicate OnlyLists(s: Sys, s': Sys) {
    && s'.db == s.db && s'.now == s.now && s'.ttlList == s.ttlList
    && |s'.past| >= |s.past| && s'.past[..|s.past|] == s.past
    && forall i | |s.past| <= i < |s'.past| :: s'.past[i].db == s.db
  }

  lemma StartEffect(s: Sys, lid: nat, f: ProductFilters)
    requires lid !in s.listReaders && GoInts(f)
    ensures Enabled(s, StartList(lid, f))
    ensures var s' := Step(s, StartList(lid, f));
      OnlyLists(s, s') && s'.lists == s.lists && s'.listReaders == s.listReaders[lid := ListReader(f, ListChecking)]
  {
  }

  lemma ReadEffect(s: Sys, lid: nat, act: ListAct)
    requires Enabled(s, ReadList(lid, act)) && !act.StoreList?
    ensures var r, s' := s.listReaders[lid], Step(s, ReadList(lid, act));
      && OnlyLists(s, s') && s'.lists == s.lists
      && s'.listReaders == s.listReaders[lid := ListReader(r.filters, NextListPc(s, r.filters, r.pc, act))]
  {
  }

  lemma StoreEffect(s: Sys, lid: nat, l: CachedList, ttl: int)
    requires lid in s.listReaders && s.listReaders[lid].pc == ListStoring(l) && Jittered(s.ttlList, ttl)
    ensures Enabled(s, ReadList(lid, StoreList(ttl, NoFault)))
    ensures var r, s' := s.listReaders[lid], Step(s, ReadList(lid, StoreList(ttl, NoFault)));
      OnlyLists(s, s') && s'.lists == s.lists[ListKey(r.filters) := Entry(StoredList(l, |s.past|), s.now + ttl)]
      && s'.listReaders == s.listReaders[lid := ListReader(r.filters, ListDone(l))]
  {
  }

  lemma OnlyListsChain(a: Sys, b: Sys, c: Sys)
    requires OnlyLists(a, b) && OnlyLists(b, c)
    ensures OnlyLists(a, c)
  {
    assert c.past[..|b.past|][..|a.past|] == c.past[..|a.past|];
    forall i | |a.past| <= i < |c.past|
      ensures c.past[i].db == a.db
    {
      if i < |b.past| { assert c.past[..|b.past|][i] == b.past[i]; }
    }
  }

  lemma StartsOn(s: Sys, es: seq<Event>, mid: Sys, lid: nat, f: ProductFilters) returns (end: Sys)
    requires Legal(s, es) && RunEvents(s, es) == mid && OnlyLists(s, mid) && lid !in mid.listReaders && GoInts(f)
    ensures Legal(s, es + [StartList(lid, f)]) && RunEvents(s, es + [StartList(lid, f)]) == end
    ensures OnlyLists(s, end) && end.lists == mid.lists
            && end.listReaders == mid.listReaders[lid := ListReader(f, ListChecking)]
  {
    StartEffect(mid, lid, f);
    ThenEvent(s, es, mid, StartList(lid, f));
    end := Step(mid, StartList(lid, f));
    OnlyListsChain(s, mid, end);
  }

  lemma ReadsOn(s: Sys, es: seq<Event>, mid: Sys, lid: nat, act: ListAct, pc: ListPc) returns (end: Sys)
    requires Legal(s, es) && RunEvents(s, es) == mid && OnlyLists(s, mid) && ListEnabled(mid, lid, act)
             && !act.StoreList?
    requires pc == NextListPc(mid, mid.listReaders[lid].filters, mid.listReaders[lid].pc, act)
    ensures Legal(s, es + [ReadList(lid, act)]) && RunEvents(s, es + [ReadList(lid, act)]) == end
    ensures OnlyLists(s, end) && end.lists == mid.lists
    ensures end.listReaders == mid.listReaders[lid := ListReader(mid.listReaders[lid].filters, pc)]
  {
    ReadEffect(mid, lid, act);
    ThenEvent(s, es, mid, ReadList(lid, act));
    end := Step(mid, ReadList(lid, act));
    OnlyListsChain(s, mid, end);
  }

  lemma MissesOn(s: Sys, es: seq<Event>, mid: Sys, lid: nat, f: ProductFilters) returns (end: Sys)
    requires Legal(s, es) && RunEvents(s, es) == mid && OnlyLists(s, mid)
    requires lid in mid.listReaders && mid.listReaders[lid] == ListReader(f, ListChecking) && mid.lists == map[]
    ensures Legal(s, es + [ReadList(lid, GetList(NoFault))])
            && RunEvents(s, es + [ReadList(lid, GetList(NoFault))]) == end
    ensures OnlyLists(s, end) && end.lists == mid.lists
            && end.listReaders == mid.listReaders[lid := ListReader(f, ListFinding)]
  {
    end := ReadsOn(s, es, mid, lid, GetList(NoFault), ListFinding);
  }

  lemma FindsOn(s: Sys, es: seq<Event>, mid: Sys, lid: nat, f: ProductFilters, page: seq<PublicProduct>)
      returns (end: Sys, at: nat)
    requires Legal(s, es) && RunEvents(s, es) == mid && OnlyLists(s, mid)
    requires lid in mid.listReaders && mid.listReaders[lid] == ListReader(f, ListFinding)
             && FindAll(s.db, Asked(f), page)
    ensures Legal(s, es + [ReadList(lid, FindPage(page))]) && RunEvents(s, es + [ReadList(lid, FindPage(page))]) == end
    ensures OnlyLists(s, end) && end.lists == mid.lists
            && end.listReaders == mid.listReaders[lid := ListReader(f, ListCounting(page, at))]
  {
    at := Present(mid);
    end := ReadsOn(s, es, mid, lid, FindPage(page), ListCounting(page, at));
  }

  lemma CountsOn(s: Sys, es: seq<Event>, mid: Sys, lid: nat, f: ProductFilters, page: seq<PublicProduct>, at: nat)
      returns (end: Sys, l: CachedList)
    requires Legal(s, es) && RunEvents(s, es) == mid && OnlyLists(s, mid)
    requires lid in mid.listReaders && mid.listReaders[lid] == ListReader(f, ListCounting(page, at))
    ensures Legal(s, es + [ReadList(lid, CountAll)]) && RunEvents(s, es + [ReadList(lid, CountAll)]) == end
    ensures OnlyLists(s, end) && end.lists == mid.lists
            && end.listReaders == mid.listReaders[lid := ListReader(f, ListStoring(l))]
    ensures l.products == page
  {
    l := CachedList(f, page, at, Count(mid.db, Asked(f)), Present(mid));
    end := ReadsOn(s, es, mid, lid, CountAll, ListStoring(l));
  }

  lemma StoresOn(s: Sys, es: seq<Event>, mid: Sys, lid: nat, l: CachedList, ttl: int) returns (end: Sys)
    requires Legal(s, es) && RunEvents(s, es) == mid && OnlyLists(s, mid)
    requires lid in mid.listReaders && mid.listReaders[lid].pc == ListStoring(l) && Jittered(s.ttlList, ttl)
    ensures Legal(s, es + [ReadList(lid, StoreList(ttl, NoFault))])
            && RunEvents(s, es + [ReadList(lid, StoreList(ttl, NoFault))]) == end
    ensures OnlyLists(s, end) && end.listReaders.Keys == mid.listReaders.Keys
    ensures end.lists == mid.lists[ListKey(mid.listReaders[lid].filters) := Entry(StoredList(l, |mid.past|),
            end.now + ttl)]
  {
    StoreEffect(mid, lid, l, ttl);
    ThenEvent(s, es, mid, ReadList(lid, StoreList(ttl, NoFault)));
    end := Step(mid, ReadList(lid, StoreList(ttl, NoFault)));
    OnlyListsChain(s, mid, end);
  }

  lemma EmptyRun(s: Sys)
    ensures Legal(s, []) && RunEvents(s, []) == s && OnlyLists(s, s)
  {
    assert s.past[..|s.past|] == s.past;
  }

  lemma FillingParts(lid: nat, f: ProductFilters, page: seq<PublicProduct>, ttl: int)
    ensures [] + [StartList(lid, f)] + [ReadList(lid, GetList(NoFault))] + [ReadList(lid, FindPage(page))]
            + [ReadList(lid, CountAll)]
            + [ReadList(lid, StoreList(ttl, NoFault))]
            == Filling(lid, f, page, ttl)
  {
  }

  /** From a state with nothing cached, where the database chooses `page`. */
  lemma FillsOn(s: Sys, es: seq<Event>, s0: Sys, lid: nat, f: ProductFilters, page: seq<PublicProduct>, ttl: int)
    returns (end: Sys, l: CachedList, setAt: nat)
    requires Legal(s, es) && RunEvents(s, es) == s0 && OnlyLists(s, s0) && s0.lists == map[] && s0.listReaders == map[]
    requires GoInts(f) && FindAll(s.db, Asked(f), page) && Jittered(s.ttlList, ttl)
    ensures var filling := es + [StartList(lid, f)] + [ReadList(lid, GetList(NoFault))]
            + [ReadList(lid, FindPage(page))]
                           + [ReadList(lid, CountAll)] + [ReadList(lid, StoreList(ttl, NoFault))];
      Legal(s, filling) && RunEvents(s, filling) == end
    ensures OnlyLists(s, end) && l.products == page
            && end.lists == map[ListKey(f) := Entry(StoredList(l, setAt), end.now + ttl)]
    ensures end.listReaders.Keys == {lid}
  {
    var s1 := StartsOn(s, es, s0, lid, f);
    var es1 := es + [StartList(lid, f)];
    var s2 := MissesOn(s, es1, s1, lid, f);
    var es2 := es1 + [ReadList(lid, GetList(NoFault))];
    var s3, at := FindsOn(s, es2, s2, lid, f, page);
    var es3 := es2 + [ReadList(lid, FindPage(page))];
    var s4;
    s4, l := CountsOn(s, es3, s3, lid, f, page, at);
    setAt := |s4.past|;
    end := StoresOn(s, es3 + [ReadList(lid, CountAll)], s4, lid, l, ttl);
  }

  lemma Fills(s: Sys, lid: nat, f: ProductFilters, page: seq<PublicProduct>, ttl: int)
      returns (end: Sys, l: CachedList, setAt: nat)
    requires Initial(s) && GoInts(f) && FindAll(s.db, Asked(f), page) && Jittered(s.ttlList, ttl)
    ensures Legal(s, Filling(lid, f, page, ttl)) && RunEvents(s, Filling(lid, f, page, ttl)) == end
    ensures OnlyLists(s, end) && l.products == page
            && end.lists == map[ListKey(f) := Entry(StoredList(l, setAt), end.now + ttl)]
    ensures end.listReaders.Keys == {lid}
  {
    EmptyRun(s);
    FillingParts(lid, f, page, ttl);
    end, l, setAt := FillsOn(s, [], s, lid, f, page, ttl);
  }

  function CategoryAllRun(f: ProductFilters, page: seq<PublicProduct>, ttl: int): seq<Event> {
    Filling(0, f, page, ttl) + [StartList(1, f.(category := "all"))] + [ReadList(1, GetList(NoFault))]
  }

  lemma NoCategoryNoRow(db: State, q: Query)
    requires q.category.Some? && forall c | c in db.categories :: db.categories[c].name != q.category.value
    ensures Count(db, q) == 0
  {
    assert Selected(db, q.category, q.like) == {};
  }

  lemma NoCategoryNoPage(db: State, q: Query, page: seq<PublicProduct>)
    requires q.category.Some? && (forall c | c in db.categories :: db.categories[c].name != q.category.value)
             && |page| > 0
    ensures !FindAll(db, q, page)
  {
    NoCategoryNoRow(db, q);
    if FindAll(db, q, page) { PageAgreesWithCountAndDetail(db, q, page); }
  }

  /** A read that finds a live entry under its key. */
  lemma IsServed(s: Sys, es: seq<Event>, mid: Sys, lid: nat, g: ProductFilters, l: CachedList) returns (end: Sys)
    requires Legal(s, es) && RunEvents(s, es) == mid && OnlyLists(s, mid) && lid !in mid.listReaders && GoInts(g)
    requires Live(mid.lists, ListKey(g), mid.now) && mid.lists[ListKey(g)].value.page == l
    ensures Legal(s, es + [StartList(lid, g)] + [ReadList(lid, GetList(NoFault))])
    ensures RunEvents(s, es + [StartList(lid, g)] + [ReadList(lid, GetList(NoFault))]) == end
    ensures OnlyLists(s, end) && lid in end.listReaders && end.listReaders[lid] == ListReader(g, ListDone(l))
  {
    var mid' := StartsOn(s, es, mid, lid, g);
    end := ReadsOn(s, es + [StartList(lid, g)], mid', lid, GetList(NoFault), ListDone(l));
  }

  /** An unfiltered list read, then one for the category `all`, which does not exist:
      the second is served the first one's page, which its own filters never had. */
  lemma CategoryAllIsServedEverything(s: Sys, f: ProductFilters, page: seq<PublicProduct>, ttl: int)
    requires Initial(s) && GoInts(f) && f.category == "" && Jittered(s.ttlList, ttl)
    requires FindAll(s.db, Asked(f), page) && |page| > 0
    requires forall c | c in s.db.categories :: s.db.categories[c].name != "all"
    ensures Legal(s, CategoryAllRun(f, page, ttl))
    ensures var end := RunEvents(s, CategoryAllRun(f, page, ttl));
      && 1 in end.listReaders && end.listReaders[1].filters == f.(category := "all")
      && end.listReaders[1].pc.ListDone? && end.listReaders[1].pc.result.products == page
      && forall i | 0 <= i < |end.past| :: !FindAll(end.past[i].db, Asked(f.(category := "all")), page)
  {
    var g := f.(category := "all");
    var mid, l, setAt := Fills(s, 0, f, page, ttl);
    CategoryAllCollides(g);
    assert g.(category := "") == f;
    var end := IsServed(s, Filling(0, f, page, ttl), mid, 1, g, l);
    NeverHad(s, end, Asked(g), page);
  }

  lemma NeverHad(s: Sys, end: Sys, q: Query, page: seq<PublicProduct>)
    requires |s.past| == 1 && s.past[0].db == s.db && OnlyLists(s, end) && |page| > 0
    requires q.category.Some? && forall c | c in s.db.categories :: s.db.categories[c].name != q.category.value
    ensures forall i | 0 <= i < |end.past| :: !FindAll(end.past[i].db, q, page)
  {
    NoCategoryNoPage(s.db, q, page);
    assert end.past[0] == end.past[..1][0];
  }

  // -------------------------------------------------------------- staleness

  /** At instant k the page, or the total, that was right until then stopped being. */
  ghost predicate WentWrong(past: seq<Moment>, l: CachedList, k: nat)
    requires 0 < k < |past|
  {
    var q := Asked(l.filters);
    || (FindAll(past[k - 1].db, q, l.products) && !FindAll(past[k].db, q, l.products))
    || (Count(past[k - 1].db, q) == l.total != Count(past[k].db, q))
  }

  /** Commit k made this very page, or its total, wrong after it was read, and its
      list invalidation is owed, under way, was lost, or began before the page was
      stored. */
  ghost predicate ListToBlame(s: Sys, entry: StoredList, k: nat) {
    && entry.page.readAt < k < |s.past| && k in s.commits
    && OwesLists(s.commits[k].command) && WentWrong(s.past, entry.page, k)
    && ListSurvived(s.commits[k], entry.setAt)
  }

  lemma PagePoint(past: seq<Moment>, q: Query, page: seq<PublicProduct>, i: nat, j: nat) returns (k: nat)
    requires i < j < |past| && FindAll(past[i].db, q, page) && !FindAll(past[j].db, q, page)
    ensures i < k <= j && FindAll(past[k - 1].db, q, page) && !FindAll(past[k].db, q, page)
    decreases j
  {
    if FindAll(past[j - 1].db, q, page) {
      k := j;
    } else {
      k := PagePoint(past, q, page, i, j - 1);
    }
  }

  lemma CountPoint(past: seq<Moment>, q: Query, total: int, i: nat, j: nat) returns (k: nat)
    requires i < j < |past| && Count(past[i].db, q) == total != Count(past[j].db, q)
    ensures i < k <= j && Count(past[k - 1].db, q) == total != Count(past[k].db, q)
    decreases j
  {
    if Count(past[j - 1].db, q) == total {
      k := j;
    } else {
      k := CountPoint(past, q, total, i, j - 1);
    }
  }

  lemma WrongIsOffShelf(past: seq<Moment>, l: CachedList, k: nat)
    requires 0 < k < |past| && WentWrong(past, l, k)
    ensures !SameShelf(past[k - 1].db, past[k].db)
  {
    var a, b, q := past[k - 1].db, past[k].db, Asked(l.filters);
    if SameShelf(a, b) {
      ShelfSelected(a, b, q);
      SameShelfSameLists(a, b, q, l.products);
    }
  }

  lemma ListBlamed(s: Sys, entry: Entry<StoredList>, k: nat)
    requires ListsAccounted(s.past, s.commits) && ListEntryOk(s.past, s.commits, s.now, entry) && s.now <= entry.expires
    requires entry.value.page.readAt < k < |s.past| && WentWrong(s.past, entry.value.page, k)
    ensures ListToBlame(s, entry.value, k)
  {
    WrongIsOffShelf(s.past, entry.value.page, k);
  }

  lemma ListCulprit(s: Sys, entry: Entry<StoredList>) returns (k: nat)
    requires PastOk(s) && ListEntryOk(s.past, s.commits, s.now, entry) && s.now <= entry.expires
    requires var l := entry.value.page;
      !FindAll(s.db, Asked(l.filters), l.products) || Count(s.db, Asked(l.filters)) != l.total
    ensures ListToBlame(s, entry.value, k)
  {
    var l, last := entry.value.page, |s.past| - 1;
    assert s.past[last].db == s.db;
    if !FindAll(s.db, Asked(l.filters), l.products) {
      k := PagePoint(s.past, Asked(l.filters), l.products, l.readAt, last);
    } else {
      k := CountPoint(s.past, Asked(l.filters), l.total, l.countedAt, last);
    }
    ListBlamed(s, entry, k);
  }

  /** In every reachable state, a live list entry whose page or total is not the
      present one has a commit to blame. */
  lemma StaleListHasCulprit(s: Sys, es: seq<Event>, key: string) returns (k: nat)
    requires Initial(s) && Legal(s, es) && Live(RunEvents(s, es).lists, key, RunEvents(s, es).now)
    requires var end := RunEvents(s, es);
      var l := end.lists[key].value.page;
      !FindAll(end.db, Asked(l.filters), l.products) || Count(end.db, Asked(l.filters)) != l.total
    ensures ListToBlame(RunEvents(s, es), RunEvents(s, es).lists[key].value, k)
  {
    Reachable(s, es);
    var end := RunEvents(s, es);
    assert ListEntryOk(end.past, end.commits, end.now, end.lists[key]);
    k := ListCulprit(end, end.lists[key]);
  }

  // -------------------------------------------------------------------- age

  /** Pages reach the store within `delay` of being read. */
  predicate ListTimely(s: Sys, e: Event, delay: int) {
    e.ReadList? && e.listAct.StoreList? && e.lid in s.listReaders && s.listReaders[e.lid].pc.ListStoring?
    && s.listReaders[e.lid].pc.list.readAt < |s.past| ==>
      s.now - s.past[s.listReaders[e.lid].pc.list.readAt].time <= delay
  }

  ghost predicate ListTimelyRun(s: Sys, es: seq<Event>, delay: int)
    requires Legal(s, es)
    decreases |es|
  {
    es == [] || (ListTimelyRun(s, es[..|es| - 1], delay)
        && ListTimely(RunEvents(s, es[..|es| - 1]), es[|es| - 1], delay))
  }

  predicate EntryYoung(past: seq<Moment>, ttl: int, delay: int, entry: Entry<StoredList>) {
    entry.value.page.readAt < |past| ==> entry.expires <= past[entry.value.page.readAt].time + delay + ttl + ttl / 10
  }

  ghost predicate ListAgeBounded(s: Sys, delay: int) {
    forall key | key in s.lists :: EntryYoung(s.past, s.ttlList, delay, s.lists[key])
  }

  lemma ListAgeStays(s: Sys, s': Sys, delay: int)
    requires ListsOk(s.past, s.commits, s.now, s.lists) && ListAgeBounded(s, delay) && Grown(s, s')
             && s'.ttlList == s.ttlList
    requires forall key | key in s'.lists :: key in s.lists && s'.lists[key] == s.lists[key]
    ensures ListAgeBounded(s', delay)
  {
    forall key | key in s'.lists
      ensures EntryYoung(s'.past, s'.ttlList, delay, s'.lists[key])
    {
      assert ListEntryOk(s.past, s.commits, s.now, s.lists[key]) && EntryYoung(s.past, s.ttlList, delay, s.lists[key]);
    }
  }

  lemma ListAgeStored(s: Sys, s': Sys, stored: string, l: CachedList, ttl: int, delay: int)
    requires ListsOk(s.past, s.commits, s.now, s.lists) && ListAgeBounded(s, delay) && Grown(s, s')
             && s'.ttlList == s.ttlList > 0
    requires l.readAt < |s.past| && s.now - s.past[l.readAt].time <= delay && Jittered(s.ttlList, ttl)
    requires s'.lists == Stored(s.lists, stored, StoredList(l, |s.past|), s.now + ttl)
    ensures ListAgeBounded(s', delay)
  {
    forall key | key in s'.lists
      ensures EntryYoung(s'.past, s'.ttlList, delay, s'.lists[key])
    {
      if key != stored {
        assert ListEntryOk(s.past, s.commits, s.now, s.lists[key])
               && EntryYoung(s.past, s.ttlList, delay, s.lists[key]);
      }
    }
  }

  lemma StoringWasRead(s: Sys, lid: nat)
    requires ListReadersOk(s.past, s.listReaders) && lid in s.listReaders && s.listReaders[lid].pc.ListStoring?
    ensures s.listReaders[lid].pc.list.readAt < |s.past|
  {
    assert ListReaderOk(s.past, s.listReaders[lid]);
  }

  lemma StoreIsJittered(s: Sys, lid: nat, act: ListAct)
    requires Enabled(s, ReadList(lid, act)) && act.StoreList?
    ensures Jittered(s.ttlList, act.ttl)
  {
  }

  lemma ListAgeOn(s: Sys, e: Event, s': Sys, ttl: int, delay: int)
    requires Inv(s) && ListAgeBounded(s, delay) && s.ttlList == ttl > 0
    requires Enabled(s, e) && s' == Step(s, e) && ListTimely(s, e, delay)
    ensures ListAgeBounded(s', delay) && s'.ttlList == ttl
  {
    StepShape(s, e);
    if e.ReadList? {
      ListShape(s, e.lid, e.listAct);
      ListAgeRead(s, e.lid, e.listAct, s', delay);
    } else {
      OtherShape(s, e);
      ListAgeStays(s, s', delay);
    }
  }

  lemma ListAgeRead(s: Sys, lid: nat, act: ListAct, s': Sys, delay: int)
    requires ListsOk(s.past, s.commits, s.now, s.lists) && ListReadersOk(s.past, s.listReaders)
             && ListAgeBounded(s, delay)
    requires Enabled(s, ReadList(lid, act)) && ListShaped(s, s', lid, act) && ListTimely(s, ReadList(lid, act), delay)
    requires s'.ttlList == s.ttlList > 0
    ensures ListAgeBounded(s', delay)
  {
    if !(act.StoreList? && IsApplied(act.fault) && s.listReaders[lid].pc.ListStoring?) {
      ListAgeStays(s, s', delay);
    } else {
      StoringWasRead(s, lid);
      StoreIsJittered(s, lid, act);
      var r := s.listReaders[lid];
      ListAgeStored(s, s', ListKey(r.filters), r.pc.list, act.ttl, delay);
    }
  }

  lemma {:induction false} ListAgeReachable(s: Sys, es: seq<Event>, delay: int)
    requires Initial(s) && Legal(s, es) && ListTimelyRun(s, es, delay)
    ensures ListAgeBounded(RunEvents(s, es), delay) && RunEvents(s, es).ttlList == s.ttlList
    decreases |es|
  {
    if es != [] {
      var mid, e := LastStep(s, es);
      ListAgeReachable(s, es[..|es| - 1], delay);
      ListAgeOn(mid, e, RunEvents(s, es), s.ttlList, delay);
    }
  }

  /** A page served from the cache was read at most the delay of its filling plus
      the jittered TTL ago. */
  lemma ServedPageIsRecent(s: Sys, es: seq<Event>, delay: int, key: string)
    requires Initial(s) && Legal(s, es) && ListTimelyRun(s, es, delay)
    requires Live(RunEvents(s, es).lists, key, RunEvents(s, es).now)
    ensures var end := RunEvents(s, es);
      var l := end.lists[key].value.page;
      l.readAt < |end.past| && end.now - end.past[l.readAt].time <= delay + s.ttlList + s.ttlList / 10
  {
    ListAgeReachable(s, es, delay);
    Reachable(s, es);
    var end := RunEvents(s, es);
    assert ListEntryOk(end.past, end.commits, end.now, end.lists[key]);
    assert EntryYoung(end.past, end.ttlList, delay, end.lists[key]);
  }
}
