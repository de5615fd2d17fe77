/** Every step of the service keeps the invariant of CacheSystem. */
module CacheInvariant {
  import opened Domain
  import opened Catalog
  import opened Paging
  import opened PublicReads
  import opened ListQuery
  import opened ValkeyStore
  import opened ReadProtocol
  import opened CacheSystem

  // ------------------------------------------- what a command can change

  lemma RowKeepsDetail(db: State, db': State, id: nat)
    requires id in db.products <==> id in db'.products
    requires id in db.products ==> db'.products[id] == db.products[id]
    requires id in db.products ==>
      PublicRow(db'.categories, id, db.products[id]) == PublicRow(db.categories, id, db.products[id])
    ensures FindByID(db', id) == FindByID(db, id)
  {
  }

  lemma ProductWriteKeepsOthers(db: State, c: Command, id: nat)
    requires Exec(db, c).result.Ok? && (c.CreateProduct? || OwesDetail(c)) && !Touches(db, c, id)
    ensures FindByID(Exec(db, c).state, id) == FindByID(db, id)
  {
    AllOrNothing(db, c);
    var db' := Exec(db, c).state;
    assert db'.categories == db.categories;
    if c.CreateProduct? && id == c.newId {
      assert id !in db.products && db'.products[id].status == Draft;
    } else {
      RowKeepsDetail(db, db', id);
    }
  }

  lemma CategoryWriteKeepsOthers(db: State, c: Command, id: nat)
    requires Valid(db) && Exec(db, c).result.Ok? && (c.CreateCategory? || c.UpdateCategory?) && !Touches(db, c, id)
    ensures FindByID(Exec(db, c).state, id) == FindByID(db, id)
  {
    AllOrNothing(db, c);
    var db' := Exec(db, c).state;
    if id in db.products {
      assert RowOk(db.categories, db.products[id]);
      if c.UpdateCategory? && db.products[id].category == Some(c.categoryId) {
        assert db'.categories[c.categoryId].name == c.category.name;
      }
    }
    RowKeepsDetail(db, db', id);
  }

  /** The public row of a product changes only by an edit or transition of it or a
      rename of its category. */
  lemma ChangeIsTouched(db: State, c: Command, id: nat)
    requires Valid(db) && Exec(db, c).result.Ok? && FindByID(Exec(db, c).state, id) != FindByID(db, id)
    ensures Touches(db, c, id)
  {
    if !Touches(db, c, id) {
      if c.CreateProduct? || OwesDetail(c) {
        ProductWriteKeepsOthers(db, c, id);
      } else {
        CategoryWriteKeepsOthers(db, c, id);
      }
    }
  }

  lemma ShelfSelects(a: State, b: State, category: Option<string>, like: Option<string>, id: nat)
    requires SameShelf(a, b)
    ensures Selects(a, category, like, id) <==> Selects(b, category, like, id)
    ensures id in a.products ==>
            PublicRow(a.categories, id, a.products[id]) == PublicRow(b.categories, id, b.products[id])
  {
  }

  lemma ShelfSelected(a: State, b: State, q: Query)
    requires SameShelf(a, b)
    ensures Selected(a, q.category, q.like) == Selected(b, q.category, q.like) && Count(a, q) == Count(b, q)
  {
    forall id: nat
      ensures Selects(a, q.category, q.like, id) <==> Selects(b, q.category, q.like, id)
    {
      ShelfSelects(a, b, q.category, q.like, id);
    }
  }

  lemma ShelfPage(a: State, b: State, q: Query, ids: seq<nat>, page: seq<PublicProduct>)
    requires SameShelf(a, b) && q.limit >= 0 && q.offset >= 0 && IsPageOf(a, q, ids, page)
    requires Selected(a, q.category, q.like) == Selected(b, q.category, q.like)
    ensures IsPageOf(b, q, ids, page)
  {
    forall i | 0 <= i < |page|
      ensures var id := Page(ids, q.limit, q.offset)[i];
        id in b.products && page[i] == PublicRow(b.categories, id, b.products[id])
    {
      ShelfSelects(a, b, q.category, q.like, Page(ids, q.limit, q.offset)[i]);
    }
  }

  /** States that differ in nothing a list shows have the same pages and totals. */
  lemma SameShelfSameLists(a: State, b: State, q: Query, page: seq<PublicProduct>)
    requires SameShelf(a, b) && FindAll(a, q, page)
    ensures FindAll(b, q, page) && Count(a, q) == Count(b, q)
  {
    ShelfSelected(a, b, q);
    var ids: seq<nat> :| IsPageOf(a, q, ids, page);
    ShelfPage(a, b, q, ids, page);
  }

  /** A category nobody is in yet is on no list. */
  lemma NewCategoryKeepsShelf(db: State, c: Command)
    requires Valid(db) && Exec(db, c).result.Ok? && !OwesLists(c)
    ensures SameShelf(db, Exec(db, c).state)
  {
    AllOrNothing(db, c);
    forall id | id in db.products
      ensures RowOk(db.categories, db.products[id])
    {
    }
  }

  lemma LeftDraftStays(db: State, c: Command, id: nat)
    requires LeftDraft(db, id)
    ensures LeftDraft(Exec(db, c).state, id)
  {
    AllOrNothing(db, c);
  }

  // ---------------------------------------------------------------- the past

  /** A step adds the instant it leads to. */
  predicate Grown(s: Sys, s': Sys) { s'.past == s.past + [Moment(s'.now, s'.db)] && s'.now >= s.now }

  predicate SameCommands(commits: map<nat, CommitRecord>, commits': map<nat, CommitRecord>, before: nat) {
    forall k | k in commits && k < before :: k in commits' && commits'[k].command == commits[k].command
  }

  lemma AccountedGrows(past: seq<Moment>, commits: map<nat, CommitRecord>, m: Moment, commits': map<nat, CommitRecord>)
    requires |past| > 0 && ChangesAccounted(past, commits) && SameCommands(commits, commits', |past|)
    requires forall id: nat | FindByID(m.db, id) != FindByID(past[|past| - 1].db, id) ::
      |past| in commits' && Touches(past[|past| - 1].db, commits'[|past|].command, id)
    ensures ChangesAccounted(past + [m], commits')
  {
    var past' := past + [m];
    forall k: nat, id: nat | 0 < k < |past'| && FindByID(past'[k].db, id) != FindByID(past'[k - 1].db, id)
      ensures k in commits' && Touches(past'[k - 1].db, commits'[k].command, id)
    {
      assert past'[k - 1] == past[k - 1];
      if k < |past| { assert past'[k] == past[k]; }
    }
  }

  lemma ListsAccountedGrow(past: seq<Moment>, commits: map<nat, CommitRecord>, m: Moment,
      commits': map<nat, CommitRecord>)
    requires |past| > 0 && ListsAccounted(past, commits) && SameCommands(commits, commits', |past|)
    requires SameShelf(past[|past| - 1].db, m.db) || (|past| in commits' && OwesLists(commits'[|past|].command))
    ensures ListsAccounted(past + [m], commits')
  {
    var past' := past + [m];
    forall k: nat | 0 < k < |past'| && !SameShelf(past'[k - 1].db, past'[k].db)
      ensures k in commits' && OwesLists(commits'[k].command)
    {
      assert past'[k - 1] == past[k - 1];
      if k < |past| { assert past'[k] == past[k]; }
    }
  }

  lemma DraftsGrow(past: seq<Moment>, db: State, m: Moment)
    requires DraftsStayLeft(past, db) && forall id: nat | LeftDraft(db, id) :: LeftDraft(m.db, id)
    ensures DraftsStayLeft(past + [m], m.db)
  {
    var past' := past + [m];
    forall i, id: nat | 0 <= i < |past'| && LeftDraft(past'[i].db, id)
      ensures LeftDraft(m.db, id)
    {
      if i < |past| { assert past'[i] == past[i]; }
    }
  }

  lemma TimesGrow(past: seq<Moment>, now: int, m: Moment)
    requires TimesOk(past, now) && m.time >= now
    ensures TimesOk(past + [m], m.time)
  {
  }

  /** A step that commits nothing and rewrites records at most. */
  lemma PastStill(s: Sys, s': Sys)
    requires PastOk(s) && Grown(s, s') && s'.db == s.db
    requires SameCommands(s.commits, s'.commits, |s.past|) && RecordsOk(s'.commits, |s'.past|)
    ensures PastOk(s')
  {
    var m := Moment(s'.now, s'.db);
    TimesGrow(s.past, s.now, m);
    DraftsGrow(s.past, s.db, m);
    AccountedGrows(s.past, s.commits, m, s'.commits);
    ListsAccountedGrow(s.past, s.commits, m, s'.commits);
  }

  lemma RecordsStill(s: Sys)
    requires PastOk(s)
    ensures RecordsOk(s.commits, |s.past| + 1)
  {
  }

  lemma CommandChanges(db: State, c: Command, db': State)
    requires Valid(db) && Exec(db, c).result.Ok? && db' == Exec(db, c).state
    ensures Valid(db')
    ensures forall id: nat | FindByID(db', id) != FindByID(db, id) :: Touches(db, c, id)
    ensures forall id: nat | LeftDraft(db, id) :: LeftDraft(db', id)
    ensures OwesLists(c) || SameShelf(db, db')
  {
    ExecKeepsValid(db, c);
    if !OwesLists(c) { NewCategoryKeepsShelf(db, c); }
    forall id: nat | FindByID(db', id) != FindByID(db, id)
      ensures Touches(db, c, id)
    {
      ChangeIsTouched(db, c, id);
    }
    forall id: nat | LeftDraft(db, id)
      ensures LeftDraft(db', id)
    {
      LeftDraftStays(db, c, id);
    }
  }

  lemma PastCommits(s: Sys, s': Sys, c: Command)
    requires PastOk(s) && Valid(s'.db) && Grown(s, s') && s'.commits == s.commits[|s.past| := NewRecord(c)]
    requires forall id: nat | FindByID(s'.db, id) != FindByID(s.db, id) :: Touches(s.db, c, id)
    requires forall id: nat | LeftDraft(s.db, id) :: LeftDraft(s'.db, id)
    requires OwesLists(c) || SameShelf(s.db, s'.db)
    ensures PastOk(s')
  {
    var m := Moment(s'.now, s'.db);
    TimesGrow(s.past, s.now, m);
    DraftsGrow(s.past, s.db, m);
    AccountedGrows(s.past, s.commits, m, s'.commits);
    ListsAccountedGrow(s.past, s.commits, m, s'.commits);
    RecordsStill(s);
  }

  // ------------------------------------------ what holds goes on holding

  /** No record of an edit of the entry's product turns against the entry. */
  ghost predicate DetailSpared(commits: map<nat, CommitRecord>, commits': map<nat, CommitRecord>, id: nat,
      d: CachedDetail) {
    forall k | k in commits' && k > d.readAt && OwesDetail(commits'[k].command)
        && EditedId(commits'[k].command) == id ::
      Survived(commits'[k], d.setAt)
      || (k in commits && commits[k].command == commits'[k].command
         && commits[k].invalidation == commits'[k].invalidation)
  }

  lemma DetailGrows(past: seq<Moment>, m: Moment, commits: map<nat, CommitRecord>, commits': map<nat, CommitRecord>,
      id: nat, d: CachedDetail)
    requires DetailOk(past, commits, id, d) && DetailSpared(commits, commits', id, d)
    ensures DetailOk(past + [m], commits', id, d)
  {
  }

  lemma DetailsGrow(past: seq<Moment>, m: Moment, commits: map<nat, CommitRecord>, commits': map<nat, CommitRecord>,
                    details: map<nat, Entry<CachedDetail>>, details': map<nat, Entry<CachedDetail>>)
    requires DetailsOk(past, commits, details)
    requires forall id | id in details' ::
             id in details && details'[id] == details[id] && DetailSpared(commits, commits', id, details[id].value)
    ensures DetailsOk(past + [m], commits', details')
  {
    forall id | id in details'
      ensures DetailOk(past + [m], commits', id, details'[id].value)
    {
      DetailGrows(past, m, commits, commits', id, details[id].value);
    }
  }

  lemma ReaderGrows(past: seq<Moment>, m: Moment, r: Reader)
    requires ReaderOk(past, r)
    ensures ReaderOk(past + [m], r)
  {
  }

  lemma ReadersGrow(past: seq<Moment>, m: Moment, readers: map<nat, Reader>)
    requires ReadersOk(past, readers)
    ensures ReadersOk(past + [m], readers)
  {
    forall t | t in readers
      ensures ReaderOk(past + [m], readers[t])
    {
      ReaderGrows(past, m, readers[t]);
    }
  }

  lemma ListGrows(past: seq<Moment>, m: Moment, l: CachedList)
    requires ListOk(past, l)
    ensures ListOk(past + [m], l)
  {
  }

  /** No record turns against the list entry while it is live. */
  ghost predicate ListSpared(commits: map<nat, CommitRecord>, commits': map<nat, CommitRecord>, now: int,
      entry: Entry<StoredList>) {
    forall k | k in commits' && k > entry.value.page.readAt && OwesLists(commits'[k].command) && now <= entry.expires ::
      ListSurvived(commits'[k], entry.value.setAt)
      || (k in commits && commits[k].command == commits'[k].command && commits[k].lists == commits'[k].lists)
  }

  lemma ListEntryGrows(past: seq<Moment>, m: Moment, commits: map<nat, CommitRecord>,
      commits': map<nat, CommitRecord>, now: int, entry: Entry<StoredList>)
    requires ListEntryOk(past, commits, now, entry) && m.time >= now && ListSpared(commits, commits', m.time, entry)
    ensures ListEntryOk(past + [m], commits', m.time, entry)
  {
    ListGrows(past, m, entry.value.page);
  }

  lemma ListsGrow(past: seq<Moment>, m: Moment, commits: map<nat, CommitRecord>, commits': map<nat, CommitRecord>,
      now: int,
                  lists: map<string, Entry<StoredList>>, lists': map<string, Entry<StoredList>>)
    requires ListsOk(past, commits, now, lists) && m.time >= now
    requires forall key | key in lists' ::
             key in lists && lists'[key] == lists[key] && ListSpared(commits, commits', m.time, lists[key])
    ensures ListsOk(past + [m], commits', m.time, lists')
  {
    forall key | key in lists'
      ensures ListEntryOk(past + [m], commits', m.time, lists'[key]) && ListKey(lists'[key].value.page.filters) == key
    {
      ListEntryGrows(past, m, commits, commits', now, lists[key]);
    }
  }

  lemma ListReaderGrows(past: seq<Moment>, m: Moment, r: ListReader)
    requires ListReaderOk(past, r)
    ensures ListReaderOk(past + [m], r)
  {
    match r.pc
    case ListStoring(l) => ListGrows(past, m, l);
    case ListDone(l) => ListGrows(past, m, l);
    case _ =>
  }

  lemma ListReadersGrow(past: seq<Moment>, m: Moment, listReaders: map<nat, ListReader>)
    requires ListReadersOk(past, listReaders)
    ensures ListReadersOk(past + [m], listReaders)
  {
    forall l | l in listReaders
      ensures ListReaderOk(past + [m], listReaders[l])
    {
      ListReaderGrows(past, m, listReaders[l]);
    }
  }

  /** The store's entries are those that were there, less some, and the records are
      the same. */
  predicate EntriesStay(s: Sys, s': Sys) {
    && (forall id | id in s'.details :: id in s.details && s'.details[id] == s.details[id])
    && (forall key | key in s'.lists :: key in s.lists && s'.lists[key] == s.lists[key])
  }

  lemma StoreGrows(s: Sys, s': Sys)
    requires DetailsOk(s.past, s.commits, s.details) && ListsOk(s.past, s.commits, s.now, s.lists)
    requires Grown(s, s') && s'.commits == s.commits && EntriesStay(s, s')
    ensures DetailsOk(s'.past, s'.commits, s'.details) && ListsOk(s'.past, s'.commits, s'.now, s'.lists)
  {
    var m := Moment(s'.now, s'.db);
    DetailsGrow(s.past, m, s.commits, s'.commits, s.details, s'.details);
    ListsGrow(s.past, m, s.commits, s'.commits, s.now, s.lists, s'.lists);
  }

  lemma PastUnmoved(s: Sys, s': Sys)
    requires PastOk(s) && Grown(s, s') && s'.db == s.db && s'.commits == s.commits
    ensures PastOk(s')
  {
    RecordsStill(s);
    PastStill(s, s');
  }

  // --------------------------------------------------------- quiet steps

  predicate IsQuiet(e: Event) { e.Tick? || e.UnlinkLists? || e.StartRead? || e.StartList? }

  lemma QuietShape(s: Sys, e: Event)
    requires Enabled(s, e) && IsQuiet(e)
    ensures var s' := Step(s, e);
      && Grown(s, s') && s'.db == s.db && s'.commits == s.commits && EntriesStay(s, s')
      && s'.readers == (if e.StartRead? then s.readers[e.token := Reader(e.id, Checking, None, |s.past|)]
         else s.readers)
      && s'.listReaders == (if e.StartList? then s.listReaders[e.lid := ListReader(e.filters, ListChecking)]
         else s.listReaders)
      && (e.StartList? ==> GoInts(e.filters))
  {
  }

  lemma QuietStep(s: Sys, e: Event)
    requires Inv(s) && Enabled(s, e) && IsQuiet(e)
    ensures Inv(Step(s, e))
  {
    QuietShape(s, e);
    QuietInv(s, e, Step(s, e));
  }

  lemma QuietInv(s: Sys, e: Event, s': Sys)
    requires Inv(s) && Grown(s, s') && s'.db == s.db && s'.commits == s.commits && EntriesStay(s, s')
    requires s'.readers == (if e.StartRead? then s.readers[e.token := Reader(e.id, Checking, None, |s.past|)]
             else s.readers)
    requires s'.listReaders == (if e.StartList? then s.listReaders[e.lid := ListReader(e.filters, ListChecking)]
             else s.listReaders)
    requires e.StartList? ==> GoInts(e.filters)
    ensures Inv(s')
  {
    var m := Moment(s'.now, s'.db);
    PastUnmoved(s, s');
    StoreGrows(s, s');
    ReadersGrow(s.past, m, s.readers);
    ListReadersGrow(s.past, m, s.listReaders);
  }

  // -------------------------------------------------------------- commits

  /** A fresh record is owed whatever it can be blamed for. */
  lemma CommitDetails(s: Sys, s': Sys, c: Command)
    requires DetailsOk(s.past, s.commits, s.details)
    requires Grown(s, s') && s'.commits == s.commits[|s.past| := NewRecord(c)] && s'.details == s.details
    ensures DetailsOk(s'.past, s'.commits, s'.details)
  {
    forall id | id in s.details
      ensures DetailSpared(s.commits, s'.commits, id, s.details[id].value)
    {
    }
    DetailsGrow(s.past, Moment(s'.now, s'.db), s.commits, s'.commits, s.details, s'.details);
  }

  lemma CommitLists(s: Sys, s': Sys, c: Command)
    requires ListsOk(s.past, s.commits, s.now, s.lists)
    requires Grown(s, s') && s'.commits == s.commits[|s.past| := NewRecord(c)] && s'.lists == s.lists
    ensures ListsOk(s'.past, s'.commits, s'.now, s'.lists)
  {
    forall key | key in s.lists
      ensures ListSpared(s.commits, s'.commits, s'.now, s.lists[key])
    {
    }
    ListsGrow(s.past, Moment(s'.now, s'.db), s.commits, s'.commits, s.now, s.lists, s'.lists);
  }

  lemma CommitFrame(s: Sys, s': Sys, c: Command)
    requires Inv(s) && PastOk(s') && Grown(s, s') && s'.commits == s.commits[|s.past| := NewRecord(c)]
    requires s'.details == s.details && s'.readers == s.readers && s'.lists == s.lists
             && s'.listReaders == s.listReaders
    ensures Inv(s')
  {
    var m := Moment(s'.now, s'.db);
    CommitDetails(s, s', c);
    CommitLists(s, s', c);
    ReadersGrow(s.past, m, s.readers);
    ListReadersGrow(s.past, m, s.listReaders);
  }

  lemma CommitShape(s: Sys, c: Command)
    requires Enabled(s, CommitCommand(c))
    ensures var s' := Step(s, CommitCommand(c));
      && Grown(s, s') && s'.db == Exec(s.db, c).state && s'.commits == s.commits[|s.past| := NewRecord(c)]
      && s'.details == s.details && s'.readers == s.readers && s'.lists == s.lists && s'.listReaders == s.listReaders
  {
  }

  lemma CommitStep(s: Sys, c: Command)
    requires Inv(s) && Enabled(s, CommitCommand(c))
    ensures Inv(Step(s, CommitCommand(c)))
  {
    CommitShape(s, c);
    var s' := Step(s, CommitCommand(c));
    CommandChanges(s.db, c, s'.db);
    PastCommits(s, s', c);
    CommitFrame(s, s', c);
  }

  // -------------------------------------------------------- invalidations

  predicate IsInvalidation(e: Event) { e.InvalidateDetail? || e.StartListScan? || e.EndListScan? }

  function RecordOf(e: Event): nat
    requires IsInvalidation(e)
  {
    if e.InvalidateDetail? then e.commit else if e.StartListScan? then e.scanned else e.ended
  }

  /** What became of record k at a step that is about it. */
  ghost predicate Recorded(s: Sys, s': Sys, e: Event)
    requires IsInvalidation(e)
  {
    var k := RecordOf(e);
    && k in s.commits && Grown(s, s') && s'.db == s.db
    && s'.commits.Keys == s.commits.Keys && (forall j | j in s.commits && j != k :: s'.commits[j] == s.commits[j])
    && s'.readers == s.readers && s'.lists == s.lists && s'.listReaders == s.listReaders
    && (forall id | id in s'.details :: id in s.details && s'.details[id] == s.details[id])
    && var was, record := s.commits[k], s'.commits[k];
       && record.command == was.command
       && match e
          case InvalidateDetail(_, fault) =>
            && record.lists == was.lists && OwesDetail(was.command) && s'.now == s.now
            && record.invalidation == (if fault == NoFault then Performed(|s.past|) else Lost)
            && (fault == NoFault ==> EditedId(was.command) !in s'.details)
          case StartListScan(_) => record.invalidation == was.invalidation && was.lists.ListsOwed?
              && record.lists == Scanning(|s.past|)
          case EndListScan(_, ok) =>
            && record.invalidation == was.invalidation && was.lists.Scanning? && s'.now == s.now
            && record.lists == (if ok then ListsScanned(was.lists.since) else ListsLost)
            && (ok ==> ScanComplete(s, was.lists.since))
          case _ => true
  }

  lemma InvalidationShape(s: Sys, e: Event)
    requires Enabled(s, e) && IsInvalidation(e)
    ensures Recorded(s, Step(s, e), e)
  {
  }

  lemma RecordedPast(s: Sys, s': Sys, e: Event)
    requires PastOk(s) && IsInvalidation(e) && Recorded(s, s', e)
    ensures PastOk(s')
  {
    var k := RecordOf(e);
    assert RecordOk(s.commits[k], |s.past|);
    forall j | j in s'.commits
      ensures 0 < j < |s'.past| && RecordOk(s'.commits[j], |s'.past|)
    {
      assert RecordOk(s.commits[j], |s.past|);
    }
    PastStill(s, s');
  }

  lemma RecordedDetails(s: Sys, s': Sys, e: Event)
    requires DetailsOk(s.past, s.commits, s.details) && IsInvalidation(e) && Recorded(s, s', e)
    ensures DetailsOk(s'.past, s'.commits, s'.details)
  {
    forall id | id in s'.details
      ensures DetailSpared(s.commits, s'.commits, id, s.details[id].value)
    {
      assert DetailOk(s.past, s.commits, id, s.details[id].value);
    }
    DetailsGrow(s.past, Moment(s'.now, s'.db), s.commits, s'.commits, s.details, s'.details);
  }

  lemma RecordSparesList(s: Sys, s': Sys, e: Event, key: string)
    requires IsInvalidation(e) && Recorded(s, s', e) && key in s.lists && s.lists[key].value.setAt < |s.past|
    ensures ListSpared(s.commits, s'.commits, s'.now, s.lists[key])
  {
    var k, entry := RecordOf(e), s.lists[key];
    if e.EndListScan? && s'.now <= entry.expires { assert Live(s.lists, key, s.now); }
    forall j | j in s'.commits && j > entry.value.page.readAt && OwesLists(s'.commits[j].command)
        && s'.now <= entry.expires
      ensures ListSurvived(s'.commits[j], entry.value.setAt)
              || (j in s.commits && s.commits[j].command == s'.commits[j].command
                 && s.commits[j].lists == s'.commits[j].lists)
    {
    }
  }

  lemma RecordedLists(s: Sys, s': Sys, e: Event)
    requires ListsOk(s.past, s.commits, s.now, s.lists) && IsInvalidation(e) && Recorded(s, s', e)
    ensures ListsOk(s'.past, s'.commits, s'.now, s'.lists)
  {
    forall key | key in s'.lists
      ensures ListSpared(s.commits, s'.commits, s'.now, s.lists[key])
    {
      assert ListEntryOk(s.past, s.commits, s.now, s.lists[key]);
      RecordSparesList(s, s', e, key);
    }
    ListsGrow(s.past, Moment(s'.now, s'.db), s.commits, s'.commits, s.now, s.lists, s'.lists);
  }

  lemma InvalidateStep(s: Sys, e: Event)
    requires Inv(s) && Enabled(s, e) && IsInvalidation(e)
    ensures Inv(Step(s, e))
  {
    InvalidationShape(s, e);
    RecordedInv(s, Step(s, e), e);
  }

  lemma RecordedInv(s: Sys, s': Sys, e: Event)
    requires Inv(s) && IsInvalidation(e) && Recorded(s, s', e)
    ensures Inv(s')
  {
    RecordedPast(s, s', e);
    RecordedDetails(s, s', e);
    RecordedLists(s, s', e);
    ReadersGrow(s.past, Moment(s'.now, s'.db), s.readers);
    ListReadersGrow(s.past, Moment(s'.now, s'.db), s.listReaders);
  }

  // --------------------------------------------------------- detail reads

  /** The reply a call gets is true of the present or of an entry's past. */
  lemma ReplyIsTrue(s: Sys, token: nat, act: Act)
    requires PastOk(s) && DetailsOk(s.past, s.commits, s.details) && ReadersOk(s.past, s.readers)
             && ReadEnabled(s, token, act)
    ensures ReaderOk(s.past, Advanced(s, token, act))
  {
    var r := s.readers[token];
    assert ReaderOk(s.past, r);
    match act
    case Get(_) =>
      if Live(s.details, r.id, s.now) { assert DetailOk(s.past, s.commits, r.id, s.details[r.id].value); }
    case Fetch(_) => assert s.past[Present(s)].db == s.db;
    case _ =>
  }

  /** Whatever is stored now was read before, and every edit committed since the
      read is on record as not yet invalidated, lost, or invalidated too early. */
  lemma StoredEntryOk(s: Sys, token: nat, m: Moment)
    requires PastOk(s) && ReadersOk(s.past, s.readers) && token in s.readers && s.readers[token].pc.Storing?
    ensures var r := s.readers[token];
      DetailOk(s.past + [m], s.commits, r.id, CachedDetail(r.pc.product, r.pc.at, |s.past|))
  {
    assert ReaderOk(s.past, s.readers[token]);
  }

  /** What a step of a call does to everything but the locks. */
  ghost predicate ReadShaped(s: Sys, s': Sys, token: nat, act: Act)
    requires ReadEnabled(s, token, act)
  {
    var r := s.readers[token];
    && Grown(s, s') && s'.db == s.db && s'.now == s.now && s'.commits == s.commits
    && s'.readers == s.readers[token := Advanced(s, token, act)]
    && s'.lists == s.lists && s'.listReaders == s.listReaders
    && (s'.details == s.details
        || (act.Set? && r.pc.Storing?
            && s'.details == Stored(s.details, r.id, CachedDetail(r.pc.product, r.pc.at, |s.past|), s.now + act.ttl)))
  }

  lemma ReadShape(s: Sys, token: nat, act: Act)
    requires Enabled(s, Read(token, act))
    ensures ReadShaped(s, Step(s, Read(token, act)), token, act)
  {
  }

  lemma ReadDetails(s: Sys, s': Sys, token: nat, act: Act)
    requires PastOk(s) && DetailsOk(s.past, s.commits, s.details) && ReadersOk(s.past, s.readers)
    requires ReadEnabled(s, token, act) && ReadShaped(s, s', token, act)
    ensures DetailsOk(s'.past, s'.commits, s'.details)
  {
    var m := Moment(s'.now, s'.db);
    DetailsGrow(s.past, m, s.commits, s'.commits, s.details, s.details);
    if act.Set? && s.readers[token].pc.Storing? { StoredEntryOk(s, token, m); }
  }

  lemma ReadInv(s: Sys, s': Sys, token: nat, act: Act)
    requires Inv(s) && ReadEnabled(s, token, act) && ReadShaped(s, s', token, act)
    ensures Inv(s')
  {
    var m := Moment(s'.now, s'.db);
    PastUnmoved(s, s');
    ReadDetails(s, s', token, act);
    ListsGrow(s.past, m, s.commits, s'.commits, s.now, s.lists, s'.lists);
    ListReadersGrow(s.past, m, s.listReaders);
    ReplyIsTrue(s, token, act);
    ReaderGrows(s.past, m, s'.readers[token]);
    ReadersGrow(s.past, m, s.readers);
  }

  lemma ReadStep(s: Sys, token: nat, act: Act)
    requires Inv(s) && Enabled(s, Read(token, act))
    ensures Inv(Step(s, Read(token, act)))
  {
    ReadShape(s, token, act);
    ReadInv(s, Step(s, Read(token, act)), token, act);
  }

  // ----------------------------------------------------------- list reads

  lemma ListReplyIsTrue(s: Sys, lid: nat, act: ListAct)
    requires Inv(s) && ListEnabled(s, lid, act)
    ensures var r := s.listReaders[lid];
      ListReaderOk(s.past, ListReader(r.filters, NextListPc(s, r.filters, r.pc, act)))
  {
    var r := s.listReaders[lid];
    assert ListReaderOk(s.past, r);
    match act
    case GetList(_) =>
      var key := ListKey(r.filters);
      if Live(s.lists, key, s.now) {
        assert ListEntryOk(s.past, s.commits, s.now, s.lists[key]) && ListKey(s.lists[key].value.page.filters) == key;
      }
    case FindPage(_) => assert s.past[Present(s)].db == s.db;
    case CountAll => assert s.past[Present(s)].db == s.db;
    case _ =>
  }

  lemma StoredListOk(s: Sys, lid: nat, m: Moment, expires: int)
    requires PastOk(s) && ListReadersOk(s.past, s.listReaders) && lid in s.listReaders
             && s.listReaders[lid].pc.ListStoring?
    ensures var r := s.listReaders[lid];
      && ListEntryOk(s.past + [m], s.commits, m.time, Entry(StoredList(r.pc.list, |s.past|), expires))
      && r.pc.list.filters == r.filters
  {
    assert ListReaderOk(s.past, s.listReaders[lid]);
    ListGrows(s.past, m, s.listReaders[lid].pc.list);
  }

  ghost predicate ListShaped(s: Sys, s': Sys, lid: nat, act: ListAct)
    requires ListEnabled(s, lid, act)
  {
    var r := s.listReaders[lid];
    && Grown(s, s') && s'.db == s.db && s'.now == s.now && s'.commits == s.commits
    && s'.details == s.details && s'.readers == s.readers
    && s'.listReaders == s.listReaders[lid := ListReader(r.filters, NextListPc(s, r.filters, r.pc, act))]
    && (if act.StoreList? && IsApplied(act.fault) && r.pc.ListStoring?
        then s'.lists == Stored(s.lists, ListKey(r.filters), StoredList(r.pc.list, |s.past|), s.now + act.ttl)
        else s'.lists == s.lists)
  }

  lemma DoListShape(s: Sys, lid: nat, act: ListAct)
    requires ListEnabled(s, lid, act)
    ensures var r := s.listReaders[lid];
      var moved := s.(listReaders := s.listReaders[lid := ListReader(r.filters, NextListPc(s, r.filters, r.pc, act))]);
      DoList(s, lid, act)
      == if act.StoreList? && IsApplied(act.fault) && r.pc.ListStoring?
         then moved.(lists := Stored(s.lists, ListKey(r.filters), StoredList(r.pc.list, |s.past|), s.now + act.ttl))
         else moved
  {
  }

  lemma ListShape(s: Sys, lid: nat, act: ListAct)
    requires Enabled(s, ReadList(lid, act))
    ensures ListShaped(s, Step(s, ReadList(lid, act)), lid, act)
  {
    DoListShape(s, lid, act);
  }

  lemma OneMoreList(past: seq<Moment>, commits: map<nat, CommitRecord>, now: int,
                    lists: map<string, Entry<StoredList>>, key: string, entry: Entry<StoredList>)
    requires ListsOk(past, commits, now, lists) && ListEntryOk(past, commits, now, entry)
             && ListKey(entry.value.page.filters) == key
    ensures ListsOk(past, commits, now, lists[key := entry])
  {
  }

  lemma ListStore(s: Sys, m: Moment, lid: nat, expires: int)
    requires PastOk(s) && ListsOk(s.past, s.commits, s.now, s.lists) && ListReadersOk(s.past, s.listReaders)
    requires m.time >= s.now && lid in s.listReaders && s.listReaders[lid].pc.ListStoring?
    ensures var r := s.listReaders[lid];
      ListsOk(s.past + [m], s.commits, m.time,
          s.lists[ListKey(r.filters) := Entry(StoredList(r.pc.list, |s.past|), expires)])
  {
    var r := s.listReaders[lid];
    ListsGrow(s.past, m, s.commits, s.commits, s.now, s.lists, s.lists);
    StoredListOk(s, lid, m, expires);
    OneMoreList(s.past + [m], s.commits, m.time, s.lists, ListKey(r.filters),
        Entry(StoredList(r.pc.list, |s.past|), expires));
  }

  /** One list read moved on, to where its own invariant holds. */
  lemma OneListReader(s: Sys, s': Sys, lid: nat, r': ListReader)
    requires Inv(s) && Grown(s, s') && s'.db == s.db && s'.commits == s.commits && s'.details == s.details
             && s'.readers == s.readers
    requires s'.listReaders == s.listReaders[lid := r'] && ListReaderOk(s.past, r')
             && ListsOk(s'.past, s'.commits, s'.now, s'.lists)
    ensures Inv(s')
  {
    var m := Moment(s'.now, s'.db);
    PastUnmoved(s, s');
    DetailsGrow(s.past, m, s.commits, s'.commits, s.details, s'.details);
    ReadersGrow(s.past, m, s.readers);
    ListReadersGrow(s.past, m, s.listReaders);
    ListReaderGrows(s.past, m, r');
  }

  lemma ListsAfter(s: Sys, s': Sys, lid: nat, stored: bool, expires: int)
    requires PastOk(s) && ListsOk(s.past, s.commits, s.now, s.lists) && ListReadersOk(s.past, s.listReaders)
    requires lid in s.listReaders && (stored ==> s.listReaders[lid].pc.ListStoring?) && Grown(s, s')
             && s'.commits == s.commits
    requires var r := s.listReaders[lid];
      s'.lists == if stored then s.lists[ListKey(r.filters) := Entry(StoredList(r.pc.list, |s.past|), expires)]
          else s.lists
    ensures ListsOk(s'.past, s'.commits, s'.now, s'.lists)
  {
    var m := Moment(s'.now, s'.db);
    if stored { ListStore(s, m, lid, expires); }
        else { ListsGrow(s.past, m, s.commits, s.commits, s.now, s.lists, s.lists); }
  }

  lemma ListInv(s: Sys, s': Sys, lid: nat, act: ListAct)
    requires Inv(s) && ListEnabled(s, lid, act) && ListShaped(s, s', lid, act)
    ensures Inv(s')
  {
    var r := s.listReaders[lid];
    var stored := act.StoreList? && IsApplied(act.fault) && r.pc.ListStoring?;
    ListsAfter(s, s', lid, stored, if stored then s.now + act.ttl else 0);
    ListReplyIsTrue(s, lid, act);
    OneListReader(s, s', lid, ListReader(r.filters, NextListPc(s, r.filters, r.pc, act)));
  }

  lemma ListStep(s: Sys, lid: nat, act: ListAct)
    requires Inv(s) && Enabled(s, ReadList(lid, act))
    ensures Inv(Step(s, ReadList(lid, act)))
  {
    ListShape(s, lid, act);
    ListInv(s, Step(s, ReadList(lid, act)), lid, act);
  }

  /** Every step, in any order, keeps the invariant. */
  lemma StepKeepsInv(s: Sys, e: Event)
    requires Inv(s) && Enabled(s, e)
    ensures Inv(Step(s, e))
  {
    if IsQuiet(e) {
      QuietStep(s, e);
    } else if IsInvalidation(e) {
      InvalidateStep(s, e);
    } else {
      match e
      case CommitCommand(c) => CommitStep(s, c);
      case Read(token, act) => ReadStep(s, token, act);
      case ReadList(lid, act) => ListStep(s, lid, act);
    }
  }

  /** So it holds in every reachable state. */
  lemma {:induction false} Reachable(s: Sys, es: seq<Event>)
    requires Initial(s) && Legal(s, es)
    ensures Inv(RunEvents(s, es))
    decreases |es|
  {
    if es != [] {
      Reachable(s, es[..|es| - 1]);
      StepKeepsInv(RunEvents(s, es[..|es| - 1]), es[|es| - 1]);
    }
  }
}
