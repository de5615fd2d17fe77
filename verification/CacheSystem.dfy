/** The whole service over time: catalogue commits, their later invalidations, and
    any number of detail and list reads sharing one expiring store, step by step
    in any order (product_cache.go, service.go, protected.go).

    The detail, lock and list keys of the store are kept as three maps, which
    ValkeyStore.KeySpacesDisjoint justifies. `past` records the committed state at
    every instant; cached values and calls in flight carry the instant they were
    read at. Neither is consulted by the protocol. */
module CacheSystem {
  import opened Domain
  import opened Catalog
  import opened PublicReads
  import opened ListQuery
  import opened ValkeyStore
  import opened ReadProtocol

  datatype Moment = Moment(time: int, db: State)

  /** What became of the detail invalidation a commit owes. */
  datatype Invalidation = NotOwed | Owed | Lost | Performed(at: nat)

  /** And of the list invalidation: a SCAN takes its time, and promises only what
      was there from its start to its end. */
  datatype ListInvalidation = ListsNotOwed | ListsOwed | Scanning(since: nat) | ListsLost | ListsScanned(since: nat)

  datatype CommitRecord = CommitRecord(command: Command, invalidation: Invalidation, lists: ListInvalidation)

  datatype CachedDetail = CachedDetail(product: PublicProduct, readAt: nat, setAt: nat)

  datatype CachedList = CachedList(filters: ProductFilters, products: seq<PublicProduct>, readAt: nat, total: int,
      countedAt: nat)

  datatype StoredList = StoredList(page: CachedList, setAt: nat)

  datatype Reader = Reader(id: nat, pc: Pc, acquiredAt: Option<int>, startedAt: nat)

  datatype ListPc =
    | ListChecking
    | ListFinding
    | ListCounting(products: seq<PublicProduct>, at: nat)
    | ListStoring(list: CachedList)
    | ListDone(result: CachedList)
    | ListFailed

  datatype ListReader = ListReader(filters: ProductFilters, pc: ListPc)

  datatype Sys = Sys(
    ttlDetail: int, ttlList: int,
    now: int,
    db: State,
    past: seq<Moment>,                      // past[|past| - 1] is the present
    commits: map<nat, CommitRecord>,        // by the instant they produced
    details: map<nat, Entry<CachedDetail>>, // product:<id>
    locks: map<nat, Entry<nat>>,            // lock:product:<id>, holding a token
    lists: map<string, Entry<StoredList>>,  // product:list:<hash of the tuple>
    readers: map<nat, Reader>,              // by token: every call draws a fresh one
    listReaders: map<nat, ListReader>)

  datatype Act = Get(fault: Fault) | SetNX(fault: Fault) | Fetch(ok: bool) | Set(ttl: int, fault: Fault)
      | Unlock(fault: Fault) | Timeout | Cancel

  datatype ListAct = GetList(fault: Fault) | FindPage(page: seq<PublicProduct>) | CountAll
      | StoreList(ttl: int, fault: Fault) | DbFails

  datatype Event =
    | Tick(ms: nat)
    | CommitCommand(command: Command)
    | InvalidateDetail(commit: nat, fault: Fault)   // InvalidateProduct after a commit
    | StartListScan(scanned: nat)                   // InvalidateProductList after a commit
    | UnlinkLists(removed: set<string>)             // a batch of some scan
    | EndListScan(ended: nat, ok: bool)
    | StartRead(token: nat, id: nat)
    | Read(token: nat, act: Act)
    | StartList(lid: nat, filters: ProductFilters)
    | ReadList(lid: nat, listAct: ListAct)

  // -------------------------------------------------------------- detail reads

  function Present(s: Sys): nat { if |s.past| == 0 then 0 else |s.past| - 1 }

  function ReplyFor(s: Sys, token: nat, id: nat, act: Act): ReadProtocol.Reply {
    match act
    case Get(fault) =>
      if fault == NoFault && Live(s.details, id, s.now)
          then Hit(s.details[id].value.product, s.details[id].value.readAt) else Miss
    case SetNX(fault) =>
      if fault != NoFault then LockError
      else if Live(s.locks, id, s.now) then HeldElsewhere(s.now)
      else Acquired(s.now)
    case Fetch(ok) =>
      if !ok then DbError
      else
        var found := FindByID(s.db, id);
        if found.Some? then DbFound(found.value, Present(s)) else DbAbsent(Present(s))
    case Set(_, _) => Ack
    case Unlock(_) => Ack
    case Timeout => TimedOut(s.now)
    case Cancel => Cancelled
  }

  predicate ActFits(s: Sys, pc: Pc, act: Act) {
    match pc
    case Checking => act.Get?
    case Acquiring => act.SetNX?
    case Fetching(_) => act.Fetch?
    case Storing(_, _) => act.Set? && Jittered(s.ttlDetail, act.ttl)
    case Releasing(_) => act.Unlock?
    case OpenFetching => act.Fetch?
    case Waiting(_) => act.Get? || act.Timeout? || act.Cancel?
    case LateFetching(_) => act.Fetch?
    case Done(_) => false
  }

  function Advanced(s: Sys, token: nat, act: Act): Reader
    requires token in s.readers && OnReply(s.readers[token].pc, ReplyFor(s, token, s.readers[token].id, act)).Some?
  {
    var r := s.readers[token];
    var reply := ReplyFor(s, token, r.id, act);
    Reader(r.id, OnReply(r.pc, reply).value, if reply.Acquired? then Some(s.now) else r.acquiredAt, r.startedAt)
  }

  predicate ReadEnabled(s: Sys, token: nat, act: Act) {
    && token in s.readers
    && ActFits(s, s.readers[token].pc, act)
    && OnReply(s.readers[token].pc, ReplyFor(s, token, s.readers[token].id, act)).Some?
  }

  function DoRead(s: Sys, token: nat, act: Act): Sys
    requires ReadEnabled(s, token, act)
  {
    var r := s.readers[token];
    var readers := s.readers[token := Advanced(s, token, act)];
    match act
    case SetNX(fault) =>
      s.(readers := readers, locks := if IsApplied(fault) then StoredIfAbsent(s.locks, r.id, token, s.now, LOCK_TTL)
          else s.locks)
    case Set(ttl, fault) =>
      s.(readers := readers,
         details := if IsApplied(fault) && r.pc.Storing?
                    then Stored(s.details, r.id, CachedDetail(r.pc.product, r.pc.at, |s.past|), s.now + ttl)
                    else s.details)
    case Unlock(fault) =>
      s.(readers := readers, locks := if IsApplied(fault) then DeletedIfEqual(s.locks, r.id, token, s.now) else s.locks)
    case _ => s.(readers := readers)
  }

  // ---------------------------------------------------------------- list reads

  ghost predicate ListEnabled(s: Sys, lid: nat, act: ListAct) {
    lid in s.listReaders && (
      match s.listReaders[lid].pc
      case ListChecking => act.GetList?
      case ListFinding => act.DbFails? || (act.FindPage? && FindAll(s.db, Asked(s.listReaders[lid].filters), act.page))
      case ListCounting(_, _) => act.DbFails? || act.CountAll?
      case ListStoring(_) => act.StoreList? && Jittered(s.ttlList, act.ttl)
      case _ => false)
  }

  ghost function NextListPc(s: Sys, filters: ProductFilters, pc: ListPc, act: ListAct): ListPc {
    match act
    case GetList(fault) =>
      var key := ListKey(filters);
      if fault == NoFault && Live(s.lists, key, s.now) then ListDone(s.lists[key].value.page) else ListFinding
    case FindPage(page) => ListCounting(page, Present(s))
    case CountAll =>
      if pc.ListCounting?
      then ListStoring(CachedList(filters, pc.products, pc.at, Count(s.db, Asked(filters)), Present(s)))
      else ListFailed
    case StoreList(_, _) => if pc.ListStoring? then ListDone(pc.list) else ListFailed
    case DbFails => ListFailed
  }

  ghost function DoList(s: Sys, lid: nat, act: ListAct): Sys
    requires ListEnabled(s, lid, act)
  {
    var r := s.listReaders[lid];
    var s1 := s.(listReaders := s.listReaders[lid := ListReader(r.filters, NextListPc(s, r.filters, r.pc, act))]);
    if act.StoreList? && IsApplied(act.fault) && r.pc.ListStoring?
    then s1.(lists := Stored(s.lists, ListKey(r.filters), StoredList(r.pc.list, |s.past|), s.now + act.ttl))
    else s1
  }

  // --------------------------------------------------------------------- steps

  /** UpdateProduct and transition invalidate the product's detail key; a create
      and the category commands do not. */
  predicate OwesDetail(c: Command) { c.UpdateProduct? || c.Transition? }

  function EditedId(c: Command): nat
    requires OwesDetail(c)
  {
    if c.UpdateProduct? then c.update.id else c.transition.id
  }

  /** Every write handler but the category create drops the lists. */
  predicate OwesLists(c: Command) { !c.CreateCategory? }

  function NewRecord(c: Command): CommitRecord {
    CommitRecord(c, if OwesDetail(c) then Owed else NotOwed, if OwesLists(c) then ListsOwed else ListsNotOwed)
  }

  /** A scan that ran to its end without an error has dropped every live entry that
      was stored before it began. */
  ghost predicate ScanComplete(s: Sys, since: nat) {
    forall key | key in s.lists && s.lists[key].value.setAt < since :: !Live(s.lists, key, s.now)
  }

  ghost predicate Enabled(s: Sys, e: Event) {
    match e
    case Tick(_) => true
    case CommitCommand(c) => Exec(s.db, c).result.Ok?
    case InvalidateDetail(k, _) => k in s.commits && s.commits[k].invalidation == Owed
        && OwesDetail(s.commits[k].command)
    case StartListScan(k) => k in s.commits && s.commits[k].lists == ListsOwed
    case UnlinkLists(_) => true
    case EndListScan(k, ok) =>
      k in s.commits && s.commits[k].lists.Scanning? && (ok ==> ScanComplete(s, s.commits[k].lists.since))
    case StartRead(token, _) => token !in s.readers
    case Read(token, act) => ReadEnabled(s, token, act)
    case StartList(lid, f) => lid !in s.listReaders && GoInts(f)
    case ReadList(lid, act) => ListEnabled(s, lid, act)
  }

  ghost function Effect(s: Sys, e: Event): Sys
    requires Enabled(s, e)
  {
    match e
    case Tick(ms) => s.(now := s.now + ms)
    case CommitCommand(c) =>
      s.(db := Exec(s.db, c).state,
         commits := s.commits[|s.past| := NewRecord(c)])
    case InvalidateDetail(k, fault) =>
      var c := s.commits[k].command;
      s.(details := if IsApplied(fault) then s.details - {EditedId(c)} else s.details,
         commits := s.commits[k := s.commits[k].(invalidation := if fault == NoFault then Performed(|s.past|)
             else Lost)])
    case StartListScan(k) => s.(commits := s.commits[k := s.commits[k].(lists := Scanning(|s.past|))])
    case UnlinkLists(removed) => s.(lists := s.lists - removed)
    case EndListScan(k, ok) =>
      s.(commits := s.commits[k := s.commits[k].(lists := if ok then ListsScanned(s.commits[k].lists.since)
          else ListsLost)])
    case StartRead(token, id) => s.(readers := s.readers[token := Reader(id, Checking, None, |s.past|)])
    case Read(token, act) => DoRead(s, token, act)
    case StartList(lid, f) => s.(listReaders := s.listReaders[lid := ListReader(f, ListChecking)])
    case ReadList(lid, act) => DoList(s, lid, act)
  }

  ghost function Step(s: Sys, e: Event): Sys
    requires Enabled(s, e)
  {
    var s' := Effect(s, e);
    s'.(past := s.past + [Moment(s'.now, s'.db)])
  }

  ghost predicate Initial(s: Sys) {
    && Catalog.Valid(s.db) && s.past == [Moment(s.now, s.db)]
    && s.commits == map[] && s.details == map[] && s.locks == map[] && s.lists == map[]
    && s.readers == map[] && s.listReaders == map[]
    && s.ttlDetail > 0 && s.ttlList > 0
  }

  /** s' is reached from an initial state by some sequence of steps. */
  ghost predicate Legal(s: Sys, es: seq<Event>)
    decreases |es|, 0
  {
    es == [] || (Legal(s, es[..|es| - 1]) && Enabled(RunEvents(s, es[..|es| - 1]), es[|es| - 1]))
  }

  ghost function RunEvents(s: Sys, es: seq<Event>): Sys
    requires Legal(s, es)
    decreases |es|, 1
  {
    if es == [] then s else Step(RunEvents(s, es[..|es| - 1]), es[|es| - 1])
  }

  // ----------------------------------------------------------------- invariant

  /** The product read as `p` at instant `at` was public then, and as `p`. */
  predicate WasPublic(past: seq<Moment>, p: PublicProduct, at: nat) {
    at < |past| && FindByID(past[at].db, p.id) == Some(p)
  }

  predicate LeftDraft(db: State, id: nat) {
    id in db.products && db.products[id].status != Draft
  }

  /** The command that produced an instant changed this product's public row: an
      edit or transition of it, or a rename of the category it was in. */
  predicate Touches(before: State, c: Command, id: nat) {
    || (OwesDetail(c) && EditedId(c) == id)
    || (c.UpdateCategory? && id in before.products && before.products[id].category == Some(c.categoryId)
        && c.categoryId in before.categories && before.categories[c.categoryId].name != c.category.name)
  }

  /** A public row differs between two neighbouring instants only by a commit that
      touches it. */
  ghost predicate ChangesAccounted(past: seq<Moment>, commits: map<nat, CommitRecord>) {
    forall k: nat, id: nat | 0 < k < |past| && FindByID(past[k].db, id) != FindByID(past[k - 1].db, id) ::
      k in commits && Touches(past[k - 1].db, commits[k].command, id)
  }

  /** Nothing that a public list shows or counts differs. */
  predicate SameShelf(a: State, b: State) {
    && a.products == b.products
    && forall id | id in a.products && a.products[id].category.Some? ::
         var c := a.products[id].category.value;
         (c in a.categories <==> c in b.categories)
             && (c in a.categories && c in b.categories ==> a.categories[c].name == b.categories[c].name)
  }

  /** The lists change only by a commit that owes their invalidation. */
  ghost predicate ListsAccounted(past: seq<Moment>, commits: map<nat, CommitRecord>) {
    forall k: nat | 0 < k < |past| && !SameShelf(past[k - 1].db, past[k].db) ::
        k in commits && OwesLists(commits[k].command)
  }

  predicate RecordOk(record: CommitRecord, present: nat) {
    && (record.invalidation.Performed? ==> record.invalidation.at < present)
    && (record.lists.Scanning? ==> record.lists.since < present)
    && (record.lists.ListsScanned? ==> record.lists.since < present)
    && (record.lists.ListsNotOwed? <==> !OwesLists(record.command))
    && (record.invalidation.NotOwed? <==> !OwesDetail(record.command))
  }

  predicate TimesOk(past: seq<Moment>, now: int) { forall i | 0 <= i < |past| :: past[i].time <= now }

  predicate RecordsOk(commits: map<nat, CommitRecord>, present: nat) {
    forall k | k in commits :: 0 < k < present && RecordOk(commits[k], present)
  }

  /** No product goes back to DRAFT. */
  ghost predicate DraftsStayLeft(past: seq<Moment>, db: State) {
    forall i, id: nat | 0 <= i < |past| && LeftDraft(past[i].db, id) :: LeftDraft(db, id)
  }

  ghost predicate PastOk(s: Sys) {
    && Catalog.Valid(s.db)
    && |s.past| > 0
    && s.past[|s.past| - 1] == Moment(s.now, s.db)
    && TimesOk(s.past, s.now)
    && RecordsOk(s.commits, |s.past|)
    && DraftsStayLeft(s.past, s.db)
    && ChangesAccounted(s.past, s.commits)
    && ListsAccounted(s.past, s.commits)
  }

  /** An edit committed after the entry was read whose invalidation did not, or did
      not yet, or did only before the entry was stored, remove it. */
  predicate Survived(record: CommitRecord, setAt: nat) {
    match record.invalidation
    case Owed => true
    case Lost => true
    case Performed(at) => at < setAt
    case NotOwed => false
  }

  ghost predicate DetailOk(past: seq<Moment>, commits: map<nat, CommitRecord>, id: nat, d: CachedDetail) {
    && d.product.id == id
    && WasPublic(past, d.product, d.readAt)
    && d.readAt < d.setAt < |past|
    && (forall k | k in commits && k > d.readAt && OwesDetail(commits[k].command)
       && EditedId(commits[k].command) == id ::
          Survived(commits[k], d.setAt))
  }

  /** An answer was so at its instant, and one that came from the database was so
      within the call that began at `startedAt`. */
  predicate ResultOk(past: seq<Moment>, id: nat, startedAt: nat, r: ReadResult) {
    match r
    case Found(p, at, source) => p.id == id && WasPublic(past, p, at) && (source.FromFetch? ==> startedAt <= at)
    case Absent(at) => startedAt <= at < |past| && FindByID(past[at].db, id) == None
    case Failed => true
  }

  predicate ReaderOk(past: seq<Moment>, r: Reader) {
    && r.startedAt < |past|
    && match r.pc
       case Storing(p, at) => p.id == r.id && WasPublic(past, p, at) && r.startedAt <= at
       case Releasing(outcome) => ResultOk(past, r.id, r.startedAt, outcome)
       case Done(result) => ResultOk(past, r.id, r.startedAt, result)
       case _ => true
  }

  /** A commit after the list was read whose list invalidation did not, did not yet,
      or began too early to, remove it. */
  predicate ListSurvived(record: CommitRecord, setAt: nat) {
    match record.lists
    case ListsOwed => true
    case Scanning(_) => true
    case ListsLost => true
    case ListsScanned(since) => since <= setAt
    case ListsNotOwed => false
  }

  /** What a list entry escaped, unless it has expired. */
  ghost predicate ListEntryOk(past: seq<Moment>, commits: map<nat, CommitRecord>, now: int, entry: Entry<StoredList>) {
    && ListOk(past, entry.value.page) && entry.value.page.countedAt < entry.value.setAt < |past|
    && (forall k | k in commits && k > entry.value.page.readAt && OwesLists(commits[k].command)
       && now <= entry.expires ::
          ListSurvived(commits[k], entry.value.setAt))
  }

  ghost predicate ListOk(past: seq<Moment>, l: CachedList) {
    && l.readAt <= l.countedAt < |past| && GoInts(l.filters)
    && FindAll(past[l.readAt].db, Asked(l.filters), l.products)
    && l.total == Count(past[l.countedAt].db, Asked(l.filters))
  }

  ghost predicate ListReaderOk(past: seq<Moment>, r: ListReader) {
    && GoInts(r.filters)
    && match r.pc
       case ListCounting(products, at) => at < |past| && FindAll(past[at].db, Asked(r.filters), products)
       case ListStoring(l) => ListOk(past, l) && l.filters == r.filters
       case ListDone(l) => ListOk(past, l) && ListKey(l.filters) == ListKey(r.filters)
       case _ => true
  }

  ghost predicate DetailsOk(past: seq<Moment>, commits: map<nat, CommitRecord>,
      details: map<nat, Entry<CachedDetail>>) {
    forall id | id in details :: DetailOk(past, commits, id, details[id].value)
  }

  predicate ReadersOk(past: seq<Moment>, readers: map<nat, Reader>) { forall t | t in readers ::
      ReaderOk(past, readers[t]) }

  ghost predicate ListsOk(past: seq<Moment>, commits: map<nat, CommitRecord>, now: int,
      lists: map<string, Entry<StoredList>>) {
    forall key | key in lists ::
      ListEntryOk(past, commits, now, lists[key]) && ListKey(lists[key].value.page.filters) == key
  }

  ghost predicate ListReadersOk(past: seq<Moment>, listReaders: map<nat, ListReader>) {
    forall l | l in listReaders :: ListReaderOk(past, listReaders[l])
  }

  ghost predicate Inv(s: Sys) {
    && PastOk(s)
    && DetailsOk(s.past, s.commits, s.details)
    && ReadersOk(s.past, s.readers)
    && ListsOk(s.past, s.commits, s.now, s.lists)
    && ListReadersOk(s.past, s.listReaders)
  }
}
