/** Particular runs of the interleaving, built step by step: a transaction that
    meets no rival, and the runs in which commit order shows. */
module Schedules {
  import opened Domain
  import opened Catalog
  import opened Transactions
  import opened Linearizability
  import opened AuditOrder
  import History
  import opened TraceHistory
  import TraceReplay

  // --------------------------------------------- a transaction with no rival

  function Uncommitted(tid: nat): seq<Event> { [Lock(tid), Check(tid), Apply(tid), Audit(tid), ReadBack(tid)] }

  function Alone(tid: nat): seq<Event> { Uncommitted(tid) + [CommitTx(tid)] }

  lemma {:induction false} TraceConcat(s: Sys, a: seq<Event>, b: seq<Event>)
    requires Legal(s, a) && Legal(RunTrace(s, a), b)
    ensures Legal(s, a + b) && RunTrace(s, a + b) == RunTrace(RunTrace(s, a), b)
    decreases |b|
  {
    if b == [] {
      assert a + b == a;
    } else {
      TraceConcat(s, a, b[..|b| - 1]);
      assert (a + b)[..|a + b| - 1] == a + b[..|b| - 1];
    }
  }

  lemma ThenStep(s: Sys, es: seq<Event>, mid: Sys, e: Event)
    requires Legal(s, es) && RunTrace(s, es) == mid && Enabled(mid, e)
    ensures Legal(s, es + [e]) && RunTrace(s, es + [e]) == Step(mid, e)
  {
    assert (es + [e])[..|es|] == es;
  }

  /** An edit or a lifecycle command that would be accepted now, whose row nobody
      else holds and whose name nobody else is writing. */
  ghost predicate ReadyToSucceed(s: Sys, tid: nat) {
    && tid in s.txs && s.txs[tid].phase == Begun
    && var c := s.txs[tid].command;
       && (c.UpdateProduct? || c.Transition?)
       && RowFree(s, tid, LockedId(c)) && Exec(s.db, c).result.Ok?
       && (c.UpdateProduct? ==> !NameBusy(s, tid, c.update.name))
  }

  function HeldNow(db: State, id: nat): Held
    requires id in db.products
  {
    Held(db.products[id], RowView(db.categories, id, db.products[id]))
  }

  lemma DecidedNow(db: State, c: Command) returns (w: Write)
    requires (c.UpdateProduct? || c.Transition?) && Exec(db, c).result.Ok?
    ensures Decide(db, c) == Ok(w) && AuditFits(w.entry) && w.ProductWrite? && LockedId(c) in db.products
            && w.id == LockedId(c)
    ensures CheckHeld(HeldNow(db, w.id), c).None?
  {
    w := Decide(db, c).value;
  }

  lemma StatementNow(s: Sys, tx: Tx, w: Write)
    requires (tx.command.UpdateProduct? || tx.command.Transition?) && Decide(s.db, tx.command) == Ok(w)
    requires LockedId(tx.command) in s.db.products && tx.held == Some(HeldNow(s.db, LockedId(tx.command)))
    ensures Statement(s, tx) == Ok(w)
  {
  }

  lemma LocksAlone(s: Sys, tid: nat, held: Held)
    requires ReadyToSucceed(s, tid) && LockedId(s.txs[tid].command) in s.db.products
    requires held == HeldNow(s.db, LockedId(s.txs[tid].command))
    ensures Enabled(s, Lock(tid))
    ensures Step(s, Lock(tid)) == Transactions.Move(s, tid,
            Tx(s.txs[tid].command, s.txs[tid].startedAt, Some(held), Locked))
  {
  }

  lemma ChecksAlone(s: Sys, tid: nat, c: Command, startedAt: int, held: Held)
    requires tid in s.txs && s.txs[tid] == Tx(c, startedAt, Some(held), Locked) && CheckHeld(held, c).None?
    ensures Enabled(s, Check(tid))
    ensures Step(s, Check(tid)) == Transactions.Move(s, tid, Tx(c, startedAt, Some(held), Checked))
  {
  }

  lemma MoveTwice(s: Sys, tid: nat, a: Tx, b: Tx)
    ensures Transactions.Move(Transactions.Move(s, tid, a), tid, b) == Transactions.Move(s, tid, b)
  {
    assert s.txs[tid := a][tid := b] == s.txs[tid := b];
  }

  /** Lock, check and update, when nothing stands in the way. */
  lemma WritesAlone(s: Sys, tid: nat) returns (held: Held, w: Write)
    requires ReadyToSucceed(s, tid)
    ensures w.id in s.db.products && held.row == s.db.products[w.id]
    ensures Decide(s.db, s.txs[tid].command) == Ok(w) && AuditFits(w.entry) && w.ProductWrite?
    ensures Legal(s, [Lock(tid), Check(tid), Apply(tid)])
    ensures RunTrace(s, [Lock(tid), Check(tid), Apply(tid)])
            == Transactions.Move(s, tid, Tx(s.txs[tid].command, s.txs[tid].startedAt, Some(held), Written(w)))
  {
    var c, startedAt := s.txs[tid].command, s.txs[tid].startedAt;
    w := DecidedNow(s.db, c);
    held := HeldNow(s.db, w.id);
    var locked, checked := Tx(c, startedAt, Some(held), Locked), Tx(c, startedAt, Some(held), Checked);
    LocksAlone(s, tid, held);
    ChecksAlone(Transactions.Move(s, tid, locked), tid, c, startedAt, held);
    MoveTwice(s, tid, locked, checked);
    ThreeSteps(s, tid, Transactions.Move(s, tid, locked), Transactions.Move(s, tid, checked), held, w);
  }

  lemma ThreeSteps(s: Sys, tid: nat, s1: Sys, s2: Sys, held: Held, w: Write)
    requires ReadyToSucceed(s, tid) && Decide(s.db, s.txs[tid].command) == Ok(w)
    requires LockedId(s.txs[tid].command) in s.db.products && held == HeldNow(s.db, LockedId(s.txs[tid].command))
    requires Enabled(s, Lock(tid)) && Step(s, Lock(tid)) == s1
    requires Enabled(s1, Check(tid)) && Step(s1, Check(tid)) == s2
    requires s2 == Transactions.Move(s, tid, Tx(s.txs[tid].command, s.txs[tid].startedAt, Some(held), Checked))
    ensures Legal(s, [Lock(tid), Check(tid), Apply(tid)])
    ensures RunTrace(s, [Lock(tid), Check(tid), Apply(tid)])
            == Transactions.Move(s, tid, Tx(s.txs[tid].command, s.txs[tid].startedAt, Some(held), Written(w)))
  {
    assert Legal(s, []) && RunTrace(s, []) == s;
    ThenTwo(s, [], s, Lock(tid), Check(tid));
    AppliesAlone(s, s2, tid, held, w);
    ThenStep(s, [] + [Lock(tid), Check(tid)], s2, Apply(tid));
    assert [] + [Lock(tid), Check(tid)] + [Apply(tid)] == [Lock(tid), Check(tid), Apply(tid)];
  }

  lemma AppliesAlone(s: Sys, s2: Sys, tid: nat, held: Held, w: Write)
    requires ReadyToSucceed(s, tid) && Decide(s.db, s.txs[tid].command) == Ok(w)
    requires LockedId(s.txs[tid].command) in s.db.products && held == HeldNow(s.db, LockedId(s.txs[tid].command))
    requires s2 == Transactions.Move(s, tid, Tx(s.txs[tid].command, s.txs[tid].startedAt, Some(held), Checked))
    ensures Enabled(s2, Apply(tid))
    ensures Step(s2, Apply(tid)) == Transactions.Move(s, tid,
            Tx(s.txs[tid].command, s.txs[tid].startedAt, Some(held), Written(w)))
  {
    var tx := s2.txs[tid];
    StatementNow(s2, tx, w);
    if tx.command.UpdateProduct? { assert !NameBusy(s2, tid, tx.command.update.name); }
    assert s2.txs[tid := tx.(phase := Written(w))] == s.txs[tid := tx.(phase := Written(w))];
  }

  /** Audit row and read-back, of a write that fits. */
  lemma ShowsAlone(s: Sys, tid: nat) returns (end: Sys)
    requires tid in s.txs && s.txs[tid].phase.Written? && s.txs[tid].phase.w.ProductWrite?
             && AuditFits(s.txs[tid].phase.w.entry)
    ensures Enabled(s, Audit(tid)) && Enabled(Step(s, Audit(tid)), ReadBack(tid))
    ensures end == Step(Step(s, Audit(tid)), ReadBack(tid))
    ensures end.db == s.db && end.stamps == s.stamps && end.nextAudit == s.nextAudit + 1
    ensures end.history == s.history && end.answers == s.answers
    ensures var w := s.txs[tid].phase.w;
      end.txs == s.txs[tid := s.txs[tid].(phase := Shown(w, s.nextAudit, RowView(s.db.categories, w.id, w.row)))]
  {
    var s1 := Step(s, Audit(tid));
    end := Step(s1, ReadBack(tid));
  }

  lemma ThenTwo(s: Sys, es: seq<Event>, mid: Sys, e: Event, e': Event)
    requires Legal(s, es) && RunTrace(s, es) == mid
    requires Enabled(mid, e) && Enabled(Step(mid, e), e')
    ensures Legal(s, es + [e, e']) && RunTrace(s, es + [e, e']) == Step(Step(mid, e), e')
  {
    ThenStep(s, es, mid, e);
    ThenStep(s, es + [e], Step(mid, e), e');
    assert es + [e] + [e'] == es + [e, e'];
  }

  /** Everything up to the commit. */
  lemma UncommittedAlone(s: Sys, tid: nat) returns (held: Held, w: Write, mid: Sys)
    requires ReadyToSucceed(s, tid)
    ensures w.id in s.db.products && held.row == s.db.products[w.id]
    ensures Decide(s.db, s.txs[tid].command) == Ok(w) && AuditFits(w.entry) && w.ProductWrite?
    ensures Legal(s, Uncommitted(tid)) && RunTrace(s, Uncommitted(tid)) == mid
    ensures mid.db == s.db && mid.stamps == s.stamps && mid.nextAudit == s.nextAudit + 1
    ensures mid.history == s.history && mid.answers == s.answers
    ensures mid.txs == s.txs[tid := Tx(s.txs[tid].command, s.txs[tid].startedAt, Some(held),
                                       Shown(w, s.nextAudit, RowView(s.db.categories, w.id, w.row)))]
  {
    held, w := WritesAlone(s, tid);
    var written := RunTrace(s, [Lock(tid), Check(tid), Apply(tid)]);
    mid := ShowsAlone(written, tid);
    ThenTwo(s, [Lock(tid), Check(tid), Apply(tid)], written, Audit(tid), ReadBack(tid));
    assert [Lock(tid), Check(tid), Apply(tid)] + [Audit(tid), ReadBack(tid)] == Uncommitted(tid);
  }

  lemma CommitEffect(s: Sys, tid: nat)
    requires tid in s.txs && s.txs[tid].phase.Shown?
    ensures Enabled(s, CommitTx(tid))
    ensures var tx, end := s.txs[tid], Step(s, CommitTx(tid));
      && end.db == Commit(s.db, tx.phase.w) && end.txs == s.txs - {tid} && end.nextAudit == s.nextAudit
      && end.stamps == s.stamps + [Stamp(tx.phase.auditId, tx.startedAt)]
      && end.history == s.history + [tx.command]
      && end.answers == s.answers + [Ok(ProductReply(tx.phase.shown))]
  {
  }

  lemma CommittedAs(db: State, c: Command, w: Write)
    requires Decide(db, c) == Ok(w) && AuditFits(w.entry)
    ensures Exec(db, c).state == Commit(db, w)
  {
  }

  /** A command that meets no rival runs to its commit, and is stamped with the time
      its transaction began. */
  lemma CommandAlone(s: Sys, tid: nat)
    requires ReadyToSucceed(s, tid)
    ensures Legal(s, Alone(tid))
    ensures var end := RunTrace(s, Alone(tid));
      && end.db == Exec(s.db, s.txs[tid].command).state
      && end.stamps == s.stamps + [Stamp(s.nextAudit, s.txs[tid].startedAt)]
      && end.txs == s.txs - {tid}
      && end.nextAudit == s.nextAudit + 1
  {
    var held, w, mid := UncommittedAlone(s, tid);
    CommitEffect(mid, tid);
    ThenStep(s, Uncommitted(tid), mid, CommitTx(tid));
    CommittedAs(s.db, s.txs[tid].command, w);
    assert mid.txs - {tid} == s.txs - {tid};
  }

  // ------------------------------------------------------- commit order shows

  /** The order can invert: an ARCHIVE that began first but waited for a product's
      row reads back below the edits that went ahead of it, here a PUBLISH that
      began later and committed first. */
  lemma HistoryListCanInvert(s: Sys, early: nat, late: nat, archive: TransitionInput, publish: TransitionInput)
    requires early != late && s.txs.Keys == {early, late}
    requires s.txs[early] == Tx(Transition(archive), s.txs[early].startedAt, None, Begun) && archive.step == Archive
    requires s.txs[late] == Tx(Transition(publish), s.txs[late].startedAt, None, Begun) && publish.step == Publish
    requires archive.id == publish.id && archive.id in s.db.products && s.db.products[archive.id].status == Draft
    requires s.txs[early].startedAt < s.txs[late].startedAt && |s.stamps| == |s.db.audit|
    requires Exec(s.db, Transition(archive)).result.Ok? && Exec(s.db, Transition(publish)).result.Ok?
    ensures Legal(s, Alone(late) + Alone(early))
    ensures var end, n := RunTrace(s, Alone(late) + Alone(early)), |s.stamps|;
      && |end.stamps| == n + 2
      && end.db == Exec(Exec(s.db, Transition(publish)).state, Transition(archive)).state
      && end.stamps[n].id < end.stamps[n + 1].id
      && ListedBefore(end.stamps[n], end.stamps[n + 1])
  {
    CommandAlone(s, late);
    var mid := RunTrace(s, Alone(late));
    assert mid.txs.Keys == {early};
    assert Exec(mid.db, Transition(archive)).result.Ok?;
    CommandAlone(mid, early);
    TraceConcat(s, Alone(late), Alone(early));
  }

  function LateCategory(tid: nat, newId: nat, input: CategoryInput, now: int): seq<Event> {
    Uncommitted(tid) + [CategoryCommand(CreateCategory(newId, input), now), CommitTx(tid)]
  }

  lemma NewCategoryEffect(s: Sys, newId: nat, input: CategoryInput, now: int)
    requires Exec(s.db, CreateCategory(newId, input)).result.Ok?
    ensures var s' := Step(s, CategoryCommand(CreateCategory(newId, input), now));
      && s'.db == Exec(s.db, CreateCategory(newId, input)).state && s'.db.products == s.db.products
      && s'.db.categories == s.db.categories[newId := CategoryRow(input)]
      && s'.txs == s.txs && s'.history == s.history + [CreateCategory(newId, input)]
  {
  }

  lemma RunOfTwo(db: State, a: Command, b: Command)
    ensures Run(db, [a, b]) == Exec(Exec(db, a).state, b).state
  {
    assert [a, b][..1] == [a] && [a][..0] == [];
    assert Run(db, [a]) == Exec(db, a).state;
  }

  /** A category created between an edit's UPDATE and its commit: the category is
      answered first and the edit second, but the product rows are those of the
      edit run first and not those of the answered order. */
  lemma LateCategoryInvertsOrder(s: Sys, tid: nat, newId: nat, input: CategoryInput, now: int)
    requires Inv(s) && ReadyToSucceed(s, tid) && s.txs[tid].command.UpdateProduct?
    requires s.txs[tid].command.update.category == input.name && Resolve(s.db.categories, input.name) == None
    requires Exec(s.db, CreateCategory(newId, input)).result.Ok?
    ensures Legal(s, LateCategory(tid, newId, input, now))
    ensures var end, create, edit := RunTrace(s, LateCategory(tid, newId, input, now)), CreateCategory(newId, input),
            s.txs[tid].command;
      && end.history == s.history + [create, edit]
      && end.db.products == Run(s.db, [edit, create]).products
      && end.db.products != Run(s.db, [create, edit]).products
  {
    var create, edit := CreateCategory(newId, input), s.txs[tid].command;
    var held, w, mid := UncommittedAlone(s, tid);
    CommittedAs(s.db, edit, w);
    RunOfTwo(s.db, create, edit);
    RunOfTwo(s.db, edit, create);
    LateRowDiffers(s.db, edit, create, w);
    TraceInv(s, Uncommitted(tid));
    CreateAround(mid, edit, newId, input, now, w, tid);
    ThenTwo(s, Uncommitted(tid), mid, CategoryCommand(create, now), CommitTx(tid));
  }

  lemma CreateAround(mid: Sys, edit: Command, newId: nat, input: CategoryInput, now: int, w: Write, tid: nat)
    requires tid in mid.txs && mid.txs[tid].command == edit && mid.txs[tid].phase.Shown? && mid.txs[tid].phase.w == w
             && w.ProductWrite?
    requires Exec(mid.db, CreateCategory(newId, input)).result.Ok?
    ensures var e := CategoryCommand(CreateCategory(newId, input), now);
      && Enabled(mid, e) && Enabled(Step(mid, e), CommitTx(tid))
      && var end := Step(Step(mid, e), CommitTx(tid));
         end.history == mid.history + [CreateCategory(newId, input), edit]
             && end.db.products == Commit(mid.db, w).products
  {
    NewCategoryEffect(mid, newId, input, now);
    CommitEffect(Step(mid, CategoryCommand(CreateCategory(newId, input), now)), tid);
  }

  lemma LateRowDiffers(db: State, edit: Command, create: Command, w: Write)
    requires Valid(db) && edit.UpdateProduct? && create.CreateCategory? && Decide(db, edit) == Ok(w)
             && AuditFits(w.entry)
    requires edit.update.category == create.newCategory.name && Resolve(db.categories, edit.update.category) == None
    requires Exec(db, create).result.Ok?
    ensures Exec(Commit(db, w), create).state.products == Commit(db, w).products
    ensures Exec(Exec(db, create).state, edit).state.products != Commit(db, w).products
  {
    AllOrNothing(Commit(db, w), create);
    CategoryCommandFrames(Commit(db, w), create);
    CategoryCommandFrames(db, create);
    var id, db' := edit.update.id, Exec(db, create).state;
    CommittedAs(db, edit, w);
    History.EditWrites(db, edit.update);
    assert Commit(db, w).products[id].category == None
           && Commit(db, w).products[id].version == db.products[id].version + 1;
    History.CreateCategoryAccepted(db, create.newCategoryId, create.newCategory);
    assert db'.categories[create.newCategoryId].name == edit.update.category;
    EditTakesCategory(db', edit.update);
  }

  lemma EditTakesCategory(db: State, input: UpdateProductInput)
    requires input.id in db.products && Resolve(db.categories, input.category).Some?
    ensures var row := Exec(db, UpdateProduct(input)).state.products[input.id];
      row.category.Some? || row.version == db.products[input.id].version
  {
    AllOrNothing(db, UpdateProduct(input));
    if Exec(db, UpdateProduct(input)).result.Ok? { History.EditWrites(db, input); }
  }

  function LateRename(tid: nat, id: nat, input: CategoryInput, now: int): seq<Event> {
    Uncommitted(tid) + [CategoryCommand(UpdateCategory(id, input), now), CommitTx(tid)]
  }

  /** A rename between a lifecycle command's read-back and its commit: every row is
      that of the answered order, and the answer shows the old name. */
  lemma LateRenameDatesAnswer(s: Sys, tid: nat, id: nat, input: CategoryInput, now: int)
    requires Inv(s) && ReadyToSucceed(s, tid) && s.txs[tid].command.Transition?
    requires s.db.products[s.txs[tid].command.transition.id].category == Some(id)
    requires CategoryFree(s, id) && Exec(s.db, UpdateCategory(id, input)).result.Ok?
             && s.db.categories[id].name != input.name
    ensures Legal(s, LateRename(tid, id, input, now))
    ensures var end, rename, step := RunTrace(s, LateRename(tid, id, input, now)), UpdateCategory(id, input),
            s.txs[tid].command;
      && end.history == s.history + [rename, step]
      && end.db == Run(s.db, [rename, step])
      && end.answers[|end.answers| - 1] != Exec(Run(s.db, [rename]), step).result
  {
    var rename, step := UpdateCategory(id, input), s.txs[tid].command;
    var held, w, mid := UncommittedAlone(s, tid);
    TraceInv(s, Uncommitted(tid));
    StepKeepsCategory(s.db, step, w);
    StillFree(s, mid, tid, id, held, w);
    RenameAround(mid, tid, id, input, now, w);
    ThenTwo(s, Uncommitted(tid), mid, CategoryCommand(rename, now), CommitTx(tid));
    RunOfTwo(s.db, rename, step);
    RunOfOne(s.db, rename);
  }

  /** A lifecycle command puts its product into no other category. */
  lemma StillFree(s: Sys, mid: Sys, tid: nat, id: nat, held: Held, w: Write)
    requires CategoryFree(s, id) && w.ProductWrite? && held.row.category == w.row.category
    requires tid in s.txs && tid in mid.txs && mid.txs[tid].held == Some(held) && mid.txs == s.txs[tid := mid.txs[tid]]
    requires mid.txs[tid].phase.Shown? && mid.txs[tid].phase.w == w
    ensures CategoryFree(mid, id)
  {
    forall t | t in mid.txs
      ensures !KeepsCategory(mid.txs[t], id)
    {
    }
  }

  lemma RunOfOne(db: State, a: Command)
    ensures Run(db, [a]) == Exec(db, a).state
  {
    assert [a][..0] == [];
  }

  lemma StepKeepsCategory(db: State, c: Command, w: Write)
    requires c.Transition? && Decide(db, c) == Ok(w)
    ensures c.transition.id in db.products && w.ProductWrite? && w.id == c.transition.id
    ensures w.row.category == db.products[c.transition.id].category
  {
  }

  lemma RenameAround(mid: Sys, tid: nat, id: nat, input: CategoryInput, now: int, w: Write)
    requires Inv(mid) && tid in mid.txs && mid.txs[tid].command.Transition? && mid.txs[tid].phase.Shown?
    requires mid.txs[tid].phase.w == w && w.ProductWrite? && w.row.category == Some(id)
    requires mid.txs[tid].phase.shown == RowView(mid.db.categories, w.id, w.row)
    requires CategoryFree(mid, id) && Exec(mid.db, UpdateCategory(id, input)).result.Ok?
             && mid.db.categories[id].name != input.name
    ensures var e, step := CategoryCommand(UpdateCategory(id, input), now), mid.txs[tid].command;
      && Enabled(mid, e) && Enabled(Step(mid, e), CommitTx(tid))
      && var end, renamed := Step(Step(mid, e), CommitTx(tid)), Exec(mid.db, UpdateCategory(id, input)).state;
         && end.history == mid.history + [UpdateCategory(id, input), step]
         && end.db == Exec(renamed, step).state
         && |end.answers| > 0 && end.answers[|end.answers| - 1] != Exec(renamed, step).result
  {
    MidIsFresh(mid, tid, w);
    RenameAfterReadBack(mid, tid, input, now);
    CommitEffect(Step(mid, CategoryCommand(UpdateCategory(id, input), now)), tid);
  }

  lemma MidIsFresh(s: Sys, tid: nat, w: Write)
    requires tid in s.txs && s.txs[tid].command.Transition? && s.txs[tid].phase.Shown? && s.txs[tid].phase.w == w
             && w.ProductWrite?
    requires s.txs[tid].phase.shown == RowView(s.db.categories, w.id, w.row)
    ensures CategoryFresh(s.db.categories, s.txs[tid])
  {
  }

  function RenameDuringEdit(tid: nat, id: nat, input: CategoryInput, now: int): seq<Event> {
    [Lock(tid), Check(tid)]
    + [CategoryCommand(UpdateCategory(id, input), now), Apply(tid)]
    + [Audit(tid), ReadBack(tid)]
  }

  lemma ChecksOut(s: Sys, tid: nat) returns (held: Held, w: Write, mid: Sys)
    requires ReadyToSucceed(s, tid)
    ensures Decide(s.db, s.txs[tid].command) == Ok(w) && AuditFits(w.entry) && w.ProductWrite?
    ensures w.id == LockedId(s.txs[tid].command) && w.id in s.db.products && held == HeldNow(s.db, w.id)
    ensures Legal(s, [Lock(tid), Check(tid)]) && RunTrace(s, [Lock(tid), Check(tid)]) == mid
    ensures mid == Transactions.Move(s, tid, Tx(s.txs[tid].command, s.txs[tid].startedAt, Some(held), Checked))
  {
    var c, startedAt := s.txs[tid].command, s.txs[tid].startedAt;
    w := DecidedNow(s.db, c);
    held := HeldNow(s.db, w.id);
    var locked, checked := Tx(c, startedAt, Some(held), Locked), Tx(c, startedAt, Some(held), Checked);
    LocksAlone(s, tid, held);
    ChecksAlone(Transactions.Move(s, tid, locked), tid, c, startedAt, held);
    MoveTwice(s, tid, locked, checked);
    mid := Transactions.Move(s, tid, checked);
    assert Legal(s, []) && RunTrace(s, []) == s;
    ThenTwo(s, [], s, Lock(tid), Check(tid));
    assert [] + [Lock(tid), Check(tid)] == [Lock(tid), Check(tid)];
  }

  /** The edit's UPDATE looks for a category that has just been renamed away. */
  lemma RenamedAway(db: State, id: nat, input: CategoryInput, update: UpdateProductInput, w: Write)
    requires Valid(db) && Decide(db, UpdateProduct(update)) == Ok(w)
    requires id in db.categories && db.categories[id].name == update.category && input.name != update.category
    requires Exec(db, UpdateCategory(id, input)).result.Ok?
    ensures update.id in db.products
    ensures var db' := Exec(db, UpdateCategory(id, input)).state;
      && db'.products == db.products && db'.categories == db.categories[id := CategoryRow(input)]
      && EditStatement(db', RowView(db.categories, update.id, db.products[update.id]), update)
         == Ok(ProductWrite(update.id, UpdateRow(db.products[update.id], update, None), w.entry))
  {
    CategoryCommandFrames(db, UpdateCategory(id, input));
    History.CategoryEditWrites(db, id, input);
    var categories := db.categories[id := CategoryRow(input)];
    forall c | c in categories
      ensures categories[c].name != update.category
    {
      if c != id { assert categories[c] == db.categories[c]; }
    }
    assert Resolve(categories, update.category) == None;
  }

  lemma RenameMoves(s: Sys, id: nat, input: CategoryInput, now: int)
    requires CategoryFree(s, id) && Exec(s.db, UpdateCategory(id, input)).result.Ok?
    ensures Enabled(s, CategoryCommand(UpdateCategory(id, input), now))
    ensures var s' := Step(s, CategoryCommand(UpdateCategory(id, input), now));
      s'.db == Exec(s.db, UpdateCategory(id, input)).state && s'.txs == s.txs
  {
  }

  lemma AppliesTo(s: Sys, tid: nat, w: Write)
    requires tid in s.txs && s.txs[tid].phase == Checked && s.txs[tid].command.UpdateProduct? && s.txs[tid].held.Some?
    requires !NameBusy(s, tid, s.txs[tid].command.update.name)
    requires EditStatement(s.db, s.txs[tid].held.value.view, s.txs[tid].command.update) == Ok(w)
    ensures Enabled(s, Apply(tid))
    ensures Step(s, Apply(tid)) == Transactions.Move(s, tid, s.txs[tid].(phase := Written(w)))
  {
  }

  lemma LostIsNotTold(s: Sys, tid: nat, id: nat, held: Held)
    requires tid in s.txs && s.txs[tid].phase.Shown? && s.txs[tid].command.UpdateProduct?
    requires s.txs[tid].held == Some(held)
    requires s.txs[tid].phase.w.ProductWrite? && s.txs[tid].phase.w.row.category == None
    requires held.view.category == s.txs[tid].command.update.category && held.row.category == Some(id)
    requires id in s.db.categories && s.db.categories[id].name != ""
    ensures Enabled(s, CommitTx(tid)) && !TraceReplay.TxTells(s, tid)
  {
  }

  /** From the check on: the rename, then the rest of the edit. */
  lemma EditOver(s: Sys, es: seq<Event>, mid: Sys, tid: nat, e: Event, renamed: Sys, w: Write) returns (end: Sys)
    requires Legal(s, es) && RunTrace(s, es) == mid && Enabled(mid, e) && Step(mid, e) == renamed
    requires tid in renamed.txs && renamed.txs[tid].phase == Checked && renamed.txs[tid].command.UpdateProduct?
    requires renamed.txs[tid].held.Some? && !NameBusy(renamed, tid, renamed.txs[tid].command.update.name)
    requires EditStatement(renamed.db, renamed.txs[tid].held.value.view, renamed.txs[tid].command.update) == Ok(w)
    requires w.ProductWrite? && AuditFits(w.entry)
    ensures Legal(s, es + [e, Apply(tid)] + [Audit(tid), ReadBack(tid)])
    ensures RunTrace(s, es + [e, Apply(tid)] + [Audit(tid), ReadBack(tid)]) == end
    ensures end.db == renamed.db && tid in end.txs && end.txs[tid].phase.Shown? && end.txs[tid].phase.w == w
    ensures end.txs[tid].command == renamed.txs[tid].command && end.txs[tid].held == renamed.txs[tid].held
  {
    AppliesTo(renamed, tid, w);
    ThenTwo(s, es, mid, e, Apply(tid));
    var written := Step(renamed, Apply(tid));
    end := ShowsAlone(written, tid);
    ThenTwo(s, es + [e, Apply(tid)], written, Audit(tid), ReadBack(tid));
  }

  /** An edit that keeps its product's category, and a rename of that category between
      the edit's lock and its UPDATE: the product loses its category, and the audit
      row does not mention the category at all. */
  lemma RenameDuringEditIsNotTold(s: Sys, tid: nat, id: nat, input: CategoryInput, now: int)
    requires Inv(s) && ReadyToSucceed(s, tid) && s.txs[tid].command.UpdateProduct?
    requires s.txs[tid].command.update.id in s.db.products
    requires s.db.products[s.txs[tid].command.update.id].category == Some(id) && id in s.db.categories
    requires s.db.categories[id].name == s.txs[tid].command.update.category
    requires CategoryFree(s, id) && Exec(s.db, UpdateCategory(id, input)).result.Ok?
    requires input.name != "" && input.name != s.txs[tid].command.update.category
    ensures Legal(s, RenameDuringEdit(tid, id, input, now))
    ensures var end := RunTrace(s, RenameDuringEdit(tid, id, input, now));
      Enabled(end, CommitTx(tid)) && end.txs[tid].phase.w.ProductWrite?
      && end.txs[tid].phase.w.row.category == None && !TraceReplay.TxTells(end, tid)
  {
    var e := CategoryCommand(UpdateCategory(id, input), now);
    var update := s.txs[tid].command.update;
    var held, w, mid := ChecksOut(s, tid);
    RenamedAway(s.db, id, input, update, w);
    RenameMoves(mid, id, input, now);
    var renamed := Step(mid, e);
    var w' := ProductWrite(update.id, UpdateRow(held.row, update, None), w.entry);
    assert !NameBusy(renamed, tid, update.name);
    var end := EditOver(s, [Lock(tid), Check(tid)], mid, tid, e, renamed, w');
    LostIsNotTold(end, tid, id, held);
  }
}
