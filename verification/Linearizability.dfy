/** What the interleavings of Transactions add up to: every answer and every row
    is that of the same commands run one at a time, in the order they were
    answered, exactly as long as no category a transaction has read moves under it. */
module Linearizability {
  import opened Domain
  import opened Catalog
  import opened AuditReplay
  import opened Transactions

  /** What a transaction has taken from the categories into its row and its audit
      row is still so. */
  ghost predicate WriteFresh(categories: map<nat, Category>, tx: Tx) {
    match tx.command
    case CreateProduct(_, _, input) =>
      Pending(tx) && tx.phase.w.ProductWrite? ==> tx.phase.w.row.category == Resolve(categories, input.category)
    case UpdateProduct(input) =>
      tx.phase != Begun && tx.held.Some? ==>
        && tx.held.value.view.category == CategoryName(categories, tx.held.value.row.category)
        && (Pending(tx) && tx.phase.w.ProductWrite? ==> tx.phase.w.row.category == Resolve(categories, input.category))
    case _ => true
  }

  /** The category name read back for the answer is still so. */
  predicate AnswerFresh(categories: map<nat, Category>, tx: Tx) {
    tx.phase.Shown? && tx.phase.w.ProductWrite? ==>
        tx.phase.shown.category == CategoryName(categories, tx.phase.w.row.category)
  }

  /** Whatever an unfinished transaction has read from the categories is still so. */
  ghost predicate CategoryFresh(categories: map<nat, Category>, tx: Tx) {
    WriteFresh(categories, tx) && AnswerFresh(categories, tx)
  }

  lemma StaleProjectionShows(view: AdminProduct, view': AdminProduct, input: UpdateProductInput)
    requires view' == view.(category := view'.category) && view'.category != view.category
    ensures UpdateEntry(view, input) != UpdateEntry(view', input)
  {
    var a, b := UpdateChanges(view, input), UpdateChanges(view', input);
    FieldsOfStored(UpdateEntry(view, input), a);
    FieldsOfStored(UpdateEntry(view', input), b);
    CategoryChange(view, input);
    CategoryChange(view', input);
  }

  lemma CategoryChange(view: AdminProduct, input: UpdateProductInput)
    ensures CategoryField in UpdateChanges(view, input) <==> view.category != input.category
    ensures CategoryField in UpdateChanges(view, input) ==>
      UpdateChanges(view, input)[CategoryField] == TextChange(view.category, input.category)
  {
  }

  lemma CommitMeaning(db: State, c: Command, w: Write, v: Write)
    requires Decide(db, c) == Ok(v) && AuditFits(v.entry) && w.ProductWrite? && v.ProductWrite? && w.id == v.id
    ensures Commit(db, w) == Exec(db, c).state <==> w == v
    ensures w == v ==> Exec(db, c) == Outcome(Commit(db, w), Ok(ReplyTo(db, w)))
  {
    if Commit(db, w) == Commit(db, v) {
      assert Commit(db, w).products[w.id] == w.row && Commit(db, v).products[w.id] == v.row;
      assert Commit(db, w).audit[|db.audit|] == w.entry && Commit(db, v).audit[|db.audit|] == v.entry;
    }
  }

  lemma CreateCommit(s: Sys, tid: nat)
    requires Inv(s) && Enabled(s, CommitTx(tid)) && s.txs[tid].command.CreateProduct?
    ensures var tx := s.txs[tid];
      && (Commit(s.db, tx.phase.w) == Exec(s.db, tx.command).state <==> WriteFresh(s.db.categories, tx))
      && (WriteFresh(s.db.categories, tx) ==>
         Exec(s.db, tx.command) == Outcome(Commit(s.db, tx.phase.w), Ok(ReplyTo(s.db, tx.phase.w))))
  {
    var tx := s.txs[tid];
    assert TxOk(s.db.products, s.nextProduct, tx);
    var c, w := tx.command, tx.phase.w;
    assert !NameTaken(s.db.products, c.product.name, None);
    var v := ProductWrite(c.newId, CreateRow(c.product, c.now, Resolve(s.db.categories, c.product.category)),
        CreateEntry(c.newId, c.product));
    assert Decide(s.db, c) == Ok(v);
    CommitMeaning(s.db, c, w, v);
  }

  lemma EditDecision(s: Sys, tid: nat)
    requires Inv(s) && Enabled(s, CommitTx(tid)) && s.txs[tid].command.UpdateProduct?
    ensures var input, held := s.txs[tid].command.update, s.txs[tid].held.value;
      Decide(s.db, s.txs[tid].command)
      == Ok(ProductWrite(input.id, UpdateRow(held.row, input, Resolve(s.db.categories, input.category)),
                         UpdateEntry(held.view.(category := CategoryName(s.db.categories, held.row.category)), input)))
  {
    var tx := s.txs[tid];
    assert TxOk(s.db.products, s.nextProduct, tx);
    assert RowView(s.db.categories, tx.command.update.id, tx.held.value.row)
        == tx.held.value.view.(category := CategoryName(s.db.categories, tx.held.value.row.category));
  }

  lemma EditCommit(s: Sys, tid: nat)
    requires Inv(s) && Enabled(s, CommitTx(tid)) && s.txs[tid].command.UpdateProduct?
    ensures var tx := s.txs[tid];
      && (Commit(s.db, tx.phase.w) == Exec(s.db, tx.command).state <==> WriteFresh(s.db.categories, tx))
      && (WriteFresh(s.db.categories, tx) ==>
         Exec(s.db, tx.command) == Outcome(Commit(s.db, tx.phase.w), Ok(ReplyTo(s.db, tx.phase.w))))
  {
    var tx := s.txs[tid];
    assert TxOk(s.db.products, s.nextProduct, tx);
    EditDecision(s, tid);
    var input, held, w := tx.command.update, tx.held.value, tx.phase.w;
    var view' := held.view.(category := CategoryName(s.db.categories, held.row.category));
    var v := Decide(s.db, tx.command).value;
    CommitMeaning(s.db, tx.command, w, v);
    if held.view.category != view'.category {
      StaleProjectionShows(held.view, view', input);
    }
  }

  lemma TransitionCommit(s: Sys, tid: nat)
    requires Inv(s) && Enabled(s, CommitTx(tid)) && s.txs[tid].command.Transition?
    ensures var tx := s.txs[tid];
      Exec(s.db, tx.command) == Outcome(Commit(s.db, tx.phase.w), Ok(ReplyTo(s.db, tx.phase.w)))
  {
    var tx := s.txs[tid];
    assert TxOk(s.db.products, s.nextProduct, tx);
    assert Decide(s.db, tx.command) == Ok(tx.phase.w);
  }

  lemma WriteCommit(s: Sys, tid: nat)
    requires Inv(s) && Enabled(s, CommitTx(tid))
    ensures var tx := s.txs[tid];
      && (Commit(s.db, tx.phase.w) == Exec(s.db, tx.command).state <==> WriteFresh(s.db.categories, tx))
      && (WriteFresh(s.db.categories, tx) ==>
         Exec(s.db, tx.command) == Outcome(Commit(s.db, tx.phase.w), Ok(ReplyTo(s.db, tx.phase.w))))
  {
    assert TxOk(s.db.products, s.nextProduct, s.txs[tid]);
    match s.txs[tid].command
    case CreateProduct(_, _, _) => CreateCommit(s, tid);
    case UpdateProduct(_) => EditCommit(s, tid);
    case Transition(_) => TransitionCommit(s, tid);
  }

  lemma AnswerExactly(s: Sys, tid: nat)
    requires Inv(s) && Enabled(s, CommitTx(tid))
    ensures var tx := s.txs[tid];
      ProductReply(tx.phase.shown) == ReplyTo(s.db, tx.phase.w) <==> AnswerFresh(s.db.categories, tx)
  {
    assert TxOk(s.db.products, s.nextProduct, s.txs[tid]);
  }

  /** What a commit leaves and answers. */
  ghost function CommitOutcome(s: Sys, tid: nat): Outcome
    requires Enabled(s, CommitTx(tid))
  {
    Outcome(DoCommit(s, tid).db, Ok(ProductReply(s.txs[tid].phase.shown)))
  }

  /** A commit leaves the rows and the log of the atomic command exactly when the
      categories its row and audit row were made from are unchanged, and then
      answers as the atomic command exactly when the category it read back is. */
  lemma CommitIsAtomicExactly(s: Sys, tid: nat)
    requires Inv(s) && Enabled(s, CommitTx(tid))
    ensures var tx := s.txs[tid];
      && (DoCommit(s, tid).db == Exec(s.db, tx.command).state <==> WriteFresh(s.db.categories, tx))
      && (CommitOutcome(s, tid) == Exec(s.db, tx.command) <==> CategoryFresh(s.db.categories, tx))
  {
    WriteCommit(s, tid);
    AnswerExactly(s, tid);
  }

  /** A rename between a lifecycle command's read-back and its commit: the rows and
      the log are right and the answer shows the name the category had. */
  lemma RenameAfterReadBack(s: Sys, tid: nat, input: CategoryInput, now: int)
    requires Inv(s) && Enabled(s, CommitTx(tid)) && s.txs[tid].command.Transition?
    requires CategoryFresh(s.db.categories, s.txs[tid]) && s.txs[tid].phase.w.row.category.Some?
    requires var id := s.txs[tid].phase.w.row.category.value;
      CategoryFree(s, id) && Exec(s.db, UpdateCategory(id, input)).result.Ok? && s.db.categories[id].name != input.name
    ensures var s' := Step(s, CategoryCommand(UpdateCategory(s.txs[tid].phase.w.row.category.value, input), now));
      && Enabled(s', CommitTx(tid))
      && Step(s', CommitTx(tid)).db == Exec(s'.db, s.txs[tid].command).state
      && Step(s', CommitTx(tid)).answers == s'.answers + [Ok(ProductReply(s.txs[tid].phase.shown))]
      && Exec(s'.db, s.txs[tid].command).result != Ok(ProductReply(s.txs[tid].phase.shown))
  {
    var id := s.txs[tid].phase.w.row.category.value;
    var e := CategoryCommand(UpdateCategory(id, input), now);
    StepKeepsInv(s, e);
    var s' := Step(s, e);
    assert TxOk(s.db.products, s.nextProduct, s.txs[tid]);
    assert s'.txs == s.txs && s'.db.categories[id].name == input.name;
    CommitIsAtomicExactly(s', tid);
  }

  /** The condition can fail: a category created between an edit's UPDATE and its
      commit makes the commit another write than the edit run at that instant. */
  lemma LateCategoryBreaksAtomicity(s: Sys, tid: nat, newId: nat, input: CategoryInput, now: int)
    requires Inv(s) && Enabled(s, CommitTx(tid)) && s.txs[tid].command.UpdateProduct?
    requires CategoryFresh(s.db.categories, s.txs[tid])
    requires s.txs[tid].command.update.category == input.name
    requires Resolve(s.db.categories, input.name) == None
    requires Exec(s.db, CreateCategory(newId, input)).result.Ok?
    ensures var s' := Step(s, CategoryCommand(CreateCategory(newId, input), now));
      Enabled(s', CommitTx(tid)) && Step(s', CommitTx(tid)).db != Exec(s'.db, s.txs[tid].command).state
  {
    var e := CategoryCommand(CreateCategory(newId, input), now);
    StepKeepsInv(s, e);
    var s' := Step(s, e);
    assert TxOk(s.db.products, s.nextProduct, s.txs[tid]);
    assert s'.txs == s.txs && s'.db.categories[newId].name == input.name;
    CommitIsAtomicExactly(s', tid);
  }

  // ------------------------------------------------------------- refusals

  lemma LockRefusal(s: Sys, tid: nat)
    requires Inv(s) && Enabled(s, Lock(tid)) && tid !in DoLock(s, tid).txs
    ensures Exec(s.db, s.txs[tid].command) == Refused(s.db, NotFound)
  {
  }

  lemma CheckRefusal(s: Sys, tid: nat)
    requires Inv(s) && Enabled(s, Check(tid)) && tid !in DoCheck(s, tid).txs
    ensures DoCheck(s, tid).answers == s.answers + [Exec(s.db, s.txs[tid].command).result]
    ensures Exec(s.db, s.txs[tid].command).state == s.db
  {
    assert TxOk(s.db.products, s.nextProduct, s.txs[tid]);
  }

  lemma ApplyRefusal(s: Sys, tid: nat, e: DomainError)
    requires Inv(s) && Enabled(s, Apply(tid)) && Statement(s, s.txs[tid]) == Err(e)
    ensures Exec(s.db, Identified(s, s.txs[tid].command)) == Refused(s.db, e)
  {
    var tx := s.txs[tid];
    assert TxOk(s.db.products, s.nextProduct, tx);
    if tx.command.UpdateProduct? { LockedRowIsMatched(s, tid); }
  }

  lemma AuditRefusal(s: Sys, tid: nat)
    requires Inv(s) && Enabled(s, Audit(tid)) && !AuditFits(s.txs[tid].phase.w.entry)
    ensures Exec(s.db, s.txs[tid].command) == Refused(s.db, Internal)
  {
    var tx := s.txs[tid];
    assert TxOk(s.db.products, s.nextProduct, tx);
    match tx.command
    case CreateProduct(_, _, input) => assert !NameTaken(s.db.products, input.name, None);
    case UpdateProduct(_) =>
    case Transition(_) =>
  }

  // ------------------------------------------------------------ whole runs

  /** The answered commands, run one at a time, give this database and these answers. */
  ghost predicate Linear(db0: State, s: Sys) {
    && s.db == Run(db0, s.history)
    && |s.answers| == |s.history|
    && forall i | 0 <= i < |s.history| :: s.answers[i] == Exec(Run(db0, s.history[..i]), s.history[i]).result
  }

  lemma AnswerKeepsLinear(db0: State, s: Sys, s': Sys, c: Command)
    requires Linear(db0, s)
    requires s'.history == s.history + [c] && s'.db == Exec(s.db, c).state
             && s'.answers == s.answers + [Exec(s.db, c).result]
    ensures Linear(db0, s')
  {
    var n := |s.history|;
    assert s'.history[..n] == s.history;
    forall i | 0 <= i < |s'.history|
      ensures s'.answers[i] == Exec(Run(db0, s'.history[..i]), s'.history[i]).result
    {
      if i < n { assert s'.history[..i] == s.history[..i]; }
    }
  }

  /** No category command runs while a transaction may have read the categories. */
  predicate Quiet(s: Sys, e: Event) {
    e.CategoryCommand? ==> forall t | t in s.txs :: s.txs[t].phase == Begun
  }

  ghost predicate AllFresh(s: Sys) {
    forall t | t in s.txs :: CategoryFresh(s.db.categories, s.txs[t])
  }

  lemma ApplyKeepsFresh(s: Sys, tid: nat)
    requires Inv(s) && AllFresh(s) && Enabled(s, Apply(tid))
    ensures AllFresh(DoApply(s, tid))
  {
    assert TxOk(s.db.products, s.nextProduct, s.txs[tid]);
  }

  lemma LockKeepsFresh(s: Sys, tid: nat)
    requires Inv(s) && AllFresh(s) && Enabled(s, Lock(tid))
    ensures AllFresh(DoLock(s, tid))
  {
  }

  lemma CommitKeepsFresh(s: Sys, tid: nat)
    requires AllFresh(s) && Enabled(s, CommitTx(tid)) && s.txs[tid].phase.w.ProductWrite?
    ensures AllFresh(DoCommit(s, tid))
  {
    assert DoCommit(s, tid).db.categories == s.db.categories;
  }

  /** The steps that take nothing from the categories, or take the name just now. */
  lemma RestKeepsFresh(s: Sys, e: Event)
    requires Inv(s) && AllFresh(s) && Enabled(s, e) && Quiet(s, e)
    requires e.Begin? || e.Check? || e.Audit? || e.ReadBack? || e.Abort? || e.CommitTx?
    ensures AllFresh(Step(s, e))
  {
    if e.CommitTx? {
      assert TxOk(s.db.products, s.nextProduct, s.txs[e.tid]);
      CommitKeepsFresh(s, e.tid);
    }
  }

  lemma QuietCategoryKeepsFresh(s: Sys, e: Event)
    requires Inv(s) && Enabled(s, e) && Quiet(s, e) && e.CategoryCommand?
    ensures AllFresh(Step(s, e))
  {
    assert Step(s, e).txs == s.txs;
  }

  lemma StepKeepsFresh(s: Sys, e: Event)
    requires Inv(s) && AllFresh(s) && Enabled(s, e) && Quiet(s, e)
    ensures AllFresh(Step(s, e))
  {
    match e
    case Lock(tid) => LockKeepsFresh(s, tid);
    case Apply(tid) => ApplyKeepsFresh(s, tid);
    case CategoryCommand(_, _) => QuietCategoryKeepsFresh(s, e);
    case _ => RestKeepsFresh(s, e);
  }

  /** A commit finds the categories as its transaction read them. */
  ghost predicate Fresh(s: Sys, e: Event) {
    e.CommitTx? && e.tid in s.txs ==> CategoryFresh(s.db.categories, s.txs[e.tid])
  }

  lemma StepKeepsLinear(db0: State, s: Sys, e: Event)
    requires Inv(s) && Linear(db0, s) && Enabled(s, e) && Fresh(s, e)
    ensures Linear(db0, Step(s, e))
  {
    var s' := Step(s, e);
    match e
    case Begin(_, _, _) =>
    case Lock(tid) =>
      if tid !in s'.txs {
        LockRefusal(s, tid);
        AnswerKeepsLinear(db0, s, s', s.txs[tid].command);
      }
    case Check(tid) =>
      if tid !in s'.txs {
        CheckRefusal(s, tid);
        AnswerKeepsLinear(db0, s, s', s.txs[tid].command);
      }
    case Apply(tid) =>
      if Statement(s, s.txs[tid]).Err? {
        ApplyRefusal(s, tid, Statement(s, s.txs[tid]).error);
        AnswerKeepsLinear(db0, s, s', Identified(s, s.txs[tid].command));
      }
    case Audit(tid) =>
      if !AuditFits(s.txs[tid].phase.w.entry) {
        AuditRefusal(s, tid);
        AnswerKeepsLinear(db0, s, s', s.txs[tid].command);
      }
    case ReadBack(_) =>
    case CommitTx(tid) =>
      CommitIsAtomicExactly(s, tid);
      AnswerKeepsLinear(db0, s, s', s.txs[tid].command);
    case Abort(_) =>
    case CategoryCommand(c, _) =>
      AnswerKeepsLinear(db0, s, s', c);
  }

  lemma StaleCommitIsNotLinear(db0: State, s: Sys, e: Event)
    requires Inv(s) && Linear(db0, s) && Enabled(s, e) && !Fresh(s, e)
    ensures !Linear(db0, Step(s, e))
  {
    var s', c := Step(s, e), s.txs[e.tid].command;
    CommitIsAtomicExactly(s, e.tid);
    assert s'.history == s.history + [c];
    assert s'.history[..|s.history|] == s.history;
  }

  ghost function RunTrace(s: Sys, es: seq<Event>): Sys
    requires Legal(s, es)
    decreases |es|, 1
  {
    if es == [] then s else Step(RunTrace(s, es[..|es| - 1]), es[|es| - 1])
  }

  ghost predicate Legal(s: Sys, es: seq<Event>)
    decreases |es|, 0
  {
    es == [] || (Legal(s, es[..|es| - 1]) && Enabled(RunTrace(s, es[..|es| - 1]), es[|es| - 1]))
  }

  ghost predicate QuietTrace(s: Sys, es: seq<Event>)
    requires Legal(s, es)
    decreases |es|
  {
    es == [] || (QuietTrace(s, es[..|es| - 1]) && Quiet(RunTrace(s, es[..|es| - 1]), es[|es| - 1]))
  }

  /** The service with no transaction in flight. */
  ghost predicate Initial(s: Sys) {
    Inv(s) && s.txs == map[] && s.history == [] && s.answers == []
  }

  ghost predicate FreshTrace(s: Sys, es: seq<Event>)
    requires Legal(s, es)
    decreases |es|
  {
    es == [] || (FreshTrace(s, es[..|es| - 1]) && Fresh(RunTrace(s, es[..|es| - 1]), es[|es| - 1]))
  }

  ghost predicate LinearThroughout(s: Sys, es: seq<Event>)
    requires Legal(s, es)
    decreases |es|
  {
    Linear(s.db, RunTrace(s, es)) && (es == [] || LinearThroughout(s, es[..|es| - 1]))
  }

  /** An interleaving is linearizable at every instant - its rows, its audit log and
      every answer, refusals included, are those of running the answered commands
      one after the other - exactly when every commit finds the categories as its
      transaction read them. */
  lemma {:induction false} LinearizableExactly(s: Sys, es: seq<Event>)
    requires Initial(s) && Legal(s, es)
    ensures Inv(RunTrace(s, es))
    ensures LinearThroughout(s, es) <==> FreshTrace(s, es)
    decreases |es|
  {
    if es != [] {
      var es' := es[..|es| - 1];
      LinearizableExactly(s, es');
      var mid, e := RunTrace(s, es'), es[|es| - 1];
      StepKeepsInv(mid, e);
      if FreshTrace(s, es') {
        if Fresh(mid, e) {
          StepKeepsLinear(s.db, mid, e);
        } else {
          StaleCommitIsNotLinear(s.db, mid, e);
        }
      }
    }
  }

  /** So with no category command while a transaction may have read the categories,
      every interleaving of product transactions is linearizable. */
  lemma {:induction false} InterleavingIsLinearizable(s: Sys, es: seq<Event>)
    requires Initial(s) && Legal(s, es) && QuietTrace(s, es)
    ensures FreshTrace(s, es) && AllFresh(RunTrace(s, es)) && Linear(s.db, RunTrace(s, es))
    decreases |es|
  {
    LinearizableExactly(s, es);
    if es != [] {
      var es' := es[..|es| - 1];
      InterleavingIsLinearizable(s, es');
      LinearizableExactly(s, es');
      StepKeepsFresh(RunTrace(s, es'), es[|es| - 1]);
    }
  }
}
