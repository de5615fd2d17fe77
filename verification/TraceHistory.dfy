/** What versions and audit rows mean over every interleaving of transactions, a
    category changing under them or not: the results of History, of the rows as
    they commit and the answers as they are given. */
module TraceHistory {
  import opened Domain
  import opened Catalog
  import opened AuditReplay
  import opened Transactions
  import opened Linearizability
  import opened History

  // ------------------------------------------------------------- one commit

  /** The write of a finished transaction against the row as it is at the commit. */
  lemma CommitWrites(s: Sys, tid: nat)
    requires Inv(s) && Enabled(s, CommitTx(tid))
    ensures var c, w := s.txs[tid].command, s.txs[tid].phase.w;
      && w.ProductWrite? && WrittenRow(c) == ProductTarget(w.id) == w.entry.target
      && (w.id in s.db.products ==> w.row.version == s.db.products[w.id].version + 1)
      && (c.UpdateProduct? ==>
         w.id == c.update.id && w.id in s.db.products && s.db.products[w.id].version == c.update.expectedVersion)
  {
    assert TxOk(s.db.products, s.nextProduct, s.txs[tid]);
  }

  lemma TxMoves(s: Sys, tid: nat)
    requires Inv(s) && Enabled(s, CommitTx(tid))
    ensures var w := s.txs[tid].phase.w;
      w.ProductWrite? && History.Move(PositionOf(s.db, w.id), w.entry) == Some(At(w.row.status, w.row.version))
  {
    var tx := s.txs[tid];
    assert TxOk(s.db.products, s.nextProduct, tx);
    match tx.command
    case CreateProduct(_, _, _) =>
    case UpdateProduct(input) => UpdateMoves(tx.held.value.row, tx.held.value.view, input);
    case Transition(input) =>
      var row := tx.held.value.row;
      var next := NextStatus(row.status, input.step).value;
      FieldsOfStored(TransitionEntry(row, next, input), TransitionChanges(row.status, next));
  }

  // ------------------------------------------------------- version identity

  lemma DbStill(s: Sys, e: Event)
    requires Enabled(s, e) && !e.CommitTx? && !e.CategoryCommand?
    ensures Step(s, e).db == s.db
  {
  }

  lemma RowStepsOnce(s: Sys, e: Event, id: nat)
    requires Inv(s) && Enabled(s, e) && id in s.db.products
    ensures var db' := Step(s, e).db;
      id in db'.products && (db'.products[id] == s.db.products[id]
          || db'.products[id].version == s.db.products[id].version + 1)
  {
    if e.CommitTx? {
      CommitWrites(s, e.tid);
    } else if e.CategoryCommand? {
      CategoryCommandFrames(s.db, e.command);
    } else {
      DbStill(s, e);
    }
  }

  lemma {:induction false} LegalPrefix(s: Sys, es: seq<Event>, i: nat)
    requires Legal(s, es) && i <= |es|
    ensures Legal(s, es[..i])
    decreases |es|
  {
    if i == |es| {
      assert es[..i] == es;
    } else {
      LegalPrefix(s, es[..|es| - 1], i);
      assert es[..|es| - 1][..i] == es[..i];
    }
  }

  lemma {:induction false} TraceInv(s: Sys, es: seq<Event>)
    requires Inv(s) && Legal(s, es)
    ensures Inv(RunTrace(s, es))
    decreases |es|
  {
    if es != [] {
      TraceInv(s, es[..|es| - 1]);
      StepKeepsInv(RunTrace(s, es[..|es| - 1]), es[|es| - 1]);
    }
  }

  /** Over any interleaving, two instants at which a product has the same version
      agree on its whole row. */
  lemma {:induction false} TraceVersionNamesOneRow(s: Sys, es: seq<Event>, i: nat, id: nat)
    requires Inv(s) && Legal(s, es) && i <= |es| && Legal(s, es[..i]) && id in RunTrace(s, es[..i]).db.products
    ensures var was, now := RunTrace(s, es[..i]).db.products, RunTrace(s, es).db.products;
      && id in now && now[id].version >= was[id].version
      && (now[id].version == was[id].version ==> now[id] == was[id])
    decreases |es|
  {
    if i == |es| {
      assert es[..i] == es;
    } else {
      var es' := es[..|es| - 1];
      assert es'[..i] == es[..i];
      TraceVersionNamesOneRow(s, es', i, id);
      TraceInv(s, es');
      RowStepsOnce(RunTrace(s, es'), es[|es| - 1], id);
    }
  }

  // --------------------------------------------------- one edit per version

  /** The version an accepted edit named has been left behind. */
  predicate Spent(products: map<nat, Product>, c: Command, r: Result<Reply>) {
    c.UpdateProduct? && r.Ok? ==> c.update.id in products && products[c.update.id].version > c.update.expectedVersion
  }

  predicate SameToken(a: Command, b: Command) {
    a.UpdateProduct? && b.UpdateProduct? && a.update.id == b.update.id
        && a.update.expectedVersion == b.update.expectedVersion
  }

  ghost predicate OncePerToken(s: Sys) {
    && |s.answers| == |s.history|
    && (forall i | 0 <= i < |s.history| :: Spent(s.db.products, s.history[i], s.answers[i]))
    && (forall i, j | 0 <= i < j < |s.history| && SameToken(s.history[i], s.history[j]) && s.answers[i].Ok? ::
          s.answers[j] == Err(VersionConflict))
  }

  predicate IsBehind(s: Sys, c: Command) {
    && c.UpdateProduct? && c.update.id in s.db.products
    && s.db.products[c.update.id].version > c.update.expectedVersion
  }

  /** An answer given at a step: to an edit whose version is behind it is a conflict. */
  ghost predicate AnswersWell(s: Sys, s': Sys, c: Command, r: Result<Reply>) {
    && s'.history == s.history + [c] && s'.answers == s.answers + [r]
    && Spent(s'.db.products, c, r)
    && (IsBehind(s, c) ==> r == Err(VersionConflict))
  }

  ghost predicate AnswersNothing(s: Sys, s': Sys) { s'.history == s.history && s'.answers == s.answers }

  lemma LockAnswers(s: Sys, tid: nat)
    requires Inv(s) && Enabled(s, Lock(tid))
    ensures var s' := DoLock(s, tid);
      AnswersNothing(s, s') || AnswersWell(s, s', s.txs[tid].command, Err(NotFound))
  {
  }

  lemma CheckAnswers(s: Sys, tid: nat)
    requires Inv(s) && Enabled(s, Check(tid))
    ensures var s' := DoCheck(s, tid);
      AnswersNothing(s, s') || exists error :: AnswersWell(s, s', s.txs[tid].command, Err(error))
  {
    var tx, s' := s.txs[tid], DoCheck(s, tid);
    assert TxOk(s.db.products, s.nextProduct, tx);
    var refused := CheckHeld(tx.held.value, tx.command);
    if refused.Some? { assert AnswersWell(s, s', tx.command, Err(refused.value)); }
  }

  /** Past its check, an edit's version is the row's. */
  lemma CheckedIsCurrent(s: Sys, tid: nat)
    requires Inv(s) && tid in s.txs && s.txs[tid].command.UpdateProduct?
             && (s.txs[tid].phase.Checked? || Pending(s.txs[tid]))
    ensures var input := s.txs[tid].command.update;
      input.id in s.db.products && s.db.products[input.id].version == input.expectedVersion
  {
    assert TxOk(s.db.products, s.nextProduct, s.txs[tid]);
  }

  lemma ApplyAnswers(s: Sys, tid: nat)
    requires Inv(s) && Enabled(s, Apply(tid))
    ensures var s' := DoApply(s, tid);
      AnswersNothing(s, s') || exists error :: AnswersWell(s, s', Identified(s, s.txs[tid].command), Err(error))
  {
    var tx, s' := s.txs[tid], DoApply(s, tid);
    if tx.command.UpdateProduct? { CheckedIsCurrent(s, tid); }
    var statement := Statement(s, tx);
    if statement.Err? { assert AnswersWell(s, s', Identified(s, tx.command), Err(statement.error)); }
  }

  lemma AuditAnswers(s: Sys, tid: nat)
    requires Inv(s) && Enabled(s, Audit(tid))
    ensures var s' := DoAudit(s, tid);
      AnswersNothing(s, s') || AnswersWell(s, s', s.txs[tid].command, Err(Internal))
  {
    if s.txs[tid].command.UpdateProduct? { CheckedIsCurrent(s, tid); }
  }

  lemma CommitAnswers(s: Sys, tid: nat)
    requires Inv(s) && Enabled(s, CommitTx(tid))
    ensures AnswersWell(s, DoCommit(s, tid), s.txs[tid].command, Ok(ProductReply(s.txs[tid].phase.shown)))
  {
    CommitWrites(s, tid);
  }

  lemma StepAnswers(s: Sys, e: Event)
    requires Inv(s) && Enabled(s, e)
    ensures AnswersNothing(s, Step(s, e)) || exists c, r :: AnswersWell(s, Step(s, e), c, r)
  {
    match e
    case Begin(_, _, _) =>
    case Lock(tid) => LockAnswers(s, tid);
    case Check(tid) => CheckAnswers(s, tid);
    case Apply(tid) => ApplyAnswers(s, tid);
    case Audit(tid) => AuditAnswers(s, tid);
    case ReadBack(_) =>
    case CommitTx(tid) => CommitAnswers(s, tid);
    case Abort(_) =>
    case CategoryCommand(c, _) => assert AnswersWell(s, Step(s, e), c, Exec(s.db, c).result);
  }

  lemma AnswerKeepsOnce(s: Sys, s': Sys, c: Command, r: Result<Reply>)
    requires OncePerToken(s) && AnswersWell(s, s', c, r)
    requires forall id | id in s.db.products ::
             id in s'.db.products && s'.db.products[id].version >= s.db.products[id].version
    ensures OncePerToken(s')
  {
    forall i | 0 <= i < |s'.history|
      ensures Spent(s'.db.products, s'.history[i], s'.answers[i])
    {
      if i < |s.history| { assert Spent(s.db.products, s.history[i], s.answers[i]); }
    }
    forall i, j | 0 <= i < j < |s'.history| && SameToken(s'.history[i], s'.history[j]) && s'.answers[i].Ok?
      ensures s'.answers[j] == Err(VersionConflict)
    {
      assert Spent(s.db.products, s.history[i], s.answers[i]);
    }
  }

  lemma SilentKeepsOnce(s: Sys, s': Sys)
    requires OncePerToken(s) && AnswersNothing(s, s')
    requires forall id | id in s.db.products ::
             id in s'.db.products && s'.db.products[id].version >= s.db.products[id].version
    ensures OncePerToken(s')
  {
    forall i | 0 <= i < |s'.history|
      ensures Spent(s'.db.products, s'.history[i], s'.answers[i])
    {
      assert Spent(s.db.products, s.history[i], s.answers[i]);
    }
  }

  /** Over any interleaving, of all edits of one product that carry the same version
      at most one is accepted, and those answered after it get a version conflict. */
  lemma {:induction false} TraceOneEditPerVersion(s: Sys, es: seq<Event>)
    requires Initial(s) && Legal(s, es)
    ensures OncePerToken(RunTrace(s, es))
    decreases |es|
  {
    if es != [] {
      var mid, e := RunTrace(s, es[..|es| - 1]), es[|es| - 1];
      TraceOneEditPerVersion(s, es[..|es| - 1]);
      TraceInv(s, es[..|es| - 1]);
      OnceStep(mid, e, Step(mid, e));
    }
  }

  lemma OnceStep(s: Sys, e: Event, s': Sys)
    requires Inv(s) && Enabled(s, e) && s' == Step(s, e) && OncePerToken(s)
    ensures OncePerToken(s')
  {
    forall id | id in s.db.products
      ensures id in s'.db.products && s'.db.products[id].version >= s.db.products[id].version
    {
      RowStepsOnce(s, e, id);
    }
    StepAnswers(s, e);
    if AnswersNothing(s, s') {
      SilentKeepsOnce(s, s');
    } else {
      var c, r :| AnswersWell(s, s', c, r);
      AnswerKeepsOnce(s, s', c, r);
    }
  }

  // --------------------------------------------------------- lifecycle path

  lemma CategoryMovesNothing(db: State, c: Command, id: nat)
    requires c.CreateCategory? || c.UpdateCategory?
    ensures PositionOf(Exec(db, c).state, id) == PositionOf(db, id)
    ensures Exec(db, c).result.Ok? ==>
      |Exec(db, c).state.audit| == |db.audit| + 1 && Exec(db, c).state.audit[..|db.audit|] == db.audit
      && Exec(db, c).state.audit[|db.audit|].target != ProductTarget(id)
    ensures Exec(db, c).result.Err? ==> Exec(db, c).state == db
  {
    AllOrNothing(db, c);
    CategoryCommandFrames(db, c);
  }

  /** A step leaves the log, or appends one row and moves the product it is about
      by it. */
  ghost predicate LogMoves(db: State, db': State, id: nat) {
    || (db'.audit == db.audit && PositionOf(db', id) == PositionOf(db, id))
    || (&& |db'.audit| == |db.audit| + 1 && db'.audit[..|db.audit|] == db.audit
        && var row := db'.audit[|db.audit|];
           if row.target == ProductTarget(id) then History.Move(PositionOf(db, id), row) == Some(PositionOf(db', id))
           else PositionOf(db', id) == PositionOf(db, id))
  }

  lemma StepMovesLog(s: Sys, e: Event, id: nat)
    requires Inv(s) && Enabled(s, e)
    ensures LogMoves(s.db, Step(s, e).db, id)
  {
    if e.CommitTx? {
      CommitWrites(s, e.tid);
      TxMoves(s, e.tid);
    } else if e.CategoryCommand? {
      CategoryMovesNothing(s.db, e.command, id);
    } else {
      DbStill(s, e);
    }
  }

  lemma WalkOn(first: State, db: State, db': State, id: nat)
    requires |first.audit| <= |db.audit| && LogMoves(db, db', id)
    requires Walk(PositionOf(first, id), AuditSince(first, db), id) == Some(PositionOf(db, id))
    ensures |first.audit| <= |db'.audit|
            && Walk(PositionOf(first, id), AuditSince(first, db'), id) == Some(PositionOf(db', id))
  {
    if db'.audit != db.audit {
      AuditSinceGrows(first, db, db');
      assert AuditSince(first, db')[..|AuditSince(first, db')| - 1] == AuditSince(first, db);
    }
  }

  /** Over any interleaving, a product's audit rows form one path of the lifecycle
      table in commit order, with version pairs that chain without a gap; so the
      counts of LifecycleCounts hold of it. */
  lemma {:induction false} TraceAuditIsLifecyclePath(s: Sys, es: seq<Event>, id: nat)
    requires Inv(s) && Legal(s, es)
    ensures var end := RunTrace(s, es);
      |s.db.audit| <= |end.db.audit|
      && Walk(PositionOf(s.db, id), AuditSince(s.db, end.db), id) == Some(PositionOf(end.db, id))
    decreases |es|
  {
    if es == [] {
      assert AuditSince(s.db, s.db) == [];
    } else {
      var mid, e := RunTrace(s, es[..|es| - 1]), es[|es| - 1];
      TraceAuditIsLifecyclePath(s, es[..|es| - 1], id);
      TraceInv(s, es[..|es| - 1]);
      StepMovesLog(mid, e, id);
      WalkOn(s.db, mid.db, Step(mid, e).db, id);
    }
  }

  lemma TraceLifecycleCounts(s: Sys, es: seq<Event>, id: nat)
    requires Inv(s) && Legal(s, es)
    ensures var end := RunTrace(s, es);
      |s.db.audit| <= |end.db.audit|
      && var log, p, q := AuditSince(s.db, end.db), PositionOf(s.db, id), PositionOf(end.db, id);
         && CountStep(log, id, Publish) <= 1
         && CountStep(log, id, Archive) - CountStep(log, id, Restore) == IsArchived(q) - IsArchived(p)
         && VersionOf(q) - VersionOf(p) == CountRows(log, id)
  {
    TraceAuditIsLifecyclePath(s, es, id);
    PathCounts(PositionOf(s.db, id), AuditSince(s.db, RunTrace(s, es).db), id);
  }
}
