/** When the audit log tells the tables over an interleaving: the results of
    AuditReplay, where a category can move between what a transaction read and
    its commit. */
module TraceReplay {
  import opened Domain
  import opened Catalog
  import opened AuditReplay
  import opened Transactions
  import opened Linearizability
  import opened TraceHistory

  /** The category name a reader of the log ends up with for a finished write, given
      the name it had for the row before. */
  function ToldCategory(tx: Tx, known: string): string {
    match tx.command
    case CreateProduct(_, _, input) => input.category
    case UpdateProduct(input) =>
      if tx.held.Some? && tx.held.value.view.category != input.category then input.category else known
    case _ => known
  }

  function PriceSaid(c: Command): Option<real> {
    match c
    case CreateProduct(_, _, input) => Some(input.price)
    case UpdateProduct(input) => Some(input.price)
    case _ => None
  }

  /** The audit row of a transaction about to commit says what its row will show: a
      price of at most two decimals, and a category name that is the written row's
      now, whether or not it was when the transaction looked. */
  ghost predicate TxTells(s: Sys, tid: nat)
    requires Enabled(s, CommitTx(tid))
  {
    var tx, w := s.txs[tid], s.txs[tid].phase.w;
    && (PriceSaid(tx.command).Some? ==> TwoDecimal(PriceSaid(tx.command).value))
    && (w.ProductWrite? ==>
          var known := if tx.held.Some? then CategoryName(s.db.categories, tx.held.value.row.category) else "";
          CategoryName(s.db.categories, w.row.category) == ToldCategory(tx, known))
  }

  ghost predicate EventTells(s: Sys, e: Event)
    requires Enabled(s, e)
  {
    e.CommitTx? ==> TxTells(s, e.tid)
  }

  // ------------------------------------------------------------- one commit

  lemma CreateTells(r: Replica, s: Sys, tid: nat)
    requires Inv(s) && Matches(r, s.db) && Enabled(s, CommitTx(tid)) && s.txs[tid].command.CreateProduct?
    ensures var w := s.txs[tid].phase.w;
      Matches(AuditReplay.Apply(r, w.entry), Commit(s.db, w)) <==> TxTells(s, tid)
  {
    var tx := s.txs[tid];
    assert TxOk(s.db.products, s.nextProduct, tx);
    var c, w := tx.command, tx.phase.w;
    FieldsOfStored(w.entry, CreateChanges(c.product));
    var k := KnownProduct(c.product.name, c.product.price, c.product.category, Draft, 1, None);
    assert AuditReplay.Apply(r, w.entry) == Replica(r.products[w.id := k], r.categories);
    WriteMatches(r, s.db, w.id, k, w.row, w.entry);
  }

  lemma EditTells(r: Replica, s: Sys, tid: nat)
    requires Inv(s) && Matches(r, s.db) && Enabled(s, CommitTx(tid)) && s.txs[tid].command.UpdateProduct?
    ensures var w := s.txs[tid].phase.w;
      Matches(AuditReplay.Apply(r, w.entry), Commit(s.db, w)) <==> TxTells(s, tid)
  {
    var tx := s.txs[tid];
    assert TxOk(s.db.products, s.nextProduct, tx);
    var input, held, w := tx.command.update, tx.held.value, tx.phase.w;
    assert Describes(r.products[input.id], s.db.categories, held.row);
    var k' := ReadUpdate(r, held.view, input);
    WriteMatches(r, s.db, w.id, k', w.row, w.entry);
  }

  lemma StepTells(r: Replica, s: Sys, tid: nat)
    requires Inv(s) && Matches(r, s.db) && Enabled(s, CommitTx(tid)) && s.txs[tid].command.Transition?
    ensures var w := s.txs[tid].phase.w;
      Matches(AuditReplay.Apply(r, w.entry), Commit(s.db, w)) && TxTells(s, tid)
  {
    var tx := s.txs[tid];
    assert TxOk(s.db.products, s.nextProduct, tx);
    var input, row := tx.command.transition, tx.held.value.row;
    TransitionReplay(r, s.db, input, NextStatus(row.status, input.step).value);
  }

  /** A commit leaves a reader of the log with the tables exactly when its audit row
      says what its row shows. */
  lemma CommitTellsExactly(r: Replica, s: Sys, tid: nat)
    requires Inv(s) && Matches(r, s.db) && Enabled(s, CommitTx(tid))
    ensures var w := s.txs[tid].phase.w;
      Matches(AuditReplay.Apply(r, w.entry), Commit(s.db, w)) <==> TxTells(s, tid)
  {
    assert TxOk(s.db.products, s.nextProduct, s.txs[tid]);
    match s.txs[tid].command
    case CreateProduct(_, _, _) => CreateTells(r, s, tid);
    case UpdateProduct(_) => EditTells(r, s, tid);
    case Transition(_) => StepTells(r, s, tid);
  }

  // -------------------------------------------------------------- whole runs

  lemma AppendTells(first: State, db: State, db': State, row: AuditRow)
    requires Tells(first, db) && db'.audit == db.audit + [row]
    ensures Tells(first, db') <==> Matches(AuditReplay.Apply(Replay(Snapshot(first), AuditSince(first, db)), row), db')
  {
    AuditSinceGrows(first, db, db');
    assert AuditSince(first, db')[..|AuditSince(first, db')| - 1] == AuditSince(first, db);
  }

  lemma CommitEventTells(first: State, s: Sys, tid: nat)
    requires Inv(s) && Tells(first, s.db) && Enabled(s, CommitTx(tid))
    ensures Tells(first, DoCommit(s, tid).db) <==> TxTells(s, tid)
  {
    var w := s.txs[tid].phase.w;
    AppendTells(first, s.db, Commit(s.db, w), w.entry);
    CommitTellsExactly(Replay(Snapshot(first), AuditSince(first, s.db)), s, tid);
  }

  lemma CategoryEventTells(first: State, db: State, c: Command)
    requires Valid(db) && NoBlankCategory(db) && Tells(first, db) && (c.CreateCategory? || c.UpdateCategory?)
    ensures Tells(first, Exec(db, c).state)
  {
    if Exec(db, c).result.Ok? {
      CommittedEntry(db, c);
      var w := Decide(db, c).value;
      AppendTells(first, db, Commit(db, w), w.entry);
      CategoryReplay(Replay(Snapshot(first), AuditSince(first, db)), db, c, w);
    } else {
      AllOrNothing(db, c);
    }
  }

  lemma EventTellsExactly(first: State, s: Sys, e: Event)
    requires Inv(s) && NoBlankCategory(s.db) && Tells(first, s.db) && Enabled(s, e)
    ensures Tells(first, Step(s, e).db) <==> EventTells(s, e)
  {
    if e.CommitTx? {
      CommitEventTells(first, s, e.tid);
    } else if e.CategoryCommand? {
      CategoryEventTells(first, s.db, e.command);
    } else {
      DbStill(s, e);
    }
  }

  lemma NoBlankEvent(s: Sys, e: Event)
    requires Inv(s) && NoBlankCategory(s.db) && Enabled(s, e) && (e.CategoryCommand? ==> NamesCategory(e.command))
    ensures NoBlankCategory(Step(s, e).db)
  {
    if e.CommitTx? {
      CommitWrites(s, e.tid);
    } else if e.CategoryCommand? {
      NoBlankStep(s.db, e.command);
    } else {
      DbStill(s, e);
    }
  }

  ghost predicate TracesTell(s: Sys, es: seq<Event>)
    requires Legal(s, es)
    decreases |es|
  {
    es == [] || (TracesTell(s, es[..|es| - 1]) && EventTells(RunTrace(s, es[..|es| - 1]), es[|es| - 1]))
  }

  ghost predicate ToldThroughout(s: Sys, es: seq<Event>)
    requires Legal(s, es)
    decreases |es|
  {
    Tells(s.db, RunTrace(s, es).db) && (es == [] || ToldThroughout(s, es[..|es| - 1]))
  }

  /** Over every interleaving, the log tells the tables at every instant exactly when
      the audit row of every commit says what the committed row then shows. */
  lemma {:induction false} TraceReplayExactly(s: Sys, es: seq<Event>)
    requires Inv(s) && NoBlankCategory(s.db) && Legal(s, es)
    requires forall i | 0 <= i < |es| && es[i].CategoryCommand? :: NamesCategory(es[i].command)
    ensures NoBlankCategory(RunTrace(s, es).db)
    ensures ToldThroughout(s, es) <==> TracesTell(s, es)
    decreases |es|
  {
    if es == [] {
      assert AuditSince(s.db, s.db) == [];
    } else {
      var es' := es[..|es| - 1];
      var mid, e := RunTrace(s, es'), es[|es| - 1];
      TraceReplayExactly(s, es');
      TraceInv(s, es');
      NoBlankEvent(mid, e);
      if ToldThroughout(s, es') { EventTellsExactly(s.db, mid, e); }
    }
  }

  /** A commit that finds the categories as it read them, of a price with at most two
      decimals and a category that exists or is empty, tells; so a log that fails
      to tell either was asked for something a row cannot say or met a change. */
  lemma FreshAndSayableTells(s: Sys, tid: nat)
    requires Inv(s) && NoBlankCategory(s.db) && Enabled(s, CommitTx(tid)) && CategoryFresh(s.db.categories, s.txs[tid])
    requires Faithful(s.db, s.txs[tid].command)
    ensures TxTells(s, tid)
  {
    var tx := s.txs[tid];
    assert TxOk(s.db.products, s.nextProduct, tx);
    match tx.command
    case CreateProduct(_, _, input) => ResolvedName(s.db, input.category);
    case UpdateProduct(input) => ResolvedName(s.db, input.category);
    case Transition(_) =>
  }
}
