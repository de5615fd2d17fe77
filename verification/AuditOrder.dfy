/** In which order a target's audit history reads back (catalog_admin_repository.go,
    ListAudit: ORDER BY created_at DESC, id DESC), against the order in which the
    commands committed. */
module AuditOrder {
  import opened Domain
  import opened Catalog
  import opened Transactions
  import opened Linearizability

  /** Ids are handed out at insertion, under the target's row lock. */
  ghost predicate StampInv(s: Sys) {
    && |s.stamps| == |s.db.audit|
    && (forall i | 0 <= i < |s.stamps| :: s.stamps[i].id < s.nextAudit)
    && (forall i, j | 0 <= i < j < |s.stamps| && s.db.audit[i].target == s.db.audit[j].target ::
       s.stamps[i].id < s.stamps[j].id)
    && (forall t | t in s.txs && Logged(s.txs[t]) ::
       NextInLine(s, s.txs[t].phase.auditId, s.txs[t].phase.w.entry.target))
  }

  ghost predicate NextInLine(s: Sys, auditId: nat, target: Target)
    requires |s.stamps| == |s.db.audit|
  {
    auditId < s.nextAudit && forall i | 0 <= i < |s.stamps| && s.db.audit[i].target == target ::
        s.stamps[i].id < auditId
  }

  lemma AppendKeepsStamps(s: Sys, s': Sys, row: AuditRow, stamp: Stamp)
    requires StampInv(s) && s'.db.audit == s.db.audit + [row] && s'.stamps == s.stamps + [stamp]
    requires s'.nextAudit >= s.nextAudit && stamp.id < s'.nextAudit
    requires forall i | 0 <= i < |s.stamps| && s.db.audit[i].target == row.target :: s.stamps[i].id < stamp.id
    requires forall t | t in s'.txs && Logged(s'.txs[t]) ::
      t in s.txs && s'.txs[t] == s.txs[t] && s.txs[t].phase.w.entry.target != row.target
    ensures StampInv(s')
  {
  }

  lemma CommitKeepsStamps(s: Sys, tid: nat)
    requires Inv(s) && StampInv(s) && Enabled(s, CommitTx(tid))
    ensures StampInv(DoCommit(s, tid))
  {
    var tx := s.txs[tid];
    assert TxOk(s.db.products, s.nextProduct, tx);
    forall t | t in s.txs && t != tid && Logged(s.txs[t])
      ensures s.txs[t].phase.w.entry.target != tx.phase.w.entry.target
    {
      assert TxOk(s.db.products, s.nextProduct, s.txs[t]) && Disjoint(tx, s.txs[t]);
    }
    AppendKeepsStamps(s, DoCommit(s, tid), tx.phase.w.entry, Stamp(tx.phase.auditId, tx.startedAt));
  }

  lemma CategoryKeepsStamps(s: Sys, c: Command, now: int)
    requires Inv(s) && StampInv(s) && (c.CreateCategory? || c.UpdateCategory?)
    ensures StampInv(DoCategory(s, c, now))
  {
    AllOrNothing(s.db, c);
    var s' := DoCategory(s, c, now);
    if Exec(s.db, c).result.Ok? {
      var row := s'.db.audit[|s.db.audit|];
      assert s'.db.audit == s.db.audit + [row];
      forall t | t in s.txs && Logged(s.txs[t])
        ensures s.txs[t].phase.w.entry.target != row.target
      {
        assert TxOk(s.db.products, s.nextProduct, s.txs[t]);
      }
      AppendKeepsStamps(s, s', row, Stamp(s.nextAudit, now));
    }
  }

  predicate SameLogEntry(a: Tx, b: Tx)
    requires Logged(b)
  {
    Logged(a) && a.phase.w == b.phase.w && a.phase.auditId == b.phase.auditId
  }

  lemma SameLogKeepsStamps(s: Sys, s': Sys)
    requires StampInv(s) && s'.db == s.db && s'.stamps == s.stamps && s'.nextAudit >= s.nextAudit
    requires forall t | t in s'.txs && Logged(s'.txs[t]) :: t in s.txs && SameLogEntry(s.txs[t], s'.txs[t])
    ensures StampInv(s')
  {
    forall t | t in s'.txs && Logged(s'.txs[t])
      ensures NextInLine(s', s'.txs[t].phase.auditId, s'.txs[t].phase.w.entry.target)
    {
      assert NextInLine(s, s.txs[t].phase.auditId, s.txs[t].phase.w.entry.target);
    }
  }

  lemma AuditKeepsStamps(s: Sys, tid: nat)
    requires StampInv(s) && Enabled(s, Audit(tid))
    ensures StampInv(DoAudit(s, tid))
  {
    var s' := DoAudit(s, tid);
    forall t | t in s'.txs && Logged(s'.txs[t])
      ensures NextInLine(s', s'.txs[t].phase.auditId, s'.txs[t].phase.w.entry.target)
    {
      if t != tid { assert NextInLine(s, s.txs[t].phase.auditId, s.txs[t].phase.w.entry.target); }
    }
  }

  lemma ApplyKeepsStamps(s: Sys, tid: nat)
    requires StampInv(s) && Enabled(s, Apply(tid))
    ensures StampInv(DoApply(s, tid))
  {
    SameLogKeepsStamps(s, DoApply(s, tid));
  }

  lemma RestKeepsStamps(s: Sys, e: Event)
    requires StampInv(s) && Enabled(s, e) && (e.Begin? || e.Lock? || e.Check? || e.ReadBack? || e.Abort?)
    ensures StampInv(Step(s, e))
  {
    SameLogKeepsStamps(s, Step(s, e));
  }

  lemma StepKeepsStamps(s: Sys, e: Event)
    requires Inv(s) && StampInv(s) && Enabled(s, e)
    ensures StampInv(Step(s, e))
  {
    match e
    case Apply(tid) => ApplyKeepsStamps(s, tid);
    case Audit(tid) => AuditKeepsStamps(s, tid);
    case CommitTx(tid) => CommitKeepsStamps(s, tid);
    case CategoryCommand(c, now) => CategoryKeepsStamps(s, c, now);
    case _ => RestKeepsStamps(s, e);
  }

  /** ORDER BY created_at DESC, id DESC */
  predicate ListedBefore(a: Stamp, b: Stamp) {
    a.createdAt > b.createdAt || (a.createdAt == b.createdAt && a.id > b.id)
  }

  /** In every interleaving the audit ids of one target increase in commit order.
      The history list shows the later of two commits first exactly when its
      transaction did not begin before the other's. */
  lemma {:induction false} AuditReadsBack(s: Sys, es: seq<Event>)
    requires Initial(s) && StampInv(s) && Legal(s, es)
    ensures var end := RunTrace(s, es);
      && Inv(end) && StampInv(end)
      && forall i, j | 0 <= i < j < |end.db.audit| && end.db.audit[i].target == end.db.audit[j].target ::
           && end.stamps[i].id < end.stamps[j].id
           && (ListedBefore(end.stamps[j], end.stamps[i]) <==> end.stamps[i].createdAt <= end.stamps[j].createdAt)
    decreases |es|
  {
    if es != [] {
      var es' := es[..|es| - 1];
      AuditReadsBack(s, es');
      StepKeepsInv(RunTrace(s, es'), es[|es| - 1]);
      StepKeepsStamps(RunTrace(s, es'), es[|es| - 1]);
    }
  }
}
