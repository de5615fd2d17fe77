/** Product transactions as they interleave: READ COMMITTED statements, row locks
    held to the end, a unique index that makes a writer wait for another
    uncommitted holder of the name, sequences that no rollback rewinds
    (catalog_admin_repository.go, CreateProduct, UpdateProduct, Transition).

    Category commands are single steps here. A lock read sees the committed join
    at the instant the lock is granted. */
module Transactions {
  import opened Domain
  import opened Catalog
  import opened AuditReplay

  /** The row a transaction locked and the projection it read. */
  datatype Held = Held(row: Product, view: AdminProduct)

  /** `shown` is the row as the transaction read it back for its answer. */
  datatype Phase =
    | Begun | Locked | Checked
    | Written(w: Write)
    | Audited(w: Write, auditId: nat)
    | Shown(w: Write, auditId: nat, shown: AdminProduct)

  datatype Tx = Tx(command: Command, startedAt: int, held: Option<Held>, phase: Phase)

  /** The BIGSERIAL id and the created_at of an audit row. Both are taken before the
      commit: the id when the row is inserted, now() when the transaction began. */
  datatype Stamp = Stamp(id: nat, createdAt: int)

  datatype Sys = Sys(
    db: State,
    stamps: seq<Stamp>,              // of db.audit, position by position
    txs: map<nat, Tx>,
    nextProduct: nat,
    nextAudit: nat,
    history: seq<Command>,           // answered commands, in the order they were answered
    answers: seq<Result<Reply>>)

  datatype Event =
    | Begin(tid: nat, command: Command, now: int)
    | Lock(tid: nat)                 // SELECT ... FOR UPDATE
    | Check(tid: nat)                // version or lifecycle check in Go
    | Apply(tid: nat)                // the INSERT or UPDATE
    | Audit(tid: nat)                // insertAudit
    | ReadBack(tid: nat)             // SELECT of the written row, still inside the transaction
    | CommitTx(tid: nat)
    | Abort(tid: nat)                // connection lost, deadlock victim, cancelled
    | CategoryCommand(command: Command, now: int)

  /** An edit or lifecycle command has locked the row. The row of a create that has
      not committed is not there for others, locked or not. */
  predicate HoldsRow(tx: Tx, id: nat) {
    tx.phase != Begun && !tx.command.CreateProduct? && WrittenRow(tx.command) == ProductTarget(id)
  }

  /** The transaction has put its product into category `id`; the foreign key keeps
      that category's row locked against an edit. */
  predicate KeepsCategory(tx: Tx, id: nat) {
    && Pending(tx) && tx.phase.w.ProductWrite? && tx.phase.w.row.category == Some(id)
    && (tx.held.Some? ==> tx.held.value.row.category != Some(id))
  }

  predicate CategoryFree(s: Sys, id: nat) { forall t | t in s.txs :: !KeepsCategory(s.txs[t], id) }

  predicate Pending(tx: Tx) { tx.phase.Written? || Logged(tx) }

  predicate Logged(tx: Tx) { tx.phase.Audited? || tx.phase.Shown? }

  /** The unique index on the name makes a writer of `name` wait. */
  predicate NameBusy(s: Sys, tid: nat, name: string) {
    exists other :: other in s.txs && other != tid && Pending(s.txs[other]) && s.txs[other].phase.w.ProductWrite?
      && (s.txs[other].phase.w.row.name == name
          || (s.txs[other].phase.w.id in s.db.products && s.db.products[s.txs[other].phase.w.id].name == name))
  }

  predicate RowFree(s: Sys, tid: nat, id: nat) {
    forall other | other in s.txs && other != tid :: !HoldsRow(s.txs[other], id)
  }

  /** The id the command names, for the two commands that lock a row. */
  function LockedId(c: Command): nat
    requires c.UpdateProduct? || c.Transition?
  {
    if c.UpdateProduct? then c.update.id else c.transition.id
  }

  predicate ProductCommand(c: Command) { c.CreateProduct? || c.UpdateProduct? || c.Transition? }

  predicate Enabled(s: Sys, e: Event) {
    match e
    case Begin(tid, c, _) => tid !in s.txs && ProductCommand(c)
    case Lock(tid) =>
      && tid in s.txs && s.txs[tid].phase == Begun
         && (s.txs[tid].command.UpdateProduct? || s.txs[tid].command.Transition?)
      && RowFree(s, tid, LockedId(s.txs[tid].command))
    case Check(tid) => tid in s.txs && s.txs[tid].phase == Locked
    case Apply(tid) =>
      tid in s.txs && (
        match s.txs[tid].command
        case CreateProduct(_, _, input) => s.txs[tid].phase == Begun && !NameBusy(s, tid, input.name)
        case UpdateProduct(input) => s.txs[tid].phase == Checked && !NameBusy(s, tid, input.name)
        case Transition(_) => s.txs[tid].phase == Checked
        case _ => false)
    case Audit(tid) => tid in s.txs && s.txs[tid].phase.Written?
    case ReadBack(tid) => tid in s.txs && s.txs[tid].phase.Audited? && s.txs[tid].phase.w.ProductWrite?
    case CommitTx(tid) => tid in s.txs && s.txs[tid].phase.Shown?
    case Abort(tid) => tid in s.txs
    case CategoryCommand(c, _) => c.CreateCategory? || (c.UpdateCategory? && CategoryFree(s, c.categoryId))
  }

  function Move(s: Sys, tid: nat, tx: Tx): Sys { s.(txs := s.txs[tid := tx]) }

  /** The transaction ends with answer `r` to command `c`. */
  function Finish(s: Sys, tid: nat, c: Command, r: Result<Reply>): Sys {
    s.(txs := s.txs - {tid}, history := s.history + [c], answers := s.answers + [r])
  }

  function DoLock(s: Sys, tid: nat): Sys
    requires Enabled(s, Lock(tid))
  {
    var tx := s.txs[tid];
    var id := LockedId(tx.command);
    if id !in s.db.products then Finish(s, tid, tx.command, Err(NotFound))
    else
      var row := s.db.products[id];
      Move(s, tid, tx.(held := Some(Held(row, RowView(s.db.categories, id, row))), phase := Locked))
  }

  function CheckHeld(h: Held, c: Command): Option<DomainError> {
    match c
    case UpdateProduct(input) => if h.view.version != input.expectedVersion then Some(VersionConflict) else None
    case Transition(input) =>
      var next := NextStatus(h.row.status, input.step);
      if next.Err? then Some(next.error) else None
    case _ => Some(Internal)
  }

  function DoCheck(s: Sys, tid: nat): Sys
    requires Enabled(s, Check(tid))
  {
    var tx := s.txs[tid];
    if tx.held.None? then Finish(s, tid, tx.command, Err(Internal))
    else
      var refused := CheckHeld(tx.held.value, tx.command);
      if refused.Some? then Finish(s, tid, tx.command, Err(refused.value)) else Move(s, tid, tx.(phase := Checked))
  }

  /** The UPDATE of an edit, run against the row as it is now: no row matches when
      it is gone or its version is not the expected one. */
  ghost function EditStatement(db: State, view: AdminProduct, input: UpdateProductInput): Result<Write> {
    if input.id !in db.products || db.products[input.id].version != input.expectedVersion then Err(VersionConflict)
    else if !RowFits(input.name, input.price) then Err(Internal)
    else if NameTaken(db.products, input.name, Some(input.id)) then Err(Conflict)
    else Ok(ProductWrite(input.id, UpdateRow(db.products[input.id], input, Resolve(db.categories, input.category)),
                         UpdateEntry(view, input)))
  }

  function TransitionStatement(db: State, held: Product, input: TransitionInput): Result<Write> {
    var next := NextStatus(held.status, input.step);
    if next.Err? then Err(next.error)
    else if input.id !in db.products then Err(NotFound)
    else Ok(ProductWrite(input.id, TransitionRow(db.products[input.id], next.value),
        TransitionEntry(held, next.value, input)))
  }

  ghost function Statement(s: Sys, tx: Tx): Result<Write> {
    match tx.command
    case CreateProduct(_, now, input) => DecideCreateProduct(s.db, s.nextProduct, now, input)
    case UpdateProduct(input) => if tx.held.None? then Err(Internal) else EditStatement(s.db, tx.held.value.view, input)
    case Transition(input) => if tx.held.None? then Err(Internal)
        else TransitionStatement(s.db, tx.held.value.row, input)
    case _ => Err(Internal)
  }

  /** A create learns its id from the sequence, whether or not it goes on to commit. */
  function Identified(s: Sys, c: Command): Command {
    match c
    case CreateProduct(_, now, input) => CreateProduct(s.nextProduct, now, input)
    case _ => c
  }

  ghost function DoApply(s: Sys, tid: nat): Sys
    requires Enabled(s, Apply(tid))
  {
    var tx := s.txs[tid];
    var c := Identified(s, tx.command);
    var s1 := if c.CreateProduct? then s.(nextProduct := s.nextProduct + 1) else s;
    match Statement(s, tx)
    case Err(e) => Finish(s1, tid, c, Err(e))
    case Ok(w) => Move(s1, tid, tx.(command := c, phase := Written(w)))
  }

  function DoAudit(s: Sys, tid: nat): Sys
    requires Enabled(s, Audit(tid))
  {
    var tx := s.txs[tid];
    var s1 := s.(nextAudit := s.nextAudit + 1);
    if AuditFits(tx.phase.w.entry) then Move(s1, tid, tx.(phase := Audited(tx.phase.w, s.nextAudit)))
    else Finish(s1, tid, tx.command, Err(Internal))
  }

  /** The transaction sees its own row and, joined to it, the categories committed by now. */
  function DoReadBack(s: Sys, tid: nat): Sys
    requires Enabled(s, ReadBack(tid))
  {
    var tx := s.txs[tid];
    var w := tx.phase.w;
    Move(s, tid, tx.(phase := Shown(w, tx.phase.auditId, RowView(s.db.categories, w.id, w.row))))
  }

  function DoCommit(s: Sys, tid: nat): Sys
    requires Enabled(s, CommitTx(tid))
  {
    var tx := s.txs[tid];
    Finish(s.(db := Commit(s.db, tx.phase.w), stamps := s.stamps + [Stamp(tx.phase.auditId, tx.startedAt)]),
           tid, tx.command, Ok(ProductReply(tx.phase.shown)))
  }

  ghost function DoCategory(s: Sys, c: Command, now: int): Sys {
    var o := Exec(s.db, c);
    s.(db := o.state,
       stamps := if o.result.Ok? then s.stamps + [Stamp(s.nextAudit, now)] else s.stamps,
       nextAudit := s.nextAudit + 1,
       history := s.history + [c], answers := s.answers + [o.result])
  }

  ghost function Step(s: Sys, e: Event): Sys
    requires Enabled(s, e)
  {
    match e
    case Begin(tid, c, now) => Move(s, tid, Tx(c, now, None, Begun))
    case Lock(tid) => DoLock(s, tid)
    case Check(tid) => DoCheck(s, tid)
    case Apply(tid) => DoApply(s, tid)
    case Audit(tid) => DoAudit(s, tid)
    case ReadBack(tid) => DoReadBack(s, tid)
    case CommitTx(tid) => DoCommit(s, tid)
    case Abort(tid) => s.(txs := s.txs - {tid})
    case CategoryCommand(c, now) => DoCategory(s, c, now)
  }

  // ------------------------------------------------------------ invariant

  /** What the row lock guarantees: the row is still the one that was read. Only
      the category name in the projection can have changed since. */
  predicate HeldOk(products: map<nat, Product>, tx: Tx) {
    && (tx.command.UpdateProduct? || tx.command.Transition?)
    && tx.held.Some?
    && var id := LockedId(tx.command);
       var row, view := tx.held.value.row, tx.held.value.view;
       && id in products
       && products[id] == row
       && view == AdminProduct(id, row.name, Dollars(row.cents), row.description, view.category, row.status,
          row.version)
  }

  predicate CreateOk(products: map<nat, Product>, nextProduct: nat, newId: nat, now: int, input: CreateProductInput,
      w: Write)
    requires w.ProductWrite?
  {
    && newId !in products && newId < nextProduct && RowFits(input.name, input.price)
    && w.row == CreateRow(input, now, w.row.category) && w.entry == CreateEntry(newId, input)
  }

  predicate EditOk(held: Held, input: UpdateProductInput, w: Write)
    requires w.ProductWrite?
  {
    && RowFits(input.name, input.price)
    && w.row == UpdateRow(held.row, input, w.row.category) && w.entry == UpdateEntry(held.view, input)
  }

  predicate TransitionOk(held: Held, input: TransitionInput, w: Write)
    requires w.ProductWrite?
  {
    var next := NextStatus(held.row.status, input.step);
    next.Ok? && w.row == TransitionRow(held.row, next.value) && w.entry == TransitionEntry(held.row, next.value, input)
  }

  predicate WriteOk(products: map<nat, Product>, nextProduct: nat, tx: Tx, w: Write) {
    && w.ProductWrite?
    && ProductTarget(w.id) == WrittenRow(tx.command)
    && w.entry.target == ProductTarget(w.id)
    && !NameTaken(products, w.row.name, Some(w.id))
    && 0 <= w.row.cents <= MAX_CENTS
    && (tx.command.CreateProduct? ==>
       CreateOk(products, nextProduct, tx.command.newId, tx.command.now, tx.command.product, w))
    && (!tx.command.CreateProduct? ==> HeldOk(products, tx) && CheckHeld(tx.held.value, tx.command).None?)
    && (tx.command.UpdateProduct? ==> EditOk(tx.held.value, tx.command.update, w))
    && (tx.command.Transition? ==> TransitionOk(tx.held.value, tx.command.transition, w))
  }

  /** What was read back is the written row; only the category name can be dated. */
  predicate ShownOk(w: Write, shown: AdminProduct) {
    && w.ProductWrite?
    && shown == AdminProduct(w.id, w.row.name, Dollars(w.row.cents), w.row.description, shown.category, w.row.status,
       w.row.version)
  }

  predicate TxOk(products: map<nat, Product>, nextProduct: nat, tx: Tx) {
    && ProductCommand(tx.command)
    && (tx.phase.Locked? || tx.phase.Checked? ==> HeldOk(products, tx))
    && (tx.phase.Checked? ==> CheckHeld(tx.held.value, tx.command).None?)
    && (Pending(tx) ==> WriteOk(products, nextProduct, tx, tx.phase.w))
    && (Logged(tx) ==> AuditFits(tx.phase.w.entry))
    && (tx.phase.Shown? ==> ShownOk(tx.phase.w, tx.phase.shown))
  }

  predicate CategoryKnown(categories: map<nat, Category>, tx: Tx) {
    Pending(tx) && tx.phase.w.ProductWrite? && tx.phase.w.row.category.Some? ==>
        tx.phase.w.row.category.value in categories
  }

  /** Row locks exclude each other, and so do pending names. */
  predicate Disjoint(a: Tx, b: Tx) {
    && (a.phase != Begun && b.phase != Begun ==> WrittenRow(a.command) != WrittenRow(b.command))
    && (Pending(a) && Pending(b) && a.phase.w.ProductWrite? && b.phase.w.ProductWrite? ==>
       a.phase.w.row.name != b.phase.w.row.name)
  }

  ghost predicate Inv(s: Sys) {
    && Valid(s.db)
    && (forall id | id in s.db.products :: id < s.nextProduct)
    && (forall t | t in s.txs ::
       TxOk(s.db.products, s.nextProduct, s.txs[t]) && CategoryKnown(s.db.categories, s.txs[t]))
    && (forall a, b | a in s.txs && b in s.txs && a != b :: Disjoint(s.txs[a], s.txs[b]))
  }

  lemma MoveKeepsInv(s: Sys, tid: nat, tx: Tx)
    requires Inv(s) && TxOk(s.db.products, s.nextProduct, tx) && CategoryKnown(s.db.categories, tx)
    requires forall t | t in s.txs && t != tid :: Disjoint(tx, s.txs[t])
    ensures Inv(Move(s, tid, tx))
  {
  }

  lemma RemoveKeepsInv(s: Sys, tid: nat)
    requires Inv(s)
    ensures Inv(s.(txs := s.txs - {tid}))
  {
  }

  lemma NextProductKeepsInv(s: Sys, nextProduct: nat)
    requires Inv(s) && nextProduct >= s.nextProduct
    ensures Inv(s.(nextProduct := nextProduct))
  {
    forall t | t in s.txs
      ensures TxOk(s.db.products, nextProduct, s.txs[t])
    {
    }
  }

  lemma LockKeepsInv(s: Sys, tid: nat)
    requires Inv(s) && Enabled(s, Lock(tid))
    ensures Inv(DoLock(s, tid))
  {
    var tx := s.txs[tid];
    var id := LockedId(tx.command);
    if id in s.db.products {
      var row := s.db.products[id];
      var tx' := tx.(held := Some(Held(row, RowView(s.db.categories, id, row))), phase := Locked);
      forall t | t in s.txs && t != tid
        ensures Disjoint(tx', s.txs[t])
      {
        assert !HoldsRow(s.txs[t], id) && TxOk(s.db.products, s.nextProduct, s.txs[t]);
      }
      MoveKeepsInv(s, tid, tx');
    } else {
      RemoveKeepsInv(s, tid);
    }
  }

  lemma CheckKeepsInv(s: Sys, tid: nat)
    requires Inv(s) && Enabled(s, Check(tid))
    ensures Inv(DoCheck(s, tid))
  {
    var tx := s.txs[tid];
    assert TxOk(s.db.products, s.nextProduct, tx);
    if CheckHeld(tx.held.value, tx.command).Some? {
      RemoveKeepsInv(s, tid);
    } else {
      forall t | t in s.txs && t != tid
        ensures Disjoint(tx.(phase := Checked), s.txs[t])
      {
        assert Disjoint(tx, s.txs[t]);
      }
      MoveKeepsInv(s, tid, tx.(phase := Checked));
    }
  }

  /** Behind the row lock, the UPDATE's WHERE clause always matches: the branch
      for no affected row is never taken. */
  lemma LockedRowIsMatched(s: Sys, tid: nat)
    requires Inv(s) && tid in s.txs && s.txs[tid].phase == Checked && s.txs[tid].command.UpdateProduct?
    ensures var input := s.txs[tid].command.update;
      input.id in s.db.products && s.db.products[input.id].version == input.expectedVersion
    ensures Statement(s, s.txs[tid]) != Err(VersionConflict)
  {
    assert TxOk(s.db.products, s.nextProduct, s.txs[tid]);
  }

  lemma OthersBelowNext(s: Sys, t: nat)
    requires Inv(s) && t in s.txs && s.txs[t].phase != Begun
    ensures WrittenRow(s.txs[t].command) != ProductTarget(s.nextProduct)
  {
    assert TxOk(s.db.products, s.nextProduct, s.txs[t]);
  }

  lemma CreateApplied(s: Sys, tid: nat, now: int, input: CreateProductInput, w: Write)
    requires Inv(s) && Enabled(s, Apply(tid)) && s.txs[tid].command.CreateProduct?
    requires s.txs[tid].command.now == now && s.txs[tid].command.product == input
    requires DecideCreateProduct(s.db, s.nextProduct, now, input) == Ok(w)
    ensures var tx' := s.txs[tid].(command := CreateProduct(s.nextProduct, now, input), phase := Written(w));
      && TxOk(s.db.products, s.nextProduct + 1, tx') && CategoryKnown(s.db.categories, tx')
      && forall t | t in s.txs && t != tid :: Disjoint(tx', s.txs[t])
  {
    var tx' := s.txs[tid].(command := CreateProduct(s.nextProduct, now, input), phase := Written(w));
    forall t | t in s.txs && t != tid
      ensures Disjoint(tx', s.txs[t])
    {
      if s.txs[t].phase != Begun { OthersBelowNext(s, t); }
    }
  }

  lemma EditApplied(s: Sys, tid: nat, w: Write)
    requires Inv(s) && Enabled(s, Apply(tid)) && s.txs[tid].command.UpdateProduct?
    requires Statement(s, s.txs[tid]) == Ok(w)
    ensures var tx' := s.txs[tid].(phase := Written(w));
      && TxOk(s.db.products, s.nextProduct, tx') && CategoryKnown(s.db.categories, tx')
      && forall t | t in s.txs && t != tid :: Disjoint(tx', s.txs[t])
  {
    var tx := s.txs[tid];
    assert TxOk(s.db.products, s.nextProduct, tx);
    forall t | t in s.txs && t != tid
      ensures Disjoint(tx.(phase := Written(w)), s.txs[t])
    {
      assert Disjoint(tx, s.txs[t]);
    }
  }

  lemma TransitionApplied(s: Sys, tid: nat, w: Write)
    requires Inv(s) && Enabled(s, Apply(tid)) && s.txs[tid].command.Transition?
    requires Statement(s, s.txs[tid]) == Ok(w)
    ensures var tx' := s.txs[tid].(phase := Written(w));
      && TxOk(s.db.products, s.nextProduct, tx') && CategoryKnown(s.db.categories, tx')
      && forall t | t in s.txs && t != tid :: Disjoint(tx', s.txs[t])
  {
    var tx := s.txs[tid];
    assert TxOk(s.db.products, s.nextProduct, tx);
    var id := LockedId(tx.command);
    assert RowOk(s.db.categories, s.db.products[id]);
    forall other | other in s.db.products && Some(w.id) != Some(other)
      ensures s.db.products[other].name != w.row.name
    {
    }
    forall t | t in s.txs && t != tid
      ensures Disjoint(tx.(phase := Written(w)), s.txs[t])
    {
      assert Disjoint(tx, s.txs[t]) && TxOk(s.db.products, s.nextProduct, s.txs[t]);
      if Pending(s.txs[t]) {
        var w' := s.txs[t].phase.w;
        assert !NameTaken(s.db.products, w'.row.name, Some(w'.id)) && w'.id != id;
        assert s.db.products[id].name != w'.row.name;
      }
    }
  }

  lemma ApplyKeepsInv(s: Sys, tid: nat)
    requires Inv(s) && Enabled(s, Apply(tid))
    ensures Inv(DoApply(s, tid))
  {
    var tx := s.txs[tid];
    var c := Identified(s, tx.command);
    NextProductKeepsInv(s, s.nextProduct + 1);
    var s1 := if c.CreateProduct? then s.(nextProduct := s.nextProduct + 1) else s;
    match Statement(s, tx)
    case Err(_) => RemoveKeepsInv(s1, tid);
    case Ok(w) =>
      match tx.command
      case CreateProduct(_, now, input) =>
        CreateApplied(s, tid, now, input, w);
        MoveKeepsInv(s1, tid, tx.(command := c, phase := Written(w)));
      case UpdateProduct(_) =>
        EditApplied(s, tid, w);
        MoveKeepsInv(s1, tid, tx.(command := c, phase := Written(w)));
      case Transition(_) =>
        TransitionApplied(s, tid, w);
        MoveKeepsInv(s1, tid, tx.(command := c, phase := Written(w)));
  }

  lemma AuditKeepsInv(s: Sys, tid: nat)
    requires Inv(s) && Enabled(s, Audit(tid))
    ensures Inv(DoAudit(s, tid))
  {
    var tx := s.txs[tid];
    var s1 := s.(nextAudit := s.nextAudit + 1);
    if AuditFits(tx.phase.w.entry) {
      var tx' := tx.(phase := Audited(tx.phase.w, s.nextAudit));
      forall t | t in s.txs && t != tid
        ensures Disjoint(tx', s.txs[t])
      {
        assert Disjoint(tx, s.txs[t]);
      }
      MoveKeepsInv(s1, tid, tx');
    } else {
      RemoveKeepsInv(s1, tid);
    }
  }

  lemma ReadBackKeepsInv(s: Sys, tid: nat)
    requires Inv(s) && Enabled(s, ReadBack(tid))
    ensures Inv(DoReadBack(s, tid))
  {
    var tx := s.txs[tid];
    var w := tx.phase.w;
    var tx' := tx.(phase := Shown(w, tx.phase.auditId, RowView(s.db.categories, w.id, w.row)));
    assert TxOk(s.db.products, s.nextProduct, tx);
    forall t | t in s.txs && t != tid
      ensures Disjoint(tx', s.txs[t])
    {
      assert Disjoint(tx, s.txs[t]);
    }
    MoveKeepsInv(s, tid, tx');
  }

  /** A commit moves no ground under a transaction it is disjoint from. */
  lemma CommitFramesOthers(products: map<nat, Product>, nextProduct: nat, a: Tx, b: Tx)
    requires TxOk(products, nextProduct, a) && a.phase.Shown? && TxOk(products, nextProduct, b) && Disjoint(a, b)
    ensures TxOk(products[a.phase.w.id := a.phase.w.row], nextProduct, b)
  {
    var w := a.phase.w;
    if b.phase != Begun {
      assert WrittenRow(b.command) != ProductTarget(w.id);
    }
  }

  lemma CommitKeepsInv(s: Sys, tid: nat)
    requires Inv(s) && Enabled(s, CommitTx(tid))
    ensures Inv(DoCommit(s, tid))
  {
    var tx := s.txs[tid];
    var w := tx.phase.w;
    var db' := Commit(s.db, w);
    assert TxOk(s.db.products, s.nextProduct, tx) && CategoryKnown(s.db.categories, tx);
    UpdateKeepsUniqueProducts(s.db.products, w.id, w.row);
    assert Valid(db');
    forall t | t in s.txs && t != tid
      ensures TxOk(db'.products, s.nextProduct, s.txs[t]) && CategoryKnown(db'.categories, s.txs[t])
    {
      assert Disjoint(tx, s.txs[t]);
      CommitFramesOthers(s.db.products, s.nextProduct, tx, s.txs[t]);
    }
  }

  lemma CategoryCommandFrames(s: State, c: Command)
    requires c.CreateCategory? || c.UpdateCategory?
    ensures Exec(s, c).state.products == s.products
    ensures s.categories.Keys <= Exec(s, c).state.categories.Keys
  {
    AllOrNothing(s, c);
  }

  lemma CategoryKeepsInv(s: Sys, c: Command, now: int)
    requires Inv(s) && (c.CreateCategory? || c.UpdateCategory?)
    ensures Inv(DoCategory(s, c, now))
  {
    CategoryCommandFrames(s.db, c);
    ExecKeepsValid(s.db, c);
  }

  /** Every step of every interleaving keeps the invariant. */
  lemma StepKeepsInv(s: Sys, e: Event)
    requires Inv(s) && Enabled(s, e)
    ensures Inv(Step(s, e))
  {
    match e
    case Begin(tid, c, now) => MoveKeepsInv(s, tid, Tx(c, now, None, Begun));
    case Lock(tid) => LockKeepsInv(s, tid);
    case Check(tid) => CheckKeepsInv(s, tid);
    case Apply(tid) => ApplyKeepsInv(s, tid);
    case Audit(tid) => AuditKeepsInv(s, tid);
    case ReadBack(tid) => ReadBackKeepsInv(s, tid);
    case CommitTx(tid) => CommitKeepsInv(s, tid);
    case Abort(tid) => RemoveKeepsInv(s, tid);
    case CategoryCommand(c, now) => CategoryKeepsInv(s, c, now);
  }
}
