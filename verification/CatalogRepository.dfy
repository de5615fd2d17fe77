/** The privileged writers as they run: one transaction each, changing the tables
    step by step and rolling back on any returned error
    (internal/core/repository/catalog_admin_repository.go). Every method is
    proved to do exactly what `Catalog.Exec` says. */
module CatalogRepository {
  import opened Domain
  import opened Catalog
  import opened Paging

  /** What a writer hands to the audit insert; empty strings become SQL NULL. */
  datatype AuditEntry = AuditEntry(
    target: Target, action: AuditAction, actor: string, reason: string, changed: Changes,
    versionBefore: Option<int>, versionAfter: Option<int>, requestId: string)

  function Stored(e: AuditEntry): AuditRow {
    AuditRow(e.target, e.action, e.actor, NullIfEmpty(e.reason), StoredChanges(e.changed),
             e.versionBefore, e.versionAfter, NullIfEmpty(e.requestId))
  }

  lemma TransitionDecision(s: State, input: TransitionInput, next: ProductStatus)
    requires input.id in s.products && NextStatus(s.products[input.id].status, input.step) == Ok(next)
    ensures var before := s.products[input.id];
      var w := ProductWrite(input.id, TransitionRow(before, next), TransitionEntry(before, next, input));
      Exec(s, Command.Transition(input))
      == if AuditFits(w.entry) then Outcome(Commit(s, w), Ok(ReplyTo(s, w))) else Refused(s, Internal)
  {
  }

  class CatalogAdminRepository {
    var products: map<nat, Product>
    var categories: map<nat, Category>
    var audit: seq<AuditRow>
    // The SERIAL sequences. A rollback does not give their values back.
    var nextProductId: nat
    var nextCategoryId: nat

    ghost function Db(): State
      reads this
    {
      State(products, categories, audit)
    }

    ghost predicate Valid()
      reads this
    {
      && Catalog.Valid(Db())
      && (forall id | id in products :: id < nextProductId)
      && (forall id | id in categories :: id < nextCategoryId)
    }

    constructor ()
      ensures Valid() && Db() == State(map[], map[], [])
    {
      products, categories, audit, nextProductId, nextCategoryId := map[], map[], [], 1, 1;
    }

    /** Undoes the transaction's writes; the sequences keep what they handed out. */
    method Rollback(begun: State)
      modifies this`products, this`categories, this`audit
      ensures Db() == begun
    {
      products, categories, audit := begun.products, begun.categories, begun.audit;
    }

    /** (SELECT id FROM categories WHERE name = $n) */
    method LookupCategory(name: string) returns (id: Option<nat>)
      requires UniqueCategories(categories)
      ensures id == Resolve(categories, name)
    {
      if c: nat :| c in categories && categories[c].name == name {
        id := Some(c);
      } else {
        id := None;
      }
    }

    /** INSERT INTO admin_action_audit on the caller's transaction. */
    method InsertAudit(e: AuditEntry) returns (ok: bool)
      modifies this`audit
      ensures ok == AuditFits(Stored(e))
      ensures audit == if ok then old(audit) + [Stored(e)] else old(audit)
    {
      var changed: Option<Changes> := None;
      if |e.changed| > 0 {
        changed := Some(e.changed);
      }
      var row := AuditRow(e.target, e.action, e.actor, NullIfEmpty(e.reason), changed,
                          e.versionBefore, e.versionAfter, NullIfEmpty(e.requestId));
      ok := AuditFits(row);
      if ok {
        audit := audit + [row];
      }
    }

    /** The end of a product transaction: write the row, then its audit row, then
        read the row back; an audit error rolls the row back too. */
    method SaveProduct(id: nat, row: Product, e: AuditEntry) returns (r: Result<Reply>)
      modifies this`products, this`categories, this`audit
      ensures var w := ProductWrite(id, row, Stored(e));
        if AuditFits(w.entry) then Db() == Commit(old(Db()), w) && r == Ok(ReplyTo(old(Db()), w))
        else Db() == old(Db()) && r == Err(Internal)
    {
      var begun := State(products, categories, audit);
      products := products[id := row];
      var ok := InsertAudit(e);
      if !ok {
        Rollback(begun);
        return Err(Internal);
      }
      return Ok(ProductReply(RowView(categories, id, products[id])));
    }

    method SaveCategory(id: nat, row: Category, e: AuditEntry) returns (r: Result<Reply>)
      modifies this`products, this`categories, this`audit
      ensures var w := CategoryWrite(id, row, Stored(e));
        if AuditFits(w.entry) then Db() == Commit(old(Db()), w) && r == Ok(ReplyTo(old(Db()), w))
        else Db() == old(Db()) && r == Err(Internal)
    {
      var begun := State(products, categories, audit);
      categories := categories[id := row];
      var ok := InsertAudit(e);
      if !ok {
        Rollback(begun);
        return Err(Internal);
      }
      return Ok(CategoryReply(id, categories[id]));
    }

    method CreateProduct(input: CreateProductInput, now: int) returns (r: Result<Reply>)
      requires Valid()
      modifies this
      ensures Valid()
      ensures var o := Exec(old(Db()), Command.CreateProduct(old(nextProductId), now, input));
        Db() == o.state && r == o.result
      ensures nextCategoryId == old(nextCategoryId)
    {
      ExecKeepsValid(Db(), Command.CreateProduct(nextProductId, now, input));
      var id := nextProductId;
      nextProductId := nextProductId + 1;
      if !RowFits(input.name, input.price) {
        return Err(Internal);
      }
      if NameTaken(products, input.name, None) {
        return Err(Conflict);
      }
      var category := LookupCategory(input.category);
      var row := Product(input.name, input.description, ToCents(input.price), category, Draft, 1, now);
      var changed: Changes := map[NameField := Text(input.name), PriceField := Number(input.price),
          CategoryField := Text(input.category)];
      r := SaveProduct(id, row, AuditEntry(ProductTarget(id), CreateAction, input.actor, "", changed, None, Some(1),
          input.requestId));
    }

    /** The changed map of an edit, one entry per field that differs. */
    method DiffProduct(before: AdminProduct, input: UpdateProductInput) returns (changed: Changes)
      ensures changed == UpdateChanges(before, input)
    {
      changed := map[];
      if before.name != input.name {
        changed := changed[NameField := TextChange(before.name, input.name)];
      }
      if before.price != input.price {
        changed := changed[PriceField := NumberChange(before.price, input.price)];
      }
      if before.description != input.description {
        changed := changed[DescriptionField := TextChange(before.description, input.description)];
      }
      if before.category != input.category {
        changed := changed[CategoryField := TextChange(before.category, input.category)];
      }
    }

    /** The UPDATE of an edit, its audit row and the read back. WHERE id = $5 AND
        version = $6 matches the row that was locked and checked; the module
        Transactions shows the same with other writers in flight. */
    method ApplyEdit(before: AdminProduct, input: UpdateProductInput) returns (r: Result<Reply>)
      requires UniqueCategories(categories)
      requires input.id in products && products[input.id].version == input.expectedVersion
      requires before == RowView(categories, input.id, products[input.id])
      modifies this`products, this`categories, this`audit
      ensures var s := old(Db());
        var w := ProductWrite(input.id, UpdateRow(s.products[input.id], input, Resolve(s.categories, input.category)),
                              UpdateEntry(before, input));
        if AuditFits(w.entry) then Db() == Commit(s, w) && r == Ok(ReplyTo(s, w)) else Db() == s && r == Err(Internal)
    {
      var locked := products[input.id];
      var category := LookupCategory(input.category);
      var row := Product(input.name, input.description, ToCents(input.price), category, locked.status,
          locked.version + 1, locked.createdAt);
      var changed := DiffProduct(before, input);
      var e := AuditEntry(ProductTarget(input.id), UpdateAction, input.actor, input.reason, changed,
                          Some(before.version), Some(before.version + 1), input.requestId);
      assert Stored(e) == UpdateEntry(before, input);
      r := SaveProduct(input.id, row, e);
    }

    /** The locked read and the checks of an edit. */
    method CheckEdit(input: UpdateProductInput) returns (refused: Option<DomainError>)
      ensures refused.Some? ==> DecideUpdateProduct(Db(), input) == Err(refused.value)
      ensures refused.None? ==>
        && input.id in products && products[input.id].version == input.expectedVersion
        && DecideUpdateProduct(Db(), input)
           == Ok(ProductWrite(input.id, UpdateRow(products[input.id], input, Resolve(categories, input.category)),
                              UpdateEntry(RowView(categories, input.id, products[input.id]), input)))
    {
      if input.id !in products {
        return Some(NotFound);
      }
      if products[input.id].version != input.expectedVersion {
        return Some(VersionConflict);
      }
      if !RowFits(input.name, input.price) {
        return Some(Internal);
      }
      if NameTaken(products, input.name, Some(input.id)) {
        return Some(Conflict);
      }
      return None;
    }

    method UpdateProduct(input: UpdateProductInput) returns (r: Result<Reply>)
      requires Valid()
      modifies this
      ensures Valid()
      ensures var o := Exec(old(Db()), Command.UpdateProduct(input));
        Db() == o.state && r == o.result
      ensures nextProductId == old(nextProductId) && nextCategoryId == old(nextCategoryId)
    {
      ghost var s := Db();
      var refused := CheckEdit(input);
      if refused.Some? {
        return Err(refused.value);
      }
      var before := RowView(categories, input.id, products[input.id]);
      r := ApplyEdit(before, input);
      ExecKeepsValid(s, Command.UpdateProduct(input));
    }

    method Transition(input: TransitionInput) returns (r: Result<Reply>)
      requires Valid()
      modifies this
      ensures Valid()
      ensures var o := Exec(old(Db()), Command.Transition(input));
        Db() == o.state && r == o.result
      ensures nextProductId == old(nextProductId) && nextCategoryId == old(nextCategoryId)
    {
      ghost var s := Db();
      if input.id !in products {
        return Err(NotFound);
      }
      var locked := products[input.id];
      var current, version := locked.status, locked.version;
      var next := NextStatus(current, input.step);
      if next.Err? {
        return Err(next.error);
      }
      var changed: Changes := map[StatusField := StatusChange(current, next.value)];
      r := SaveProduct(input.id, locked.(status := next.value, version := version + 1),
                       AuditEntry(ProductTarget(input.id), LifecycleStep(input.step), input.actor, input.reason,
                           changed,
                                  Some(version), Some(version + 1), input.requestId));
      TransitionDecision(s, input, next.value);
      ExecKeepsValid(s, Command.Transition(input));
    }

    method CreateCategory(input: CategoryInput) returns (r: Result<Reply>)
      requires Valid()
      modifies this
      ensures Valid()
      ensures var o := Exec(old(Db()), Command.CreateCategory(old(nextCategoryId), input));
        Db() == o.state && r == o.result
      ensures nextProductId == old(nextProductId)
    {
      ExecKeepsValid(Db(), Command.CreateCategory(nextCategoryId, input));
      var id := nextCategoryId;
      nextCategoryId := nextCategoryId + 1;
      if |input.name| > 100 {
        return Err(Internal);
      }
      if CategoryTaken(categories, input.name, None) {
        return Err(Conflict);
      }
      var changed: Changes := map[NameField := Text(input.name), DescriptionField := Text(input.description)];
      r := SaveCategory(id, Category(input.name, input.description),
                        AuditEntry(CategoryTarget(id), CreateAction, input.actor, "", changed, None, None,
                            input.requestId));
    }

    method DiffCategory(before: Category, input: CategoryInput) returns (changed: Changes)
      ensures changed == UpdateCategoryChanges(before, input)
    {
      changed := map[];
      if before.name != input.name {
        changed := changed[NameField := TextChange(before.name, input.name)];
      }
      if before.description != input.description {
        changed := changed[DescriptionField := TextChange(before.description, input.description)];
      }
    }

    method UpdateCategory(id: nat, input: CategoryInput) returns (r: Result<Reply>)
      requires Valid()
      modifies this
      ensures Valid()
      ensures var o := Exec(old(Db()), Command.UpdateCategory(id, input));
        Db() == o.state && r == o.result
      ensures nextProductId == old(nextProductId) && nextCategoryId == old(nextCategoryId)
    {
      ExecKeepsValid(Db(), Command.UpdateCategory(id, input));
      if id !in categories {
        return Err(NotFound);
      }
      var before := categories[id];
      if |input.name| > 100 {
        return Err(Internal);
      }
      if CategoryTaken(categories, input.name, Some(id)) {
        return Err(Conflict);
      }
      var changed := DiffCategory(before, input);
      r := SaveCategory(id, Category(input.name, input.description),
                        AuditEntry(CategoryTarget(id), UpdateAction, input.actor, "", changed, None, None,
                            input.requestId));
    }

    /** The ordered, filtered result the list query's cursor walks. */
    method OrderedRows(status: Option<ProductStatus>) returns (ids: seq<nat>)
      ensures IsListing(products, Matching(products, status), ids)
    {
      var rest := set id | id in products && (status.None? || products[id].status == status.value);
      ghost var all := Matching(products, status);
      assert rest == all;
      ids := [];
      while |rest| > 0
        invariant rest <= all
        invariant forall id :: id in ids <==> id in all - rest
        invariant forall i | 0 <= i < |ids| :: ids[i] in all && forall later | later in rest ::
                  Newer(products, ids[i], later)
        invariant forall i, j | 0 <= i < j < |ids| ::
                  ids[i] in products && ids[j] in products && Newer(products, ids[i], ids[j])
        decreases |rest|
      {
        ghost var newest := NewestExists(products, rest);
        var next: nat :| next in rest && forall id | id in rest && id != next :: Newer(products, next, id);
        ids, rest := ids + [next], rest - {next};
      }
    }

    /** One page of the catalogue in every state, newest first, and the unpaged total. */
    method ListProducts(status: Option<ProductStatus>, limit: nat, offset: nat)
        returns (items: seq<AdminProduct>, total: nat, ghost ids: seq<nat>)
      ensures IsListing(products, Matching(products, status), ids)
      ensures total == |Matching(products, status)|
      ensures |items| == |Page(ids, limit, offset)|
      ensures forall i | 0 <= i < |items| ::
        var id := Page(ids, limit, offset)[i];
        id in products && items[i] == RowView(categories, id, products[id])
    {
      var counted := set id | id in products && (status.None? || products[id].status == status.value);
      assert counted == Matching(products, status);
      total := |counted|;
      var rows := OrderedRows(status);
      ids := rows;
      var cursor := Page(rows, limit, offset);
      items := [];
      for i := 0 to |cursor|
        invariant |items| == i
        invariant forall k | 0 <= k < i ::
                  cursor[k] in products && items[k] == RowView(categories, cursor[k], products[cursor[k]])
      {
        var id := cursor[i];
        assert id in rows;
        items := items + [RowView(categories, id, products[id])];
      }
    }
  }
}
