/** What each privileged command promises its caller, column by column: when it is
    refused and how, what an accepted one leaves in its row and its audit row, and
    what it answers. */
module CommandLaws {
  import opened Domain
  import opened Catalog
  import opened AuditReplay

  // ----------------------------------------------------- the audit row's columns

  function Reason(c: Command): string {
    match c
    case UpdateProduct(input) => input.reason
    case Transition(input) => input.reason
    case _ => ""
  }

  function RequestId(c: Command): string {
    match c
    case CreateProduct(_, _, input) => input.requestId
    case UpdateProduct(input) => input.requestId
    case Transition(input) => input.requestId
    case CreateCategory(_, input) => input.requestId
    case UpdateCategory(_, input) => input.requestId
  }

  /** The audit row of an accepted command carries the reason and the request id it
      was sent with, each in its own column, and nothing where nothing was sent. */
  lemma AuditRowSays(s: State, c: Command)
    requires Exec(s, c).result.Ok?
    ensures var row := Exec(s, c).state.audit[|s.audit|];
      && row.reason == (if Reason(c) == "" then None else Some(Reason(c)))
      && row.requestId == (if RequestId(c) == "" then None else Some(RequestId(c)))
      && row.actor == Actor(c) && row.target == WrittenRow(c)
  {
    CommittedEntry(s, c);
    var w := Decide(s, c).value;
    EntryColumns(s, c, w);
  }

  lemma EntryColumns(s: State, c: Command, w: Write)
    requires Decide(s, c) == Ok(w)
    ensures w.entry.reason == (if Reason(c) == "" then None else Some(Reason(c)))
    ensures w.entry.requestId == (if RequestId(c) == "" then None else Some(RequestId(c)))
    ensures w.entry.actor == Actor(c) && w.entry.target == WrittenRow(c)
  {
  }

  /** An accepted command answers with the row its resulting state holds. */
  lemma AnswersWithItsRow(s: State, c: Command)
    requires Exec(s, c).result.Ok?
    ensures var s', reply := Exec(s, c).state, Exec(s, c).result.value;
      match WrittenRow(c)
      case CategoryTarget(id) => id in s'.categories && reply == CategoryReply(id, s'.categories[id])
      case ProductTarget(id) =>
        && id in s'.products && reply.ProductReply?
        && var row, p := s'.products[id], reply.product;
           && p.id == id && p.name == row.name && p.description == row.description
           && p.price == row.cents as real / 100.0 && p.status == row.status && p.version == row.version
           && p.category == (if row.category.Some? && row.category.value in s'.categories
                             then s'.categories[row.category.value].name else "")
  {
    CommittedEntry(s, c);
    DecideTarget(s, c);
  }

  // ------------------------------------------------------------------ numbers

  /** A price is stored as the nearest cent, halves away from zero. */
  lemma NearestCent(price: real)
    ensures var cents := ToCents(price);
      && -0.5 <= cents as real - price * 100.0 <= 0.5
      && (cents as real - price * 100.0 == 0.5 ==> price > 0.0)
      && (cents as real - price * 100.0 == -0.5 ==> price < 0.0)
  {
  }

  // ---------------------------------------------------------------- refusals

  /** When a product create is refused, and as what. */
  lemma CreateProductRefusals(s: State, newId: nat, now: int, input: CreateProductInput)
    ensures Exec(s, CreateProduct(newId, now, input)).result.Ok? <==>
      && |input.name| <= 255 && 0 <= ToCents(input.price) <= 9999999999
      && newId !in s.products && (forall id | id in s.products :: s.products[id].name != input.name)
      && |input.actor| <= 255 && |input.requestId| <= 64
    ensures var r := Exec(s, CreateProduct(newId, now, input)).result;
      r.Err? ==>
        r.error == if |input.name| <= 255 && 0 <= ToCents(input.price) <= 9999999999
                      && (newId in s.products || exists id :: id in s.products && s.products[id].name == input.name)
                   then Conflict else Internal
  {
  }

  lemma UpdateProductRefusals(s: State, input: UpdateProductInput)
    ensures var r := Exec(s, UpdateProduct(input)).result;
      if input.id !in s.products then r == Err(NotFound)
      else if s.products[input.id].version != input.expectedVersion then r == Err(VersionConflict)
      else if !(|input.name| <= 255 && 0 <= ToCents(input.price) <= 9999999999) then r == Err(Internal)
      else if exists id :: id in s.products && id != input.id && s.products[id].name == input.name
          then r == Err(Conflict)
      else if |input.actor| > 255 || |input.reason| > 64 || |input.requestId| > 64 then r == Err(Internal)
      else r.Ok?
  {
  }

  /** The lifecycle edges, spelled out. */
  lemma TransitionRefusals(s: State, input: TransitionInput)
    ensures var r := Exec(s, Transition(input)).result;
      if input.id !in s.products then r == Err(NotFound)
      else if input.step.UnknownAction? then r == Err(InvalidInput)
      else
        var from := s.products[input.id].status;
        if !(|| (input.step == Publish && from == Draft)
             || (input.step == Archive && from != Archived)
             || (input.step == Restore && from == Archived)) then r == Err(InvalidTransition)
        else if |input.actor| > 255 || |input.reason| > 64 || |input.requestId| > 64 then r == Err(Internal)
        else r.Ok?
  {
  }

  lemma CreateCategoryRefusals(s: State, newId: nat, input: CategoryInput)
    ensures var r := Exec(s, CreateCategory(newId, input)).result;
      if |input.name| > 100 then r == Err(Internal)
      else if newId in s.categories || exists id :: id in s.categories && s.categories[id].name == input.name then
        r == Err(Conflict)
      else if |input.actor| > 255 || |input.requestId| > 64 then r == Err(Internal)
      else r.Ok?
  {
  }

  lemma UpdateCategoryRefusals(s: State, id: nat, input: CategoryInput)
    ensures var r := Exec(s, UpdateCategory(id, input)).result;
      if id !in s.categories then r == Err(NotFound)
      else if |input.name| > 100 then r == Err(Internal)
      else if exists other :: other in s.categories && other != id && s.categories[other].name == input.name then
        r == Err(Conflict)
      else if |input.actor| > 255 || |input.requestId| > 64 then r == Err(Internal)
      else r.Ok?
  {
  }

  // ------------------------------------------------- what an accepted one leaves

  /** A row put into the category of a name: it refers to one of that name, and to
      none only when there is none. */
  predicate Filed(categories: map<nat, Category>, name: string, category: Option<nat>) {
    match category
    case Some(c) => c in categories && categories[c].name == name
    case None => forall c | c in categories :: categories[c].name != name
  }

  /** The row of a new product: a draft of version 1, created now. */
  lemma CreateProductLeaves(s: State, newId: nat, now: int, input: CreateProductInput)
    requires Exec(s, CreateProduct(newId, now, input)).result.Ok?
    ensures var s' := Exec(s, CreateProduct(newId, now, input)).state;
      && newId in s'.products && s'.categories == s.categories
      && var row := s'.products[newId];
         && row.name == input.name && row.description == input.description && row.cents == ToCents(input.price)
         && row.status == Draft && row.version == 1 && row.createdAt == now
         && Filed(s.categories, input.category, row.category)
    ensures var row := Exec(s, CreateProduct(newId, now, input)).state.audit[|s.audit|];
      && row.action == CreateAction && row.versionBefore == None && row.versionAfter == Some(1)
      && row.changed.Some? && row.changed.value.Keys == {NameField, PriceField, CategoryField}
      && row.changed.value[NameField] == Text(input.name) && row.changed.value[PriceField] == Number(input.price)
      && row.changed.value[CategoryField] == Text(input.category)
  {
    CommittedEntry(s, CreateProduct(newId, now, input));
    var changed := CreateChanges(input);
    assert NameField in changed && changed != map[];
  }

  /** An edit replaces name, description, price and category, counts the version up,
      and leaves the status and the creation time alone. */
  lemma UpdateProductLeaves(s: State, input: UpdateProductInput)
    requires Exec(s, UpdateProduct(input)).result.Ok?
    ensures var s' := Exec(s, UpdateProduct(input)).state;
      && input.id in s.products && input.id in s'.products && s'.categories == s.categories
      && var was, row := s.products[input.id], s'.products[input.id];
         && row.name == input.name && row.description == input.description && row.cents == ToCents(input.price)
         && row.status == was.status && row.version == was.version + 1 && row.createdAt == was.createdAt
         && Filed(s.categories, input.category, row.category)
  {
    CommittedEntry(s, UpdateProduct(input));
  }

  function Differs<T(==)>(before: T, after: T, change: FieldValue): Option<FieldValue> {
    if before == after then None else Some(change)
  }

  function Logged(row: AuditRow, field: FieldName): Option<FieldValue> {
    if row.changed.Some? && field in row.changed.value then Some(row.changed.value[field]) else None
  }

  /** The audit row of an edit has every field that differs, with what it was and what
      was asked for, and no other. */
  lemma UpdateProductLogs(s: State, input: UpdateProductInput)
    requires Exec(s, UpdateProduct(input)).result.Ok?
    ensures input.id in s.products
    ensures var was, row := s.products[input.id], Exec(s, UpdateProduct(input)).state.audit[|s.audit|];
      var price := was.cents as real / 100.0;
      var shown := if was.category.Some? && was.category.value in s.categories
                   then s.categories[was.category.value].name else "";
      && row.action == UpdateAction
      && row.versionBefore == Some(was.version) && row.versionAfter == Some(was.version + 1)
      && Logged(row, NameField) == Differs(was.name, input.name, TextChange(was.name, input.name))
      && Logged(row, PriceField) == Differs(price, input.price, NumberChange(price, input.price))
      && Logged(row, DescriptionField)
         == Differs(was.description, input.description, TextChange(was.description, input.description))
      && Logged(row, CategoryField) == Differs(shown, input.category, TextChange(shown, input.category))
      && Logged(row, StatusField) == None
      && (row.changed == None <==>
            was.name == input.name && price == input.price && was.description == input.description
                && shown == input.category)
  {
    CommittedEntry(s, UpdateProduct(input));
    ChangeSet(RowView(s.categories, input.id, s.products[input.id]), input);
  }

  lemma ChangeSet(before: AdminProduct, input: UpdateProductInput)
    ensures var row := UpdateEntry(before, input);
      && Logged(row, NameField) == Differs(before.name, input.name, TextChange(before.name, input.name))
      && Logged(row, PriceField) == Differs(before.price, input.price, NumberChange(before.price, input.price))
      && Logged(row, DescriptionField)
         == Differs(before.description, input.description, TextChange(before.description, input.description))
      && Logged(row, CategoryField) == Differs(before.category, input.category,
         TextChange(before.category, input.category))
      && Logged(row, StatusField) == None
      && (row.changed == None <==>
            && before.name == input.name && before.price == input.price
            && before.description == input.description && before.category == input.category)
  {
    var changed := UpdateChanges(before, input);
    var row := UpdateEntry(before, input);
    ChangedFields(before, input);
    LoggedAs(row, changed, NameField);
    LoggedAs(row, changed, PriceField);
    LoggedAs(row, changed, DescriptionField);
    LoggedAs(row, changed, CategoryField);
    LoggedAs(row, changed, StatusField);
    if changed != map[] {
      var field :| field in changed;
    }
  }

  lemma ChangedFields(before: AdminProduct, input: UpdateProductInput)
    ensures var changed := UpdateChanges(before, input);
      && (NameField in changed <==> before.name != input.name)
      && (NameField in changed ==> changed[NameField] == TextChange(before.name, input.name))
      && (PriceField in changed <==> before.price != input.price)
      && (PriceField in changed ==> changed[PriceField] == NumberChange(before.price, input.price))
      && (DescriptionField in changed <==> before.description != input.description)
      && (DescriptionField in changed ==>
         changed[DescriptionField] == TextChange(before.description, input.description))
      && (CategoryField in changed <==> before.category != input.category)
      && (CategoryField in changed ==> changed[CategoryField] == TextChange(before.category, input.category))
      && StatusField !in changed
  {
  }

  lemma LoggedAs(row: AuditRow, changed: Changes, field: FieldName)
    requires row.changed == StoredChanges(changed)
    ensures Logged(row, field) == if field in changed then Some(changed[field]) else None
  {
  }

  /** A lifecycle command changes the status, counts the version up, and logs both. */
  lemma TransitionLeaves(s: State, input: TransitionInput)
    requires Exec(s, Transition(input)).result.Ok?
    ensures var s' := Exec(s, Transition(input)).state;
      && input.id in s.products && input.id in s'.products && s'.categories == s.categories
      && var was, row := s.products[input.id], s'.products[input.id];
         && row == was.(status := if input.step == Archive then Archived else Active, version := was.version + 1)
         && var entry := s'.audit[|s.audit|];
            && entry.action == LifecycleStep(input.step)
            && entry.versionBefore == Some(was.version) && entry.versionAfter == Some(row.version)
            && entry.changed == Some(map[StatusField := StatusChange(was.status, row.status)])
  {
    CommittedEntry(s, Transition(input));
    var was := s.products[input.id];
    var next := NextStatus(was.status, input.step).value;
    assert StatusField in TransitionChanges(was.status, next);
  }

  lemma CreateCategoryLeaves(s: State, newId: nat, input: CategoryInput)
    requires Exec(s, CreateCategory(newId, input)).result.Ok?
    ensures var s' := Exec(s, CreateCategory(newId, input)).state;
      && s'.products == s.products && newId in s'.categories
      && s'.categories[newId].name == input.name && s'.categories[newId].description == input.description
      && var entry := s'.audit[|s.audit|];
         && entry.action == CreateAction && entry.versionBefore == None && entry.versionAfter == None
         && entry.changed.Some? && entry.changed.value.Keys == {NameField, DescriptionField}
         && entry.changed.value[NameField] == Text(input.name)
         && entry.changed.value[DescriptionField] == Text(input.description)
  {
    CommittedEntry(s, CreateCategory(newId, input));
    assert NameField in CreateCategoryChanges(input);
  }

  lemma UpdateCategoryLeaves(s: State, id: nat, input: CategoryInput)
    requires Exec(s, UpdateCategory(id, input)).result.Ok?
    ensures var s' := Exec(s, UpdateCategory(id, input)).state;
      && s'.products == s.products && id in s.categories && id in s'.categories
      && s'.categories[id].name == input.name && s'.categories[id].description == input.description
      && var was, entry := s.categories[id], s'.audit[|s.audit|];
         && entry.action == UpdateAction && entry.versionBefore == None && entry.versionAfter == None
         && Logged(entry, NameField) == Differs(was.name, input.name, TextChange(was.name, input.name))
         && Logged(entry, DescriptionField)
            == Differs(was.description, input.description, TextChange(was.description, input.description))
         && (entry.changed == None <==> was.name == input.name && was.description == input.description)
         && (entry.changed.Some? ==> entry.changed.value.Keys <= {NameField, DescriptionField})
  {
    CommittedEntry(s, UpdateCategory(id, input));
    var changed := UpdateCategoryChanges(s.categories[id], input);
    FieldsOfStored(UpdateCategoryEntry(id, s.categories[id], input), changed);
    if s.categories[id].name != input.name { assert NameField in changed; }
    if s.categories[id].description != input.description { assert DescriptionField in changed; }
  }
}
