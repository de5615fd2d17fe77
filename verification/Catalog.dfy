/** The committed catalogue and the meaning of each privileged command as one
    atomic step (internal/core/repository/catalog_admin_repository.go over the
    tables of migrations 000001 and 000007).

    A row id is drawn from a SERIAL sequence, which no rollback gives back, so
    the id a create received is part of the command; a collision with an
    existing primary key is the same SQLSTATE 23505 as a taken name. */
module Catalog {
  import opened Domain

  datatype Category = Category(name: string, description: string)

  datatype Product = Product(
    name: string,
    description: string,
    cents: int,                // DECIMAL(10,2), in hundredths
    category: Option<nat>,     // category_id, NULL when uncategorised
    status: ProductStatus,
    version: int,
    createdAt: int)

  /** The operator's projection: price as a number, category resolved by join. */
  datatype AdminProduct = AdminProduct(
    id: nat, name: string, price: real, description: string,
    category: string, status: ProductStatus, version: int)

  // The keys and values of the audit's changed_fields object.
  datatype FieldName = NameField | PriceField | DescriptionField | CategoryField | StatusField

  datatype FieldValue =
    | Text(text: string)
    | Number(number: real)
    | TextChange(before: string, after: string)
    | NumberChange(numberBefore: real, numberAfter: real)
    | StatusChange(statusBefore: ProductStatus, statusAfter: ProductStatus)

  type Changes = map<FieldName, FieldValue>

  datatype Target = ProductTarget(id: nat) | CategoryTarget(id: nat)

  datatype AuditAction = CreateAction | UpdateAction | LifecycleStep(step: LifecycleAction)

  datatype AuditRow = AuditRow(
    target: Target,
    action: AuditAction,
    actor: string,
    reason: Option<string>,
    changed: Option<Changes>,
    versionBefore: Option<int>,
    versionAfter: Option<int>,
    requestId: Option<string>)

  datatype State = State(
    products: map<nat, Product>,
    categories: map<nat, Category>,
    audit: seq<AuditRow>)

  // ---------------------------------------------------------------- storage

  const MAX_CENTS := 9999999999   // DECIMAL(10,2)

  function Dollars(cents: int): real { cents as real / 100.0 }

  /** To the nearest whole number, halves away from zero. */
  function RoundHalfAway(x: real): int {
    if x >= 0.0 then (x + 0.5).Floor else -((-x + 0.5).Floor)
  }

  /** Assignment of a number to DECIMAL(10,2). */
  function ToCents(price: real): int { RoundHalfAway(price * 100.0) }

  predicate TwoDecimal(price: real) { Dollars(ToCents(price)) == price }

  lemma CentsOfDollars(cents: int)
    ensures ToCents(Dollars(cents)) == cents
    ensures TwoDecimal(Dollars(cents))
  {
    assert Dollars(cents) * 100.0 == cents as real;
  }

  /** The column limits of a product row: VARCHAR(255), DECIMAL(10,2), price >= 0. */
  predicate RowFits(name: string, price: real) {
    |name| <= 255 && 0 <= ToCents(price) <= MAX_CENTS
  }

  /** The column limits of an audit row. */
  predicate AuditFits(row: AuditRow) {
    && |row.actor| <= 255
    && (row.reason.Some? ==> |row.reason.value| <= 64)
    && (row.requestId.Some? ==> |row.requestId.value| <= 64)
  }

  function NullIfEmpty(s: string): Option<string> { if s == "" then None else Some(s) }

  /** An empty change set is stored as SQL NULL. */
  function StoredChanges(changed: Changes): Option<Changes> {
    if changed != map[] then Some(changed) else None
  }

  function Fields(row: AuditRow): Changes {
    if row.changed.Some? then row.changed.value else map[]
  }

  lemma FieldsOfStored(row: AuditRow, changed: Changes)
    requires row.changed == StoredChanges(changed)
    ensures Fields(row) == changed
  {
    if |changed| == 0 { assert changed == map[]; }
  }

  /** (SELECT id FROM categories WHERE name = $n) */
  ghost function Resolve(categories: map<nat, Category>, name: string): (id: Option<nat>)
    ensures id.Some? ==> id.value in categories && categories[id.value].name == name
    ensures id.None? ==> forall c | c in categories :: categories[c].name != name
  {
    if exists c :: c in categories && categories[c].name == name then
      var c :| c in categories && categories[c].name == name;
      Some(c)
    else
      None
  }

  /** COALESCE(c.name, '') over the LEFT JOIN. */
  function CategoryName(categories: map<nat, Category>, id: Option<nat>): string {
    if id.Some? && id.value in categories then categories[id.value].name else ""
  }

  function RowView(categories: map<nat, Category>, id: nat, p: Product): AdminProduct {
    AdminProduct(id, p.name, Dollars(p.cents), p.description, CategoryName(categories, p.category), p.status, p.version)
  }

  predicate NameTaken(products: map<nat, Product>, name: string, self: Option<nat>) {
    exists id :: id in products && self != Some(id) && products[id].name == name
  }

  predicate CategoryTaken(categories: map<nat, Category>, name: string, self: Option<nat>) {
    exists id :: id in categories && self != Some(id) && categories[id].name == name
  }

  // ------------------------------------------------------------ invariant

  ghost predicate UniqueProducts(products: map<nat, Product>) {
    forall a, b | a in products && b in products && products[a].name == products[b].name :: a == b
  }

  ghost predicate UniqueCategories(categories: map<nat, Category>) {
    forall a, b | a in categories && b in categories && categories[a].name == categories[b].name :: a == b
  }

  ghost predicate RowOk(categories: map<nat, Category>, p: Product) {
    0 <= p.cents <= MAX_CENTS && (p.category.Some? ==> p.category.value in categories)
  }

  /** What the schema's constraints keep true of every committed state. */
  ghost predicate Valid(s: State) {
    && UniqueProducts(s.products)
    && UniqueCategories(s.categories)
    && forall id | id in s.products :: RowOk(s.categories, s.products[id])
  }

  // ------------------------------------------------------------- commands

  datatype CreateProductInput = CreateProductInput(
    name: string, price: real, description: string, category: string, actor: string, requestId: string)

  datatype UpdateProductInput = UpdateProductInput(
    id: nat, name: string, price: real, description: string, category: string,
    expectedVersion: int, actor: string, reason: string, requestId: string)

  datatype TransitionInput = TransitionInput(
    id: nat, step: LifecycleAction, actor: string, reason: string, requestId: string)

  datatype CategoryInput = CategoryInput(name: string, description: string, actor: string, requestId: string)

  /** `newId` is what the table's sequence returned, `now` the transaction's timestamp. */
  datatype Command =
    | CreateProduct(newId: nat, now: int, product: CreateProductInput)
    | UpdateProduct(update: UpdateProductInput)
    | Transition(transition: TransitionInput)
    | CreateCategory(newCategoryId: nat, newCategory: CategoryInput)
    | UpdateCategory(categoryId: nat, category: CategoryInput)

  datatype Reply = ProductReply(product: AdminProduct) | CategoryReply(id: nat, category: Category)

  datatype Outcome = Outcome(state: State, result: Result<Reply>)

  function Refused(s: State, e: DomainError): Outcome { Outcome(s, Err(e)) }

  function CreateRow(input: CreateProductInput, now: int, category: Option<nat>): Product {
    Product(input.name, input.description, ToCents(input.price), category, Draft, 1, now)
  }

  function CreateChanges(input: CreateProductInput): Changes {
    map[NameField := Text(input.name), PriceField := Number(input.price), CategoryField := Text(input.category)]
  }

  function CreateEntry(newId: nat, input: CreateProductInput): AuditRow {
    AuditRow(ProductTarget(newId), CreateAction, input.actor, None, StoredChanges(CreateChanges(input)),
             None, Some(1), NullIfEmpty(input.requestId))
  }

  function UpdateRow(before: Product, input: UpdateProductInput, category: Option<nat>): Product {
    Product(input.name, input.description, ToCents(input.price), category, before.status, before.version + 1,
        before.createdAt)
  }

  function ChangedText(field: FieldName, before: string, after: string): Changes {
    if before != after then map[field := TextChange(before, after)] else map[]
  }

  function ChangedNumber(field: FieldName, before: real, after: real): Changes {
    if before != after then map[field := NumberChange(before, after)] else map[]
  }

  function UpdateChanges(before: AdminProduct, input: UpdateProductInput): Changes {
    ChangedText(NameField, before.name, input.name)
    + ChangedNumber(PriceField, before.price, input.price)
    + ChangedText(DescriptionField, before.description, input.description)
    + ChangedText(CategoryField, before.category, input.category)
  }

  function UpdateEntry(before: AdminProduct, input: UpdateProductInput): AuditRow {
    AuditRow(ProductTarget(input.id), UpdateAction, input.actor, NullIfEmpty(input.reason),
             StoredChanges(UpdateChanges(before, input)),
             Some(before.version), Some(before.version + 1), NullIfEmpty(input.requestId))
  }

  function TransitionRow(before: Product, next: ProductStatus): Product {
    before.(status := next, version := before.version + 1)
  }

  function TransitionChanges(from: ProductStatus, next: ProductStatus): Changes {
    map[StatusField := StatusChange(from, next)]
  }

  function TransitionEntry(before: Product, next: ProductStatus, input: TransitionInput): AuditRow {
    AuditRow(ProductTarget(input.id), LifecycleStep(input.step), input.actor, NullIfEmpty(input.reason),
             StoredChanges(TransitionChanges(before.status, next)),
             Some(before.version), Some(before.version + 1), NullIfEmpty(input.requestId))
  }

  function CategoryRow(input: CategoryInput): Category { Category(input.name, input.description) }

  function CreateCategoryChanges(input: CategoryInput): Changes {
    map[NameField := Text(input.name), DescriptionField := Text(input.description)]
  }

  function CreateCategoryEntry(newId: nat, input: CategoryInput): AuditRow {
    AuditRow(CategoryTarget(newId), CreateAction, input.actor, None, StoredChanges(CreateCategoryChanges(input)),
             None, None, NullIfEmpty(input.requestId))
  }

  function UpdateCategoryChanges(before: Category, input: CategoryInput): Changes {
    ChangedText(NameField, before.name, input.name)
        + ChangedText(DescriptionField, before.description, input.description)
  }

  function UpdateCategoryEntry(id: nat, before: Category, input: CategoryInput): AuditRow {
    AuditRow(CategoryTarget(id), UpdateAction, input.actor, None, StoredChanges(UpdateCategoryChanges(before, input)),
             None, None, NullIfEmpty(input.requestId))
  }

  /** What a command that is not refused writes: one row and its audit row. */
  datatype Write =
    | ProductWrite(id: nat, row: Product, entry: AuditRow)
    | CategoryWrite(id: nat, categoryRow: Category, entry: AuditRow)

  ghost function DecideCreateProduct(s: State, newId: nat, now: int, input: CreateProductInput): Result<Write> {
    if !RowFits(input.name, input.price) then Err(Internal)
    else if newId in s.products || NameTaken(s.products, input.name, None) then Err(Conflict)
    else Ok(ProductWrite(newId, CreateRow(input, now, Resolve(s.categories, input.category)),
        CreateEntry(newId, input)))
  }

  ghost function DecideUpdateProduct(s: State, input: UpdateProductInput): Result<Write> {
    if input.id !in s.products then Err(NotFound)
    else if s.products[input.id].version != input.expectedVersion then Err(VersionConflict)
    else if !RowFits(input.name, input.price) then Err(Internal)
    else if NameTaken(s.products, input.name, Some(input.id)) then Err(Conflict)
    else
      var before := s.products[input.id];
      Ok(ProductWrite(input.id, UpdateRow(before, input, Resolve(s.categories, input.category)),
                      UpdateEntry(RowView(s.categories, input.id, before), input)))
  }

  function DecideTransition(s: State, input: TransitionInput): Result<Write> {
    if input.id !in s.products then Err(NotFound)
    else
      var before := s.products[input.id];
      match NextStatus(before.status, input.step)
      case Err(e) => Err(e)
      case Ok(next) => Ok(ProductWrite(input.id, TransitionRow(before, next), TransitionEntry(before, next, input)))
  }

  function DecideCreateCategory(s: State, newId: nat, input: CategoryInput): Result<Write> {
    if |input.name| > 100 then Err(Internal)
    else if newId in s.categories || CategoryTaken(s.categories, input.name, None) then Err(Conflict)
    else Ok(CategoryWrite(newId, CategoryRow(input), CreateCategoryEntry(newId, input)))
  }

  function DecideUpdateCategory(s: State, id: nat, input: CategoryInput): Result<Write> {
    if id !in s.categories then Err(NotFound)
    else if |input.name| > 100 then Err(Internal)
    else if CategoryTaken(s.categories, input.name, Some(id)) then Err(Conflict)
    else Ok(CategoryWrite(id, CategoryRow(input), UpdateCategoryEntry(id, s.categories[id], input)))
  }

  ghost function Decide(s: State, c: Command): Result<Write> {
    match c
    case CreateProduct(newId, now, input) => DecideCreateProduct(s, newId, now, input)
    case UpdateProduct(input) => DecideUpdateProduct(s, input)
    case Transition(input) => DecideTransition(s, input)
    case CreateCategory(newId, input) => DecideCreateCategory(s, newId, input)
    case UpdateCategory(id, input) => DecideUpdateCategory(s, id, input)
  }

  function Commit(s: State, w: Write): State {
    match w
    case ProductWrite(id, row, entry) => State(s.products[id := row], s.categories, s.audit + [entry])
    case CategoryWrite(id, row, entry) => State(s.products, s.categories[id := row], s.audit + [entry])
  }

  function ReplyTo(s: State, w: Write): Reply {
    match w
    case ProductWrite(id, row, _) => ProductReply(RowView(s.categories, id, row))
    case CategoryWrite(id, row, _) => CategoryReply(id, row)
  }

  /** The meaning of a command run alone on a committed state. A write whose
      audit row does not fit its table is rolled back with it. */
  ghost function Exec(s: State, c: Command): Outcome {
    match Decide(s, c)
    case Err(e) => Refused(s, e)
    case Ok(w) => if AuditFits(w.entry) then Outcome(Commit(s, w), Ok(ReplyTo(s, w))) else Refused(s, Internal)
  }

  /** The state after a whole run of commands, refused ones included. */
  ghost function Run(s: State, cs: seq<Command>): State
    decreases |cs|
  {
    if cs == [] then s else Exec(Run(s, cs[..|cs| - 1]), cs[|cs| - 1]).state
  }

  lemma RunPrefix(s: State, cs: seq<Command>, i: nat)
    requires i < |cs|
    ensures Run(s, cs[..i + 1]) == Exec(Run(s, cs[..i]), cs[i]).state
  {
    assert cs[..i + 1][..i] == cs[..i];
  }

  lemma {:induction false} RunConcat(s: State, a: seq<Command>, b: seq<Command>)
    ensures Run(s, a + b) == Run(Run(s, a), b)
    decreases |b|
  {
    if b == [] {
      assert a + b == a;
    } else {
      var b' := b[..|b| - 1];
      assert (a + b)[..|a + b| - 1] == a + b';
      RunConcat(s, a, b');
    }
  }

  // -------------------------------------------------- what every command keeps

  /** The one row a command writes. */
  function WrittenRow(c: Command): Target {
    match c
    case CreateProduct(newId, _, _) => ProductTarget(newId)
    case UpdateProduct(input) => ProductTarget(input.id)
    case Transition(input) => ProductTarget(input.id)
    case CreateCategory(newId, _) => CategoryTarget(newId)
    case UpdateCategory(id, _) => CategoryTarget(id)
  }

  function Actor(c: Command): string {
    match c
    case CreateProduct(_, _, input) => input.actor
    case UpdateProduct(input) => input.actor
    case Transition(input) => input.actor
    case CreateCategory(_, input) => input.actor
    case UpdateCategory(_, input) => input.actor
  }

  /** The tables agree everywhere except, possibly, at the row `t`; no row is lost. */
  ghost predicate OnlyRowChanged(s: State, s': State, t: Target) {
    && s'.products.Keys == s.products.Keys + (if t.ProductTarget? then {t.id} else {})
    && s'.categories.Keys == s.categories.Keys + (if t.CategoryTarget? then {t.id} else {})
    && (forall id | id in s.products && t != ProductTarget(id) :: s'.products[id] == s.products[id])
    && (forall id | id in s.categories && t != CategoryTarget(id) :: s'.categories[id] == s.categories[id])
  }

  lemma DecideTarget(s: State, c: Command)
    requires Decide(s, c).Ok?
    ensures var w := Decide(s, c).value;
      && w.entry.target == WrittenRow(c) && w.entry.actor == Actor(c)
      && WrittenRow(c) == (if w.ProductWrite? then ProductTarget(w.id) else CategoryTarget(w.id))
  {
  }

  lemma CommitShape(s: State, w: Write, s': State, t: Target)
    requires s' == Commit(s, w) && t == if w.ProductWrite? then ProductTarget(w.id) else CategoryTarget(w.id)
    ensures OnlyRowChanged(s, s', t)
    ensures |s'.audit| == |s.audit| + 1 && s'.audit[..|s.audit|] == s.audit && s'.audit[|s.audit|] == w.entry
  {
  }

  /** A command either changes nothing at all, or succeeds, writes one row of one
      table and appends exactly one audit row about it: the write and its audit
      land together or not at all. */
  lemma AllOrNothing(s: State, c: Command)
    ensures Exec(s, c).result.Err? ==> Exec(s, c).state == s
    ensures Exec(s, c).result.Ok? ==>
      var s' := Exec(s, c).state;
      && OnlyRowChanged(s, s', WrittenRow(c))
      && |s'.audit| == |s.audit| + 1
      && s'.audit[..|s.audit|] == s.audit
      && s'.audit[|s.audit|].target == WrittenRow(c)
      && s'.audit[|s.audit|].actor == Actor(c)
  {
    if Decide(s, c).Ok? && AuditFits(Decide(s, c).value.entry) {
      var w := Decide(s, c).value;
      DecideTarget(s, c);
      CommitShape(s, w, Commit(s, w), WrittenRow(c));
    }
  }

  lemma UpdateKeepsUniqueProducts(products: map<nat, Product>, id: nat, row: Product)
    requires UniqueProducts(products) && !NameTaken(products, row.name, Some(id))
    ensures UniqueProducts(products[id := row])
  {
  }

  lemma UpdateKeepsUniqueCategories(categories: map<nat, Category>, id: nat, row: Category)
    requires UniqueCategories(categories) && !CategoryTaken(categories, row.name, Some(id))
    ensures UniqueCategories(categories[id := row])
  {
  }

  lemma DecideKeepsRules(s: State, c: Command)
    requires Valid(s) && Decide(s, c).Ok?
    ensures var w := Decide(s, c).value;
      if w.ProductWrite? then RowOk(s.categories, w.row) && !NameTaken(s.products, w.row.name, Some(w.id))
      else !CategoryTaken(s.categories, w.categoryRow.name, Some(w.id))
  {
  }

  /** Every command keeps the schema's constraints: names stay unique in both
      tables, prices stay in range and category references stay resolvable. */
  lemma ExecKeepsValid(s: State, c: Command)
    requires Valid(s)
    ensures Valid(Exec(s, c).state)
  {
    if Decide(s, c).Ok? {
      DecideKeepsRules(s, c);
      var w := Decide(s, c).value;
      if w.ProductWrite? {
        UpdateKeepsUniqueProducts(s.products, w.id, w.row);
      } else {
        UpdateKeepsUniqueCategories(s.categories, w.id, w.categoryRow);
      }
    }
  }

  lemma {:induction false} RunKeepsValid(s: State, cs: seq<Command>)
    requires Valid(s)
    ensures Valid(Run(s, cs))
    decreases |cs|
  {
    if cs != [] {
      RunKeepsValid(s, cs[..|cs| - 1]);
      ExecKeepsValid(Run(s, cs[..|cs| - 1]), cs[|cs| - 1]);
    }
  }
}
