/** The audit log as an event log: a replica that only ever reads audit rows,
    and exactly when it stays equal to the tables. */
module AuditReplay {
  import opened Domain
  import opened Catalog

  /** A product as the audit log knows it. A create does not audit the
      description, so it is known only from a snapshot or a later edit. */
  datatype KnownProduct = KnownProduct(
    name: string, price: real, category: string, status: ProductStatus, version: int, description: Option<string>)

  datatype Replica = Replica(products: map<nat, KnownProduct>, categories: map<nat, Category>)

  function Snapshot(s: State): Replica {
    Replica(map id | id in s.products ::
              var p := s.products[id];
              KnownProduct(p.name, Dollars(p.cents), CategoryName(s.categories, p.category), p.status, p.version,
                  Some(p.description)),
            s.categories)
  }

  function TextOf(changed: Changes, field: FieldName): string {
    if field in changed && changed[field].Text? then changed[field].text else ""
  }

  function AfterText(changed: Changes, field: FieldName, current: string): string {
    if field in changed && changed[field].TextChange? then changed[field].after else current
  }

  function ApplyToProduct(r: Replica, id: nat, row: AuditRow): Replica {
    var changed := Fields(row);
    var version := if row.versionAfter.Some? then row.versionAfter.value else 0;
    match row.action
    case CreateAction =>
      var price := if PriceField in changed && changed[PriceField].Number? then changed[PriceField].number else 0.0;
      r.(products := r.products[id := KnownProduct(TextOf(changed, NameField), price, TextOf(changed, CategoryField),
          Draft, version, None)])
    case UpdateAction =>
      if id !in r.products then r
      else
        var k := r.products[id];
        var price := if PriceField in changed && changed[PriceField].NumberChange?
            then changed[PriceField].numberAfter else k.price;
        var description := if DescriptionField in changed && changed[DescriptionField].TextChange?
            then Some(changed[DescriptionField].after) else k.description;
        r.(products := r.products[id := KnownProduct(AfterText(changed, NameField, k.name), price,
                                                     AfterText(changed, CategoryField, k.category), k.status, version,
                                                         description)])
    case LifecycleStep(_) =>
      if id !in r.products then r
      else
        var k := r.products[id];
        var status := if StatusField in changed && changed[StatusField].StatusChange?
            then changed[StatusField].statusAfter else k.status;
        r.(products := r.products[id := k.(status := status, version := version)])
  }

  function Renamed(k: KnownProduct, from: string, to: string): KnownProduct {
    if k.category == from then k.(category := to) else k
  }

  /** A category row names no product, so a rename is carried over by name. */
  function ApplyToCategory(r: Replica, id: nat, row: AuditRow): Replica {
    var changed := Fields(row);
    match row.action
    case CreateAction =>
      r.(categories := r.categories[id := Category(TextOf(changed, NameField), TextOf(changed, DescriptionField))])
    case _ =>
      if id !in r.categories then r
      else
        var k := r.categories[id];
        var name := AfterText(changed, NameField, k.name);
        Replica(map p | p in r.products :: Renamed(r.products[p], k.name, name),
                r.categories[id := Category(name, AfterText(changed, DescriptionField, k.description))])
  }

  function Apply(r: Replica, row: AuditRow): Replica {
    match row.target
    case ProductTarget(id) => ApplyToProduct(r, id, row)
    case CategoryTarget(id) => ApplyToCategory(r, id, row)
  }

  function Replay(r: Replica, log: seq<AuditRow>): Replica
    decreases |log|
  {
    if log == [] then r else Apply(Replay(r, log[..|log| - 1]), log[|log| - 1])
  }

  // ------------------------------------------------------------ agreement

  ghost predicate Describes(k: KnownProduct, categories: map<nat, Category>, p: Product) {
    && k.name == p.name
    && k.price == Dollars(p.cents)
    && k.category == CategoryName(categories, p.category)
    && k.status == p.status
    && k.version == p.version
    && (k.description.Some? ==> k.description.value == p.description)
  }

  ghost predicate Matches(r: Replica, s: State) {
    && r.categories == s.categories
    && r.products.Keys == s.products.Keys
    && forall id | id in s.products :: Describes(r.products[id], s.categories, s.products[id])
  }

  /** The request bodies bind a category name as required. */
  predicate NamesCategory(c: Command) {
    && (c.CreateCategory? ==> c.newCategory.name != "")
    && (c.UpdateCategory? ==> c.category.name != "")
  }

  ghost predicate NoBlankCategory(s: State) {
    forall c | c in s.categories :: s.categories[c].name != ""
  }

  ghost predicate CanSay(s: State, price: real, category: string) {
    TwoDecimal(price) && (category == "" || exists id :: id in s.categories && s.categories[id].name == category)
  }

  /** What the audit row of a product write must be able to say: a price with at
      most two decimals and a category that exists, or none. */
  ghost predicate Faithful(s: State, c: Command) {
    && (c.CreateProduct? ==> CanSay(s, c.product.price, c.product.category))
    && (c.UpdateProduct? ==> CanSay(s, c.update.price, c.update.category))
  }

  lemma ResolvedName(s: State, name: string)
    requires NoBlankCategory(s)
    ensures CategoryName(s.categories, Resolve(s.categories, name)) == name
            <==> (name == "" || exists id :: id in s.categories && s.categories[id].name == name)
  {
  }

  lemma WriteMatches(r: Replica, s: State, id: nat, k: KnownProduct, row: Product, entry: AuditRow)
    requires Matches(r, s)
    ensures Matches(Replica(r.products[id := k], r.categories), Commit(s, ProductWrite(id, row, entry)))
            <==> Describes(k, s.categories, row)
  {
    assert s.products[id := row][id] == row && r.products[id := k][id] == k;
  }

  lemma CreateStep(r: Replica, s: State, newId: nat, now: int, input: CreateProductInput)
    requires Matches(r, s) && NoBlankCategory(s)
    ensures var entry := CreateEntry(newId, input);
      var row := CreateRow(input, now, Resolve(s.categories, input.category));
      Matches(Apply(r, entry), Commit(s, ProductWrite(newId, row, entry))) <==> CanSay(s, input.price, input.category)
  {
    var entry := CreateEntry(newId, input);
    FieldsOfStored(entry, CreateChanges(input));
    ResolvedName(s, input.category);
    var k := KnownProduct(input.name, input.price, input.category, Draft, 1, None);
    assert Apply(r, entry) == Replica(r.products[newId := k], r.categories);
    WriteMatches(r, s, newId, k, CreateRow(input, now, Resolve(s.categories, input.category)), entry);
  }

  /** Reading an edit's change set forward from the row it was computed against
      gives the values the operator sent. */
  lemma ChangesCarryInput(before: AdminProduct, input: UpdateProductInput)
    ensures var changed := UpdateChanges(before, input);
      && AfterText(changed, NameField, before.name) == input.name
      && (CategoryField in changed <==> before.category != input.category)
      && (CategoryField in changed ==> changed[CategoryField] == TextChange(before.category, input.category))
      && (if PriceField in changed then changed[PriceField] == NumberChange(before.price, input.price)
         else before.price == input.price)
      && (if DescriptionField in changed then changed[DescriptionField]
         == TextChange(before.description, input.description)
          else before.description == input.description)
  {
  }

  lemma ReadUpdate(r: Replica, before: AdminProduct, input: UpdateProductInput) returns (k': KnownProduct)
    requires input.id in r.products
    requires var k := r.products[input.id]; k.name == before.name && k.price == before.price
    ensures Apply(r, UpdateEntry(before, input)) == Replica(r.products[input.id := k'], r.categories)
    ensures k'.name == input.name && k'.price == input.price
    ensures k'.category == if before.category != input.category then input.category else r.products[input.id].category
    ensures k'.status == r.products[input.id].status && k'.version == before.version + 1
    ensures k'.description == Some(input.description)
            || (k'.description == r.products[input.id].description && before.description == input.description)
  {
    var entry := UpdateEntry(before, input);
    FieldsOfStored(entry, UpdateChanges(before, input));
    ChangesCarryInput(before, input);
    k' := Apply(r, entry).products[input.id];
  }

  lemma UpdateStep(r: Replica, s: State, input: UpdateProductInput)
    requires Matches(r, s) && NoBlankCategory(s) && input.id in s.products
    ensures var before := s.products[input.id];
      var row := UpdateRow(before, input, Resolve(s.categories, input.category));
      var entry := UpdateEntry(RowView(s.categories, input.id, before), input);
      Matches(Apply(r, entry), Commit(s, ProductWrite(input.id, row, entry))) <==>
          CanSay(s, input.price, input.category)
  {
    var before := s.products[input.id];
    var view := RowView(s.categories, input.id, before);
    assert Describes(r.products[input.id], s.categories, before);
    var k' := ReadUpdate(r, view, input);
    ResolvedName(s, input.category);
    WriteMatches(r, s, input.id, k', UpdateRow(before, input, Resolve(s.categories, input.category)),
        UpdateEntry(view, input));
  }

  lemma TransitionReplay(r: Replica, s: State, input: TransitionInput, next: ProductStatus)
    requires Matches(r, s) && input.id in s.products
    ensures var before := s.products[input.id];
      var entry := TransitionEntry(before, next, input);
      Matches(Apply(r, entry), Commit(s, ProductWrite(input.id, TransitionRow(before, next), entry)))
  {
    var before := s.products[input.id];
    var entry := TransitionEntry(before, next, input);
    FieldsOfStored(entry, TransitionChanges(before.status, next));
    assert Describes(r.products[input.id], s.categories, before);
    var k' := r.products[input.id].(status := next, version := before.version + 1);
    assert Apply(r, entry) == Replica(r.products[input.id := k'], r.categories);
    WriteMatches(r, s, input.id, k', TransitionRow(before, next), entry);
  }

  lemma CreateCategoryReplay(r: Replica, s: State, newId: nat, input: CategoryInput)
    requires Matches(r, s) && Valid(s) && newId !in s.categories
    ensures var entry := CreateCategoryEntry(newId, input);
      Matches(Apply(r, entry), Commit(s, CategoryWrite(newId, CategoryRow(input), entry)))
  {
    FieldsOfStored(CreateCategoryEntry(newId, input), CreateCategoryChanges(input));
    forall id | id in s.products
      ensures CategoryName(s.categories[newId := CategoryRow(input)], s.products[id].category)
              == CategoryName(s.categories, s.products[id].category)
    {
      assert RowOk(s.categories, s.products[id]);
    }
  }

  lemma ReadCategoryUpdate(r: Replica, id: nat, input: CategoryInput)
    requires id in r.categories
    ensures var before := r.categories[id];
      Apply(r, UpdateCategoryEntry(id, before, input))
      == Replica(map p | p in r.products ::
          Renamed(r.products[p], before.name, input.name), r.categories[id := CategoryRow(input)])
  {
    var before := r.categories[id];
    FieldsOfStored(UpdateCategoryEntry(id, before, input), UpdateCategoryChanges(before, input));
  }

  lemma RenameDescribes(k: KnownProduct, categories: map<nat, Category>, id: nat, to: Category, p: Product)
    requires UniqueCategories(categories) && id in categories && categories[id].name != "" && RowOk(categories, p)
    requires Describes(k, categories, p)
    ensures Describes(Renamed(k, categories[id].name, to.name), categories[id := to], p)
  {
    if p.category.Some? && CategoryName(categories, p.category) == categories[id].name {
      assert categories[p.category.value].name == categories[id].name;
      assert p.category.value == id;
    }
  }

  /** The rename goes by name, so it needs names to be unique and never blank. */
  lemma UpdateCategoryReplay(r: Replica, s: State, id: nat, input: CategoryInput)
    requires Matches(r, s) && Valid(s) && NoBlankCategory(s) && id in s.categories
    ensures var entry := UpdateCategoryEntry(id, s.categories[id], input);
      Matches(Apply(r, entry), Commit(s, CategoryWrite(id, CategoryRow(input), entry)))
  {
    var before, to := s.categories[id], CategoryRow(input);
    ReadCategoryUpdate(r, id, input);
    forall p | p in s.products
      ensures Describes(Renamed(r.products[p], before.name, input.name), s.categories[id := to], s.products[p])
    {
      RenameDescribes(r.products[p], s.categories, id, to, s.products[p]);
    }
  }

  lemma CommittedEntry(s: State, c: Command)
    requires Exec(s, c).result.Ok?
    ensures Decide(s, c).Ok?
    ensures Exec(s, c).state == Commit(s, Decide(s, c).value)
    ensures Exec(s, c).state.audit == s.audit + [Decide(s, c).value.entry]
  {
  }

  lemma ProductReplay(r: Replica, s: State, c: Command, w: Write)
    requires Matches(r, s) && Valid(s) && NoBlankCategory(s) && Decide(s, c) == Ok(w)
    requires c.CreateProduct? || c.UpdateProduct? || c.Transition?
    ensures Matches(Apply(r, w.entry), Commit(s, w)) <==> Faithful(s, c)
  {
    match c
    case CreateProduct(newId, now, input) => CreateStep(r, s, newId, now, input);
    case UpdateProduct(input) => UpdateStep(r, s, input);
    case Transition(input) => TransitionReplay(r, s, input, NextStatus(s.products[input.id].status, input.step).value);
  }

  lemma CategoryReplay(r: Replica, s: State, c: Command, w: Write)
    requires Matches(r, s) && Valid(s) && NoBlankCategory(s) && Decide(s, c) == Ok(w)
    requires c.CreateCategory? || c.UpdateCategory?
    ensures Matches(Apply(r, w.entry), Commit(s, w))
  {
    match c
    case CreateCategory(newId, input) => CreateCategoryReplay(r, s, newId, input);
    case UpdateCategory(id, input) => UpdateCategoryReplay(r, s, id, input);
  }

  /** One successful command: the replica that has read its audit row agrees with
      the tables again exactly when the write was faithful. */
  lemma ReplayStepExact(r: Replica, s: State, c: Command)
    requires Matches(r, s) && Valid(s) && NoBlankCategory(s) && Exec(s, c).result.Ok?
    ensures var s' := Exec(s, c).state;
      Matches(Apply(r, s'.audit[|s.audit|]), s') <==> Faithful(s, c)
  {
    CommittedEntry(s, c);
    if c.CreateCategory? || c.UpdateCategory? {
      CategoryReplay(r, s, c, Decide(s, c).value);
    } else {
      ProductReplay(r, s, c, Decide(s, c).value);
    }
  }

  lemma NoBlankStep(s: State, c: Command)
    requires NoBlankCategory(s) && NamesCategory(c)
    ensures NoBlankCategory(Exec(s, c).state)
  {
  }

  ghost predicate FaithfulRun(s: State, cs: seq<Command>) {
    forall i | 0 <= i < |cs| ::
      NamesCategory(cs[i]) && (Exec(Run(s, cs[..i]), cs[i]).result.Ok? ==> Faithful(Run(s, cs[..i]), cs[i]))
  }

  ghost function AuditSince(s: State, s': State): seq<AuditRow>
    requires |s.audit| <= |s'.audit|
  {
    s'.audit[|s.audit|..]
  }

  lemma AuditSinceGrows(s: State, mid: State, s': State)
    requires |s.audit| <= |mid.audit| && |s'.audit| == |mid.audit| + 1 && s'.audit[..|mid.audit|] == mid.audit
    ensures AuditSince(s, s') == AuditSince(s, mid) + [s'.audit[|mid.audit|]]
  {
  }

  lemma FaithfulPrefix(s: State, cs: seq<Command>)
    requires cs != [] && FaithfulRun(s, cs)
    ensures FaithfulRun(s, cs[..|cs| - 1])
  {
    var n := |cs| - 1;
    forall i | 0 <= i < n
      ensures cs[..n][i] == cs[i] && cs[..n][..i] == cs[..i]
    {
    }
  }

  /** Folding the audit log over the initial snapshot reproduces every product's
      name, price, category, status, version and known description, and every
      category, after any run of faithful writes, renames and refusals included. */
  lemma {:induction false} ReplayReproducesTables(s: State, cs: seq<Command>)
    requires Valid(s) && NoBlankCategory(s) && FaithfulRun(s, cs)
    ensures var s' := Run(s, cs);
      && NoBlankCategory(s')
      && |s.audit| <= |s'.audit|
      && Matches(Replay(Snapshot(s), AuditSince(s, s')), s')
    decreases |cs|
  {
    if cs == [] {
      assert AuditSince(s, s) == [];
    } else {
      var n := |cs| - 1;
      var mid, c := Run(s, cs[..n]), cs[n];
      FaithfulPrefix(s, cs);
      ReplayReproducesTables(s, cs[..n]);
      RunKeepsValid(s, cs[..n]);
      NoBlankStep(mid, c);
      AllOrNothing(mid, c);
      if Exec(mid, c).result.Ok? {
        ReplayStep(s, mid, c);
      }
    }
  }

  lemma ReplayStep(s: State, mid: State, c: Command)
    requires |s.audit| <= |mid.audit| && Valid(mid) && NoBlankCategory(mid)
    requires Matches(Replay(Snapshot(s), AuditSince(s, mid)), mid)
    requires Exec(mid, c).result.Ok? && Faithful(mid, c)
    ensures var s' := Exec(mid, c).state;
      |s.audit| <= |s'.audit| && Matches(Replay(Snapshot(s), AuditSince(s, s')), s')
  {
    AllOrNothing(mid, c);
    var s' := Exec(mid, c).state;
    ReplayStepExact(Replay(Snapshot(s), AuditSince(s, mid)), mid, c);
    AuditSinceGrows(s, mid, s');
    assert AuditSince(s, s')[..|AuditSince(s, s')| - 1] == AuditSince(s, mid);
  }

  /** A replica that started at s and has read the log since shows s'. */
  ghost predicate Tells(s: State, s': State) {
    |s.audit| <= |s'.audit| && Matches(Replay(Snapshot(s), AuditSince(s, s')), s')
  }

  ghost predicate TellsThroughout(s: State, cs: seq<Command>)
    decreases |cs|
  {
    Tells(s, Run(s, cs)) && (cs == [] || TellsThroughout(s, cs[..|cs| - 1]))
  }

  lemma TellsStep(s: State, mid: State, c: Command)
    requires Tells(s, mid) && Valid(mid) && NoBlankCategory(mid)
    ensures Tells(s, Exec(mid, c).state) <==> (Exec(mid, c).result.Ok? ==> Faithful(mid, c))
  {
    AllOrNothing(mid, c);
    var s' := Exec(mid, c).state;
    if Exec(mid, c).result.Ok? {
      ReplayStepExact(Replay(Snapshot(s), AuditSince(s, mid)), mid, c);
      AuditSinceGrows(s, mid, s');
      assert AuditSince(s, s')[..|AuditSince(s, s')| - 1] == AuditSince(s, mid);
    }
  }

  lemma FaithfulLast(s: State, cs: seq<Command>)
    requires cs != [] && NamesCategory(cs[|cs| - 1])
    requires FaithfulRun(s, cs[..|cs| - 1])
    requires var mid := Run(s, cs[..|cs| - 1]); Exec(mid, cs[|cs| - 1]).result.Ok? ==> Faithful(mid, cs[|cs| - 1])
    ensures FaithfulRun(s, cs)
  {
    var n := |cs| - 1;
    forall i | 0 <= i < |cs|
      ensures NamesCategory(cs[i]) && (Exec(Run(s, cs[..i]), cs[i]).result.Ok? ==> Faithful(Run(s, cs[..i]), cs[i]))
    {
      if i < n { assert cs[..n][..i] == cs[..i] && cs[..n][i] == cs[i]; }
    }
  }

  /** The log tells the tables at every point of a run exactly when every write in
      it was faithful. */
  lemma {:induction false} ReplayExactly(s: State, cs: seq<Command>)
    requires Valid(s) && NoBlankCategory(s) && forall i | 0 <= i < |cs| :: NamesCategory(cs[i])
    ensures NoBlankCategory(Run(s, cs))
    ensures TellsThroughout(s, cs) <==> FaithfulRun(s, cs)
    decreases |cs|
  {
    if cs == [] {
      assert AuditSince(s, s) == [];
    } else {
      var n := |cs| - 1;
      var mid, c := Run(s, cs[..n]), cs[n];
      ReplayExactly(s, cs[..n]);
      RunKeepsValid(s, cs[..n]);
      NoBlankStep(mid, c);
      if TellsThroughout(s, cs[..n]) {
        TellsStep(s, mid, c);
        if Tells(s, Run(s, cs)) { FaithfulLast(s, cs); }
      }
      if FaithfulRun(s, cs) {
        FaithfulPrefix(s, cs);
        assert Exec(mid, c).result.Ok? ==> Faithful(mid, c);
      }
    }
  }

  /** The log cannot say what it was not told: two creates that differ only in
      their description leave the same audit log and different rows. */
  lemma CreateDoesNotAuditDescription(s: State, newId: nat, now: int, input: CreateProductInput, description: string)
    requires Exec(s, CreateProduct(newId, now, input)).result.Ok? && description != input.description
    ensures var o, o' := Exec(s, CreateProduct(newId, now, input)),
            Exec(s, CreateProduct(newId, now, input.(description := description)));
      o'.result.Ok? && o'.state.audit == o.state.audit && o'.state.products != o.state.products
  {
    var o, o' := Exec(s, CreateProduct(newId, now, input)),
        Exec(s, CreateProduct(newId, now, input.(description := description)));
    assert o.state.products[newId].description != o'.state.products[newId].description;
  }
}
