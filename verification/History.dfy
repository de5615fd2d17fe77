/** Whole runs of the catalogue: what a version names, the path a product's audit
    rows form, and which retried commands are refused. */
module History {
  import opened Domain
  import opened Catalog
  import opened AuditReplay

  // ------------------------------------------------------ version identity

  lemma RowStep(s: State, c: Command, id: nat)
    requires id in s.products
    ensures var s' := Exec(s, c).state;
      id in s'.products && (s'.products[id] == s.products[id] || s'.products[id].version == s.products[id].version + 1)
  {
    AllOrNothing(s, c);
  }

  lemma {:induction false} VersionGrows(s: State, cs: seq<Command>, id: nat)
    requires id in s.products
    ensures id in Run(s, cs).products
    ensures Run(s, cs).products[id].version >= s.products[id].version
    ensures Run(s, cs).products[id].version == s.products[id].version ==> Run(s, cs).products[id] == s.products[id]
    decreases |cs|
  {
    if cs != [] {
      VersionGrows(s, cs[..|cs| - 1], id);
      RowStep(Run(s, cs[..|cs| - 1]), cs[|cs| - 1], id);
    }
  }

  lemma RunSplit(s: State, cs: seq<Command>, i: nat, j: nat)
    requires i <= j <= |cs|
    ensures Run(s, cs[..j]) == Run(Run(s, cs[..i]), cs[i..j])
  {
    assert cs[..j] == cs[..i] + cs[i..j];
    RunConcat(s, cs[..i], cs[i..j]);
  }

  /** Over any run, a product's version names one row: two states in which the
      version is the same agree on every column. */
  lemma VersionNamesOneRow(s: State, cs: seq<Command>, i: nat, j: nat, id: nat)
    requires i <= j <= |cs| && id in Run(s, cs[..i]).products
    ensures id in Run(s, cs[..j]).products
    ensures Run(s, cs[..j]).products[id].version == Run(s, cs[..i]).products[id].version
            ==> Run(s, cs[..j]).products[id] == Run(s, cs[..i]).products[id]
  {
    RunSplit(s, cs, i, j);
    VersionGrows(Run(s, cs[..i]), cs[i..j], id);
  }

  lemma EditWrites(s: State, input: UpdateProductInput)
    requires Exec(s, UpdateProduct(input)).result.Ok?
    ensures input.id in s.products && s.products[input.id].version == input.expectedVersion
    ensures Exec(s, UpdateProduct(input)).state.products
            == s.products[input.id := UpdateRow(s.products[input.id], input, Resolve(s.categories, input.category))]
  {
  }

  /** An accepted edit overwrites exactly the row its operator read, whatever
      committed in between. */
  lemma EditOverwritesWhatWasRead(s: State, between: seq<Command>, input: UpdateProductInput)
    requires input.id in s.products && s.products[input.id].version == input.expectedVersion
    requires Exec(Run(s, between), UpdateProduct(input)).result.Ok?
    ensures var now := Run(s, between);
      && input.id in now.products
      && now.products[input.id] == s.products[input.id]
      && Exec(now, UpdateProduct(input)).state.products
         == now.products[input.id := UpdateRow(s.products[input.id], input, Resolve(now.categories, input.category))]
  {
    VersionGrows(s, between, input.id);
    EditWrites(Run(s, between), input);
  }

  /** Of all edits of one product that carry the same version, at most one ever
      succeeds. */
  lemma OneEditPerVersion(s: State, cs: seq<Command>, i: nat, j: nat)
    requires i < j < |cs| && cs[i].UpdateProduct? && cs[j].UpdateProduct?
    requires cs[i].update.id == cs[j].update.id && cs[i].update.expectedVersion == cs[j].update.expectedVersion
    requires Exec(Run(s, cs[..i]), cs[i]).result.Ok?
    ensures Exec(Run(s, cs[..j]), cs[j]).result == Err(VersionConflict)
  {
    var id := cs[i].update.id;
    RunPrefix(s, cs, i);
    RunSplit(s, cs, i + 1, j);
    VersionGrows(Run(s, cs[..i + 1]), cs[i + 1..j], id);
  }

  // -------------------------------------------------------- lifecycle path

  datatype Position = Nowhere | At(status: ProductStatus, version: int)

  function PositionOf(s: State, id: nat): Position {
    if id in s.products then At(s.products[id].status, s.products[id].version) else Nowhere
  }

  predicate Bumps(row: AuditRow, version: int) {
    row.versionBefore == Some(version) && row.versionAfter == Some(version + 1)
  }

  /** One audit row read as one move of a product; None when it is no legal move. */
  function Move(p: Position, row: AuditRow): Option<Position> {
    match row.action
    case CreateAction =>
      if p == Nowhere && row.versionBefore == None && row.versionAfter == Some(1) then Some(At(Draft, 1)) else None
    case UpdateAction =>
      if p.At? && Bumps(row, p.version) then Some(At(p.status, p.version + 1)) else None
    case LifecycleStep(step) =>
      if p.At? && Bumps(row, p.version) && NextStatus(p.status, step).Ok?
         && Fields(row) == TransitionChanges(p.status, NextStatus(p.status, step).value)
      then Some(At(NextStatus(p.status, step).value, p.version + 1))
      else None
  }

  /** The rows about product `id`, read in order from position `p`. */
  function Walk(p: Position, log: seq<AuditRow>, id: nat): Option<Position>
    decreases |log|
  {
    if log == [] then Some(p)
    else
      var before := Walk(p, log[..|log| - 1], id);
      var row := log[|log| - 1];
      if before.None? || row.target != ProductTarget(id) then before else Move(before.value, row)
  }

  function CountStep(log: seq<AuditRow>, id: nat, step: LifecycleAction): nat
    decreases |log|
  {
    if log == [] then 0
    else
      CountStep(log[..|log| - 1], id, step)
      + if log[|log| - 1].target == ProductTarget(id) && log[|log| - 1].action == LifecycleStep(step) then 1 else 0
  }

  function CountRows(log: seq<AuditRow>, id: nat): nat
    decreases |log|
  {
    if log == [] then 0
    else CountRows(log[..|log| - 1], id) + if log[|log| - 1].target == ProductTarget(id) then 1 else 0
  }

  lemma UpdateEntryBumps(before: AdminProduct, input: UpdateProductInput)
    ensures var entry := UpdateEntry(before, input);
      entry.target == ProductTarget(input.id) && entry.action == UpdateAction && Bumps(entry, before.version)
  {
  }

  lemma UpdateMoves(before: Product, view: AdminProduct, input: UpdateProductInput)
    requires view.version == before.version
    ensures Move(At(before.status, before.version), UpdateEntry(view, input))
            == Some(At(before.status, before.version + 1))
  {
    UpdateEntryBumps(view, input);
  }

  lemma UpdateShape(s: State, input: UpdateProductInput)
    requires DecideUpdateProduct(s, input).Ok?
    ensures input.id in s.products
    ensures var before, w := s.products[input.id], DecideUpdateProduct(s, input).value;
      && w.ProductWrite? && w.id == input.id
      && w.entry == UpdateEntry(RowView(s.categories, input.id, before), input)
      && w.row.status == before.status && w.row.version == before.version + 1
  {
  }

  lemma UpdateMovesRow(s: State, input: UpdateProductInput, w: Write)
    requires input.id in s.products && w.ProductWrite? && w.id == input.id
    requires var before := s.products[input.id];
      && w.entry == UpdateEntry(RowView(s.categories, input.id, before), input)
      && w.row.status == before.status && w.row.version == before.version + 1
    ensures Move(PositionOf(s, w.id), w.entry) == Some(At(w.row.status, w.row.version))
  {
    UpdateMoves(s.products[input.id], RowView(s.categories, input.id, s.products[input.id]), input);
  }

  lemma TransitionMoves(s: State, input: TransitionInput)
    requires DecideTransition(s, input).Ok?
    ensures var w := DecideTransition(s, input).value;
      w.ProductWrite? && Move(PositionOf(s, w.id), w.entry) == Some(At(w.row.status, w.row.version))
  {
    var before := s.products[input.id];
    var next := NextStatus(before.status, input.step).value;
    FieldsOfStored(TransitionEntry(before, next, input), TransitionChanges(before.status, next));
  }

  /** A product write's audit row is the move from the row it replaces to the row
      it writes. */
  lemma WriteMoves(s: State, c: Command)
    requires Decide(s, c).Ok? && Decide(s, c).value.ProductWrite?
    ensures var w := Decide(s, c).value;
      Move(PositionOf(s, w.id), w.entry) == Some(At(w.row.status, w.row.version))
  {
    if c.UpdateProduct? {
      UpdateShape(s, c.update);
      UpdateMovesRow(s, c.update, Decide(s, c).value);
    } else if c.Transition? {
      TransitionMoves(s, c.transition);
    }
  }

  lemma CommitMoves(s: State, c: Command, id: nat)
    requires Exec(s, c).result.Ok?
    ensures var entry := Decide(s, c).value.entry;
      if entry.target == ProductTarget(id) then Move(PositionOf(s, id), entry) == Some(PositionOf(Exec(s, c).state, id))
      else PositionOf(Exec(s, c).state, id) == PositionOf(s, id)
  {
    CommittedEntry(s, c);
    DecideTarget(s, c);
    if Decide(s, c).value.ProductWrite? { WriteMoves(s, c); }
  }

  /** Over any run, the audit rows of every product form one path of the lifecycle
      table whose version pairs chain without a gap, from the status and version
      it had to the status and version it has. */
  lemma {:induction false} AuditIsLifecyclePath(s: State, cs: seq<Command>, id: nat)
    ensures |s.audit| <= |Run(s, cs).audit|
    ensures Walk(PositionOf(s, id), AuditSince(s, Run(s, cs)), id) == Some(PositionOf(Run(s, cs), id))
    decreases |cs|
  {
    if cs == [] {
      assert AuditSince(s, s) == [];
    } else {
      var mid, c := Run(s, cs[..|cs| - 1]), cs[|cs| - 1];
      AuditIsLifecyclePath(s, cs[..|cs| - 1], id);
      if Exec(mid, c).result.Ok? {
        CommittedEntry(mid, c);
        CommitMoves(mid, c, id);
        var s' := Exec(mid, c).state;
        AuditSinceGrows(s, mid, s');
        assert AuditSince(s, s')[..|AuditSince(s, s')| - 1] == AuditSince(s, mid);
      }
    }
  }

  function IsArchived(p: Position): int { if p.At? && p.status == Archived then 1 else 0 }

  predicate Unpublished(p: Position) { p == Nowhere || p.status == Draft }

  function VersionOf(p: Position): int { if p.At? then p.version else 0 }

  /** What any path of the lifecycle table counts to. */
  lemma {:induction false} PathCounts(p: Position, log: seq<AuditRow>, id: nat)
    requires Walk(p, log, id).Some?
    ensures var q := Walk(p, log, id).value;
      && CountStep(log, id, Archive) - CountStep(log, id, Restore) == IsArchived(q) - IsArchived(p)
      && CountStep(log, id, Publish) <= (if Unpublished(p) && !Unpublished(q) then 1 else 0)
      && (!Unpublished(p) ==> !Unpublished(q))
      && VersionOf(q) == VersionOf(p) + CountRows(log, id)
    decreases |log|
  {
    if log != [] {
      PathCounts(p, log[..|log| - 1], id);
    }
  }

  /** Over any run, from any start: a product is published at most once, and only
      out of DRAFT; its ARCHIVE rows outnumber its RESTORE rows by one exactly
      when it ends archived and did not start so; and its version counts its
      audit rows. */
  lemma LifecycleCounts(s: State, cs: seq<Command>, id: nat)
    ensures |s.audit| <= |Run(s, cs).audit|
    ensures var log, p, q := AuditSince(s, Run(s, cs)), PositionOf(s, id), PositionOf(Run(s, cs), id);
      && CountStep(log, id, Publish) <= 1
      && (CountStep(log, id, Publish) == 1 ==> Unpublished(p) && !Unpublished(q))
      && CountStep(log, id, Archive) - CountStep(log, id, Restore) == IsArchived(q) - IsArchived(p)
      && VersionOf(q) - VersionOf(p) == CountRows(log, id)
  {
    AuditIsLifecyclePath(s, cs, id);
    PathCounts(PositionOf(s, id), AuditSince(s, Run(s, cs)), id);
  }

  lemma {:induction false} PublishedStays(s: State, cs: seq<Command>, id: nat)
    requires !Unpublished(PositionOf(s, id))
    ensures !Unpublished(PositionOf(Run(s, cs), id))
  {
    AuditIsLifecyclePath(s, cs, id);
    PathCounts(PositionOf(s, id), AuditSince(s, Run(s, cs)), id);
  }

  // ----------------------------------------------------------- retry safety

  /** Replaying an accepted edit after any later run is refused and changes nothing. */
  lemma {:induction false} EditReplayRefused(s: State, input: UpdateProductInput, later: seq<Command>)
    requires Exec(s, UpdateProduct(input)).result.Ok?
    ensures var now := Run(Exec(s, UpdateProduct(input)).state, later);
      Exec(now, UpdateProduct(input)) == Refused(now, VersionConflict)
  {
    VersionGrows(Exec(s, UpdateProduct(input)).state, later, input.id);
  }

  /** Replaying an accepted publish after any later run is refused and changes nothing. */
  lemma {:induction false} PublishReplayRefused(s: State, input: TransitionInput, later: seq<Command>)
    requires input.step == Publish && Exec(s, Transition(input)).result.Ok?
    ensures var now := Run(Exec(s, Transition(input)).state, later);
      Exec(now, Transition(input)) == Refused(now, InvalidTransition)
  {
    var s' := Exec(s, Transition(input)).state;
    assert PositionOf(s', input.id).At?;
    PublishedStays(s', later, input.id);
    VersionGrows(s', later, input.id);
  }

  // A create is guarded by its name, and the name can be given up.

  lemma CreateAccepted(s: State, newId: nat, now: int, input: CreateProductInput)
    requires Exec(s, CreateProduct(newId, now, input)).result.Ok?
    ensures RowFits(input.name, input.price) && AuditFits(CreateEntry(newId, input))
    ensures newId !in s.products && !NameTaken(s.products, input.name, None)
    ensures Exec(s, CreateProduct(newId, now, input)).state.products
            == s.products[newId := CreateRow(input, now, Resolve(s.categories, input.category))]
    ensures |Exec(s, CreateProduct(newId, now, input)).state.audit| == |s.audit| + 1
  {
  }

  /** A retried create is accepted exactly when nobody holds the name any more, and
      refused as a conflict otherwise. */
  lemma CreateReplayExact(s: State, c: Command, now: State, retry: Command)
    requires c.CreateProduct? && Exec(s, c).result.Ok?
    requires retry.CreateProduct? && retry.product == c.product
    ensures Exec(now, retry).result.Ok? <==>
            !NameTaken(now.products, c.product.name, None) && retry.newId !in now.products
    ensures !Exec(now, retry).result.Ok? ==> Exec(now, retry) == Refused(now, Conflict)
  {
    CreateAccepted(s, c.newId, c.now, c.product);
  }

  predicate RenamesProduct(c: Command, id: nat, name: string) {
    c.UpdateProduct? && c.update.id == id && c.update.name != name
  }

  /** No accepted edit in the run gives product `id` another name. */
  ghost predicate ProductKeepsName(s: State, cs: seq<Command>, id: nat, name: string) {
    forall i | 0 <= i < |cs| && RenamesProduct(cs[i], id, name) :: Exec(Run(s, cs[..i]), cs[i]).result.Err?
  }

  lemma NameStep(s: State, c: Command, id: nat, name: string)
    requires id in s.products && s.products[id].name == name
    requires RenamesProduct(c, id, name) ==> Exec(s, c).result.Err?
    ensures id in Exec(s, c).state.products && Exec(s, c).state.products[id].name == name
  {
    AllOrNothing(s, c);
    if c.UpdateProduct? && Exec(s, c).result.Ok? { EditWrites(s, c.update); }
  }

  lemma {:induction false} NameIsKept(s: State, cs: seq<Command>, id: nat, name: string)
    requires id in s.products && s.products[id].name == name && ProductKeepsName(s, cs, id, name)
    ensures id in Run(s, cs).products && Run(s, cs).products[id].name == name
    decreases |cs|
  {
    if cs != [] {
      var n := |cs| - 1;
      forall i | 0 <= i < n
        ensures cs[..n][..i] == cs[..i] && cs[..n][i] == cs[i]
      {
      }
      NameIsKept(s, cs[..n], id, name);
      NameStep(Run(s, cs[..n]), cs[n], id, name);
    }
  }

  /** Replaying an accepted create after any run in which its product was not
      renamed is refused and changes nothing, whatever id the sequence hands out. */
  lemma CreateReplayRefused(s: State, c: Command, later: seq<Command>, retry: Command)
    requires c.CreateProduct? && Exec(s, c).result.Ok?
    requires retry.CreateProduct? && retry.product == c.product
    requires ProductKeepsName(Exec(s, c).state, later, c.newId, c.product.name)
    ensures var now := Run(Exec(s, c).state, later);
      Exec(now, retry) == Refused(now, Conflict)
  {
    CreateAccepted(s, c.newId, c.now, c.product);
    NameIsKept(Exec(s, c).state, later, c.newId, c.product.name);
    CreateReplayExact(s, c, Run(Exec(s, c).state, later), retry);
  }

  /** Create, a rename of the new product, then the retried create: accepted, with
      a second product under the first one's name and a third audit row. */
  lemma CreateReplayAfterRename(s: State, c: Command, edit: UpdateProductInput, retry: Command)
    requires c.CreateProduct? && Exec(s, c).result.Ok?
    requires edit.id == c.newId && edit.name != c.product.name
    requires Exec(Exec(s, c).state, UpdateProduct(edit)).result.Ok?
    requires retry.CreateProduct? && retry.product == c.product && retry.newId !in s.products && retry.newId != c.newId
    ensures var now := Exec(Exec(s, c).state, UpdateProduct(edit)).state;
      var after := Exec(now, retry).state;
      && Exec(now, retry).result.Ok?
      && after.products.Keys == s.products.Keys + {c.newId, retry.newId}
      && after.products[c.newId].name == edit.name && after.products[retry.newId].name == c.product.name
      && |after.audit| == |s.audit| + 3
  {
    CreateAccepted(s, c.newId, c.now, c.product);
    var created := Exec(s, c).state;
    EditWrites(created, edit);
    AllOrNothing(created, UpdateProduct(edit));
    var now := Exec(created, UpdateProduct(edit)).state;
    CreateReplayExact(s, c, now, retry);
    CreateAccepted(now, retry.newId, retry.now, retry.product);
  }

  lemma CreateCategoryAccepted(s: State, newId: nat, input: CategoryInput)
    requires Exec(s, CreateCategory(newId, input)).result.Ok?
    ensures |input.name| <= 100 && AuditFits(CreateCategoryEntry(newId, input))
    ensures newId !in s.categories && !CategoryTaken(s.categories, input.name, None)
    ensures Exec(s, CreateCategory(newId, input)).state.categories == s.categories[newId := CategoryRow(input)]
  {
  }

  lemma CategoryEditWrites(s: State, id: nat, input: CategoryInput)
    requires Exec(s, UpdateCategory(id, input)).result.Ok?
    ensures id in s.categories
    ensures Exec(s, UpdateCategory(id, input)).state.categories == s.categories[id := CategoryRow(input)]
  {
  }

  lemma CreateCategoryReplayExact(s: State, c: Command, now: State, retry: Command)
    requires c.CreateCategory? && Exec(s, c).result.Ok?
    requires retry.CreateCategory? && retry.newCategory == c.newCategory
    ensures Exec(now, retry).result.Ok?
            <==> !CategoryTaken(now.categories, c.newCategory.name, None) && retry.newCategoryId !in now.categories
    ensures !Exec(now, retry).result.Ok? ==> Exec(now, retry) == Refused(now, Conflict)
  {
    CreateCategoryAccepted(s, c.newCategoryId, c.newCategory);
  }

  predicate RenamesCategory(c: Command, id: nat, name: string) {
    c.UpdateCategory? && c.categoryId == id && c.category.name != name
  }

  ghost predicate CategoryKeepsName(s: State, cs: seq<Command>, id: nat, name: string) {
    forall i | 0 <= i < |cs| && RenamesCategory(cs[i], id, name) :: Exec(Run(s, cs[..i]), cs[i]).result.Err?
  }

  lemma CategoryNameStep(s: State, c: Command, id: nat, name: string)
    requires id in s.categories && s.categories[id].name == name
    requires RenamesCategory(c, id, name) ==> Exec(s, c).result.Err?
    ensures id in Exec(s, c).state.categories && Exec(s, c).state.categories[id].name == name
  {
    AllOrNothing(s, c);
    if c.UpdateCategory? && Exec(s, c).result.Ok? { CategoryEditWrites(s, c.categoryId, c.category); }
  }

  lemma {:induction false} CategoryNameIsKept(s: State, cs: seq<Command>, id: nat, name: string)
    requires id in s.categories && s.categories[id].name == name && CategoryKeepsName(s, cs, id, name)
    ensures id in Run(s, cs).categories && Run(s, cs).categories[id].name == name
    decreases |cs|
  {
    if cs != [] {
      var n := |cs| - 1;
      forall i | 0 <= i < n
        ensures cs[..n][..i] == cs[..i] && cs[..n][i] == cs[i]
      {
      }
      CategoryNameIsKept(s, cs[..n], id, name);
      CategoryNameStep(Run(s, cs[..n]), cs[n], id, name);
    }
  }

  /** The same for a category create: refused while its category keeps the name. */
  lemma CreateCategoryReplayRefused(s: State, c: Command, later: seq<Command>, retry: Command)
    requires c.CreateCategory? && Exec(s, c).result.Ok?
    requires retry.CreateCategory? && retry.newCategory == c.newCategory
    requires CategoryKeepsName(Exec(s, c).state, later, c.newCategoryId, c.newCategory.name)
    ensures var now := Run(Exec(s, c).state, later);
      Exec(now, retry) == Refused(now, Conflict)
  {
    CreateCategoryAccepted(s, c.newCategoryId, c.newCategory);
    CategoryNameIsKept(Exec(s, c).state, later, c.newCategoryId, c.newCategory.name);
    CreateCategoryReplayExact(s, c, Run(Exec(s, c).state, later), retry);
  }

  lemma CreateCategoryReplayAfterRename(s: State, c: Command, edit: CategoryInput, retry: Command)
    requires c.CreateCategory? && Exec(s, c).result.Ok? && edit.name != c.newCategory.name
    requires Exec(Exec(s, c).state, UpdateCategory(c.newCategoryId, edit)).result.Ok?
    requires retry.CreateCategory? && retry.newCategory == c.newCategory
    requires retry.newCategoryId !in s.categories && retry.newCategoryId != c.newCategoryId
    ensures var now := Exec(Exec(s, c).state, UpdateCategory(c.newCategoryId, edit)).state;
      var after := Exec(now, retry).state;
      && Exec(now, retry).result.Ok?
      && after.categories.Keys == s.categories.Keys + {c.newCategoryId, retry.newCategoryId}
      && |after.audit| == |s.audit| + 3
  {
    CreateCategoryAccepted(s, c.newCategoryId, c.newCategory);
    AllOrNothing(s, c);
    var created := Exec(s, c).state;
    CategoryEditWrites(created, c.newCategoryId, edit);
    AllOrNothing(created, UpdateCategory(c.newCategoryId, edit));
    var now := Exec(created, UpdateCategory(c.newCategoryId, edit)).state;
    CreateCategoryReplayExact(s, c, now, retry);
    CreateCategoryAccepted(now, retry.newCategoryId, retry.newCategory);
    AllOrNothing(now, retry);
  }

  /** A lifecycle command is its own guard only against an immediate retry: after
      a later run the retry is applied again exactly when the row has meanwhile
      come back to a status the command leads out of. */
  lemma {:induction false} TransitionReplayExact(s: State, input: TransitionInput, later: seq<Command>)
    requires Exec(s, Transition(input)).result.Ok?
    ensures var s' := Exec(s, Transition(input)).state;
      var now := Run(s', later);
      && Exec(s', Transition(input)) == Refused(s', InvalidTransition)
      && input.id in now.products
      && (Exec(now, Transition(input)).result.Ok? <==> NextStatus(now.products[input.id].status, input.step).Ok?)
      && (!Exec(now, Transition(input)).result.Ok? ==> Exec(now, Transition(input)) == Refused(now, InvalidTransition))
  {
    VersionGrows(Exec(s, Transition(input)).state, later, input.id);
  }

  /** ARCHIVE, then another operator's RESTORE, then the retried ARCHIVE: applied
      twice, with a second audit row. */
  lemma ArchiveReplayAfterRestore(s: State, archive: TransitionInput, restore: TransitionInput)
    requires archive.step == Archive && restore.step == Restore && archive.id == restore.id
    requires Exec(s, Transition(archive)).result.Ok?
    requires Exec(Exec(s, Transition(archive)).state, Transition(restore)).result.Ok?
    ensures var now := Run(s, [Transition(archive), Transition(restore)]);
      && Exec(now, Transition(archive)).result.Ok?
      && |Exec(now, Transition(archive)).state.audit| == |s.audit| + 3
      && Exec(now, Transition(archive)).state.products[archive.id].version == s.products[archive.id].version + 3
  {
    var cs := [Transition(archive), Transition(restore)];
    assert cs[..1] == [Transition(archive)] && cs[..1][..0] == [];
    assert Run(s, cs[..1]) == Exec(s, Transition(archive)).state;
  }

  /** Replaying a category edit at once is not refused: it leaves every row as it is
      and adds an audit row with no changed field. */
  lemma CategoryEditReplay(s: State, id: nat, input: CategoryInput)
    requires Exec(s, UpdateCategory(id, input)).result.Ok?
    ensures var s' := Exec(s, UpdateCategory(id, input)).state;
      var again := Exec(s', UpdateCategory(id, input));
      && again.result.Ok?
      && again.state.products == s'.products
      && again.state.categories == s'.categories
      && |again.state.audit| == |s'.audit| + 1
      && again.state.audit[|s'.audit|].changed == None
  {
  }

  lemma {:induction false} CategoryStays(s: State, cs: seq<Command>, id: nat)
    requires id in s.categories
    ensures id in Run(s, cs).categories
    decreases |cs|
  {
    if cs != [] {
      CategoryStays(s, cs[..|cs| - 1], id);
      AllOrNothing(Run(s, cs[..|cs| - 1]), cs[|cs| - 1]);
    }
  }

  lemma CategoryEditAccepted(s: State, id: nat, input: CategoryInput)
    requires id in s.categories && |input.name| <= 100 && AuditFits(UpdateCategoryEntry(id, s.categories[id], input))
    ensures var entry := UpdateCategoryEntry(id, s.categories[id], input);
      Exec(s, UpdateCategory(id, input)).state
      == if CategoryTaken(s.categories, input.name, Some(id)) then s
         else State(s.products, s.categories[id := CategoryRow(input)], s.audit + [entry])
    ensures Exec(s, UpdateCategory(id, input)).result.Ok? <==> !CategoryTaken(s.categories, input.name, Some(id))
    ensures !Exec(s, UpdateCategory(id, input)).result.Ok? ==>
            Exec(s, UpdateCategory(id, input)) == Refused(s, Conflict)
  {
  }

  lemma NoChange(before: Category, input: CategoryInput)
    ensures UpdateCategoryChanges(before, input) == map[] <==> before == CategoryRow(input)
  {
    if before.name != input.name { assert NameField in UpdateCategoryChanges(before, input); }
    if before.description != input.description { assert DescriptionField in UpdateCategoryChanges(before, input); }
  }

  /** A category edit carries no version. Replayed after any later run it is accepted
      exactly when no other category holds its name, and then makes the row what it
      asked for, whoever has edited it since; the replay is without effect on the
      rows, and its audit row empty, exactly when the row still is. */
  lemma CategoryEditReplayExact(s: State, id: nat, input: CategoryInput, later: seq<Command>)
    requires Exec(s, UpdateCategory(id, input)).result.Ok?
    ensures var now := Run(Exec(s, UpdateCategory(id, input)).state, later);
      var again := Exec(now, UpdateCategory(id, input));
      && id in now.categories
      && (again.result.Ok? <==> !CategoryTaken(now.categories, input.name, Some(id)))
      && (again.result.Err? ==> again == Refused(now, Conflict))
      && (again.result.Ok? ==>
            && again.state.products == now.products
            && again.state.categories == now.categories[id := CategoryRow(input)]
            && again.state.audit == now.audit + [UpdateCategoryEntry(id, now.categories[id], input)]
            && (again.state.categories == now.categories <==> now.categories[id] == CategoryRow(input))
            && (again.state.audit[|now.audit|].changed == None <==> now.categories[id] == CategoryRow(input)))
  {
    CategoryEditWrites(s, id, input);
    var s' := Exec(s, UpdateCategory(id, input)).state;
    CategoryStays(s', later, id);
    var now := Run(s', later);
    CategoryEditAccepted(now, id, input);
    NoChange(now.categories[id], input);
    assert now.categories[id := CategoryRow(input)][id] == CategoryRow(input);
  }

  /** One operator's edit of a category, another's, then the first one retried: the
      second operator's edit is lost, with a third audit row that says so. */
  lemma CategoryEditReplayOverwrites(s: State, id: nat, mine: CategoryInput, theirs: CategoryInput)
    requires Exec(s, UpdateCategory(id, mine)).result.Ok? && CategoryRow(theirs) != CategoryRow(mine)
    requires Exec(Exec(s, UpdateCategory(id, mine)).state, UpdateCategory(id, theirs)).result.Ok?
    ensures var now := Exec(Exec(s, UpdateCategory(id, mine)).state, UpdateCategory(id, theirs)).state;
      var again := Exec(now, UpdateCategory(id, mine));
      && id in now.categories && now.categories[id] == CategoryRow(theirs)
      && again.result.Ok?
      && again.state.categories == now.categories[id := CategoryRow(mine)] != now.categories
      && |again.state.audit| == |s.audit| + 3
      && again.state.audit[|s.audit| + 2].changed.Some?
  {
    var s' := Exec(s, UpdateCategory(id, mine)).state;
    var now := Exec(s', UpdateCategory(id, theirs)).state;
    CategoryEditWrites(s, id, mine);
    CategoryEditWrites(s', id, theirs);
    AllOrNothing(s, UpdateCategory(id, mine));
    AllOrNothing(s', UpdateCategory(id, theirs));
    CategoryNameWasFree(s, id, mine);
    assert Run(s', [UpdateCategory(id, theirs)]) == now by { assert [UpdateCategory(id, theirs)][..0] == []; }
    CategoryEditReplayExact(s, id, mine, [UpdateCategory(id, theirs)]);
  }

  lemma CategoryNameWasFree(s: State, id: nat, input: CategoryInput)
    requires Exec(s, UpdateCategory(id, input)).result.Ok?
    ensures !CategoryTaken(s.categories, input.name, Some(id))
  {
  }

  // ---------------------------------------------------- over-long request ids

  function WithRequestId(c: Command, requestId: string): Command {
    match c
    case CreateProduct(newId, now, input) => CreateProduct(newId, now, input.(requestId := requestId))
    case UpdateProduct(input) => UpdateProduct(input.(requestId := requestId))
    case Transition(input) => Transition(input.(requestId := requestId))
    case CreateCategory(newId, input) => CreateCategory(newId, input.(requestId := requestId))
    case UpdateCategory(id, input) => UpdateCategory(id, input.(requestId := requestId))
  }

  /** A command that would be accepted is rolled back as an internal error when the
      request id, a header nobody bounds, is over the audit column's 64 characters. */
  lemma LongRequestIdRollsBack(s: State, c: Command, requestId: string)
    requires Exec(s, c).result.Ok? && |requestId| > 64
    ensures Exec(s, WithRequestId(c, requestId)) == Refused(s, Internal)
  {
    LongRequestIdDecides(s, c, requestId);
  }

  lemma ShortRequestIdDecides(s: State, c: Command, requestId: string)
    requires Decide(s, c).Ok? && AuditFits(Decide(s, c).value.entry) && |requestId| <= 64
    ensures Decide(s, WithRequestId(c, requestId)).Ok?
    ensures AuditFits(Decide(s, WithRequestId(c, requestId)).value.entry)
  {
  }

  /** Under another request id, an accepted command is accepted exactly when that id
      fits the audit column. */
  lemma RequestIdExactly(s: State, c: Command, requestId: string)
    requires Exec(s, c).result.Ok?
    ensures Exec(s, WithRequestId(c, requestId)).result.Ok? <==> |requestId| <= 64
    ensures |requestId| > 64 ==> Exec(s, WithRequestId(c, requestId)) == Refused(s, Internal)
  {
    if |requestId| > 64 {
      LongRequestIdRollsBack(s, c, requestId);
    } else {
      ShortRequestIdDecides(s, c, requestId);
    }
  }

  lemma LongRequestIdDecides(s: State, c: Command, requestId: string)
    requires Decide(s, c).Ok? && |requestId| > 64
    ensures Decide(s, WithRequestId(c, requestId)).Ok?
    ensures !AuditFits(Decide(s, WithRequestId(c, requestId)).value.entry)
  {
    assert NullIfEmpty(requestId) == Some(requestId);
  }
}
