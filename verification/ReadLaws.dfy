/** Write, then read: what the public and the operator's reads answer after a
    command, in terms of what the command was sent. */
module ReadLaws {
  import opened Domain
  import opened Catalog
  import opened PublicReads
  import opened AuditReplay
  import opened CommandLaws

  /** A public product shows what was last written: name, description, price, and the
      category asked for if there is one of that name. */
  predicate ShowsAs(found: Option<PublicProduct>, categories: map<nat, Category>, id: nat,
      name: string, description: string, price: real, category: string) {
    && found.Some?
    && found.value.id == id && found.value.name == name && found.value.description == description
    && found.value.cents == ToCents(price)
    && ((exists c :: c in categories && categories[c].name == category) ==> found.value.category == category)
    && ((forall c | c in categories :: categories[c].name != category) ==> found.value.category == "Uncategorized")
  }

  lemma FiledShows(db: State, id: nat, name: string)
    requires id in db.products && db.products[id].status == Active
             && Filed(db.categories, name, db.products[id].category)
    ensures FindByID(db, id).Some?
    ensures var found, row := FindByID(db, id).value, db.products[id];
      && found.id == id && found.name == row.name && found.description == row.description && found.cents == row.cents
      && ((exists c :: c in db.categories && db.categories[c].name == name) ==> found.category == name)
      && ((forall c | c in db.categories :: db.categories[c].name != name) ==> found.category == "Uncategorized")
  {
  }

  /** An accepted edit of a product on sale is what the next public read answers; an
      edit of one that is not on sale stays hidden. */
  lemma EditIsRead(s: State, input: UpdateProductInput)
    requires Exec(s, UpdateProduct(input)).result.Ok?
    ensures input.id in s.products
    ensures var found := FindByID(Exec(s, UpdateProduct(input)).state, input.id);
      if s.products[input.id].status == Active
      then ShowsAs(found, s.categories, input.id, input.name, input.description, input.price, input.category)
      else found == None
  {
    UpdateProductLeaves(s, input);
    if s.products[input.id].status == Active { FiledShows(Exec(s, UpdateProduct(input)).state, input.id,
        input.category); }
  }

  /** A new product is hidden until it is published, and then read as it was created. */
  lemma CreateThenPublishIsRead(s: State, newId: nat, now: int, input: CreateProductInput, publish: TransitionInput)
    requires Exec(s, CreateProduct(newId, now, input)).result.Ok? && publish.id == newId && publish.step == Publish
    requires Exec(Exec(s, CreateProduct(newId, now, input)).state, Transition(publish)).result.Ok?
    ensures var created := Exec(s, CreateProduct(newId, now, input)).state;
      && FindByID(created, newId) == None
      && ShowsAs(FindByID(Exec(created, Transition(publish)).state, newId), s.categories, newId,
                 input.name, input.description, input.price, input.category)
  {
    CreateProductLeaves(s, newId, now, input);
    var created := Exec(s, CreateProduct(newId, now, input)).state;
    TransitionLeaves(created, publish);
    FiledShows(Exec(created, Transition(publish)).state, newId, input.category);
  }

  /** An archive hides the product; a restore shows again what was hidden. */
  lemma ArchiveThenRestoreIsRead(s: State, archive: TransitionInput, restore: TransitionInput)
    requires archive.step == Archive && restore.step == Restore && archive.id == restore.id
    requires Exec(s, Transition(archive)).result.Ok?
    requires Exec(Exec(s, Transition(archive)).state, Transition(restore)).result.Ok?
    ensures var hidden := Exec(s, Transition(archive)).state;
      && archive.id in s.products
      && FindByID(hidden, archive.id) == None
      && (s.products[archive.id].status == Active ==>
            FindByID(Exec(hidden, Transition(restore)).state, archive.id) == FindByID(s, archive.id))
      && FindByID(Exec(hidden, Transition(restore)).state, archive.id).Some?
  {
    var hidden := Exec(s, Transition(archive)).state;
    TransitionLeaves(s, archive);
    TransitionLeaves(hidden, restore);
  }

  /** A rename of a category is read in every product on sale in it, and changes
      nothing else of them or of any other. */
  lemma RenameIsRead(s: State, id: nat, input: CategoryInput, product: nat)
    requires Valid(s) && Exec(s, UpdateCategory(id, input)).result.Ok? && FindByID(s, product).Some?
    ensures var was, now := FindByID(s, product).value, FindByID(Exec(s, UpdateCategory(id, input)).state, product);
      now == Some(if s.products[product].category == Some(id) then was.(category := input.name) else was)
  {
    UpdateCategoryLeaves(s, id, input);
    AllOrNothing(s, UpdateCategory(id, input));
    assert RowOk(s.categories, s.products[product]);
  }

  /** The operator's row shows every column of the stored one, whatever its status. */
  lemma OperatorSees(db: State, id: nat)
    requires Valid(db) && id in db.products
    ensures var shown, row := RowView(db.categories, id, db.products[id]), db.products[id];
      && shown.id == id && shown.name == row.name && shown.description == row.description
      && shown.price == row.cents as real / 100.0 && shown.status == row.status && shown.version == row.version
      && (row.category == None ==> shown.category == "")
      && (forall c | row.category == Some(c) :: c in db.categories && shown.category == db.categories[c].name)
  {
    assert RowOk(db.categories, db.products[id]);
  }
}
