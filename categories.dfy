/**
  controllers/categoriesController.js: the five category handlers. Each
  validates the path id and the body, runs its precondition reads, then at
  most one mutation; the `...Effects` functions give the outcome each handler
  must produce from the tables as they were before the call.
 */
module Categories {
  import opened Js
  import opened Store
  import opened Http

  const NAME_REQUIRED := "Name is required."

  /** The category 404 text: a fixed head, the id as `${id}` renders it, then " does not exist.". */
  function NotFoundMessage(id: int): (m: string)
    ensures |m| == 23 + |IntToString(id)| + 16
    ensures m[..23] == "Category with an ID of " && m[23..|m| - 16] == IntToString(id)
    ensures m[|m| - 16..] == " does not exist."
  {
    "Category with an ID of " + IntToString(id) + " does not exist."
  }

  /** deleteCategory's variant of the not-found message: the same text without its closing period. */
  function DeleteNotFoundMessage(id: int): (m: string)
    ensures m + "." == NotFoundMessage(id)
    ensures m != NotFoundMessage(id)
  {
    "Category with an ID of " + IntToString(id) + " does not exist"
  }

  /** The 409 text of a taken name: the name as given, in single quotes. */
  function ExistsMessage(name: string): (m: string)
    ensures |m| == 10 + |name| + 17
    ensures m[..10] == "Category '" && m[10..10 + |name|] == name
    ensures m[10 + |name|..] == "' already exists."
  {
    "Category '" + name + "' already exists."
  }

  /** The 409 text of a category in use: it ends in "products." exactly when more than one product refers to it. */
  function InUseMessage(id: int, count: nat): (m: string)
    ensures |m| >= 9
    ensures count > 1 ==> m[|m| - 9..] == "products."
    ensures count <= 1 ==> m[|m| - 9..] == " product."
    ensures m[|m| - 1] == '.'
  {
    var head := "Category with an ID of " + IntToString(id) + " is being used in " + IntToString(count);
    var tail := if count > 1 then " products." else " product.";
    assert (head + tail)[|head + tail| - 9..] == tail[|tail| - 9..];
    head + tail
  }

  // ---------------------------------------------------------------------------
  // The precondition reads.

  /** `SELECT * FROM category WHERE name = $1`, answered by its rowCount. */
  method NameExists(db: Db, name: string) returns (found: bool)
    requires db.Valid()
    ensures found <==> NameTaken(db.categories, name)
  {
    var keys := Select(db.categories, (c: Category) => c.name == name, db.nextCategoryId);
    found := |keys| > 0;
    if found {
      assert db.categories[keys[0]].name == name;
    }
  }

  /** `SELECT COUNT(*) FROM product WHERE category_id = $1`. */
  method ProductCount(db: Db, id: int) returns (count: nat)
    requires db.Valid()
    ensures count == UsageCount(db.products, id)
  {
    var keep := (p: Product) => p.categoryId == id;
    var keys := Select(db.products, keep, db.nextProductId);
    count := |keys|;
    assert Matching(db.products, keep) ==
           set k | k in db.products && db.products[k].categoryId == id;
  }

  // ---------------------------------------------------------------------------
  // Handlers.

  /** GET /api/categories. */
  method GetCategories(db: Db, fault: Option<Fault>) returns (effects: seq<Effect>)
    requires db.Valid()
    ensures FailsAt(fault, 0) ==> effects == [Unexpected(fault)]
    ensures !FailsAt(fault, 0) ==>
              && |effects| == 1 && effects[0].Respond? && effects[0].status == 200
              && effects[0].body.CategoryRows?
              && var rows := effects[0].body.categories;
                 && (forall i :: 0 <= i < |rows| ==> rows[i].id in db.categories && db.categories[rows[i].id] == rows[i])
                 && (forall k :: k in db.categories ==> db.categories[k] in rows)
                 && |rows| == |db.categories|
  {
    if FailsAt(fault, 0) {
      return [Unexpected(fault)];
    }
    var all := (c: Category) => true;
    var keys := Select(db.categories, all, db.nextCategoryId);
    var table := db.categories;
    var rows := seq(|keys|, i requires 0 <= i < |keys| => table[keys[i]]);
    assert Matching(table, all) == table.Keys;
    forall k | k in table
      ensures table[k] in rows
    {
      var i :| 0 <= i < |keys| && keys[i] == k;
      assert rows[i] == table[k];
    }
    effects := [Respond(200, CategoryRows(rows))];
  }

  /**
    GET /api/categories/:id. A missing row forwards the 404 but does not
    return, so the handler goes on to answer 200 with an undefined body.
   */
  method GetCategoryById(db: Db, param: NumParam, fault: Option<Fault>) returns (effects: seq<Effect>)
    requires db.Valid()
    ensures ValidId(param).None? ==> effects == [Fail(400, INVALID_ID)]
    ensures ValidId(param).Some? && FailsAt(fault, 0) ==> effects == [Fail(422, fault.value.message)]
    ensures ValidId(param).Some? && !FailsAt(fault, 0) ==>
              var id := ValidId(param).value;
              if id in db.categories then effects == [Respond(200, CategoryRow(db.categories[id]))]
              else effects == [Fail(404, NotFoundMessage(id)), Respond(200, Undefined)]
  {
    var v := ValidId(param);
    if v.None? {
      return [Fail(400, INVALID_ID)];
    }
    var id := v.value;
    if FailsAt(fault, 0) {
      return [Fail(422, fault.value.message)];
    }
    effects := [];
    if id !in db.categories {
      effects := effects + [Fail(404, NotFoundMessage(id))];
    }
    var body := if id in db.categories then CategoryRow(db.categories[id]) else Undefined;
    effects := effects + [Respond(200, body)];
  }

  /** The outcome of POST /api/categories on the category table as it was. */
  ghost function CreateEffects(categories: map<int, Category>, next: int, name: Field<string>, fault: Option<Fault>): seq<Effect> {
    if !TextTruthy(name) then [Fail(422, NAME_REQUIRED)]
    else if FailsAt(fault, 0) then [Unexpected(fault)]
    else if NameTaken(categories, name.value) then [Fail(409, ExistsMessage(name.value))]
    else if FailsAt(fault, 1) then [Unexpected(fault)]
    else [Respond(201, CategoryRow(Category(next, name.value)))]
  }

  /** POST /api/categories: inserts exactly one category when the name is given and unused. */
  method CreateCategory(db: Db, name: Field<string>, fault: Option<Fault>) returns (effects: seq<Effect>)
    requires db.Valid()
    modifies db`categories, db`nextCategoryId
    ensures db.Valid()
    ensures effects == CreateEffects(old(db.categories), old(db.nextCategoryId), name, fault)
    ensures effects[0].Respond? ==>
              && db.categories == old(db.categories)[old(db.nextCategoryId) := Category(old(db.nextCategoryId), name.value)]
              && db.nextCategoryId == old(db.nextCategoryId) + 1
    ensures !effects[0].Respond? ==> db.categories == old(db.categories) && db.nextCategoryId == old(db.nextCategoryId)
  {
    if !TextTruthy(name) {
      return [Fail(422, NAME_REQUIRED)];
    }
    if FailsAt(fault, 0) {
      return [Unexpected(fault)];
    }
    var categoryExists := NameExists(db, name.value);
    if categoryExists {
      return [Fail(409, ExistsMessage(name.value))];
    }
    if FailsAt(fault, 1) {
      return [Unexpected(fault)];
    }
    var row := db.InsertCategory(name.value);
    effects := [Respond(201, CategoryRow(row))];
  }

  /** The outcome of PUT /api/categories/:id on the category table as it was. */
  ghost function UpdateEffects(categories: map<int, Category>, param: NumParam, name: Field<string>, fault: Option<Fault>): seq<Effect> {
    if ValidId(param).None? then [Fail(400, INVALID_ID)]
    else if !TextTruthy(name) then [Fail(422, NAME_REQUIRED)]
    else if FailsAt(fault, 0) then [Unexpected(fault)]
    else if NameTaken(categories, name.value) then [Fail(409, ExistsMessage(name.value))]
    else if FailsAt(fault, 1) then [Unexpected(fault)]
    else if ValidId(param).value !in categories then [Fail(404, NotFoundMessage(ValidId(param).value))]
    else [Respond(200, CategoryRow(Category(ValidId(param).value, name.value)))]
  }

  /** PUT /api/categories/:id: renames that one category when the new name is unused. */
  method UpdateCategory(db: Db, param: NumParam, name: Field<string>, fault: Option<Fault>) returns (effects: seq<Effect>)
    requires db.Valid()
    modifies db`categories
    ensures db.Valid()
    ensures effects == UpdateEffects(old(db.categories), param, name, fault)
    ensures effects[0].Respond? ==>
              var id := ValidId(param).value;
              db.categories == old(db.categories)[id := Category(id, name.value)]
    ensures !effects[0].Respond? ==> db.categories == old(db.categories)
  {
    var v := ValidId(param);
    if v.None? {
      return [Fail(400, INVALID_ID)];
    }
    var id := v.value;
    if !TextTruthy(name) {
      return [Fail(422, NAME_REQUIRED)];
    }
    if FailsAt(fault, 0) {
      return [Unexpected(fault)];
    }
    var categoryExists := NameExists(db, name.value);
    if categoryExists {
      return [Fail(409, ExistsMessage(name.value))];
    }
    if FailsAt(fault, 1) {
      return [Unexpected(fault)];
    }
    var row := db.RenameCategory(id, name.value);
    if row.None? {
      return [Fail(404, NotFoundMessage(id))];
    }
    effects := [Respond(200, CategoryRow(row.value))];
  }

  /** The outcome of DELETE /api/categories/:id on the tables as they were. */
  ghost function DeleteEffects(categories: map<int, Category>, products: map<int, Product>, param: NumParam, fault: Option<Fault>): seq<Effect> {
    if ValidId(param).None? then [Fail(400, INVALID_ID)]
    else if FailsAt(fault, 0) then [Unexpected(fault)]
    else if UsageCount(products, ValidId(param).value) > 0
    then [Fail(409, InUseMessage(ValidId(param).value, UsageCount(products, ValidId(param).value)))]
    else if FailsAt(fault, 1) then [Unexpected(fault)]
    else if ValidId(param).value !in categories then [Fail(404, DeleteNotFoundMessage(ValidId(param).value))]
    else [Respond(204, Undefined)]
  }

  /** DELETE /api/categories/:id: removes the category only while no product uses it. */
  method DeleteCategory(db: Db, param: NumParam, fault: Option<Fault>) returns (effects: seq<Effect>)
    requires db.Valid()
    modifies db`categories
    ensures db.Valid()
    ensures effects == DeleteEffects(old(db.categories), db.products, param, fault)
    ensures effects[0].Respond? ==> db.categories == old(db.categories) - {ValidId(param).value}
    ensures !effects[0].Respond? ==> db.categories == old(db.categories)
  {
    var v := ValidId(param);
    if v.None? {
      return [Fail(400, INVALID_ID)];
    }
    var id := v.value;
    if FailsAt(fault, 0) {
      return [Unexpected(fault)];
    }
    var count := ProductCount(db, id);
    if count > 0 {
      return [Fail(409, InUseMessage(id, count))];
    }
    if FailsAt(fault, 1) {
      return [Unexpected(fault)];
    }
    UsageCountZero(db.products, id);
    var rowCount := db.DeleteCategoryRow(id);
    if rowCount == 0 {
      return [Fail(404, DeleteNotFoundMessage(id))];
    }
    effects := [Respond(204, Undefined)];
  }

  // ---------------------------------------------------------------------------
  // Properties of the handlers' outcomes.

  /** The id is validated before the name: a bad id answers 400 even when the name is missing too. */
  lemma UpdateChecksIdFirst(categories: map<int, Category>, param: NumParam, name: Field<string>, fault: Option<Fault>)
    requires ValidId(param).None?
    ensures UpdateEffects(categories, param, name, fault) == [Fail(400, INVALID_ID)]
  {
  }

  /** Uniqueness is checked against every row, the renamed one included: renaming a category to its own name conflicts. */
  lemma RenameToSameNameConflicts(categories: map<int, Category>, param: NumParam, fault: Option<Fault>)
    requires ValidId(param).Some? && ValidId(param).value in categories
    requires categories[ValidId(param).value].name != "" && !FailsAt(fault, 0)
    ensures var name := categories[ValidId(param).value].name;
            UpdateEffects(categories, param, Given(name), fault) == [Fail(409, ExistsMessage(name))]
  {
  }

  /** A successful create or rename leaves the new name held by exactly one category. */
  lemma NameHeldOnce(categories: map<int, Category>, id: int, name: string)
    requires UniqueNames(categories) && !NameTaken(categories, name)
    ensures UniqueNames(categories[id := Category(id, name)])
    ensures !NameTaken(categories[id := Category(id, name)] - {id}, name)
  {
  }

  /** The count in the 409 of deleteCategory takes "product" for one referencing product and "products" otherwise. */
  lemma InUseNoun(id: int, count: nat)
    requires count > 0
    ensures count == 1 ==>
              InUseMessage(id, count) == "Category with an ID of " + IntToString(id) + " is being used in 1 product."
    ensures count > 1 ==>
              InUseMessage(id, count)
              == "Category with an ID of " + IntToString(id) + " is being used in " + IntToString(count) + " products."
  {
  }

  /** A category that some product references is never deleted: the outcome is 409 with the number of references. */
  lemma {:induction false} ReferencedNotDeleted(categories: map<int, Category>, products: map<int, Product>,
                                                param: NumParam, fault: Option<Fault>, k: int)
    requires ValidId(param).Some? && !FailsAt(fault, 0)
    requires k in products && products[k].categoryId == ValidId(param).value
    ensures var id := ValidId(param).value;
            UsageCount(products, id) >= 1
            && DeleteEffects(categories, products, param, fault) == [Fail(409, InUseMessage(id, UsageCount(products, id)))]
  {
    UsageCountZero(products, ValidId(param).value);
  }
}
