/**
  controllers/productsController.js: the six product handlers. createProduct
  and updateProduct validate the body, check that the referenced category
  exists, then write one row; deleteProduct removes one row. The
  `...Effects` functions give the outcome each mutating handler must produce
  from the tables as they were before the call.
 */
module Products {
  import opened Js
  import opened Fields
  import opened Store
  import opened Http
  import Categories

  /** The fields a product handler destructures from `req.body`. */
  datatype ProductBody = ProductBody(
    name: Field<string>,
    description: Field<string>,
    price: Field<int>,
    currency: Field<string>,
    quantity: Field<int>,
    active: Field<bool>,
    categoryId: Field<int>)

  const INVALID_CATEGORY_ID := "Invalid category ID parameter."
  const DEFAULT_CURRENCY := "USD"

  /** The product 404 text: a fixed head, the id as `${id}` renders it, then " does not exist.". */
  function NotFoundMessage(id: int): (m: string)
    ensures |m| == 22 + |IntToString(id)| + 16
    ensures m[..22] == "Product with an ID of " && m[22..|m| - 16] == IntToString(id)
    ensures m[|m| - 16..] == " does not exist."
  {
    "Product with an ID of " + IntToString(id) + " does not exist."
  }

  /** The required fields of createProduct, in the order they are reported. */
  function CreateChecks(b: ProductBody): (c: seq<Check>)
    ensures |c| == 3 && c[0].name == "name" && c[1].name == "price" && c[2].name == "category ID"
    ensures AllTruthy(c) <==> CreateFieldsGiven(b)
  {
    [ Check("name", TextTruthy(b.name)),
      Check("price", NumberTruthy(b.price)),
      Check("category ID", NumberTruthy(b.categoryId)) ]
  }

  /** The required fields of updateProduct, in the order they are reported. */
  function UpdateChecks(b: ProductBody): (c: seq<Check>)
    ensures |c| == 7 && c[0].name == "name" && c[1].name == "description" && c[2].name == "price"
    ensures c[3].name == "currency" && c[4].name == "quantity" && c[5].name == "active" && c[6].name == "category ID"
    ensures AllTruthy(c) <==> UpdateFieldsGiven(b)
  {
    [ Check("name", TextTruthy(b.name)),
      Check("description", TextTruthy(b.description)),
      Check("price", NumberTruthy(b.price)),
      Check("currency", TextTruthy(b.currency)),
      Check("quantity", NumberTruthy(b.quantity)),
      Check("active", FlagTruthy(b.active)),
      Check("category ID", NumberTruthy(b.categoryId)) ]
  }

  predicate CreateFieldsGiven(b: ProductBody) {
    TextTruthy(b.name) && NumberTruthy(b.price) && NumberTruthy(b.categoryId)
  }

  predicate UpdateFieldsGiven(b: ProductBody) {
    && TextTruthy(b.name) && TextTruthy(b.description) && NumberTruthy(b.price)
    && TextTruthy(b.currency) && NumberTruthy(b.quantity) && FlagTruthy(b.active)
    && NumberTruthy(b.categoryId)
  }

  /** The `missingFields` list createProduct builds, one push per falsy field. */
  method CreateMissingFields(b: ProductBody) returns (missing: seq<string>)
    ensures missing == MissingNames(CreateChecks(b))
  {
    ghost var c := CreateChecks(b);
    missing := [];
    if !TextTruthy(b.name) { missing := missing + ["name"]; }
    ghost var m0 := missing;
    assert m0 == Reported(c[0]);
    if !NumberTruthy(b.price) { missing := missing + ["price"]; }
    ghost var m1 := missing;
    assert m1 == m0 + Reported(c[1]);
    if !NumberTruthy(b.categoryId) { missing := missing + ["category ID"]; }
    assert missing == m1 + Reported(c[2]);
    MissingNamesOfThree(c);
  }

  /** The `missingFields` list updateProduct builds, one push per falsy field. */
  method UpdateMissingFields(b: ProductBody) returns (missing: seq<string>)
    ensures missing == MissingNames(UpdateChecks(b))
  {
    ghost var c := UpdateChecks(b);
    missing := [];
    if !TextTruthy(b.name) { missing := missing + ["name"]; }
    ghost var m0 := missing;
    assert m0 == Reported(c[0]);
    if !TextTruthy(b.description) { missing := missing + ["description"]; }
    ghost var m1 := missing;
    assert m1 == m0 + Reported(c[1]);
    if !NumberTruthy(b.price) { missing := missing + ["price"]; }
    ghost var m2 := missing;
    assert m2 == m1 + Reported(c[2]);
    if !TextTruthy(b.currency) { missing := missing + ["currency"]; }
    ghost var m3 := missing;
    assert m3 == m2 + Reported(c[3]);
    if !NumberTruthy(b.quantity) { missing := missing + ["quantity"]; }
    ghost var m4 := missing;
    assert m4 == m3 + Reported(c[4]);
    if !FlagTruthy(b.active) { missing := missing + ["active"]; }
    ghost var m5 := missing;
    assert m5 == m4 + Reported(c[5]);
    if !NumberTruthy(b.categoryId) { missing := missing + ["category ID"]; }
    assert missing == m5 + Reported(c[6]);
    MissingNamesOfSeven(c);
  }

  /** The row createProduct inserts: `currency || "USD"`, `quantity || 0`, `active || true`. */
  function NewProduct(b: ProductBody): (p: Product)
    requires CreateFieldsGiven(b)
    ensures p.active
    ensures p.categoryId == b.categoryId.value
    ensures p.currency == (if TextTruthy(b.currency) then b.currency.value else DEFAULT_CURRENCY)
    ensures p.quantity == (if NumberTruthy(b.quantity) then b.quantity.value else 0)
  {
    Product(
      0,
      b.name.value,
      if b.description.Given? then Some(b.description.value) else None,
      b.price.value,
      if TextTruthy(b.currency) then b.currency.value else DEFAULT_CURRENCY,
      if NumberTruthy(b.quantity) then b.quantity.value else 0,
      if FlagTruthy(b.active) then b.active.value else true,
      b.categoryId.value)
  }

  /** The row updateProduct writes over product `id`: all seven fields from the body. */
  function UpdatedProduct(id: int, b: ProductBody): (p: Product)
    requires UpdateFieldsGiven(b)
    ensures p.active && p.quantity != 0
    ensures p.id == id && p.categoryId == b.categoryId.value
  {
    Product(id, b.name.value, Some(b.description.value), b.price.value, b.currency.value,
            b.quantity.value, b.active.value, b.categoryId.value)
  }

  /** The rows of a product read, in id order, each with its category joined in. */
  ghost predicate ListsProducts(views: seq<ProductView>, products: map<int, Product>,
                                categories: map<int, Category>, keep: Product -> bool)
  {
    && (forall i :: 0 <= i < |views| ==>
          views[i].id in products && keep(products[views[i].id])
          && views[i] == View(products[views[i].id], categories, true))
    && (forall k :: k in products && keep(products[k]) ==> View(products[k], categories, true) in views)
    && |views| == |Matching(products, keep)|
  }

  /** Rows in increasing id order, as `ORDER BY p.id` returns them. */
  ghost predicate InIdOrder(views: seq<ProductView>) {
    forall i, j :: 0 <= i < j < |views| ==> views[i].id < views[j].id
  }

  /** The product SELECT with its category subquery, restricted by `keep`. */
  method SelectViews(db: Db, keep: Product -> bool) returns (views: seq<ProductView>)
    requires db.Valid()
    ensures ListsProducts(views, db.products, db.categories, keep)
    ensures InIdOrder(views)
  {
    var keys := Select(db.products, keep, db.nextProductId);
    var table, categories := db.products, db.categories;
    views := seq(|keys|, i requires 0 <= i < |keys| => View(table[keys[i]], categories, true));
    assert forall i :: 0 <= i < |views| ==> views[i].id == keys[i] by {
      forall i | 0 <= i < |views|
        ensures views[i].id == keys[i]
      {
        assert table[keys[i]].id == keys[i];
      }
    }
    forall k | k in table && keep(table[k])
      ensures View(table[k], categories, true) in views
    {
      var i :| 0 <= i < |keys| && keys[i] == k;
      assert views[i] == View(table[k], categories, true);
    }
  }

  // ---------------------------------------------------------------------------
  // Read handlers.

  /** GET /api/products. */
  method GetProducts(db: Db, fault: Option<Fault>) returns (effects: seq<Effect>)
    requires db.Valid()
    ensures FailsAt(fault, 0) ==> effects == [Unexpected(fault)]
    ensures !FailsAt(fault, 0) ==>
              && |effects| == 1 && effects[0].Respond? && effects[0].status == 200
              && effects[0].body.ProductRows?
              && ListsProducts(effects[0].body.views, db.products, db.categories, (p: Product) => true)
              && InIdOrder(effects[0].body.views)
  {
    if FailsAt(fault, 0) {
      return [Unexpected(fault)];
    }
    var views := SelectViews(db, (p: Product) => true);
    effects := [Respond(200, ProductRows(views))];
  }

  /** GET /api/products/:id: the row without its currency column, or 404. */
  method GetProductById(db: Db, param: NumParam, fault: Option<Fault>) returns (effects: seq<Effect>)
    requires db.Valid()
    ensures ValidId(param).None? ==> effects == [Fail(400, INVALID_ID)]
    ensures ValidId(param).Some? && FailsAt(fault, 0) ==> effects == [Unexpected(fault)]
    ensures ValidId(param).Some? && !FailsAt(fault, 0) ==>
              var id := ValidId(param).value;
              if id in db.products
              then effects == [Respond(200, ProductItem(View(db.products[id], db.categories, false)))]
                   && effects[0].body.view.currency.None?
              else effects == [Fail(404, NotFoundMessage(id))]
  {
    var v := ValidId(param);
    if v.None? {
      return [Fail(400, INVALID_ID)];
    }
    var id := v.value;
    if FailsAt(fault, 0) {
      return [Unexpected(fault)];
    }
    if id !in db.products {
      return [Fail(404, NotFoundMessage(id))];
    }
    effects := [Respond(200, ProductItem(View(db.products[id], db.categories, false)))];
  }

  /** GET /api/products/category/:categoryId: exactly the products of an existing category. */
  method GetProductByCategory(db: Db, param: NumParam, fault: Option<Fault>) returns (effects: seq<Effect>)
    requires db.Valid()
    ensures ValidId(param).None? ==> effects == [Fail(400, INVALID_CATEGORY_ID)]
    ensures ValidId(param).Some? && FailsAt(fault, 0) ==> effects == [Unexpected(fault)]
    ensures ValidId(param).Some? && !FailsAt(fault, 0) && ValidId(param).value !in db.categories ==>
              effects == [Fail(404, Categories.NotFoundMessage(ValidId(param).value))]
    ensures ValidId(param).Some? && !FailsAt(fault, 0) && ValidId(param).value in db.categories ==>
              if FailsAt(fault, 1) then effects == [Unexpected(fault)]
              else
                && |effects| == 1 && effects[0].Respond? && effects[0].status == 200
                && effects[0].body.ProductRows?
                && var cid := ValidId(param).value;
                   ListsProducts(effects[0].body.views, db.products, db.categories, (p: Product) => p.categoryId == cid)
  {
    var v := ValidId(param);
    if v.None? {
      return [Fail(400, INVALID_CATEGORY_ID)];
    }
    var cid := v.value;
    if FailsAt(fault, 0) {
      return [Unexpected(fault)];
    }
    if cid !in db.categories {
      return [Fail(404, Categories.NotFoundMessage(cid))];
    }
    if FailsAt(fault, 1) {
      return [Unexpected(fault)];
    }
    var views := SelectViews(db, (p: Product) => p.categoryId == cid);
    effects := [Respond(200, ProductRows(views))];
  }

  // ---------------------------------------------------------------------------
  // Mutating handlers.

  /** The outcome of POST /api/products on the tables as they were. */
  function CreateEffects(categories: map<int, Category>, next: int, b: ProductBody, fault: Option<Fault>): seq<Effect> {
    if !CreateFieldsGiven(b) then [Fail(422, ProductMissingMessage(MissingNames(CreateChecks(b))))]
    else if FailsAt(fault, 0) then [Unexpected(fault)]
    else if b.categoryId.value !in categories then [Fail(404, Categories.NotFoundMessage(b.categoryId.value))]
    else if FailsAt(fault, 1) then [Unexpected(fault)]
    else [Respond(201, ProductRow(NewProduct(b).(id := next)))]
  }

  /** POST /api/products: inserts exactly one product, into an existing category. */
  method CreateProduct(db: Db, b: ProductBody, fault: Option<Fault>) returns (effects: seq<Effect>)
    requires db.Valid()
    modifies db`products, db`nextProductId
    ensures db.Valid()
    ensures effects == CreateEffects(db.categories, old(db.nextProductId), b, fault)
    ensures effects[0].Respond? ==>
              && db.products == old(db.products)[old(db.nextProductId) := NewProduct(b).(id := old(db.nextProductId))]
              && db.nextProductId == old(db.nextProductId) + 1
    ensures !effects[0].Respond? ==> db.products == old(db.products) && db.nextProductId == old(db.nextProductId)
  {
    if !TextTruthy(b.name) || !NumberTruthy(b.price) || !NumberTruthy(b.categoryId) {
      var missing := CreateMissingFields(b);
      return [Fail(422, ProductMissingMessage(missing))];
    }
    if FailsAt(fault, 0) {
      return [Unexpected(fault)];
    }
    if b.categoryId.value !in db.categories {
      return [Fail(404, Categories.NotFoundMessage(b.categoryId.value))];
    }
    if FailsAt(fault, 1) {
      return [Unexpected(fault)];
    }
    var row := db.InsertProduct(NewProduct(b));
    effects := [Respond(201, ProductRow(row))];
  }

  /**
    The outcome of PUT /api/products/:id on the tables as they were. Store
    failures are swallowed by an empty catch: no response and no `next`.
   */
  function UpdateEffects(categories: map<int, Category>, products: map<int, Product>,
                         param: NumParam, b: ProductBody, fault: Option<Fault>): seq<Effect> {
    if ValidId(param).None? then [Fail(400, INVALID_ID)]
    else if !UpdateFieldsGiven(b) then [Fail(400, UpdateMissingMessage(MissingNames(UpdateChecks(b))))]
    else if FailsAt(fault, 0) then []
    else if b.categoryId.value !in categories then [Fail(404, Categories.NotFoundMessage(b.categoryId.value))]
    else if FailsAt(fault, 1) then []
    else if ValidId(param).value !in products then [Fail(404, NotFoundMessage(ValidId(param).value))]
    else [Respond(200, ProductRow(UpdatedProduct(ValidId(param).value, b)))]
  }

  /** PUT /api/products/:id: overwrites the seven fields of that one product. */
  method UpdateProduct(db: Db, param: NumParam, b: ProductBody, fault: Option<Fault>) returns (effects: seq<Effect>)
    requires db.Valid()
    modifies db`products
    ensures db.Valid()
    ensures effects == UpdateEffects(db.categories, old(db.products), param, b, fault)
    ensures |effects| == 1 && effects[0].Respond? ==>
              var id := ValidId(param).value;
              db.products == old(db.products)[id := UpdatedProduct(id, b)]
    ensures !(|effects| == 1 && effects[0].Respond?) ==> db.products == old(db.products)
  {
    var v := ValidId(param);
    if v.None? {
      return [Fail(400, INVALID_ID)];
    }
    var id := v.value;
    if !UpdateFieldsGiven(b) {
      var missing := UpdateMissingFields(b);
      return [Fail(400, UpdateMissingMessage(missing))];
    }
    if FailsAt(fault, 0) {
      return [];
    }
    if b.categoryId.value !in db.categories {
      return [Fail(404, Categories.NotFoundMessage(b.categoryId.value))];
    }
    if FailsAt(fault, 1) {
      return [];
    }
    var row := db.UpdateProductRow(id, UpdatedProduct(id, b));
    if row.None? {
      return [Fail(404, NotFoundMessage(id))];
    }
    effects := [Respond(200, ProductRow(row.value))];
  }

  /** The outcome of DELETE /api/products/:id on the product table as it was. */
  function DeleteEffects(products: map<int, Product>, param: NumParam, fault: Option<Fault>): seq<Effect> {
    if ValidId(param).None? then [Fail(400, INVALID_ID)]
    else if FailsAt(fault, 0) then [Unexpected(fault)]
    else if ValidId(param).value !in products then [Fail(404, NotFoundMessage(ValidId(param).value))]
    else [Respond(204, NoRows)]
  }

  /** DELETE /api/products/:id: removes exactly that product. */
  method DeleteProduct(db: Db, param: NumParam, fault: Option<Fault>) returns (effects: seq<Effect>)
    requires db.Valid()
    modifies db`products
    ensures db.Valid()
    ensures effects == DeleteEffects(old(db.products), param, fault)
    ensures effects[0].Respond? ==> db.products == old(db.products) - {ValidId(param).value}
    ensures !effects[0].Respond? ==> db.products == old(db.products)
  {
    var v := ValidId(param);
    if v.None? {
      return [Fail(400, INVALID_ID)];
    }
    var id := v.value;
    if FailsAt(fault, 0) {
      return [Unexpected(fault)];
    }
    var rowCount := db.DeleteProductRow(id);
    if rowCount == 0 {
      return [Fail(404, NotFoundMessage(id))];
    }
    effects := [Respond(204, NoRows)];
  }

  // ---------------------------------------------------------------------------
  // Properties of the validation outcomes.

  /** createProduct with exactly one required field falsy names that field, with the singular noun. */
  lemma {:induction false} CreateOneMissing(categories: map<int, Category>, next: int, b: ProductBody,
                                            fault: Option<Fault>, j: nat)
    requires j < 3 && !CreateChecks(b)[j].truthy
    requires forall i :: 0 <= i < 3 && i != j ==> CreateChecks(b)[i].truthy
    ensures CreateEffects(categories, next, b, fault) == [Fail(422, "Missing field: " + CreateChecks(b)[j].name)]
  {
    MissingNamesSingle(CreateChecks(b), j);
    SingularIffOne([CreateChecks(b)[j].name]);
  }

  /** createProduct with several required fields falsy lists them all, in order, after the plural noun. */
  lemma {:induction false} CreateSeveralMissing(categories: map<int, Category>, next: int, b: ProductBody,
                                                fault: Option<Fault>)
    requires |MissingNames(CreateChecks(b))| > 1
    ensures CreateEffects(categories, next, b, fault)
            == [Fail(422, "Missing fields: " + Join(MissingNames(CreateChecks(b)), ", "))]
  {
    var missing := MissingNames(CreateChecks(b));
    MissingNamesEmpty(CreateChecks(b));
    SingularIffOne(missing);
  }

  /**
    updateProduct answers 400 whenever one of its seven fields is falsy, and
    names that field; in particular quantity 0 and active false are refused.
   */
  lemma {:induction false} UpdateRejectsFalsyField(categories: map<int, Category>, products: map<int, Product>,
                                                   param: NumParam, b: ProductBody, fault: Option<Fault>, j: nat)
    requires ValidId(param).Some?
    requires j < 7 && !UpdateChecks(b)[j].truthy
    ensures var missing := MissingNames(UpdateChecks(b));
            && UpdateChecks(b)[j].name in missing
            && UpdateEffects(categories, products, param, b, fault) == [Fail(400, UpdateMissingMessage(missing))]
  {
    var c := UpdateChecks(b);
    assert forall i :: 0 <= i < 7 ==> c[i].truthy || !UpdateFieldsGiven(b);
    MissingNamesMembers(c, c[j].name);
  }

  /** updateProduct's message is plural even when a single field is missing, unlike createProduct's. */
  lemma {:induction false} UpdateOneMissingStillPlural(categories: map<int, Category>, products: map<int, Product>,
                                                       param: NumParam, b: ProductBody, fault: Option<Fault>, j: nat)
    requires ValidId(param).Some?
    requires j < 7 && !UpdateChecks(b)[j].truthy
    requires forall i :: 0 <= i < 7 && i != j ==> UpdateChecks(b)[i].truthy
    ensures UpdateEffects(categories, products, param, b, fault) == [Fail(400, "Missing fields: " + UpdateChecks(b)[j].name)]
  {
    MissingNamesSingle(UpdateChecks(b), j);
  }

  /** A product body that refers to a missing category is never written, by create or by update. */
  lemma UnknownCategoryNotWritten(categories: map<int, Category>, products: map<int, Product>, next: int,
                                  param: NumParam, b: ProductBody, fault: Option<Fault>)
    requires b.categoryId.Given? && b.categoryId.value !in categories
    ensures !CreateEffects(categories, next, b, fault)[0].Respond?
    ensures !(var e := UpdateEffects(categories, products, param, b, fault); |e| == 1 && e[0].Respond?)
  {
  }

  /** The 404 message of the product handlers names the id it was given: different ids give different messages. */
  lemma {:induction false} NotFoundMessageNamesId(a: int, b: int)
    requires NotFoundMessage(a) == NotFoundMessage(b)
    ensures a == b
  {
    var head, tail := "Product with an ID of ", " does not exist.";
    var m := NotFoundMessage(a);
    assert m == head + IntToString(a) + tail;
    assert |IntToString(a)| == |IntToString(b)|;
    assert IntToString(a) == m[|head|..|m| - |tail|];
    assert IntToString(b) == m[|head|..|m| - |tail|];
    IntToStringInjective(a, b);
  }
}
