/**
  The three tables the controllers query (category, product and "user"),
  held in memory. Each SQL statement a handler issues is a method of `Db` or
  the `Select` scan; the handlers' ordered checks keep the store invariants
  gathered in `Db.Valid`.
 */
module Store {
  import opened Js

  datatype Category = Category(id: int, name: string)

  datatype Product = Product(
    id: int,
    name: string,
    description: Option<string>,
    price: int,
    currency: string,
    quantity: int,
    active: bool,
    categoryId: int)

  datatype User = User(id: int, name: string, email: string, password: string)

  /** The nested `{id, name}` object a product read joins in for its category. */
  datatype CategoryRef = CategoryRef(id: int, name: string)

  /** A product as the read handlers return it: the row without its category_id, plus the joined category. */
  datatype ProductView = ProductView(
    id: int,
    name: string,
    description: Option<string>,
    price: int,
    currency: Option<string>,
    quantity: int,
    active: bool,
    category: Option<CategoryRef>)

  /** The row of a product read; `withCurrency` is false for getProductById, whose SELECT omits the column. */
  function View(p: Product, categories: map<int, Category>, withCurrency: bool): (v: ProductView)
    ensures v.id == p.id && v.name == p.name && v.description == p.description && v.price == p.price
    ensures v.quantity == p.quantity && v.active == p.active
    ensures v.currency.Some? <==> withCurrency
    ensures withCurrency ==> v.currency == Some(p.currency)
    ensures v.category.Some? <==> p.categoryId in categories
    ensures v.category.Some? ==> v.category.value == CategoryRef(p.categoryId, categories[p.categoryId].name)
  {
    ProductView(
      p.id, p.name, p.description, p.price,
      if withCurrency then Some(p.currency) else None,
      p.quantity, p.active,
      if p.categoryId in categories
      then Some(CategoryRef(p.categoryId, categories[p.categoryId].name))
      else None)
  }

  // ---------------------------------------------------------------------------
  // What the WHERE clauses of the precondition reads ask.

  ghost predicate NameTaken(categories: map<int, Category>, name: string) {
    exists k :: k in categories && categories[k].name == name
  }

  ghost predicate EmailTaken(users: map<int, User>, email: string) {
    exists k :: k in users && users[k].email == email
  }

  /** `SELECT COUNT(*) FROM product WHERE category_id = $1`. */
  ghost function UsageCount(products: map<int, Product>, categoryId: int): nat {
    |set k | k in products && products[k].categoryId == categoryId|
  }

  /** A category is in use exactly when some product refers to it. */
  lemma UsageCountZero(products: map<int, Product>, categoryId: int)
    ensures UsageCount(products, categoryId) == 0 <==>
            forall k :: k in products ==> products[k].categoryId != categoryId
  {
    if exists k :: k in products && products[k].categoryId == categoryId {
      var k :| k in products && products[k].categoryId == categoryId;
      var users := set j | j in products && products[j].categoryId == categoryId;
      assert k in users;
      assert users != {};
    }
  }

  // ---------------------------------------------------------------------------
  // Store invariants.

  ghost predicate UniqueNames(categories: map<int, Category>) {
    forall a, b :: a in categories && b in categories && a != b ==> categories[a].name != categories[b].name
  }

  ghost predicate UniqueEmails(users: map<int, User>) {
    forall a, b :: a in users && b in users && a != b ==> users[a].email != users[b].email
  }

  ghost predicate ReferencesExist(products: map<int, Product>, categories: map<int, Category>) {
    forall k :: k in products ==> products[k].categoryId in categories
  }

  ghost predicate AllActive(products: map<int, Product>) {
    forall k :: k in products ==> products[k].active
  }

  /** Every row is stored under its own id, which is positive and below the next serial value. */
  ghost predicate CategoriesKeyed(categories: map<int, Category>, next: int) {
    next > 0 && forall k :: k in categories ==> 0 < k < next && categories[k].id == k
  }

  ghost predicate ProductsKeyed(products: map<int, Product>, next: int) {
    next > 0 && forall k :: k in products ==> 0 < k < next && products[k].id == k
  }

  ghost predicate UsersKeyed(users: map<int, User>, next: int) {
    next > 0 && forall k :: k in users ==> 0 < k < next && users[k].id == k
  }

  class Db {
    var categories: map<int, Category>
    var products: map<int, Product>
    var users: map<int, User>
    var nextCategoryId: int
    var nextProductId: int
    var nextUserId: int

    ghost predicate Valid()
      reads this
    {
      && CategoriesKeyed(categories, nextCategoryId)
      && ProductsKeyed(products, nextProductId)
      && UsersKeyed(users, nextUserId)
      && UniqueNames(categories)
      && ReferencesExist(products, categories)
      && AllActive(products)
      && UniqueEmails(users)
    }

    /** Empty tables whose serial columns start at 1. */
    constructor ()
      ensures Valid()
      ensures categories == map[] && products == map[] && users == map[]
      ensures nextCategoryId == 1 && nextProductId == 1 && nextUserId == 1
    {
      categories, products, users := map[], map[], map[];
      nextCategoryId, nextProductId, nextUserId := 1, 1, 1;
    }

    /** `INSERT INTO category (name) VALUES ($1) RETURNING *`. */
    method InsertCategory(name: string) returns (row: Category)
      modifies this`categories, this`nextCategoryId
      ensures row == Category(old(nextCategoryId), name)
      ensures categories == old(categories)[row.id := row]
      ensures nextCategoryId == old(nextCategoryId) + 1
    {
      row := Category(nextCategoryId, name);
      categories := categories[row.id := row];
      nextCategoryId := nextCategoryId + 1;
    }

    /** `UPDATE category SET name = $1 WHERE id = $2 RETURNING *`: None when no row matched. */
    method RenameCategory(id: int, name: string) returns (row: Option<Category>)
      modifies this`categories
      ensures id in old(categories) ==> row == Some(Category(id, name)) && categories == old(categories)[id := row.value]
      ensures id !in old(categories) ==> row == None && categories == old(categories)
    {
      if id in categories {
        row := Some(Category(id, name));
        categories := categories[id := row.value];
      } else {
        row := None;
      }
    }

    /** `DELETE FROM category WHERE id = $1`, returning its rowCount. */
    method DeleteCategoryRow(id: int) returns (rowCount: nat)
      modifies this`categories
      ensures rowCount == (if id in old(categories) then 1 else 0)
      ensures categories == old(categories) - {id}
    {
      rowCount := if id in categories then 1 else 0;
      categories := categories - {id};
    }

    /** `INSERT INTO product(...) VALUES (...) RETURNING *`, the serial id filled in. */
    method InsertProduct(p: Product) returns (row: Product)
      modifies this`products, this`nextProductId
      ensures row == p.(id := old(nextProductId))
      ensures products == old(products)[row.id := row]
      ensures nextProductId == old(nextProductId) + 1
    {
      row := p.(id := nextProductId);
      products := products[row.id := row];
      nextProductId := nextProductId + 1;
    }

    /** `UPDATE product SET ... WHERE id = $8 RETURNING *`: None when no row matched. */
    method UpdateProductRow(id: int, p: Product) returns (row: Option<Product>)
      modifies this`products
      ensures id in old(products) ==> row == Some(p.(id := id)) && products == old(products)[id := row.value]
      ensures id !in old(products) ==> row == None && products == old(products)
    {
      if id in products {
        row := Some(p.(id := id));
        products := products[id := row.value];
      } else {
        row := None;
      }
    }

    /** `DELETE FROM product WHERE id = $1`, returning its rowCount. */
    method DeleteProductRow(id: int) returns (rowCount: nat)
      modifies this`products
      ensures rowCount == (if id in old(products) then 1 else 0)
      ensures products == old(products) - {id}
    {
      rowCount := if id in products then 1 else 0;
      products := products - {id};
    }

    /** `INSERT INTO "user"(name, email, password) VALUES (...)`. */
    method InsertUser(name: string, email: string, password: string) returns (row: User)
      modifies this`users, this`nextUserId
      ensures row == User(old(nextUserId), name, email, password)
      ensures users == old(users)[row.id := row]
      ensures nextUserId == old(nextUserId) + 1
    {
      row := User(nextUserId, name, email, password);
      users := users[row.id := row];
      nextUserId := nextUserId + 1;
    }
  }

  /** The keys of the rows that satisfy `keep`. */
  ghost function Matching<T>(table: map<int, T>, keep: T -> bool): set<int> {
    set k | k in table && keep(table[k])
  }

  /** The keys below `n` of the rows that satisfy `keep`. */
  ghost function MatchingBelow<T>(table: map<int, T>, keep: T -> bool, n: int): set<int> {
    set k | k in table && k < n && keep(table[k])
  }

  /** Extending the scan by one id adds that id exactly when its row matches. */
  lemma MatchingStep<T>(table: map<int, T>, keep: T -> bool, i: int)
    ensures i in table && keep(table[i]) ==>
              && MatchingBelow(table, keep, i + 1) == MatchingBelow(table, keep, i) + {i}
              && |MatchingBelow(table, keep, i + 1)| == |MatchingBelow(table, keep, i)| + 1
    ensures !(i in table && keep(table[i])) ==>
              MatchingBelow(table, keep, i + 1) == MatchingBelow(table, keep, i)
  {
    assert i !in MatchingBelow(table, keep, i);
  }

  /**
    A `SELECT ... WHERE keep(row)` over one table whose serial ids are all
    below `bound`, as the keys of the rows it returns, in id order: every
    returned key is a matching row's, every matching row is returned, each once.
   */
  method Select<T>(table: map<int, T>, keep: T -> bool, bound: int) returns (keys: seq<int>)
    requires forall k :: k in table ==> 0 < k < bound
    ensures forall i :: 0 <= i < |keys| ==> keys[i] in table && keep(table[keys[i]])
    ensures forall k :: k in table && keep(table[k]) ==> k in keys
    ensures forall i, j :: 0 <= i < j < |keys| ==> keys[i] < keys[j]
    ensures |keys| == |Matching(table, keep)|
  {
    keys := [];
    var id := 1;
    assert MatchingBelow(table, keep, 1) == {};
    while id < bound
      invariant 1 <= id && (bound <= 1 || id <= bound)
      invariant |keys| == |MatchingBelow(table, keep, id)|
      invariant forall i :: 0 <= i < |keys| ==> 0 < keys[i] < id && keys[i] in table && keep(table[keys[i]])
      invariant forall k :: 0 < k < id && k in table && keep(table[k]) ==> k in keys
      invariant forall i, j :: 0 <= i < j < |keys| ==> keys[i] < keys[j]
    {
      MatchingStep(table, keep, id);
      if id in table && keep(table[id]) {
        keys := keys + [id];
      }
      id := id + 1;
    }
    assert MatchingBelow(table, keep, id) == Matching(table, keep);
  }
}
