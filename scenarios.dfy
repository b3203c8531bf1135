/**
  Request sequences issued against one store: the category round trip
  (create, read, rename, delete, read again) and an email registered twice.
 */
module Scenarios {
  import opened Js
  import opened Store
  import opened Http
  import Categories
  import Auth
  import Credentials

  /**
    POST then GET, PUT, DELETE and GET again on the created id. The final
    read forwards the 404 and, as getCategoryById does, still answers 200.
   */
  method CategoryRoundTrip(db: Db, first: string, second: string)
    returns (created: seq<Effect>, read: seq<Effect>, renamed: seq<Effect>, deleted: seq<Effect>, reread: seq<Effect>)
    requires db.Valid()
    requires first != "" && second != "" && first != second
    requires !NameTaken(db.categories, first) && !NameTaken(db.categories, second)
    modifies db`categories, db`nextCategoryId
    ensures db.Valid() && db.categories == old(db.categories)
    ensures var id := old(db.nextCategoryId);
            && created == [Respond(201, CategoryRow(Category(id, first)))]
            && read == [Respond(200, CategoryRow(Category(id, first)))]
            && renamed == [Respond(200, CategoryRow(Category(id, second)))]
            && deleted == [Respond(204, Undefined)]
            && reread == [Fail(404, Categories.NotFoundMessage(id)), Respond(200, Undefined)]
  {
    var id := db.nextCategoryId;
    ghost var before := db.categories;
    created := Categories.CreateCategory(db, Given(first), None);
    assert ValidId(Num(id)) == Some(id);
    read := Categories.GetCategoryById(db, Num(id), None);
    assert !NameTaken(db.categories, second) by {
      forall k | k in db.categories
        ensures db.categories[k].name != second
      {
        if k != id {
          assert !(k in before && before[k].name == second);
        }
      }
    }
    renamed := Categories.UpdateCategory(db, Num(id), Given(second), None);
    assert forall k :: k in db.products ==> db.products[k].categoryId != id by {
      forall k | k in db.products
        ensures db.products[k].categoryId != id
      {
        assert db.products[k].categoryId in before;
      }
    }
    UsageCountZero(db.products, id);
    deleted := Categories.DeleteCategory(db, Num(id), None);
    assert db.categories == before;
    reread := Categories.GetCategoryById(db, Num(id), None);
  }

  /** The second registration of an email answers 409 and stores nothing. */
  method RegisterTwice(db: Db, b: Auth.RegisterBody, p: Credentials.Primitives, salt: string)
    returns (first: seq<Effect>, second: seq<Effect>)
    requires db.Valid()
    requires Auth.RegisterFieldsGiven(b) && !EmailTaken(db.users, b.email.value)
    modifies db`users, db`nextUserId
    ensures first == [Respond(201, Message(Auth.REGISTERED))]
    ensures second == [Fail(409, Auth.EMAIL_EXISTS)]
    ensures db.users == old(db.users)[old(db.nextUserId) := Auth.NewUser(old(db.nextUserId), b, p, salt)]
    ensures |db.users| == |old(db.users)| + 1
  {
    first := Auth.Register(db, b, p, salt, None);
    Auth.RegisterTwiceConflicts(old(db.users), old(db.nextUserId), b, b, p, salt, None);
    second := Auth.Register(db, b, p, salt, None);
    assert old(db.nextUserId) !in old(db.users);
  }
}
