# pm-api request handlers in Dafny

This project models the request-handler layer of pm-api. pm-api is a small Express/PostgreSQL product-management API with categories, products and users.

Each controller handler runs a fixed, ordered sequence of checks:

1. path-id validation,
2. required-field validation with exact message text,
3. existence or uniqueness reads,
4. at most one write.

Each handler is modelled as a method over an in-memory store. The store is the class `Store.Db`, which holds the `category`, `product` and `user` tables as maps with their serial counters. A handler returns the ordered list of what it does with `res` and `next`:

- `Respond(status, body)` for `res.status(s).json(b)`;
- `Next(err)` for `next(err)` or `next()`.

An empty list means the handler never answers. A failing `pool.query` is an explicit `Fault` parameter: query number k of that call rejects with a message.

Three middleware stages are modelled as well:

- the error stage (`ErrorHandler`);
- the not-found stage (`NotFound`);
- the token gate (`Authentication`).

`Pipeline.Answer` gives the first response a client receives once a handler's effects reach the error stage.

bcrypt and jsonwebtoken are opaque. `Credentials.Primitives` bundles `hash`, `compare`, `sign` and `verify` as function values. The bcrypt salt and the token secret are parameters.

### Store invariants

Every mutating handler keeps `Db.Valid()`:

- category names are unique;
- every product refers to an existing category;
- every product has `active = true`;
- user emails are unique;
- every row sits under its own positive id, below the next serial value.

Each mutating handler is specified by a function of the tables as they were before the call (`CreateEffects`, `UpdateEffects`, …). The method's contract also states the exact new table, and its frame (`modifies db`products`) names the one table it may change and, for the create handlers, that table's serial counter.

### Behaviours kept as the code has them

- **Invalid token.** `middleware/ensureAuthenticated.js:20-22` forwards the error without a status, so the error stage answers 500, not 401 (`Pipeline.GateAnswered`).
- **updateProduct failures.** The empty `catch` at `controllers/productsController.js:258` is kept: no response is written (`Pipeline.UpdateFailureUnanswered`).
- **getCategoryById store failures.** These are forwarded with status 422, not 500 (`controllers/categoriesController.js:38-41`).

## Model

| member | source | states |
|---|---|---|
| Js.TextTruthy | controllers/categoriesController.js:50 | `!name` on a text field: exactly an absent value (undefined or null) and "" are falsy; the same test guards every text field (names, email, password, description, currency, the Authorization header) |
| Js.NumberTruthy | controllers/productsController.js:122 | `!price`, `!category_id`, `!quantity` on a numeric field: exactly an absent value and 0 are falsy |
| Js.FlagTruthy | controllers/productsController.js:201 | `!active`: exactly an absent value and false are falsy, so updateProduct refuses `active: false` |
| Js.ValidId | controllers/productsController.js:32-38 | a parsed path id is rejected exactly when it is NaN or negative; otherwise the accepted id is the number itself |
| Js.IntToString | controllers/categoriesController.js:33 | the `${id}` rendering is an optional '-', present exactly for negative ids, followed by one or more decimal digits with no leading '0' except for 0 itself |
| Js.ParseIntToString | controllers/categoriesController.js:33 | reading an interpolated id back gives the id: the message loses nothing |
| Js.IntToStringInjective | controllers/productsController.js:53 | two different ids never render to the same text |
| Js.Join | controllers/productsController.js:132 | `join(", ")` of no names is "", and of one name is that name alone |
| Fields.MissingNames | controllers/productsController.js:123-127 | the `missingFields` array: never longer than the list of checks, and empty when every field is truthy (the converse and the order are the lemmas below) |
| Fields.MissingNamesPush | controllers/productsController.js:125-127 | each `!field && missingFields.push(name)` appends the name exactly when the field is falsy |
| Fields.MissingNamesEmpty | controllers/productsController.js:122-136 | the missing list is empty exactly when every required field is truthy |
| Fields.MissingNamesMembers | controllers/productsController.js:204-211 | a name is listed exactly when a check with that name is falsy |
| Fields.MissingNamesBound | controllers/authController.js:13-16 | at most one name is listed per required field |
| Fields.MissingNamesSingle | controllers/productsController.js:122-136 | with exactly one falsy field the list is that field's name alone |
| Fields.MissingNamesOfThree | controllers/authController.js:13-16 | three checks list the same names as three successive conditional pushes |
| Fields.MissingNamesOfSeven | controllers/productsController.js:204-211 | seven checks list the same names as seven successive conditional pushes |
| Fields.MissingMessagesAgree | controllers/authController.js:18-22 | register's `field${"s"}` and createProduct's `${"fields"/"field"}` produce the same text for every list |
| Fields.ProductMissingMessage | controllers/productsController.js:129-133 | createProduct's 422 text starts "Missing field", has the plural "s" exactly when more than one name is missing, and ends with the names joined by ", " |
| Fields.RegisterMissingMessage | controllers/authController.js:18-22 | register's 422 text starts "Missing field", has the plural "s" exactly when more than one name is missing, and ends with the names joined by ", " |
| Fields.UpdateMissingMessage | controllers/productsController.js:213 | updateProduct's 400 text is always "Missing fields: " followed by the names joined by ", " |
| Fields.SingularIffOne | controllers/productsController.js:129-133 | createProduct's noun is "field" for one missing name and "fields" for several; updateProduct's always-plural message equals it exactly when several are missing |
| Products.CreateChecks | controllers/productsController.js:125-127 | createProduct pushes "name", "price", "category ID" in that order, and all three are truthy exactly when the guard at line 122 lets the body through |
| Products.UpdateChecks | controllers/productsController.js:205-211 | updateProduct pushes "name", "description", "price", "currency", "quantity", "active", "category ID" in that order, and all seven are truthy exactly when the guard at lines 195-202 lets the body through |
| Products.CreateMissingFields | controllers/productsController.js:123-127 | the pushes build the names of the falsy fields among name, price, category ID, in that order |
| Products.UpdateMissingFields | controllers/productsController.js:204-211 | the pushes build the names of the falsy fields among the seven, in the order name, description, price, currency, quantity, active, category ID |
| Auth.RegisterChecks | controllers/authController.js:14-16 | register pushes "name", "email", "password" in that order, and all three are truthy exactly when the guard at line 12 lets the body through |
| Auth.RegisterMissingFields | controllers/authController.js:13-16 | the pushes build the names of the falsy fields among name, email, password, in that order |
| Store.UsageCountZero | controllers/categoriesController.js:137-142 | the COUNT(*) of referencing products is 0 exactly when no product has that category_id |
| Store.View | controllers/productsController.js:9-16 | a listed product carries its own id, name, description, price, quantity and active flag; currency exactly when the query selects it (lists and getProductByCategory, not getProductById at lines 41-46); the category `{id, name}` exactly when its category_id names an existing category, and null otherwise |
| Store.Select | controllers/productsController.js:7-20 | a WHERE scan returns, in id order and once each, exactly the keys of the rows satisfying the condition |
| Store.Db.constructor | services/database.js:6-8 | the store starts with empty tables, serial counters at 1, and its invariants holding |
| Store.Db.InsertCategory | controllers/categoriesController.js:67-71 | INSERT … RETURNING adds exactly one row, under the next serial id, and returns it |
| Store.Db.RenameCategory | controllers/categoriesController.js:108-117 | UPDATE … RETURNING changes only that row's name when it exists; otherwise nothing changes and no row is returned |
| Store.Db.DeleteCategoryRow | controllers/categoriesController.js:152-161 | DELETE removes exactly that id; rowCount is 1 when it existed and 0 otherwise |
| Store.Db.InsertProduct | controllers/productsController.js:151-165 | INSERT … RETURNING adds exactly one product under the next serial id and returns it |
| Store.Db.UpdateProductRow | controllers/productsController.js:231-255 | UPDATE … RETURNING overwrites only that product when it exists; otherwise nothing changes |
| Store.Db.DeleteProductRow | controllers/productsController.js:273-282 | DELETE removes exactly that id; rowCount is 1 when it existed and 0 otherwise |
| Store.Db.InsertUser | controllers/authController.js:40-43 | INSERT adds exactly one user under the next serial id with the given (hashed) password |
| Categories.NameExists | controllers/categoriesController.js:56-61 | the name lookup reports a row exactly when some category has that name |
| Categories.ProductCount | controllers/categoriesController.js:137-140 | the count equals the number of products referring to the category |
| Categories.GetCategories | controllers/categoriesController.js:5-13 | a store failure is forwarded without status; otherwise 200 with every category exactly once and nothing else |
| Categories.GetCategoryById | controllers/categoriesController.js:17-43 | bad id gives 400; a store failure gives 422; a found row gives 200 with it; a missing row forwards 404 and then still answers 200 with an undefined body |
| Categories.CreateCategory | controllers/categoriesController.js:47-76 | a falsy name gives 422 "Name is required."; a taken name gives 409 and no insert; otherwise exactly one category is inserted and returned with 201; invariants kept |
| Categories.UpdateCategory | controllers/categoriesController.js:80-123 | id checked before name; a taken name gives 409 before existence is checked; an unknown id gives 404; success renames only that category and answers 200; invariants kept |
| Categories.DeleteCategory | controllers/categoriesController.js:127-168 | a referenced category gives 409 with the count and deletes nothing; an absent one gives 404 without trailing period; otherwise exactly it is removed with 204; invariants kept |
| Categories.NotFoundMessage | controllers/categoriesController.js:33 | the 404 text is "Category with an ID of ", the id as rendered in the template, then " does not exist." |
| Categories.DeleteNotFoundMessage | controllers/categoriesController.js:158 | deleteCategory's 404 text is the same message without its closing period, and so differs from it |
| Categories.ExistsMessage | controllers/categoriesController.js:62 | the 409 text quotes the requested name verbatim between "Category '" and "' already exists." (also line 103) |
| Categories.InUseMessage | controllers/categoriesController.js:143-147 | the in-use 409 text ends in "products." when the count is above 1 and in " product." otherwise |
| Categories.UpdateChecksIdFirst | controllers/categoriesController.js:85-95 | an invalid id answers 400 whatever the name, the missing name included |
| Categories.RenameToSameNameConflicts | controllers/categoriesController.js:97-106 | renaming a category to its current name answers 409, since the uniqueness read includes the row itself |
| Categories.NameHeldOnce | controllers/categoriesController.js:56-71 | writing an unused name keeps names unique, and the new name is held by that one category only |
| Categories.InUseNoun | controllers/categoriesController.js:143-147 | the 409 text ends in "1 product." for one reference and "N products." for several |
| Categories.ReferencedNotDeleted | controllers/categoriesController.js:137-150 | when any product refers to the category, the outcome is 409 with a count of at least 1, so nothing is deleted |
| Products.NewProduct | controllers/productsController.js:151-163 | the inserted row is always active and refers to the body's category_id; its currency is the body's when truthy and "USD" otherwise, its quantity the body's when truthy and 0 otherwise |
| Products.UpdatedProduct | controllers/productsController.js:231-249 | the row written by an update is active, has non-zero quantity, keeps its id and takes the body's category_id |
| Products.SelectViews | controllers/productsController.js:7-20 | the product read returns, in id order, every selected product with its joined category, each once |
| Products.GetProducts | controllers/productsController.js:5-26 | a store failure is forwarded; otherwise 200 with every product, each with its category, in id order |
| Products.GetProductById | controllers/productsController.js:30-62 | bad id gives 400; a store failure is forwarded; absent gives 404 "Product with an ID of N does not exist."; otherwise 200 with the row, without currency |
| Products.GetProductByCategory | controllers/productsController.js:66-105 | bad id gives 400 "Invalid category ID parameter."; an unknown category gives 404 and no product read; otherwise exactly the products whose category_id is that id |
| Products.CreateProduct | controllers/productsController.js:109-170 | missing fields give 422 with the listed names; an unknown category gives 404 and no write; otherwise exactly one product is inserted and returned with 201; invariants kept |
| Products.UpdateProduct | controllers/productsController.js:174-259 | bad id gives 400; any falsy field gives 400 "Missing fields: …"; unknown category or product gives 404 and no write; store failures produce no effect at all; success overwrites only that product; invariants kept |
| Products.DeleteProduct | controllers/productsController.js:263-288 | bad id gives 400; absent gives 404 and the table is unchanged; otherwise exactly that product is removed with 204 |
| Products.CreateOneMissing | controllers/productsController.js:122-136 | with one required field falsy, createProduct answers 422 "Missing field: X" naming that field |
| Products.CreateSeveralMissing | controllers/productsController.js:122-136 | with several missing, createProduct answers 422 "Missing fields: " and the names joined by ", " |
| Products.UpdateRejectsFalsyField | controllers/productsController.js:195-216 | any falsy field among the seven (quantity 0 and active false included) answers 400 and is named in the message |
| Products.UpdateOneMissingStillPlural | controllers/productsController.js:213-215 | a single missing field still gets "Missing fields: X" from updateProduct |
| Products.UnknownCategoryNotWritten | controllers/productsController.js:138-149 | a body whose category_id names no category is never written, by create or by update |
| Products.NotFoundMessage | controllers/productsController.js:52-56 | the 404 text is "Product with an ID of ", the id as rendered in the template, then " does not exist." |
| Products.NotFoundMessageNamesId | controllers/productsController.js:52-56 | the 404 message determines the id it was built from |
| Credentials.AccessClaims | controllers/authController.js:85-89 | the token payload is the user's id with subject "accessApi" and expiry "1h" |
| Auth.UsersWithEmail | controllers/authController.js:27-32 | the email lookup finds rows exactly when the email is registered, and its first row has that email |
| Auth.UserWithEmailUnique | controllers/authController.js:64-69 | with unique emails, `rows[0]` is the one user holding the email |
| Auth.NewUser | controllers/authController.js:38-43 | the stored user has the given email and, as password, the bcrypt hash of the password with 10 rounds |
| Auth.Register | controllers/authController.js:8-50 | missing fields give 422; a registered email gives 409 and no insert; otherwise exactly one user with the hashed password is inserted and 201 "User registered successfully." is answered; emails stay unique |
| Auth.SessionOf | controllers/authController.js:91-96 | the login body carries exactly id, name, email and the token signed for that id |
| Auth.Login | controllers/authController.js:54-101 | falsy email or password gives 422 before any read; unknown email or wrong password gives 401; otherwise 200 with the session of the user holding the email |
| Auth.RegisterMissingReported | controllers/authController.js:12-25 | 1 to 3 names are listed; one gives "Missing field: X", several give "Missing fields: …" |
| Auth.RegisterTwiceConflicts | controllers/authController.js:27-36 | registering an email that was just stored answers 409 "Email already exists." |
| Auth.LoginOutcome | controllers/authController.js:71-83 | login succeeds exactly when the email is registered and the password matches; every other outcome is the same 401 |
| Auth.LoginBodyHasNoPassword | controllers/authController.js:85-96 | a successful login answers 200 with id, name, email and token of the matched user, no password |
| Auth.RegisterThenLogin | controllers/authController.js:38-96 | after a successful register, logging in with the same email and password returns the new user's session, given bcrypt accepts the password against its hash |
| ErrorHandler.StatusFalsy | middleware/error.js:2 | `!err.status` holds exactly for an unset status and for status 0 |
| ErrorHandler.StatusOf | middleware/error.js:2-3 | a falsy status is answered 500; any other is answered as set |
| ErrorHandler.Handle | middleware/error.js:1-5 | one response `{message}` with that status; `next()` with no argument follows only when a status was set |
| ErrorHandler.HandleTerminal | middleware/error.js:1-5 | the stage writes exactly one response and never forwards an error |
| NotFound.NotFound | middleware/notFound.js:1-5 | the only effect is `next(err)` with status 404 and message "Page not found." |
| Authentication.Decide | middleware/ensureAuthenticated.js:6-17 | a falsy header means no token; otherwise the raw header is verified as-is, and the decision is what verify returns |
| Authentication.NoHeaderNoVerify | middleware/ensureAuthenticated.js:6-12 | with no header the outcome does not depend on verify or the secret |
| Authentication.GateEffects | middleware/ensureAuthenticated.js:8-22 | no token gives 401 "Access token not found."; a rejected token forwards "Access token is invalid or has expired." without status; a verified one calls `next()` |
| Authentication.Request.constructor | middleware/ensureAuthenticated.js:6 | a request starts with its header and no user |
| Authentication.EnsureAuthenticated | middleware/ensureAuthenticated.js:3-25 | the effects are those of the decision; req.user becomes the decoded userId only when the token verifies and is untouched otherwise |
| Pipeline.Answer | middleware/error.js:1-5 | a handler's first effect decides the first response: a response as written, a forwarded error as the error stage answers it, `next()` none |
| Pipeline.NotFoundAnswered | middleware/notFound.js:1-5 | an unmatched request is answered 404 "Page not found.", whatever it is |
| Pipeline.UnexpectedAnswered500 | controllers/authController.js:46-49 | a store failure in register or login, forwarded without status, reaches the client as 500 with the failure's message |
| Pipeline.MissingCategoryAnswered404 | controllers/categoriesController.js:32-37 | GET of a missing category id: the first response the client receives is the 404 with that id, ahead of the stray 200 |
| Pipeline.UpdateFailureUnanswered | controllers/productsController.js:258 | a store failure inside updateProduct produces no effect, so no response is ever written |
| Pipeline.GateAnswered | middleware/ensureAuthenticated.js:8-22 | no header is answered 401; a token verify rejects is answered 500; a verified token passes on |
| Pipeline.IssuedTokenAuthenticates | middleware/ensureAuthenticated.js:14-19 | the token login issued, sent back as the header, authenticates the same user while verify accepts it |
| Pipeline.BearerPrefixKept | middleware/ensureAuthenticated.js:6-17 | a "Bearer " prefix is not stripped: the prefixed string is what gets verified |
| Scenarios.CategoryRoundTrip | controllers/categoriesController.js:17-168 | create, read, rename, delete and read again on a fresh id give 201, 200, 200, 204, then 404 followed by 200; the table ends as it began |
| Scenarios.RegisterTwice | controllers/authController.js:8-50 | registering the same body twice gives 201 then 409; the user table gains exactly one row, the new user with the next id and the hashed password, and nothing else changes in it |

## Left out

- Wiring and the connection pool. server.js, routes/*.js, the Express router and body parsers are not modelled. services/database.js is replaced by the in-memory `Store.Db`.
- usersController.js. controllers/usersController.js is not part of this model.
- bcrypt and jsonwebtoken internals. Hashing, salting, signing and verification are opaque functions. The random salt is a parameter. Token expiry and the clock `jwt.verify` consults are not modelled. Whether a token still verifies is a hypothesis of `Pipeline.IssuedTokenAuthenticates`.
- Types of body values. A body field carries a value of the type its column expects: string, integer or boolean. A string such as "false" for `active`, or "0" for `quantity`, is truthy in JavaScript but would be stored as false or 0 by PostgreSQL. That path is not modelled.
- Floating point. `Number()` of fractional or exponent strings ("1.5", "1e3") is not modelled. A path id is either NaN or an integer. Prices are integers.
- Timestamps. `created_date`, `updated_date` and `CURRENT_TIMESTAMP` are not modelled.
- Row order. `getCategories` has no ORDER BY and is specified as a set of rows, without an order. `getProductByCategory` has no ORDER BY either, so `Products.GetProductByCategory` promises its rows and not their order; only `Products.GetProducts` promises id order.
- Concurrency. The window between a uniqueness read and the write that follows it, under concurrent requests, and async/await interleaving are not modelled. Each handler is one atomic sequential method.
- Error text. The text of wrapped unexpected errors (`new Error(error)` stringifies its argument) is the fault's message as given.
- Late responses. What Express does with the second response of getCategoryById after its 404 is not modelled. The handler's two effects are recorded, and `Pipeline.Answer` stops at the first.
- Failures outside `pool.query`. Only failures of `pool.query` are modelled. A rejection of `bcrypt.hash`/`compare` or an exception thrown while writing a response is not. Nor is `jwt.sign` throwing: it throws for an empty or unset `ACCESS_TOKEN_SECRET`, and login's catch at `controllers/authController.js:97-100` then answers 500. `Credentials.Primitives.sign` is total, so with an empty secret the model's login still answers 200.
