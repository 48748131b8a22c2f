# Restaurant / pizza backend: a Dafny model of the store and its handlers

This project models the core of a small Flask/SQLAlchemy backend. The backend
keeps three tables:

- restaurants: id → name, address
- pizzas: id → name, ingredients
- restaurant_pizzas: id → restaurant_id, pizza_id, price. This table links a
  restaurant to a pizza at a price.

The backend serves five HTTP handlers over these tables.

- `tables.dfy` (module `Tables`) models the relational store underneath. A
  table is a map from integer primary key to row, plus the keys in insertion
  order. With the default database, SQLite (`DB_URI` unset, server/app.py:9),
  new keys follow SQLite's rowid rule for an `INTEGER PRIMARY KEY`: one more
  than the largest key, or 1 in an empty table. So the insertion order is
  also increasing key order, which `Table.Valid` states. Insert, delete and
  their round trip are proved here.
- `models.dfy` (module `Models`) models `server/models.py`. It holds the three
  record types, the `price_validation` hook and the validating construction of
  a `RestaurantPizza`. It also holds the invariant the handlers maintain, as
  one predicate, `Integrity`: both foreign keys resolve and every stored price
  lies in [1, 30]. Nothing in the store enforces this: the schema declares
  restaurant_id and pizza_id as NOT NULL foreign keys, which SQLite does not
  enforce by default, and declares price only NOT NULL, with no CHECK on its
  range (server/models.py:54-56). The keys resolve because `add` looks up both rows first
  (server/app.py:71-74); the range holds because the validator runs before a
  row is stored (server/models.py:65-69). The two `restaurant_pizzas`
  relationship collections are here too.
- `app.dfy` (module `App`) models `server/app.py`. A reply is a status code
  plus a JSON value. Each view is a JSON object with exactly the keys the
  handler writes, so "`restaurant_pizzas` is never present" is a fact about a
  key set. The store is a class, `Store`, with the three tables as fields.
  - `Add` (POST /restaurant_pizzas) and `Delete` (DELETE /restaurants/<id>)
    are methods that update those fields. Their contracts give the new state
    and the reply, and they preserve `Integrity`.
  - `Index`, `GetPizza` and `GetById` are read-only projections.
- `scenarios.dfy` (module `Scenarios`) holds client methods. Three follow
  scenarios of `server/testing/app_test.py`. A fourth links the same
  restaurant and pizza twice. Each asserts only what the handlers' contracts
  promise.

Three facts about the code shape the model:

- Deleting a restaurant does not cascade to its association rows. The
  relationship at `server/models.py:24` declares no cascade, and the foreign
  key has no ON DELETE rule. `Delete` therefore leaves `restaurant_pizzas`
  untouched and requires that no row references the restaurant (see Left out).
- The request body of `add` is taken as three integers. The cases outside
  that abstraction are listed under Left out.
- Names, addresses and ingredients are only NOT NULL (server/models.py:20-21,
  37-38), not non-empty. A `string` field can never be null, so the model
  needs no further check for them.

## Model

| member | source | states |
|---|---|---|
| `Models.PriceValidation` | server/models.py:65-69 | Accepts a price exactly when 1 ≤ price ≤ 30 and then returns it unchanged. Otherwise it fails with the message "Must have a price between 1 and 30". |
| `Models.PriceBoundaries` | server/models.py:67-68 | Prices 0 and 31 are rejected; 1 and 30 are accepted unchanged. |
| `Models.NewRestaurantPizza` | server/models.py:50-56 | Building a row validates the price. The row exists exactly when the price is in range, and it then carries the given restaurant_id, pizza_id and price. |
| `Models.RestaurantPizzasOfRestaurant` | server/models.py:24 | `Restaurant.restaurant_pizzas` holds exactly the keys of the rows whose restaurant_id is that restaurant, each once, in table order. |
| `Models.RestaurantPizzasOfPizza` | server/models.py:41 | `Pizza.restaurant_pizzas` holds exactly the keys of the rows whose pizza_id is that pizza, each once, in table order. |
| `Models.InsertKeepsIntegrity` | server/models.py:54-56 | Inserting a row whose foreign keys resolve and whose price passed the validator keeps the invariant: resolving foreign keys, prices in range, well-formed tables. |
| `Models.SamePairTwice` | server/models.py:50-56 | With no uniqueness constraint on (restaurant_id, pizza_id), the same pair can be stored twice under two different keys, and the invariant still holds. |
| `Models.DeleteKeepsIntegrity` | server/models.py:54 | Removing a restaurant that no association row references leaves every foreign key resolvable. |
| `Tables.Table.NextId` | server/models.py:53 | The key given to the next row is greater than every key in the table, so it is fresh and at least 1. |
| `Tables.Table.Insert` | server/app.py:78-79 | Adding a row stores it under the fresh key, appends that key to the insertion order, and leaves every other row unchanged. |
| `Tables.Table.Delete` | server/app.py:58-59 | Deleting a present key removes exactly that row and shortens the order by one. The other rows keep their values and relative order, so keys stay increasing. An absent key changes nothing. |
| `Tables.InsertThenDelete` | server/app.py:58-59 | Deleting the row that was just inserted restores the table exactly: insert and delete are inverse. |
| `App.RestaurantView` | server/app.py:26 | A restaurant summary has exactly the keys address, id and name, holding the row's values. It has no `restaurant_pizzas` key. |
| `App.PizzaView` | server/app.py:64 | A pizza view has exactly the keys id, ingredients and name, holding the row's values. It has no `restaurant_pizzas` key. |
| `App.AssociationView` | server/app.py:37-47 | A detail entry has exactly id, pizza, pizza_id, price and restaurant_id. The nested pizza is the back-reference-free pizza view, and the entry has no `restaurant` key. |
| `App.CreatedView` | server/app.py:81-96 | The creation reply echoes id, price, pizza_id and restaurant_id. It embeds the full pizza (id, ingredients, name) and the full restaurant (address, id, name). |
| `App.Store.AddRestaurant` | server/testing/app_test.py:42-44 | Adding a restaurant inserts one row under a fresh key ≥ 1, returns that key, and leaves the other tables unchanged. |
| `App.Store.AddPizza` | server/testing/app_test.py:108-112 | Adding a pizza inserts one row under a fresh key ≥ 1, returns that key, and leaves the other tables unchanged. |
| `App.Store.Index` | server/app.py:23-26 | GET /restaurants replies 200 with one summary per stored restaurant, in table order. No entry has a `restaurant_pizzas` key. |
| `App.Store.GetPizza` | server/app.py:61-64 | GET /pizzas replies 200 with one view per stored pizza, in table order. No entry has a `restaurant_pizzas` key. |
| `App.Store.DetailEntries` | server/app.py:36-49 | A restaurant's nested list has one entry per association row of that restaurant, in table order. Each entry shows that row and its pizza. |
| `App.Store.GetById` | server/app.py:27-52 | An unknown id, and only an unknown id, gives 404 `{"error": "Restaurant not found"}`. A known id gives 200 with exactly address, id, name and a `restaurant_pizzas` array of its associations. |
| `App.Store.Delete` | server/app.py:53-60 | An unknown id gives 404 and changes nothing. A known id is removed with an empty 204, the other tables are untouched, and a later lookup replies 404. |
| `App.Store.Add` | server/app.py:66-101 | Replies 201 exactly when both rows exist and the price is in [1, 30]. Every other case replies the same 400 and stores nothing. On success it inserts one row under a fresh key, replies with the composed view, and keeps the invariant. |

## Left out

- `App.Store.Delete`: requires that no association row references the restaurant. The source has no cascade. With such rows present, the ORM would try to null their NOT NULL restaurant_id and the commit would fail inside the library with a 500. That library behaviour is not part of this model.
- Request bodies that are not three integers; the request is modelled as three integers. In the source, a missing `restaurant_id` or `pizza_id` is read with `data.get` (server/app.py:71-72) as None, so the lookup finds nothing and the reply is the usual 400. A missing `price` raises KeyError (server/app.py:77) only after both rows were found, giving a 500. A non-numeric price such as a string or null raises TypeError in the comparison (server/models.py:67), giving a 500. A numeric non-integer price is compared like any number: 2.5 or `true` is stored with a 201, and 0.5 gets a 400.
- Ids outside SQLite's 64-bit integer range: the source's lookups (server/app.py:29, 55, 71-72) bind the id as a 64-bit integer, and an id of 2^63 or more makes the driver raise OverflowError, a 500. The model, whose ids are unbounded, replies 404 (`App.Store.GetById`, `App.Store.Delete`) or 400 (`App.Store.Add`) instead.
- Negative ids in the URL: the `<int:id>` routes (server/app.py:27, 53) match digit strings only, so a negative id never reaches the handler and Flask replies with its own 404 page, not `{"error": "Restaurant not found"}`. The model's `GetById` and `Delete` accept any integer.
- Flask, Flask-RESTful and Migrate wiring, `request.get_json`, `jsonify` serialisation, the content type, and the server start (`server/app.py:1-20`, `server/app.py:105-106`). Replies are modelled as a status plus a JSON value.
- The 204 reply's `{"message": …}` body: the framework sends no content with a 204, so the model's body is `NoContent`.
- `SerializerMixin` `serialize_rules` and the `__repr__` methods. The handlers build their dictionaries by hand, and the serializer library is not part of this model.
- Transactions and concurrency: each handler is one atomic step. The race between a delete and a concurrent insert is not modelled.
- Key assignment follows SQLite's rowid rule, which holds only for the default `DB_URI` (server/app.py:9); another database configured through `DB_URI` may assign keys differently. The behaviour once the largest possible 64-bit rowid is reached (a random unused key) is not modelled.
- The order of `Restaurant.query.all()`, `Pizza.query.all()` (server/app.py:25, 63) and the relationship load (server/models.py:24) is taken to be table order. None of these queries has ORDER BY, and SQLite then returns rows in rowid order, which the model's increasing keys make the same as insertion order.
- `server/migrations/env.py` (Alembic migration plumbing) is not part of this model.
