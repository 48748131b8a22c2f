/** The three record kinds of server/models.py, the price validator that
    guards RestaurantPizza.price, the foreign-key and price invariant that
    the handlers keep true of the three tables, and the `restaurant_pizzas`
    relationship collections. */
module Models {
  import opened Tables

  /** A row of `restaurants`; both columns are NOT NULL, which a `string` field always satisfies. */
  datatype Restaurant = Restaurant(name: string, address: string)

  /** A row of `pizzas`; both columns are NOT NULL. */
  datatype Pizza = Pizza(name: string, ingredients: string)

  /** A row of `restaurant_pizzas`: two NOT NULL foreign keys and a NOT NULL price. */
  datatype RestaurantPizza = RestaurantPizza(restaurantId: int, pizzaId: int, price: int)

  /** A value that passed validation, or the message of the ValueError raised instead. */
  datatype Validated<T> = Accepted(value: T) | Rejected(message: string)

  const MinPrice: int := 1
  const MaxPrice: int := 30
  const PriceMessage: string := "Must have a price between 1 and 30"

  /** The `price_validation` hook: returns the price unchanged when it is
      within the inclusive range, and raises otherwise. */
  function PriceValidation(price: int): (r: Validated<int>)
    ensures r.Accepted? <==> MinPrice <= price <= MaxPrice
    ensures r.Accepted? ==> r.value == price
    ensures r.Rejected? ==> r.message == PriceMessage
  {
    if price < 1 || price > 30 then Rejected(PriceMessage) else Accepted(price)
  }

  /** The boundary prices: 0 and 31 are refused, 1 and 30 kept. */
  lemma PriceBoundaries()
    ensures PriceValidation(0).Rejected? && PriceValidation(31).Rejected?
    ensures PriceValidation(1) == Accepted(1) && PriceValidation(30) == Accepted(30)
  {
  }

  /** `RestaurantPizza(price=…, pizza_id=…, restaurant_id=…)`: assigning the
      price runs the validator, so a row with a bad price is never built. */
  function NewRestaurantPizza(restaurantId: int, pizzaId: int, price: int): (r: Validated<RestaurantPizza>)
    ensures r.Accepted? <==> MinPrice <= price <= MaxPrice
    ensures r.Accepted? ==> r.value.restaurantId == restaurantId && r.value.pizzaId == pizzaId && r.value.price == price
    ensures r.Rejected? ==> r.message == PriceMessage
  {
    match PriceValidation(price)
    case Accepted(p) => Accepted(RestaurantPizza(restaurantId, pizzaId, p))
    case Rejected(m) => Rejected(m)
  }

  /** Both foreign keys of `rp` name a stored row. */
  ghost predicate References(rp: RestaurantPizza, restaurants: Table<Restaurant>, pizzas: Table<Pizza>)
  {
    rp.restaurantId in restaurants.rows && rp.pizzaId in pizzas.rows
  }

  /** The invariant the handlers maintain: well-formed tables, every
      association's foreign keys resolve, and every stored price lies in
      [1, 30]. Nothing in the store enforces this: the schema declares
      restaurant_id and pizza_id as NOT NULL foreign keys, which SQLite does
      not enforce by default, and declares price only NOT NULL, with no CHECK
      on its range (server/models.py:54-56). The foreign keys resolve because `add` looks both rows up first, and the price range
      holds because the validator runs before a row is stored. */
  ghost predicate Integrity(restaurants: Table<Restaurant>, pizzas: Table<Pizza>, restaurantPizzas: Table<RestaurantPizza>)
  {
    restaurants.Valid() && pizzas.Valid() && restaurantPizzas.Valid() &&
    forall k :: k in restaurantPizzas.rows ==>
      References(restaurantPizzas.rows[k], restaurants, pizzas) &&
      MinPrice <= restaurantPizzas.rows[k].price <= MaxPrice
  }

  /** `Restaurant.restaurant_pizzas`: the keys of the association rows whose
      restaurant_id is `restaurantId`, in table order. */
  function RestaurantPizzasOfRestaurant(t: Table<RestaurantPizza>, restaurantId: int): (r: seq<int>)
    requires t.Valid()
    ensures forall k :: k in r <==> k in t.rows && t.rows[k].restaurantId == restaurantId
    ensures Distinct(r) && Subsequence(r, t.ids)
  {
    Filter(t.ids, k => k in t.rows && t.rows[k].restaurantId == restaurantId)
  }

  /** `Pizza.restaurant_pizzas`: the keys of the association rows whose
      pizza_id is `pizzaId`, in table order. No handler reads this
      collection; it is kept because server/models.py:41 declares it. */
  function RestaurantPizzasOfPizza(t: Table<RestaurantPizza>, pizzaId: int): (r: seq<int>)
    requires t.Valid()
    ensures forall k :: k in r <==> k in t.rows && t.rows[k].pizzaId == pizzaId
    ensures Distinct(r) && Subsequence(r, t.ids)
  {
    Filter(t.ids, k => k in t.rows && t.rows[k].pizzaId == pizzaId)
  }

  /** Inserting a validated row whose foreign keys resolve keeps the invariant. */
  lemma InsertKeepsIntegrity(restaurants: Table<Restaurant>, pizzas: Table<Pizza>,
                             restaurantPizzas: Table<RestaurantPizza>, rp: RestaurantPizza)
    requires Integrity(restaurants, pizzas, restaurantPizzas)
    requires References(rp, restaurants, pizzas) && PriceValidation(rp.price).Accepted?
    ensures Integrity(restaurants, pizzas, restaurantPizzas.Insert(rp))
  {
  }

  /** No uniqueness constraint on (restaurant_id, pizza_id): the same pair can
      be stored twice, under two different keys. */
  lemma SamePairTwice(restaurants: Table<Restaurant>, pizzas: Table<Pizza>,
                      restaurantPizzas: Table<RestaurantPizza>, rp: RestaurantPizza)
    requires Integrity(restaurants, pizzas, restaurantPizzas)
    requires References(rp, restaurants, pizzas) && PriceValidation(rp.price).Accepted?
    ensures var once := restaurantPizzas.Insert(rp);
            var twice := once.Insert(rp);
            Integrity(restaurants, pizzas, twice) &&
            restaurantPizzas.NextId() != once.NextId() &&
            twice.rows[restaurantPizzas.NextId()] == twice.rows[once.NextId()] == rp
  {
    InsertKeepsIntegrity(restaurants, pizzas, restaurantPizzas, rp);
    InsertKeepsIntegrity(restaurants, pizzas, restaurantPizzas.Insert(rp), rp);
  }

  /** Deleting a restaurant that no association row references keeps the invariant. */
  lemma DeleteKeepsIntegrity(restaurants: Table<Restaurant>, pizzas: Table<Pizza>,
                             restaurantPizzas: Table<RestaurantPizza>, id: int)
    requires Integrity(restaurants, pizzas, restaurantPizzas)
    requires RestaurantPizzasOfRestaurant(restaurantPizzas, id) == []
    ensures Integrity(restaurants.Delete(id), pizzas, restaurantPizzas)
  {
  }
}
