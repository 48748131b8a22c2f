/** Clients of the store. The first three methods follow the scenarios of
    server/testing/app_test.py; the last shows that the same restaurant and
    pizza can be linked twice. Each asserts only what the handlers'
    contracts promise. */
module Scenarios {
  import opened Models
  import opened App

  /** Create a pizza and a restaurant, then associate them at price 3: 201,
      the reply echoes the price and both keys, and the stored row has price 3. */
  method CreatesRestaurantPizza(pizzaName: string, ingredients: string, name: string, address: string)
  {
    var store := new Store();
    var pizzaId := store.AddPizza(pizzaName, ingredients);
    var restaurantId := store.AddRestaurant(name, address);
    var newId := store.restaurantPizzas.NextId();
    var resp := store.Add(restaurantId, pizzaId, 3);
    assert resp.status == 201;
    var j := resp.body.json;
    assert j.fields["price"] == JInt(3);
    assert j.fields["pizza_id"] == JInt(pizzaId) && j.fields["restaurant_id"] == JInt(restaurantId);
    assert j.fields["pizza"].fields["name"] == JStr(pizzaName);
    assert j.fields["restaurant"].fields["name"] == JStr(name);
    assert j.fields["id"] == JInt(newId) && newId >= 1;
    assert store.restaurantPizzas.rows[newId].price == 3;
  }

  /** Prices 0 and 31 are both refused with the generic 400, and nothing is stored. */
  method RefusesOutOfRangePrice(pizzaName: string, ingredients: string, name: string, address: string)
  {
    var store := new Store();
    var pizzaId := store.AddPizza(pizzaName, ingredients);
    var restaurantId := store.AddRestaurant(name, address);
    var resp := store.Add(restaurantId, pizzaId, 0);
    assert resp == ValidationErrors;
    resp := store.Add(restaurantId, pizzaId, 31);
    assert resp == ValidationErrors;
    assert store.restaurantPizzas.rows == map[];
  }

  /** Deleting a restaurant replies 204, after which it cannot be found;
      deleting or fetching id 0 replies 404. */
  method DeletesRestaurant(name: string, address: string)
  {
    var store := new Store();
    var resp := store.Delete(0);
    assert resp == RestaurantNotFound;
    assert store.GetById(0) == RestaurantNotFound;
    var id := store.AddRestaurant(name, address);
    assert store.GetById(id).status == 200;
    resp := store.Delete(id);
    assert resp.status == 204;
    assert store.GetById(id) == RestaurantNotFound;
    assert store.restaurants.rows == map[];
  }

  /** The same restaurant and pizza can be associated twice, at different prices. */
  method SamePairAtTwoPrices(pizzaName: string, ingredients: string, name: string, address: string)
  {
    var store := new Store();
    var pizzaId := store.AddPizza(pizzaName, ingredients);
    var restaurantId := store.AddRestaurant(name, address);
    var firstId := store.restaurantPizzas.NextId();
    var first := store.Add(restaurantId, pizzaId, 10);
    var secondId := store.restaurantPizzas.NextId();
    var second := store.Add(restaurantId, pizzaId, 12);
    assert first.status == 201 && second.status == 201;
    assert firstId != secondId;
    assert store.restaurantPizzas.rows[firstId] == RestaurantPizza(restaurantId, pizzaId, 10);
    assert store.restaurantPizzas.rows[secondId] == RestaurantPizza(restaurantId, pizzaId, 12);
    assert |store.DetailEntries(restaurantId)| == 2;
  }
}
