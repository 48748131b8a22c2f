/** The request handlers of server/app.py over a store of three tables.
    A handler's reply is a status code and a JSON body; each view is built
    with exactly the keys the handler writes, so which keys a view has (and
    which it lacks) is a fact about the key set of a JSON object. */
module App {
  import opened Tables
  import opened Models

  /** The JSON values the handlers produce. */
  datatype Json = JInt(n: int) | JStr(s: string) | JArr(items: seq<Json>) | JObj(fields: map<string, Json>)

  /** A reply body: JSON, or nothing at all (a 204 reply carries no content). */
  datatype Body = NoContent | Payload(json: Json)

  datatype Response = Response(status: int, body: Body)

  /** 404 from a lookup or delete by an unknown restaurant id. */
  const RestaurantNotFound: Response :=
    Response(404, Payload(JObj(map["error" := JStr("Restaurant not found")])))

  /** 400 from a failed association creation, whatever the cause. */
  const ValidationErrors: Response :=
    Response(400, Payload(JObj(map["errors" := JArr([JStr("validation errors")])])))

  /** A restaurant as listed by GET /restaurants and embedded in a created association. */
  function RestaurantView(id: int, r: Restaurant): (j: Json)
    ensures j.JObj? && j.fields.Keys == {"address", "id", "name"}
    ensures "restaurant_pizzas" !in j.fields
    ensures j.fields["id"] == JInt(id) && j.fields["name"] == JStr(r.name) && j.fields["address"] == JStr(r.address)
  {
    JObj(map["address" := JStr(r.address), "id" := JInt(id), "name" := JStr(r.name)])
  }

  /** A pizza as listed by GET /pizzas and nested in association views; it
      carries no `restaurant_pizzas` back-reference. */
  function PizzaView(id: int, p: Pizza): (j: Json)
    ensures j.JObj? && j.fields.Keys == {"id", "ingredients", "name"}
    ensures "restaurant_pizzas" !in j.fields
    ensures j.fields["id"] == JInt(id) && j.fields["name"] == JStr(p.name) && j.fields["ingredients"] == JStr(p.ingredients)
  {
    JObj(map["id" := JInt(id), "ingredients" := JStr(p.ingredients), "name" := JStr(p.name)])
  }

  /** One entry of a restaurant's detail view: the association row with its
      pizza nested, and no `restaurant` back-reference. */
  function AssociationView(id: int, rp: RestaurantPizza, p: Pizza): (j: Json)
    ensures j.JObj? && j.fields.Keys == {"id", "pizza", "pizza_id", "price", "restaurant_id"}
    ensures "restaurant" !in j.fields
    ensures j.fields["id"] == JInt(id) && j.fields["price"] == JInt(rp.price)
    ensures j.fields["pizza_id"] == JInt(rp.pizzaId) && j.fields["restaurant_id"] == JInt(rp.restaurantId)
    ensures j.fields["pizza"] == PizzaView(rp.pizzaId, p)
  {
    JObj(map["id" := JInt(id), "pizza" := PizzaView(rp.pizzaId, p), "pizza_id" := JInt(rp.pizzaId),
             "price" := JInt(rp.price), "restaurant_id" := JInt(rp.restaurantId)])
  }

  /** The body of a 201 from POST /restaurant_pizzas: the new row with both ends embedded. */
  function CreatedView(id: int, rp: RestaurantPizza, r: Restaurant, p: Pizza): (j: Json)
    ensures j.JObj? && j.fields.Keys == {"id", "pizza", "pizza_id", "price", "restaurant", "restaurant_id"}
    ensures j.fields["id"] == JInt(id) && j.fields["price"] == JInt(rp.price)
    ensures j.fields["pizza_id"] == JInt(rp.pizzaId) && j.fields["restaurant_id"] == JInt(rp.restaurantId)
    ensures j.fields["pizza"] == PizzaView(rp.pizzaId, p)
    ensures j.fields["restaurant"] == RestaurantView(rp.restaurantId, r)
  {
    JObj(map["id" := JInt(id), "pizza" := PizzaView(rp.pizzaId, p), "pizza_id" := JInt(rp.pizzaId),
             "price" := JInt(rp.price), "restaurant" := RestaurantView(rp.restaurantId, r),
             "restaurant_id" := JInt(rp.restaurantId)])
  }

  /** The database: the three tables, which the two mutating handlers update in place. */
  class Store {
    var restaurants: Table<Restaurant>
    var pizzas: Table<Pizza>
    var restaurantPizzas: Table<RestaurantPizza>

    ghost predicate Valid()
      reads this
    {
      Integrity(restaurants, pizzas, restaurantPizzas)
    }

    /** `db.create_all()` on a fresh database: three empty tables. */
    constructor ()
      ensures Valid()
      ensures restaurants.rows == map[] && pizzas.rows == map[] && restaurantPizzas.rows == map[]
    {
      restaurants := Empty();
      pizzas := Empty();
      restaurantPizzas := Empty();
    }

    /** Add a restaurant and commit, as the tests do when setting up; returns the new key. */
    method AddRestaurant(name: string, address: string) returns (id: int)
      requires Valid()
      modifies this
      ensures Valid()
      ensures id == old(restaurants).NextId() && id !in old(restaurants).rows && id >= 1
      ensures restaurants == old(restaurants).Insert(Restaurant(name, address))
      ensures pizzas == old(pizzas) && restaurantPizzas == old(restaurantPizzas)
    {
      id := restaurants.NextId();
      restaurants := restaurants.Insert(Restaurant(name, address));
    }

    /** Add a pizza and commit, as the tests do when setting up; returns the new key. */
    method AddPizza(name: string, ingredients: string) returns (id: int)
      requires Valid()
      modifies this
      ensures Valid()
      ensures id == old(pizzas).NextId() && id !in old(pizzas).rows && id >= 1
      ensures pizzas == old(pizzas).Insert(Pizza(name, ingredients))
      ensures restaurants == old(restaurants) && restaurantPizzas == old(restaurantPizzas)
    {
      id := pizzas.NextId();
      pizzas := pizzas.Insert(Pizza(name, ingredients));
    }

    /** GET /restaurants: one summary per stored restaurant, in table order,
        none with a `restaurant_pizzas` key. */
    function Index(): (resp: Response)
      reads this
      requires Valid()
      ensures resp.status == 200 && resp.body.Payload? && resp.body.json.JArr?
      ensures |resp.body.json.items| == |restaurants.ids|
      ensures forall k :: 0 <= k < |restaurants.ids| ==>
        resp.body.json.items[k] == RestaurantView(restaurants.ids[k], restaurants.rows[restaurants.ids[k]])
      ensures forall k :: 0 <= k < |resp.body.json.items| ==>
        resp.body.json.items[k].JObj? && "restaurant_pizzas" !in resp.body.json.items[k].fields
    {
      var t := restaurants;
      Response(200, Payload(JArr(seq(|t.ids|, k requires 0 <= k < |t.ids| => RestaurantView(t.ids[k], t.rows[t.ids[k]])))))
    }

    /** GET /pizzas: one view per stored pizza, in table order, none with a
        `restaurant_pizzas` key. */
    function GetPizza(): (resp: Response)
      reads this
      requires Valid()
      ensures resp.status == 200 && resp.body.Payload? && resp.body.json.JArr?
      ensures |resp.body.json.items| == |pizzas.ids|
      ensures forall k :: 0 <= k < |pizzas.ids| ==>
        resp.body.json.items[k] == PizzaView(pizzas.ids[k], pizzas.rows[pizzas.ids[k]])
      ensures forall k :: 0 <= k < |resp.body.json.items| ==>
        resp.body.json.items[k].JObj? && "restaurant_pizzas" !in resp.body.json.items[k].fields
    {
      var t := pizzas;
      Response(200, Payload(JArr(seq(|t.ids|, k requires 0 <= k < |t.ids| => PizzaView(t.ids[k], t.rows[t.ids[k]])))))
    }

    /** The `restaurant_pizzas` entries of restaurant `id`'s detail view, one per association row. */
    function DetailEntries(id: int): (entries: seq<Json>)
      reads this
      requires Valid()
      ensures var assoc := RestaurantPizzasOfRestaurant(restaurantPizzas, id);
        |entries| == |assoc| &&
        forall e :: 0 <= e < |assoc| ==>
          var rp := restaurantPizzas.rows[assoc[e]];
          rp.restaurantId == id &&
          entries[e] == AssociationView(assoc[e], rp, pizzas.rows[rp.pizzaId])
    {
      var assoc := RestaurantPizzasOfRestaurant(restaurantPizzas, id);
      var t, p := restaurantPizzas, pizzas;
      seq(|assoc|, e requires 0 <= e < |assoc| =>
        AssociationView(assoc[e], t.rows[assoc[e]], p.rows[t.rows[assoc[e]].pizzaId]))
    }

    /** GET /restaurants/<id>: 404 for an unknown id; otherwise the restaurant
        with its associations nested. */
    function GetById(id: int): (resp: Response)
      reads this
      requires Valid()
      ensures resp == RestaurantNotFound <==> id !in restaurants.rows
      ensures id in restaurants.rows ==>
        resp.status == 200 && resp.body.Payload? && resp.body.json.JObj? &&
        resp.body.json.fields.Keys == {"address", "id", "name", "restaurant_pizzas"} &&
        resp.body.json.fields["id"] == JInt(id) &&
        resp.body.json.fields["name"] == JStr(restaurants.rows[id].name) &&
        resp.body.json.fields["address"] == JStr(restaurants.rows[id].address) &&
        resp.body.json.fields["restaurant_pizzas"] == JArr(DetailEntries(id))
    {
      if id !in restaurants.rows then RestaurantNotFound
      else
        var r := restaurants.rows[id];
        Response(200, Payload(JObj(map["address" := JStr(r.address), "id" := JInt(id), "name" := JStr(r.name),
                                       "restaurant_pizzas" := JArr(DetailEntries(id))])))
    }

    /** DELETE /restaurants/<id>: 404 and no change for an unknown id;
        otherwise the restaurant row is removed and the reply is an empty 204.
        The association rows are not touched (there is no cascade), so the
        restaurant must have none. */
    method Delete(id: int) returns (resp: Response)
      requires Valid()
      requires RestaurantPizzasOfRestaurant(restaurantPizzas, id) == []
      modifies this
      ensures Valid()
      ensures pizzas == old(pizzas) && restaurantPizzas == old(restaurantPizzas)
      ensures id !in old(restaurants).rows ==> resp == RestaurantNotFound && restaurants == old(restaurants)
      ensures id in old(restaurants).rows ==>
        resp == Response(204, NoContent) && restaurants == old(restaurants).Delete(id) &&
        |restaurants.ids| == |old(restaurants).ids| - 1
      ensures GetById(id) == RestaurantNotFound
    {
      if id !in restaurants.rows {
        return RestaurantNotFound;
      }
      DeleteKeepsIntegrity(restaurants, pizzas, restaurantPizzas, id);
      restaurants := restaurants.Delete(id);
      resp := Response(204, NoContent);
    }

    /** POST /restaurant_pizzas: both referenced rows must exist and the price
        must pass the validator; any failure is the same 400 with nothing
        stored. Success stores one new row under a fresh key and replies 201. */
    method Add(restaurantId: int, pizzaId: int, price: int) returns (resp: Response)
      requires Valid()
      modifies this
      ensures Valid()
      ensures restaurants == old(restaurants) && pizzas == old(pizzas)
      ensures resp.status == 201 <==>
        restaurantId in restaurants.rows && pizzaId in pizzas.rows && MinPrice <= price <= MaxPrice
      ensures resp.status != 201 ==> resp == ValidationErrors && restaurantPizzas == old(restaurantPizzas)
      ensures resp.status == 201 ==>
        var id := old(restaurantPizzas).NextId();
        var rp := RestaurantPizza(restaurantId, pizzaId, price);
        id !in old(restaurantPizzas).rows && id >= 1 &&
        restaurantPizzas == old(restaurantPizzas).Insert(rp) &&
        resp.body == Payload(CreatedView(id, rp, restaurants.rows[restaurantId], pizzas.rows[pizzaId]))
    {
      if restaurantId !in restaurants.rows || pizzaId !in pizzas.rows {
        return ValidationErrors;
      }
      var restaurant := restaurants.rows[restaurantId];
      var pizza := pizzas.rows[pizzaId];
      match NewRestaurantPizza(restaurantId, pizzaId, price)
      case Rejected(_) =>
        resp := ValidationErrors;
      case Accepted(rp) =>
        var id := restaurantPizzas.NextId();
        InsertKeepsIntegrity(restaurants, pizzas, restaurantPizzas, rp);
        restaurantPizzas := restaurantPizzas.Insert(rp);
        resp := Response(201, Payload(CreatedView(id, rp, restaurant, pizza)));
    }
  }
}
