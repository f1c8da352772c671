/** A walk through both controllers on concrete data: a dish is created, an
    order for it is created, moved to `preparing`, and can then no longer be
    deleted. */
module Scenario {
  import opened Pipeline
  import opened Js
  import opened Store
  import Dishes
  import Orders

  const Taco := Dishes.DishFields(Str("Taco"), Str("x"), Int(5), Str("u"))

  function TacoOrder(dishId: string, status: Value): Orders.OrderFields
  {
    Orders.OrderFields(Str("123 Main"), Str("555-1212"), status, Array([LineItem(Str(dishId), Int(2))]))
  }

  lemma EndToEnd(dishId: string, orderId: string)
    ensures
      var dishes := Dishes.Create([], Dishes.DishPayload(Undefined, Taco), dishId);
      && dishes.result == Ok(Response(201, One(Record(dishId, Taco))))
      && var created := Orders.Create([], Orders.OrderPayload(Undefined, TacoOrder(dishId, Undefined)), orderId);
      && created.result == Ok(Response(201, One(Record(orderId, TacoOrder(dishId, Str("pending"))))))
      && var updated := Orders.Update(created.store, orderId,
                                      Orders.OrderPayload(Undefined, TacoOrder(dishId, Str("preparing"))));
      && updated.result == Ok(Response(200, One(Record(orderId, TacoOrder(dishId, Str("preparing"))))))
      && Orders.Remove(updated.store, orderId) == Handled(updated.store, Err(Orders.NotPending))
  {
    assert Dishes.ValidFields(Taco);
    var pending := Record(orderId, TacoOrder(dishId, Str("pending")));
    var payload := Orders.OrderPayload(Undefined, TacoOrder(dishId, Undefined));
    assert Orders.ValidFields(payload.fields);
    var created := Orders.Create([], payload, orderId);
    assert created.store == [pending];
    var change := Orders.OrderPayload(Undefined, TacoOrder(dishId, Str("preparing")));
    assert IndexOf(created.store, orderId) == Some(0);
    assert Orders.ValidFields(change.fields);
    assert Orders.ParseStatus(change.fields.status) == Some(Orders.Preparing);
    var updated := Orders.Update(created.store, orderId, change);
    assert updated.store == [Record(orderId, change.fields)];
  }

  /** Re-sending `delivered` to a delivered order is refused too. */
  lemma DeliveredAgain(dishId: string, orderId: string)
    ensures
      var stored := [Record(orderId, TacoOrder(dishId, Str("delivered")))];
      Orders.Update(stored, orderId, Orders.OrderPayload(Undefined, TacoOrder(dishId, Str("delivered"))))
        == Handled(stored, Err(Orders.DeliveredLocked))
  {
  }

  /** An order without line items, and one whose only line item has quantity 0. */
  lemma BadDishes(dishId: string)
    ensures Orders.ValidateOrder(TacoOrder(dishId, Undefined).(dishes := Array([])))
              == Fail(Orders.DishesMissing)
    ensures Orders.ValidateOrder(TacoOrder(dishId, Undefined).(dishes := Array([LineItem(Str(dishId), Int(0))])))
              == Fail(Orders.QuantityInvalid(0))
    ensures Decimal(0) == "0"
  {
  }
}
