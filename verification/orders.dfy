/** The orders controller: its middleware, its route handlers and the chains
    that `module.exports` composes from them. */
module Orders {
  import opened Pipeline
  import opened Js
  import opened Store

  /** The client-writable fields of an order, exactly as the payload supplied them. */
  datatype OrderFields = OrderFields(deliverTo: Value, mobileNumber: Value, status: Value, dishes: Value)

  type Order = Record<OrderFields>

  /** `req.body.data`: the fields, and the `id` an update may carry. An absent
      `data` object is a payload whose every field is `Undefined`; a `null`
      one makes the destructuring throw, which is not modelled. */
  datatype OrderPayload = OrderPayload(id: Value, fields: OrderFields)

  /** The four statuses `validateOrderStatus` accepts. */
  datatype Status = Pending | Preparing | OutForDelivery | Delivered

  function StatusName(s: Status): string
  {
    match s
    case Pending => "pending"
    case Preparing => "preparing"
    case OutForDelivery => "out-for-delivery"
    case Delivered => "delivered"
  }

  /** `["pending", "preparing", "out-for-delivery", "delivered"].includes(v)`,
      naming the status it matched. Only a string can match. */
  function ParseStatus(v: Value): (r: Option<Status>)
    ensures r.Some? ==> v == Str(StatusName(r.value))
    ensures r.None? <==> forall s: Status :: v != Str(StatusName(s))
  {
    if v == Str("pending") then Some(Pending)
    else if v == Str("preparing") then Some(Preparing)
    else if v == Str("out-for-delivery") then Some(OutForDelivery)
    else if v == Str("delivered") then Some(Delivered)
    else None
  }

  /** Each status has its own name. */
  lemma ParseStatusName(s: Status)
    ensures ParseStatus(Str(StatusName(s))) == Some(s)
  {
  }

  function OrderNotFound(orderId: string): Error
  {
    Error(404, "Order id not found: " + orderId)
  }

  const DeliverToMissing := Error(400, "Order must include a deliverTo")
  const MobileNumberMissing := Error(400, "Order must include a mobileNumber")
  const DishesMissing := Error(400, "Order must include at least one dish")
  const StatusInvalid := Error(400, "Order must have a status of pending, preparing, out-for-delivery, delivered")
  const DeliveredLocked := Error(400, "A delivered order cannot be changed")
  const NotPending := Error(400, "An order cannot be deleted unless it is pending")

  function QuantityInvalid(index: nat): Error
  {
    Error(400, "Dish " + Decimal(index) + " must have a quantity that is an integer greater than 0")
  }

  function OrderIdMismatch(id: Value, orderId: string): Error
  {
    Error(400, "Order id does not match route id. Order: " + Render(id) + ", Route: " + orderId)
  }

  /** The quantity test `!q || !Number.isInteger(q) || q <= 0` is false (the
      line item is accepted) exactly for the integral numbers greater than 0. */
  predicate QuantityOk(item: LineItem)
  {
    IsInteger(item.quantity) && item.quantity.n > 0
  }

  /** `dishes` is an array with at least one element. */
  predicate HasDishes(dishes: Value)
  {
    dishes.Array? && |dishes.items| > 0
  }

  /** The three field rules that come before the line items. */
  predicate HeaderOk(f: OrderFields)
  {
    Truthy(f.deliverTo) && Truthy(f.mobileNumber) && HasDishes(f.dishes)
  }

  /** Every rule of `validateOrder` holds. */
  predicate ValidFields(f: OrderFields)
  {
    HeaderOk(f) && forall i :: 0 <= i < |f.dishes.items| ==> QuantityOk(f.dishes.items[i])
  }

  /** Line item `i` is the first one with a bad quantity. */
  predicate FirstBadAt(items: seq<LineItem>, i: int)
  {
    0 <= i < |items| && !QuantityOk(items[i]) && forall j :: 0 <= j < i ==> QuantityOk(items[j])
  }

  /** `orderExists`: the index of the first order with the route's id, or 404. */
  function OrderExists(orders: seq<Order>, orderId: string): (r: Result<nat>)
    ensures r.Ok? <==> !Fresh(orders, orderId)
    ensures r.Ok? ==> r.value < |orders| && orders[r.value].id == orderId
    ensures r.Ok? ==> forall j :: 0 <= j < r.value ==> orders[j].id != orderId
    ensures r.Err? ==> r.error == OrderNotFound(orderId)
  {
    match IndexOf(orders, orderId)
    case Some(i) => Ok(i)
    case None => Err(OrderNotFound(orderId))
  }

  /** The indexes the `forEach` callback complains about, in call order, for
      the line items `items`, which start at index `from` of the array. The
      loop does not stop at a bad item, so every bad item contributes its own. */
  function BadPositions(items: seq<LineItem>, from: nat): (b: seq<nat>)
    ensures |b| == 0 <==> forall j :: 0 <= j < |items| ==> QuantityOk(items[j])
    ensures forall i :: FirstBadAt(items, i) ==> |b| > 0 && b[0] == from + i
    decreases |items|
  {
    if |items| == 0 then []
    else
      var rest := BadPositions(items[1..], from + 1);
      assert forall i :: FirstBadAt(items, i) && i > 0 ==> FirstBadAt(items[1..], i - 1);
      assert ((forall j :: 0 <= j < |items[1..]| ==> QuantityOk(items[1..][j])) && QuantityOk(items[0]))
               ==> forall j :: 0 <= j < |items| ==> QuantityOk(items[j]);
      (if QuantityOk(items[0]) then [] else [from]) + rest
  }

  /** Every bad line item's index is among the positions. */
  lemma {:induction false} BadItemHasPosition(items: seq<LineItem>, from: nat, i: nat)
    requires i < |items| && !QuantityOk(items[i])
    ensures from + i in BadPositions(items, from)
    decreases |items|
  {
    if i > 0 {
      assert items[1..][i - 1] == items[i];
      BadItemHasPosition(items[1..], from + 1, i - 1);
    }
  }

  /** Every position is the index of a bad line item. */
  lemma {:induction false} PositionIsBadItem(items: seq<LineItem>, from: nat, k: nat) returns (i: nat)
    requires k < |BadPositions(items, from)|
    ensures i < |items| && !QuantityOk(items[i])
    ensures BadPositions(items, from)[k] == from + i
    decreases |items|
  {
    var rest := BadPositions(items[1..], from + 1);
    if QuantityOk(items[0]) {
      var j := PositionIsBadItem(items[1..], from + 1, k);
      i := j + 1;
      assert items[i] == items[1..][j];
    } else if k == 0 {
      i := 0;
    } else {
      var j := PositionIsBadItem(items[1..], from + 1, k - 1);
      i := j + 1;
      assert items[i] == items[1..][j];
    }
  }

  /** The positions come in strictly increasing order, as `forEach` visits them. */
  lemma {:induction false} PositionsIncrease(items: seq<LineItem>, from: nat)
    ensures forall k, l :: 0 <= k < l < |BadPositions(items, from)| ==>
              BadPositions(items, from)[k] < BadPositions(items, from)[l]
    decreases |items|
  {
    if |items| > 0 {
      var b, rest := BadPositions(items, from), BadPositions(items[1..], from + 1);
      PositionsIncrease(items[1..], from + 1);
      if !QuantityOk(items[0]) {
        forall l | 0 < l < |b|
          ensures b[0] < b[l]
        {
          var j := PositionIsBadItem(items[1..], from + 1, l - 1);
        }
      }
    }
  }

  /** The errors the `forEach` callback passes to `next`, in call order: one
      quantity message per bad position. */
  function QuantityCalls(items: seq<LineItem>, from: nat): (calls: seq<Error>)
    ensures |calls| == 0 <==> forall j :: 0 <= j < |items| ==> QuantityOk(items[j])
    ensures forall i :: FirstBadAt(items, i) ==> |calls| > 0 && calls[0] == QuantityInvalid(from + i)
  {
    var b := BadPositions(items, from);
    seq(|b|, k requires 0 <= k < |b| => QuantityInvalid(b[k]))
  }

  /** `forEach` reports a bad quantity at every position it occurs. */
  lemma EveryBadItemIsReported(items: seq<LineItem>, from: nat, i: nat)
    requires i < |items| && !QuantityOk(items[i])
    ensures QuantityInvalid(from + i) in QuantityCalls(items, from)
  {
    var b := BadPositions(items, from);
    BadItemHasPosition(items, from, i);
    var k :| 0 <= k < |b| && b[k] == from + i;
    assert QuantityCalls(items, from)[k] == QuantityInvalid(from + i);
  }

  /** Every call names a line item whose quantity is bad: no call is made for a good one. */
  lemma EveryCallIsABadItem(items: seq<LineItem>, from: nat, k: nat) returns (i: nat)
    requires k < |QuantityCalls(items, from)|
    ensures i < |items| && !QuantityOk(items[i])
    ensures QuantityCalls(items, from)[k] == QuantityInvalid(from + i)
  {
    i := PositionIsBadItem(items, from, k);
  }

  /** No two calls carry the same error, so together with the two lemmas above
      the bad line items and the calls correspond one to one. */
  lemma QuantityCallsDistinct(items: seq<LineItem>, from: nat)
    ensures forall k, l :: 0 <= k < l < |QuantityCalls(items, from)| ==>
              QuantityCalls(items, from)[k] != QuantityCalls(items, from)[l]
  {
    var b, calls := BadPositions(items, from), QuantityCalls(items, from);
    PositionsIncrease(items, from);
    forall k, l | 0 <= k < l < |calls|
      ensures calls[k] != calls[l]
    {
      QuantityMessagesDistinct(b[k], b[l]);
    }
  }

  /** Different positions give different messages. */
  lemma QuantityMessagesDistinct(i: nat, j: nat)
    requires i != j
    ensures QuantityInvalid(i) != QuantityInvalid(j)
  {
    var a, b := QuantityInvalid(i).message, QuantityInvalid(j).message;
    if a == b {
      var prefix, suffix := |"Dish "|, |" must have a quantity that is an integer greater than 0"|;
      assert |Decimal(i)| == |Decimal(j)|;
      assert Decimal(i) == a[prefix..|a| - suffix];
      assert Decimal(j) == b[prefix..|b| - suffix];
      DecimalInjective(i, j);
    }
  }

  /** `validateOrder`: deliverTo, then mobileNumber, then dishes, then the line
      items. Of the several `next(err)` calls the `forEach` can make, the first
      is the one reported. */
  function ValidateOrder(f: OrderFields): (r: Outcome)
    ensures r.Pass? <==> ValidFields(f)
    ensures !Truthy(f.deliverTo) ==> r == Fail(DeliverToMissing)
    ensures Truthy(f.deliverTo) && !Truthy(f.mobileNumber) ==> r == Fail(MobileNumberMissing)
    ensures (Truthy(f.deliverTo) && Truthy(f.mobileNumber) && !HasDishes(f.dishes))
              ==> r == Fail(DishesMissing)
    ensures forall i :: HeaderOk(f) && FirstBadAt(f.dishes.items, i) ==> r == Fail(QuantityInvalid(i))
  {
    var checks := [ Check(Truthy(f.deliverTo), DeliverToMissing),
                    Check(Truthy(f.mobileNumber), MobileNumberMissing),
                    Check(HasDishes(f.dishes), DishesMissing) ];
    assert FirstFailingAt(checks, 0) || FirstFailingAt(checks, 1) || FirstFailingAt(checks, 2)
        || HeaderOk(f);
    match FirstFailure(checks)
    case Fail(e) => Fail(e)
    case Pass =>
      var calls := QuantityCalls(f.dishes.items, 0);
      if |calls| == 0 then Pass else Fail(calls[0])
  }

  /** `validateOrderStatus`, given the stored order `orderExists` found: the
      requested status must be one of the four, and only then is a delivered
      order refused. Any other move between statuses, backwards included, is
      allowed. */
  function ValidateOrderStatus(status: Value, stored: Order): (r: Outcome)
    ensures ParseStatus(status).None? ==> r == Fail(StatusInvalid)
    ensures (ParseStatus(status).Some? && stored.fields.status == Str(StatusName(Delivered)))
              ==> r == Fail(DeliveredLocked)
    ensures r.Pass? <==> ParseStatus(status).Some? && stored.fields.status != Str(StatusName(Delivered))
  {
    if !Truthy(status) || ParseStatus(status).None? then Fail(StatusInvalid)
    else if stored.fields.status == Str("delivered") then Fail(DeliveredLocked)
    else Pass
  }

  /** The status a new order is stored with: the destructuring default
      `status = "pending"` applies only when the field is `undefined`. */
  function CreatedStatus(status: Value): Value
  {
    if status == Undefined then Str(StatusName(Pending)) else status
  }

  /** The route handler `create`: push an order with the id `nextId()` returned. */
  function CreateHandler(orders: seq<Order>, p: OrderPayload, freshId: string): (r: Handled<Order>)
  {
    var stored := Insert(orders, freshId, p.fields.(status := CreatedStatus(p.fields.status)));
    Handled(stored, Ok(Response(201, One(stored[|orders|]))))
  }

  /** The route handler `read`, given the index `orderExists` found. */
  function ReadHandler(orders: seq<Order>, i: nat): (r: Handled<Order>)
    requires i < |orders|
  {
    Handled(orders, Ok(Response(200, One(orders[i]))))
  }

  /** The route handler `update`, given the index `orderExists` found. */
  function UpdateHandler(orders: seq<Order>, i: nat, orderId: string, p: OrderPayload): (r: Handled<Order>)
    requires i < |orders|
  {
    if Mismatch(p.id, orderId) then Handled(orders, Err(OrderIdMismatch(p.id, orderId)))
    else
      var stored := SetFields(orders, i, p.fields);
      Handled(stored, Ok(Response(200, One(stored[i]))))
  }

  /** The route handler `remove`, which looks the order up again with `findIndex`. */
  function RemoveHandler(orders: seq<Order>, orderId: string): (r: Handled<Order>)
  {
    match IndexOf(orders, orderId)
    case None => Handled(orders, Err(OrderNotFound(orderId)))
    case Some(i) =>
      if orders[i].fields.status != Str("pending") then Handled(orders, Err(NotPending))
      else Handled(RemoveAt(orders, i), Ok(Response(204, NoContent)))
  }

  // The exported routes; `list` is `Pipeline.List`.

  /** `create: [validateOrder, create]`. The status is not validated here.
      `freshId` is what `nextId()` returns. */
  function Create(orders: seq<Order>, p: OrderPayload, freshId: string): (r: Handled<Order>)
    requires Fresh(orders, freshId)
    ensures r.result.Ok? <==> ValidFields(p.fields)
    ensures !ValidFields(p.fields) ==> r.store == orders && r.result == Err(ValidateOrder(p.fields).error)
    ensures r.result.Ok? ==>
      && |r.store| == |orders| + 1
      && (forall j :: 0 <= j < |orders| ==> r.store[j] == orders[j])
    ensures r.result.Ok? && |r.store| == |orders| + 1 ==>
      var created := r.store[|orders|];
      && created.id == freshId
      && created.fields.deliverTo == p.fields.deliverTo
      && created.fields.mobileNumber == p.fields.mobileNumber
      && created.fields.dishes == p.fields.dishes
      && (p.fields.status == Undefined ==> created.fields.status == Str(StatusName(Pending)))
      && (p.fields.status != Undefined ==> created.fields.status == p.fields.status)
      && r.result.value == Response(201, One(created))
      && IndexOf(r.store, freshId) == Some(|orders|)
  {
    match ValidateOrder(p.fields)
    case Fail(e) => Handled(orders, Err(e))
    case Pass =>
      InsertFresh(orders, freshId, p.fields.(status := CreatedStatus(p.fields.status)));
      CreateHandler(orders, p, freshId)
  }

  /** `read: [orderExists, read]`. */
  function Read(orders: seq<Order>, orderId: string): (r: Handled<Order>)
    ensures r.store == orders
    ensures r.result.Ok? <==> !Fresh(orders, orderId)
    ensures r.result.Err? ==> r.result.error == OrderNotFound(orderId)
    ensures r.result.Ok? ==>
      r.result.value.status == 200 && r.result.value.body.One? &&
      exists i :: 0 <= i < |orders| && r.result.value.body.record == orders[i] &&
        orders[i].id == orderId && forall j :: 0 <= j < i ==> orders[j].id != orderId
  {
    match OrderExists(orders, orderId)
    case Err(e) => Handled(orders, Err(e))
    case Ok(i) => ReadHandler(orders, i)
  }

  /** `update: [orderExists, validateOrder, validateOrderStatus, update]`: a
      missing order first, then the field rules, then the status guard, and the
      id mismatch last. */
  function Update(orders: seq<Order>, orderId: string, p: OrderPayload): (r: Handled<Order>)
    ensures r.result.Err? ==> r.store == orders
    ensures Fresh(orders, orderId) ==> r.result == Err(OrderNotFound(orderId))
    ensures !Fresh(orders, orderId) && !ValidFields(p.fields) ==>
      r.result == Err(ValidateOrder(p.fields).error)
    ensures !Fresh(orders, orderId) && ValidFields(p.fields) ==>
      var stored := orders[IndexOf(orders, orderId).value];
      ValidateOrderStatus(p.fields.status, stored).Fail? ==>
        r.result == Err(ValidateOrderStatus(p.fields.status, stored).error)
    ensures r.result.Ok? <==>
      && !Fresh(orders, orderId)
      && ValidFields(p.fields)
      && ValidateOrderStatus(p.fields.status, orders[IndexOf(orders, orderId).value]).Pass?
      && !Mismatch(p.id, orderId)
    ensures r.result.Ok? ==>
      var i := IndexOf(orders, orderId).value;
      && |r.store| == |orders|
      && r.store[i] == Record(orderId, p.fields)
      && (forall j :: 0 <= j < |orders| && j != i ==> r.store[j] == orders[j])
      && r.result.value == Response(200, One(r.store[i]))
  {
    match OrderExists(orders, orderId)
    case Err(e) => Handled(orders, Err(e))
    case Ok(i) =>
      match ValidateOrder(p.fields)
      case Fail(e) => Handled(orders, Err(e))
      case Pass =>
        match ValidateOrderStatus(p.fields.status, orders[i])
        case Fail(e) => Handled(orders, Err(e))
        case Pass => UpdateHandler(orders, i, orderId, p)
  }

  /** Past the existence check, the field rules and the status guard, a body id
      that differs from the route id fails with the mismatch message and leaves
      the store as it was. */
  lemma UpdateMismatch(orders: seq<Order>, orderId: string, p: OrderPayload)
    requires !Fresh(orders, orderId) && ValidFields(p.fields)
    requires ValidateOrderStatus(p.fields.status, orders[IndexOf(orders, orderId).value]).Pass?
    requires Mismatch(p.id, orderId)
    ensures Update(orders, orderId, p) == Handled(orders, Err(OrderIdMismatch(p.id, orderId)))
  {
  }

  /** `remove: [orderExists, remove]`. Only a pending order goes; the others
      keep their relative order. */
  function Remove(orders: seq<Order>, orderId: string): (r: Handled<Order>)
    ensures r.result.Err? ==> r.store == orders
    ensures Fresh(orders, orderId) ==> r.result == Err(OrderNotFound(orderId))
    ensures !Fresh(orders, orderId) ==>
      var i := IndexOf(orders, orderId).value;
      && (orders[i].fields.status != Str(StatusName(Pending)) ==> r.result == Err(NotPending))
      && (orders[i].fields.status == Str(StatusName(Pending)) ==>
            && r.result == Ok(Response(204, NoContent))
            && r.store == orders[..i] + orders[i + 1..])
  {
    match OrderExists(orders, orderId)
    case Err(e) => Handled(orders, Err(e))
    case Ok(_) => RemoveHandler(orders, orderId)
  }

  // Properties relating several routes.

  /** After `orderExists` has passed, the `remove` handler's own 404 branch
      cannot be taken: the chain answers exactly what the handler alone does. */
  lemma RemoveHandlerNotFoundIsRedundant(orders: seq<Order>, orderId: string)
    ensures Remove(orders, orderId) == RemoveHandler(orders, orderId)
  {
  }

  /** With unique ids, once an order is removed, reading it answers 404. */
  lemma RemoveThenRead(orders: seq<Order>, orderId: string)
    requires UniqueIds(orders)
    requires Remove(orders, orderId).result.Ok?
    ensures Read(Remove(orders, orderId).store, orderId).result == Err(OrderNotFound(orderId))
  {
  }

  /** The rules every stored order satisfies, in every reachable store: unique
      ids and the rules of `validateOrder`. The status is not among them,
      because `create` does not check it. */
  predicate ValidStore(orders: seq<Order>)
  {
    UniqueIds(orders) && forall i :: 0 <= i < |orders| ==> ValidFields(orders[i].fields)
  }

  lemma RoutesKeepValidStore(orders: seq<Order>, orderId: string, p: OrderPayload, freshId: string)
    requires ValidStore(orders) && Fresh(orders, freshId)
    ensures ValidStore(List(orders).store)
    ensures ValidStore(Read(orders, orderId).store)
    ensures ValidStore(Create(orders, p, freshId).store)
    ensures ValidStore(Update(orders, orderId, p).store)
    ensures ValidStore(Remove(orders, orderId).store)
  {
    CreateKeepsValidStore(orders, p, freshId);
    UpdateKeepsValidStore(orders, orderId, p);
    RemoveKeepsValidStore(orders, orderId);
  }

  lemma CreateKeepsValidStore(orders: seq<Order>, p: OrderPayload, freshId: string)
    requires ValidStore(orders) && Fresh(orders, freshId)
    ensures ValidStore(Create(orders, p, freshId).store)
  {
  }

  lemma UpdateKeepsValidStore(orders: seq<Order>, orderId: string, p: OrderPayload)
    requires ValidStore(orders)
    ensures ValidStore(Update(orders, orderId, p).store)
  {
  }

  lemma RemoveKeepsValidStore(orders: seq<Order>, orderId: string)
    requires ValidStore(orders)
    ensures ValidStore(Remove(orders, orderId).store)
  {
  }

  /** `create` stores whatever status the payload carried: an order can be
      created with a status outside the four, which no later update can
      produce. */
  lemma CreateSkipsStatusCheck(orders: seq<Order>, f: OrderFields, freshId: string)
    requires Fresh(orders, freshId) && ValidFields(f)
    requires ParseStatus(f.status).None? && f.status != Undefined
    ensures var r := Create(orders, OrderPayload(Undefined, f), freshId);
      r.result.Ok? && ParseStatus(r.store[|orders|].fields.status).None?
  {
  }

  /** An update never stores a status outside the four. */
  lemma UpdateStoresKnownStatus(orders: seq<Order>, orderId: string, p: OrderPayload)
    requires Update(orders, orderId, p).result.Ok?
    ensures var r := Update(orders, orderId, p);
      ParseStatus(r.store[IndexOf(orders, orderId).value].fields.status).Some?
  {
  }

  /** A delivered order is final: with unique ids, every update and removal
      aimed at it fails, and no route changes or drops it. */
  lemma DeliveredIsFinal(orders: seq<Order>, k: nat, orderId: string, p: OrderPayload, freshId: string)
    requires UniqueIds(orders) && Fresh(orders, freshId)
    requires k < |orders| && orders[k].fields.status == Str(StatusName(Delivered))
    ensures Update(orders, orders[k].id, p).result.Err?
    ensures Remove(orders, orders[k].id).result == Err(NotPending)
    ensures Update(orders, orderId, p).store[k] == orders[k]
    ensures Create(orders, p, freshId).store[k] == orders[k]
    ensures orders[k] in Remove(orders, orderId).store
  {
  }

  /** Any of the four statuses may be requested for an order that is not
      delivered, including a move back to `pending`. */
  lemma BackwardMovesAllowed(stored: Order, s: Status)
    requires stored.fields.status != Str(StatusName(Delivered))
    ensures ValidateOrderStatus(Str(StatusName(s)), stored) == Pass
  {
  }

  /** A bad status is reported as such even for a delivered order. */
  lemma StatusCheckedBeforeLock(stored: Order, status: Value)
    requires stored.fields.status == Str(StatusName(Delivered))
    ensures ParseStatus(status).None? ==> ValidateOrderStatus(status, stored) == Fail(StatusInvalid)
    ensures ParseStatus(status).Some? ==> ValidateOrderStatus(status, stored) == Fail(DeliveredLocked)
  {
  }
}
