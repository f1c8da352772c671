# Dishes and orders of a restaurant order API, in Dafny

The repository is a small Express API with two in-memory collections, dishes
and orders. Each route is a chain of middleware where the first `next(err)`
wins: an existence check (404), field validation (400), for order updates a
status guard (400), then the route handler that changes the array and answers.
This project models that decision logic as pure functions:

- `Js`: the JavaScript values a payload field can hold (`Undefined`, `Null`,
  `Bool`, `Int`, `Fraction`, `NaN`, `Str`, `Array` of line items, `Object`),
  with truthiness (`!x`), `Number.isInteger`, the `${x}` rendering used in
  messages, and `Mismatch`, the `id && id !== routeId` test both `update`
  handlers make.
- `Pipeline`: `Error(status, message)`, the `Outcome` of a checking
  middleware, the `Result` of a looking-up one, `FirstFailure` over an ordered
  list of rules, `Handled(store, result)`, which a whole route returns, and
  `List`, the `list` route, which is the same for both collections.
- `Store`: a collection is a `seq` of `Record(id, fields)`. `find`/`findIndex`
  become `IndexOf` (first match), `push` becomes `Insert`, `Object.assign` on
  the found record becomes `SetFields`, and `splice(i, 1)` becomes `RemoveAt`.
- `Dishes` and `Orders`: one module per controller. Each has its middleware
  (`DishExists`, `ValidateDish`; `OrderExists`, `ValidateOrder`,
  `ValidateOrderStatus`), its route handlers (`CreateHandler`, `UpdateHandler`,
  …) and the exported chains (`Create`, `Read`, `Update`, and `Remove` for
  orders). The chains are composed in the same order as in `module.exports`.
- `Scenario`: an end-to-end walk-through proved on concrete data.

Every route returns the store after the request. On an error that store is the
one it was given, and each route's contract says so.

The code is looser than its messages suggest, and the model keeps it so:

- Fields need only be truthy, not non-empty strings. A name of `5` is accepted.
- In both `update` chains, validation runs before the id-mismatch check. The
  mismatch check is in the last handler, so a payload that is both invalid and
  mismatched gets the validation error.
- `create` for orders does not check the status. The `"pending"` default
  applies only when the status is `undefined`, so `null` or `"bogus"` is stored
  as given (`Orders.CreateSkipsStatusCheck`). So the invariant that every
  order's status is one of the four holds only for orders written by
  `update` (`Orders.UpdateStoresKnownStatus`). `Orders.ValidStore` leaves the
  status out for this reason.

## Model

| member | source | states |
|---|---|---|
| Pipeline.FirstFailure | src/dishes/dishes.controller.js:20-45 | running the rules in order passes iff every rule passes, and otherwise reports exactly the error of the first rule that fails |
| Js.Decimal | src/orders/orders.controller.js:30 | the index in a quantity message is a non-empty run of decimal digits with no leading zero; `Js.DigitsValueOfDecimal` pins which number they spell |
| Js.DigitsValueOfDecimal | src/orders/orders.controller.js:30 | reading the printed digits of an index back as a number gives that index |
| Js.DecimalInjective | src/orders/orders.controller.js:30 | different indexes are printed differently |
| Store.IndexOf | src/dishes/dishes.controller.js:9 | `find` by id yields an index holding that id with no earlier record holding it, and finds nothing exactly when no record has the id |
| Store.IndexOfUnique | src/orders/orders.controller.js:9 | when ids are unique, looking up a record's id finds that very record |
| Store.Insert | src/dishes/dishes.controller.js:62 | `push` adds the record at the end and leaves every earlier record in place |
| Store.InsertFresh | src/orders/orders.controller.js:58-64 | pushing a record with a fresh id keeps ids unique, makes the new id resolve to the last position, and leaves lookups of other ids unchanged |
| Store.SetFields | src/dishes/dishes.controller.js:81 | `Object.assign` on the found record replaces its fields, keeps its id and position, touches no other record, keeps ids unique and leaves every lookup result unchanged |
| Store.RemoveAt | src/orders/orders.controller.js:98 | `splice(i, 1)` shortens the collection by one, keeps records before `i` where they were and moves the rest down by one |
| Store.RemoveAtUnique | src/orders/orders.controller.js:98 | after the splice, ids are still unique and the removed id is no longer found |
| Dishes.DishExists | src/dishes/dishes.controller.js:7-18 | succeeds iff some dish has the route id, yielding the first such dish; otherwise 404 "Dish id not found: " followed by the id |
| Dishes.ValidateDish | src/dishes/dishes.controller.js:20-45 | passes iff name, description and image_url are truthy and price is an integer above 0; otherwise reports the first broken rule in the order name, description, price, image_url |
| Pipeline.List | src/dishes/dishes.controller.js:48-50 | the `list` route of both controllers answers 200 with every record in store order and leaves the store as it was |
| Dishes.Create | src/dishes/dishes.controller.js:53-64 | succeeds iff the payload is valid; then exactly one dish is appended, with the payload's fields and the fresh id, earlier dishes are unchanged, the answer is 201 with the new dish, and the new id resolves to it; otherwise the store is unchanged and the validation error is reported |
| Dishes.Read | src/dishes/dishes.controller.js:67-69 | answers 200 with the first dish of that id, or 404 when there is none, and never changes the store |
| Dishes.Update | src/dishes/dishes.controller.js:72-89 | 404 comes before any validation error, and a validation error before the id mismatch; succeeds iff the dish exists, the payload is valid and the body id is falsy or equal to the route id (`Js.Mismatch` is false); a success replaces that dish's fields in place under the same id, leaves every other dish and the length unchanged, and answers 200 with it; every failure leaves the store unchanged |
| Dishes.RoutesKeepValidStore | src/dishes/dishes.controller.js:85-90 | every dish route keeps ids unique and every stored dish within the validation rules |
| Dishes.CreateThenRead | src/dishes/dishes.controller.js:53-69 | a dish created from a valid payload reads back as exactly the payload's fields under the new id |
| Dishes.ListedDishesAreRead | src/dishes/dishes.controller.js:48-69 | with unique ids, reading the id of any listed dish answers that dish |
| Dishes.PriceExamples | src/dishes/dishes.controller.js:33-37 | prices 0, -5, 3.5 and a missing price are rejected with the price message, and price 1 is accepted |
| Dishes.EmptyStringIsMissing | src/dishes/dishes.controller.js:23-42 | an empty string counts as a missing name, description or image_url |
| Orders.ParseStatus | src/orders/orders.controller.js:40 | the status test accepts a value iff it is the string name of one of the four statuses, and names which one |
| Orders.ParseStatusName | src/orders/orders.controller.js:40 | each of the four names is accepted as its own status |
| Orders.OrderExists | src/orders/orders.controller.js:7-18 | succeeds iff some order has the route id, yielding the first such order; otherwise 404 "Order id not found: " followed by the id |
| Orders.BadPositions | src/orders/orders.controller.js:28-32 | the indexes the `forEach` callback complains about: none iff every quantity is an integer above 0, and the first is the lowest bad index |
| Orders.BadItemHasPosition | src/orders/orders.controller.js:28-32 | the loop does not stop early: the index of every bad line item is among the positions |
| Orders.PositionIsBadItem | src/orders/orders.controller.js:28-32 | every position is the index of a line item whose quantity is bad |
| Orders.PositionsIncrease | src/orders/orders.controller.js:28 | the positions come in strictly increasing order, as `forEach` visits the array |
| Orders.QuantityCalls | src/orders/orders.controller.js:28-32 | the `forEach` callback makes no `next(err)` call iff every quantity is an integer above 0, and its first call names the lowest bad index |
| Orders.EveryCallIsABadItem | src/orders/orders.controller.js:28-32 | every `next(err)` call the loop makes names a line item whose quantity is bad; a good item produces no call |
| Orders.EveryBadItemIsReported | src/orders/orders.controller.js:28-32 | the loop does not stop early: every line item with a bad quantity produces its own error call |
| Orders.QuantityCallsDistinct | src/orders/orders.controller.js:28-32 | no two `next(err)` calls of the loop carry the same error, so bad line items and calls correspond one to one |
| Orders.QuantityMessagesDistinct | src/orders/orders.controller.js:30 | quantity errors for different indexes have different messages |
| Orders.ValidateOrder | src/orders/orders.controller.js:21-35 | passes iff deliverTo and mobileNumber are truthy, dishes is a non-empty array and every quantity is an integer above 0; otherwise reports the first broken rule in the order deliverTo, mobileNumber, dishes, then the lowest failing line item |
| Orders.ValidateOrderStatus | src/orders/orders.controller.js:38-47 | a status outside the four is refused with the status message even for a delivered order; a valid status is refused for a delivered order; and the guard passes iff the status is valid and the stored order is not delivered |
| Orders.Create | src/orders/orders.controller.js:55-66 | succeeds iff the payload passes `validateOrder`, whatever its status; then exactly one order is appended under the fresh id, carrying the payload's fields, with status "pending" when the status is `undefined` and the given status otherwise (`Orders.CreatedStatus`); earlier orders are unchanged and the answer is 201 |
| Orders.Read | src/orders/orders.controller.js:69-71 | answers 200 with the first order of that id, or 404 when there is none, and never changes the store |
| Orders.Update | src/orders/orders.controller.js:74-86 | 404 first, then the validation error, then the status guard's error, each stated exactly; past those three a truthy body id that differs from the route id (`Js.Mismatch`) makes it fail (`Orders.UpdateMismatch` names that error); succeeds iff all four checks pass; a success overwrites deliverTo, mobileNumber, status and dishes in place under the same id and leaves every other order unchanged; every failure leaves the store unchanged |
| Orders.UpdateMismatch | src/orders/orders.controller.js:78-82 | once the order exists, the fields are valid and the status guard passes, a body id that is truthy and differs from the route id fails with 400 "Order id does not match route id. Order: …, Route: …" and the store is unchanged |
| Orders.Remove | src/orders/orders.controller.js:89-106 | 404 for an unknown id; a non-pending order gives "An order cannot be deleted unless it is pending" and nothing changes; a pending order is removed, the others keeping their order, with a 204 and no body |
| Orders.RemoveHandlerNotFoundIsRedundant | src/orders/orders.controller.js:100-105 | behind `orderExists` the remove handler's own 404 branch changes nothing: the chain answers what the handler alone answers |
| Orders.RemoveThenRead | src/orders/orders.controller.js:98 | with unique ids, reading a removed order answers 404 |
| Orders.RoutesKeepValidStore | src/orders/orders.controller.js:108-114 | every order route keeps ids unique and every stored order within the rules `validateOrder` enforces |
| Orders.CreateSkipsStatusCheck | src/orders/orders.controller.js:110 | create stores a status outside the four when the payload carries one |
| Orders.UpdateStoresKnownStatus | src/orders/orders.controller.js:112 | a successful update always stores one of the four statuses |
| Orders.DeliveredIsFinal | src/orders/orders.controller.js:43-45 | with unique ids, updating or removing a delivered order always fails, and no route changes or drops it |
| Orders.BackwardMovesAllowed | src/orders/orders.controller.js:40-46 | an order that is not delivered accepts any of the four statuses, including a move back |
| Orders.StatusCheckedBeforeLock | src/orders/orders.controller.js:40-45 | for a delivered order, an invalid status gets the status message and a valid one gets "A delivered order cannot be changed" |
| Scenario.EndToEnd | src/orders/orders.controller.js:108-114 | a Taco dish is created (201); an order for two of them is created pending (201), then updated to preparing (200), and then cannot be deleted (400) |
| Scenario.DeliveredAgain | src/orders/orders.controller.js:43-45 | re-sending "delivered" to a delivered order is refused |
| Scenario.BadDishes | src/orders/orders.controller.js:26-30 | an empty dishes array gets "Order must include at least one dish", and a single line item of quantity 0 gets "Dish 0 must have a quantity…" |

## Left out

- HTTP plumbing: `req`, `res`, `next`, `res.json`, `sendStatus` and the error handler. A route returns `Handled(store, result)`, where `result` is the response or the `Error(status, message)` passed to `next`.
- The second `next()` that `validateOrder` makes after its `forEach` has already called `next(err)`, and the extra `next(err)` calls for later bad line items. How Express reacts to repeated `next` calls is outside the controller. The model reports the first call. `Orders.QuantityCalls` lists them all: exactly one per bad item, because every bad item is reported (`Orders.EveryBadItemIsReported`), none is reported for a good one (`Orders.EveryCallIsABadItem`) and no two calls are the same (`Orders.QuantityCallsDistinct`).
- `nextId` (src/utils/nextId is not part of this model): the fresh id is a parameter, and `Create` requires that no record has it.
- The seed data modules (src/data/*-data are not part of this model): a collection starts as any `seq`, and the invariants assume a valid start.
- A request body whose `data` is `null`. The destructuring default `= {}` covers only `undefined`, so every handler and validator throws a TypeError on `null` (src/dishes/dishes.controller.js:21, 54, 74; src/orders/orders.controller.js:22, 39, 56, 76), and Express's error handler answers instead of any 400 here. The payload types cannot express it.
- A line item that is not an object (`null` makes `dish.quantity` throw) and the contents of objects other than line items.
- Floating-point numbers: a non-integral number is `Fraction(text)` with its printed form, and integers are unbounded. So the 2^53 limit and exponent notation in messages are not modelled.
- JavaScript's `===` between objects compares references. The model compares values, and the only comparisons the code makes are against strings.
- Referential integrity between an order's line items and the dishes collection: the code does not enforce it.
- Concurrency: there is none. Every route runs to completion on the store it is given.
