/** The dishes controller: its middleware, its route handlers and the chains
    that `module.exports` composes from them. A dish is never deleted. */
module Dishes {
  import opened Pipeline
  import opened Js
  import opened Store

  /** The client-writable fields of a dish, exactly as the payload supplied them. */
  datatype DishFields = DishFields(name: Value, description: Value, price: Value, imageUrl: Value)

  type Dish = Record<DishFields>

  /** `req.body.data`: the fields, and the `id` an update may carry. An absent
      `data` object is a payload whose every field is `Undefined`; a `null`
      one makes the destructuring throw, which is not modelled. */
  datatype DishPayload = DishPayload(id: Value, fields: DishFields)

  function DishNotFound(dishId: string): Error
  {
    Error(404, "Dish id not found: " + dishId)
  }

  const NameMissing := Error(400, "Dish must include a name")
  const DescriptionMissing := Error(400, "Dish must include a description")
  const PriceInvalid := Error(400, "Dish must have a price that is an integer greater than 0")
  const ImageUrlMissing := Error(400, "Dish must include an image_url")

  function DishIdMismatch(id: Value, dishId: string): Error
  {
    Error(400, "Dish id does not match route id. Dish: " + Render(id) + ", Route: " + dishId)
  }

  /** The price test `price === undefined || price <= 0 || !Number.isInteger(price)`
      is false (the price is accepted) exactly for the integral numbers greater
      than 0: `Number.isInteger` admits nothing but integral numbers, and for
      those `<= 0` is numeric. */
  predicate PriceOk(price: Value)
  {
    IsInteger(price) && price.n > 0
  }

  /** All four rules of `validateDish` hold. */
  predicate ValidFields(f: DishFields)
  {
    Truthy(f.name) && Truthy(f.description) && PriceOk(f.price) && Truthy(f.imageUrl)
  }

  /** `dishExists`: the index of the first dish with the route's id, or 404. */
  function DishExists(dishes: seq<Dish>, dishId: string): (r: Result<nat>)
    ensures r.Ok? <==> !Fresh(dishes, dishId)
    ensures r.Ok? ==> r.value < |dishes| && dishes[r.value].id == dishId
    ensures r.Ok? ==> forall j :: 0 <= j < r.value ==> dishes[j].id != dishId
    ensures r.Err? ==> r.error == DishNotFound(dishId)
  {
    match IndexOf(dishes, dishId)
    case Some(i) => Ok(i)
    case None => Err(DishNotFound(dishId))
  }

  /** `validateDish`: the rules in source order, the first one broken is reported. */
  function DishChecks(f: DishFields): seq<Check>
  {
    [ Check(Truthy(f.name), NameMissing),
      Check(Truthy(f.description), DescriptionMissing),
      Check(PriceOk(f.price), PriceInvalid),
      Check(Truthy(f.imageUrl), ImageUrlMissing) ]
  }

  function ValidateDish(f: DishFields): (r: Outcome)
    ensures r.Pass? <==> ValidFields(f)
    ensures !Truthy(f.name) ==> r == Fail(NameMissing)
    ensures Truthy(f.name) && !Truthy(f.description) ==> r == Fail(DescriptionMissing)
    ensures Truthy(f.name) && Truthy(f.description) && !PriceOk(f.price) ==> r == Fail(PriceInvalid)
    ensures (Truthy(f.name) && Truthy(f.description) && PriceOk(f.price) && !Truthy(f.imageUrl))
              ==> r == Fail(ImageUrlMissing)
  {
    var checks := DishChecks(f);
    assert FirstFailingAt(checks, 0) || FirstFailingAt(checks, 1) || FirstFailingAt(checks, 2)
        || FirstFailingAt(checks, 3) || ValidFields(f);
    FirstFailure(checks)
  }

  /** The route handler `create`: push a dish with the id `nextId()` returned. */
  function CreateHandler(dishes: seq<Dish>, p: DishPayload, freshId: string): (r: Handled<Dish>)
  {
    var stored := Insert(dishes, freshId, p.fields);
    Handled(stored, Ok(Response(201, One(stored[|dishes|]))))
  }

  /** The route handler `read`, given the index `dishExists` found. */
  function ReadHandler(dishes: seq<Dish>, i: nat): (r: Handled<Dish>)
    requires i < |dishes|
  {
    Handled(dishes, Ok(Response(200, One(dishes[i]))))
  }

  /** The route handler `update`, given the index `dishExists` found. */
  function UpdateHandler(dishes: seq<Dish>, i: nat, dishId: string, p: DishPayload): (r: Handled<Dish>)
    requires i < |dishes|
  {
    if Mismatch(p.id, dishId) then Handled(dishes, Err(DishIdMismatch(p.id, dishId)))
    else
      var stored := SetFields(dishes, i, p.fields);
      Handled(stored, Ok(Response(200, One(stored[i]))))
  }

  // The exported routes; `list` is `Pipeline.List`.

  /** `create: [validateDish, create]`. `freshId` is what `nextId()` returns. */
  function Create(dishes: seq<Dish>, p: DishPayload, freshId: string): (r: Handled<Dish>)
    requires Fresh(dishes, freshId)
    ensures r.result.Ok? <==> ValidFields(p.fields)
    ensures !ValidFields(p.fields) ==> r.store == dishes && r.result == Err(ValidateDish(p.fields).error)
    ensures r.result.Ok? ==>
      && |r.store| == |dishes| + 1
      && (forall j :: 0 <= j < |dishes| ==> r.store[j] == dishes[j])
      && r.store[|dishes|] == Record(freshId, p.fields)
      && r.result.value == Response(201, One(r.store[|dishes|]))
      && IndexOf(r.store, freshId) == Some(|dishes|)
  {
    match ValidateDish(p.fields)
    case Fail(e) => Handled(dishes, Err(e))
    case Pass =>
      InsertFresh(dishes, freshId, p.fields);
      CreateHandler(dishes, p, freshId)
  }

  /** `read: [dishExists, read]`. */
  function Read(dishes: seq<Dish>, dishId: string): (r: Handled<Dish>)
    ensures r.store == dishes
    ensures r.result.Ok? <==> !Fresh(dishes, dishId)
    ensures r.result.Err? ==> r.result.error == DishNotFound(dishId)
    ensures r.result.Ok? ==>
      r.result.value.status == 200 && r.result.value.body.One? &&
      exists i :: 0 <= i < |dishes| && r.result.value.body.record == dishes[i] &&
        dishes[i].id == dishId && forall j :: 0 <= j < i ==> dishes[j].id != dishId
  {
    match DishExists(dishes, dishId)
    case Err(e) => Handled(dishes, Err(e))
    case Ok(i) => ReadHandler(dishes, i)
  }

  /** `update: [dishExists, validateDish, update]`: a missing dish is reported
      before any validation error, and a validation error before an id mismatch. */
  function Update(dishes: seq<Dish>, dishId: string, p: DishPayload): (r: Handled<Dish>)
    ensures r.result.Err? ==> r.store == dishes
    ensures Fresh(dishes, dishId) ==> r.result == Err(DishNotFound(dishId))
    ensures !Fresh(dishes, dishId) && !ValidFields(p.fields) ==>
      r.result == Err(ValidateDish(p.fields).error)
    ensures !Fresh(dishes, dishId) && ValidFields(p.fields) && Mismatch(p.id, dishId) ==>
      r.result == Err(DishIdMismatch(p.id, dishId))
    ensures r.result.Ok? <==> !Fresh(dishes, dishId) && ValidFields(p.fields) && !Mismatch(p.id, dishId)
    ensures r.result.Ok? ==>
      var i := IndexOf(dishes, dishId).value;
      && |r.store| == |dishes|
      && r.store[i] == Record(dishId, p.fields)
      && (forall j :: 0 <= j < |dishes| && j != i ==> r.store[j] == dishes[j])
      && r.result.value == Response(200, One(r.store[i]))
  {
    match DishExists(dishes, dishId)
    case Err(e) => Handled(dishes, Err(e))
    case Ok(i) =>
      match ValidateDish(p.fields)
      case Fail(e) => Handled(dishes, Err(e))
      case Pass => UpdateHandler(dishes, i, dishId, p)
  }

  // Properties relating several routes.

  /** The collection's invariant: unique ids, and every dish satisfies the
      rules `validateDish` enforces. */
  predicate ValidStore(dishes: seq<Dish>)
  {
    UniqueIds(dishes) && forall i :: 0 <= i < |dishes| ==> ValidFields(dishes[i].fields)
  }

  /** Every route keeps the invariant. */
  lemma RoutesKeepValidStore(dishes: seq<Dish>, dishId: string, p: DishPayload, freshId: string)
    requires ValidStore(dishes) && Fresh(dishes, freshId)
    ensures ValidStore(List(dishes).store)
    ensures ValidStore(Read(dishes, dishId).store)
    ensures ValidStore(Create(dishes, p, freshId).store)
    ensures ValidStore(Update(dishes, dishId, p).store)
  {
  }

  /** A created dish is read back as the payload's fields under the new id. */
  lemma CreateThenRead(dishes: seq<Dish>, p: DishPayload, freshId: string)
    requires Fresh(dishes, freshId) && ValidFields(p.fields)
    ensures Read(Create(dishes, p, freshId).store, freshId).result
              == Ok(Response(200, One(Record(freshId, p.fields))))
  {
  }

  /** With unique ids, every dish `list` returns is what `read` returns for its id. */
  lemma ListedDishesAreRead(dishes: seq<Dish>, k: nat)
    requires UniqueIds(dishes) && k < |dishes|
    ensures Read(dishes, List(dishes).result.value.body.records[k].id).result
              == Ok(Response(200, One(dishes[k])))
  {
  }

  /** The price rule on concrete values: 0, -5, 3.5 and a missing price are
      rejected, 1 is accepted. */
  lemma PriceExamples(name: Value, description: Value, imageUrl: Value)
    requires Truthy(name) && Truthy(description) && Truthy(imageUrl)
    ensures ValidateDish(DishFields(name, description, Int(0), imageUrl)) == Fail(PriceInvalid)
    ensures ValidateDish(DishFields(name, description, Int(-5), imageUrl)) == Fail(PriceInvalid)
    ensures ValidateDish(DishFields(name, description, Fraction("3.5"), imageUrl)) == Fail(PriceInvalid)
    ensures ValidateDish(DishFields(name, description, Undefined, imageUrl)) == Fail(PriceInvalid)
    ensures ValidateDish(DishFields(name, description, Int(1), imageUrl)) == Pass
  {
  }

  /** An empty string counts as a missing field. */
  lemma EmptyStringIsMissing(f: DishFields)
    ensures ValidateDish(f.(name := Str(""))) == Fail(NameMissing)
    ensures Truthy(f.name) ==> ValidateDish(f.(description := Str(""))) == Fail(DescriptionMissing)
    ensures Truthy(f.name) && Truthy(f.description) && PriceOk(f.price) ==>
              ValidateDish(f.(imageUrl := Str(""))) == Fail(ImageUrlMissing)
  {
  }
}
