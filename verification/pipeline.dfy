/** The error and result types shared by every middleware chain.

A route is an ordered list of middleware steps; each step either hands control
to the next one or reports an error, and the first error reported ends the
chain. Steps that only check something return an `Outcome`; steps that also
look something up return a `Result`. A whole route returns a `Handled` value:
the store after the request together with the response or the error.
 */
module Pipeline {

  datatype Option<+T> = None | Some(value: T)

  /** An error handed to the error handler: an HTTP status and a message. */
  datatype Error = Error(status: int, message: string)

  /** What a checking middleware step does: continue, or stop with an error. */
  datatype Outcome = Pass | Fail(error: Error)

  /** What a looking-up middleware step does: continue with a value, or stop. */
  datatype Result<+T> = Ok(value: T) | Err(error: Error)

  /** The JSON body of a successful response: nothing, `{data: record}` or `{data: [records]}`. */
  datatype Body<+R> = NoContent | One(record: R) | All(records: seq<R>)

  datatype Response<+R> = Response(status: int, body: Body<R>)

  /** The store after a request, and what the request answered. */
  datatype Handled<+R> = Handled(store: seq<R>, result: Result<Response<R>>)

  /** The `list` route of either controller: every record, in store order,
      and the store as it was. */
  function List<R>(store: seq<R>): (r: Handled<R>)
    ensures r.store == store
    ensures r.result.Ok? && r.result.value.status == 200
    ensures r.result.value.body.All? && |r.result.value.body.records| == |store|
    ensures forall i :: 0 <= i < |store| ==> r.result.value.body.records[i] == store[i]
  {
    Handled(store, Ok(Response(200, All(store))))
  }

  /** One rule of a validator: whether the payload passes it, and the error it reports if not. */
  datatype Check = Check(passes: bool, error: Error)

  /** Check `i` is the first one that fails. */
  predicate FirstFailingAt(checks: seq<Check>, i: int)
  {
    && 0 <= i < |checks|
    && !checks[i].passes
    && forall j :: 0 <= j < i ==> checks[j].passes
  }

  /** Runs the checks in order and reports the error of the first one that fails. */
  function FirstFailure(checks: seq<Check>): (r: Outcome)
    ensures r.Pass? <==> forall i :: 0 <= i < |checks| ==> checks[i].passes
    ensures forall i :: FirstFailingAt(checks, i) ==> r == Fail(checks[i].error)
    ensures r.Fail? ==> exists i :: FirstFailingAt(checks, i) && r.error == checks[i].error
    decreases |checks|
  {
    if |checks| == 0 then Pass
    else if !checks[0].passes then
      assert FirstFailingAt(checks, 0);
      Fail(checks[0].error)
    else
      var r := FirstFailure(checks[1..]);
      assert forall i :: FirstFailingAt(checks, i) ==> i > 0 && FirstFailingAt(checks[1..], i - 1);
      assert r.Fail? ==> exists i :: FirstFailingAt(checks[1..], i) && FirstFailingAt(checks, i + 1) && r.error == checks[i + 1].error;
      r
  }
}
