/** The thing encapsulator of src/makeWorld.js: the restricted view a caller gets of one
    body and the shape description it was built from. */
module Box2DThings {
  import opened Wrappers
  import opened JsValues
  import opened Box2DBackend

  /** An entry of the thing table: the engine body and the description's `shape` member. */
  datatype Thing = Thing(body: Handle, shape: Value)

  /** `getShape`: a copy of the shape description. Values are immutable here, so what a
      caller does with the copy can never reach the table. */
  function GetShape(t: Thing): (s: Value)
    ensures s == t.shape
  {
    t.shape
  }

  /** `push(impulse)`: an impulse on the body's origin, accepted only as an array whose
      first two elements are numbers other than NaN. */
  function Push(t: Thing, impulse: Value): (r: Result<Event, Fault>)
    ensures r.Ok? <==> impulse.Arr? && |impulse.items| >= 2
                       && impulse.items[0].Num? && !impulse.items[0].n.NaN?
                       && impulse.items[1].Num? && !impulse.items[1].n.NaN?
    ensures r.Ok? ==> r.value == Impulse(t.body, impulse.items[0].n, impulse.items[1].n)
    ensures r.Err? ==> r.error == Assertion(ImpulseInvalid)
  {
    var x, y := Element(impulse, 0), Element(impulse, 1);
    :- Need(impulse.Arr?, Assertion(ImpulseInvalid));
    :- Need(IsNumber(x), Assertion(ImpulseInvalid));
    :- Need(IsNumber(y), Assertion(ImpulseInvalid));
    Ok(Impulse(t.body, x.n, y.n))
  }
}
