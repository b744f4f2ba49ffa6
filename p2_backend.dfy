/** What the p2 variant (phyzzie.js) asks of the p2 engine, recorded as an event trace.
    Materials and bodies are opaque handles: the position in the trace of the event that
    created them. */
module P2Backend {
  import opened Wrappers
  import opened JsValues

  type Handle = nat

  datatype ShapeKind = CircleKind | BoxKind | PlaneKind

  datatype ConstraintKind = DistanceKind | PrismaticKind

  /** The material a shape is given: none at all when the description has no
      `materialID`, otherwise whatever the registry holds under it (`None` for an id that
      was never registered, where the source assigns `undefined`). */
  datatype MaterialSlot = DefaultMaterial | Assigned(material: Option<Handle>)

  /** One call into the p2 engine. */
  datatype P2Event =
    | NewMaterial(id: int)
    | AddContactMaterial(materialA: Handle, materialB: Handle, options: Value)
    | NewBody(options: Value)
    | AddShape(body: Handle, shapeKind: ShapeKind, options: Value, material: MaterialSlot, offset: Value, angle: Value)
    | AddBody(body: Handle)
    | AddConstraint(constraintKind: ConstraintKind, bodyA: Handle, bodyB: Handle, options: Value)
    | WorldStep(dt: real)

  /** The p2 engine: the trace of everything asked of it so far. */
  class P2Engine {
    var trace: seq<P2Event>

    constructor ()
      ensures trace == []
    {
      trace := [];
    }

    /** One call into the engine: the trace grows by that call and by nothing else. */
    method Record(e: P2Event)
      modifies this
      ensures trace == old(trace) + [e]
    {
      trace := trace + [e];
    }
  }
}
