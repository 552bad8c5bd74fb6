/**
 * The editor gizmo for 2-D triangle colliders
 * (editor/src/plugins/collider/triangle2d.rs): three handle nodes stand for
 * the triangle's vertices `a`, `b` and `c`, and the gizmo dispatches reads
 * and writes of a handle to its vertex.
 */
module TriangleGizmo {
  import opened Wrappers
  import opened Algebra

  /** A scene node handle: a pool index and its generation. */
  datatype NodeHandle = NodeHandle(index: nat, generation: nat)

  datatype TriangleShape = TriangleShape(a: Vec2, b: Vec2, c: Vec2)

  /** A 2-D collider shape; `OtherShape` stands for every non-triangle variant. */
  datatype ColliderShape = Triangle(triangle: TriangleShape) | OtherShape

  /** The value a gizmo handle edits. */
  datatype ShapeHandleValue = Scalar(s: real) | Vector(v: Vec3)

  /**
   * The 2-D collider shapes of a scene, by collider node: the lookup
   * `try_get_collider_shape_2d` performs.  A node that is not a 2-D
   * collider is absent.
   */
  type Colliders = map<NodeHandle, ColliderShape>

  class Scene {
    var colliders: Colliders

    constructor (colliders: Colliders)
      ensures this.colliders == colliders
    {
      this.colliders := colliders;
    }
  }

  /** The triangle of `collider`, when it is a triangle collider. */
  function TriangleOf(colliders: Colliders, collider: NodeHandle): (r: Option<TriangleShape>)
    ensures r.Some? <==> collider in colliders && colliders[collider].Triangle?
    ensures r.Some? ==> colliders[collider] == Triangle(r.value)
  {
    if collider in colliders && colliders[collider].Triangle? then Some(colliders[collider].triangle) else None
  }

  /** The vertices of a triangle, in the order `a`, `b`, `c`. */
  function Vertices(t: TriangleShape): seq<Vec2>
  {
    [t.a, t.b, t.c]
  }

  /** The triangle with vertex `i` (0 for `a`, 1 for `b`, 2 for `c`) replaced by `p`. */
  function WithVertex(t: TriangleShape, i: nat, p: Vec2): (r: TriangleShape)
    requires i < 3
    ensures Vertices(r) == Vertices(t)[i := p]
  {
    if i == 0 then t.(a := p) else if i == 1 then t.(b := p) else t.(c := p)
  }

  datatype Triangle2DShapeGizmo = Triangle2DShapeGizmo(aHandle: NodeHandle, bHandle: NodeHandle, cHandle: NodeHandle)
  {
    /** The handles, in the order `a`, `b`, `c`. */
    function Handles(): seq<NodeHandle>
    {
      [aHandle, bHandle, cHandle]
    }

    /** `Handles()[i]` is the first of the three handles equal to `handle`. */
    predicate IsFirstHandle(handle: NodeHandle, i: int)
    {
      0 <= i < 3 && Handles()[i] == handle && forall j :: 0 <= j < i ==> Handles()[j] != handle
    }

    /**
     * Calls `func` on each handle in turn.  The callback's effect is modelled
     * as a state it updates: the result is the state after the three calls.
     */
    method ForEachHandle<S>(func: (S, NodeHandle) -> S, init: S) returns (s: S)
      ensures s == func(func(func(init, aHandle), bHandle), cHandle)
    {
      var handles := [aHandle, bHandle, cHandle];
      s := init;
      var i := 0;
      while i < |handles|
        invariant 0 <= i <= 3
        invariant i == 0 ==> s == init
        invariant i == 1 ==> s == func(init, aHandle)
        invariant i == 2 ==> s == func(func(init, aHandle), bHandle)
        invariant i == 3 ==> s == func(func(func(init, aHandle), bHandle), cHandle)
      {
        s := func(s, handles[i]);
        i := i + 1;
      }
    }

    /** Whether `handle` is one of the gizmo's three handles. */
    function IsVectorHandle(handle: NodeHandle): (r: bool)
      ensures r <==> handle in Handles()
    {
      handle == aHandle || handle == bHandle || handle == cHandle
    }

    /**
     * The position of `handle`'s vertex, in homogeneous form: `None` when
     * `collider` is not a triangle collider or `handle` is not a handle of
     * this gizmo; otherwise the vertex of the first equal handle.
     */
    function HandleLocalPosition(handle: NodeHandle, collider: NodeHandle, colliders: Colliders): (r: Option<Vec3>)
      ensures r.None? <==> TriangleOf(colliders, collider).None? || handle !in Handles()
      ensures forall i :: IsFirstHandle(handle, i) && TriangleOf(colliders, collider).Some? ==>
                r == Some(Homogeneous(Vertices(TriangleOf(colliders, collider).value)[i]))
    {
      match TriangleOf(colliders, collider)
      case None => None
      case Some(triangle) =>
        assert Handles()[0] == aHandle && Handles()[1] == bHandle;
        if handle == aHandle then Some(Homogeneous(triangle.a))
        else if handle == bHandle then Some(Homogeneous(triangle.b))
        else if handle == cHandle then Some(Homogeneous(triangle.c))
        else None
    }

    /** The value `handle` edits, with the same cases as `HandleLocalPosition`. */
    function ValueByHandle(handle: NodeHandle, collider: NodeHandle, colliders: Colliders): (r: Option<ShapeHandleValue>)
      ensures r.None? <==> TriangleOf(colliders, collider).None? || handle !in Handles()
      ensures forall i :: IsFirstHandle(handle, i) && TriangleOf(colliders, collider).Some? ==>
                r == Some(Vector(Homogeneous(Vertices(TriangleOf(colliders, collider).value)[i])))
    {
      match TriangleOf(colliders, collider)
      case None => None
      case Some(triangle) =>
        assert Handles()[0] == aHandle && Handles()[1] == bHandle;
        if handle == aHandle then Some(Vector(Homogeneous(triangle.a)))
        else if handle == bHandle then Some(Vector(Homogeneous(triangle.b)))
        else if handle == cHandle then Some(Vector(Homogeneous(triangle.c)))
        else None
    }

    /**
     * The colliders after `set_value_by_handle`: unchanged when `collider`
     * is not a triangle collider or `handle` is unknown; otherwise the
     * vertex of the first equal handle takes the `xy` part of `value`.
     * Writing a scalar to a vertex is outside the source's use
     * (`into_vector` expects a vector).
     */
    function SetValue(handle: NodeHandle, value: ShapeHandleValue, collider: NodeHandle, colliders: Colliders): (r: Colliders)
      requires TriangleOf(colliders, collider).Some? && handle in Handles() ==> value.Vector?
      ensures r.Keys == colliders.Keys
      ensures forall h :: h in colliders && h != collider ==> r[h] == colliders[h]
      ensures TriangleOf(colliders, collider).None? || handle !in Handles() ==> r == colliders
      ensures forall i :: IsFirstHandle(handle, i) && TriangleOf(colliders, collider).Some? ==>
                r == colliders[collider := Triangle(WithVertex(TriangleOf(colliders, collider).value, i, Xy(value.v)))]
    {
      match TriangleOf(colliders, collider)
      case None => colliders
      case Some(triangle) =>
        assert Handles()[0] == aHandle && Handles()[1] == bHandle;
        if handle == aHandle then colliders[collider := Triangle(triangle.(a := Xy(value.v)))]
        else if handle == bHandle then colliders[collider := Triangle(triangle.(b := Xy(value.v)))]
        else if handle == cHandle then colliders[collider := Triangle(triangle.(c := Xy(value.v)))]
        else colliders
    }

    /** Writes the vertex of `handle` in place, as `SetValue` describes. */
    method SetValueByHandle(handle: NodeHandle, value: ShapeHandleValue, collider: NodeHandle, scene: Scene)
      requires TriangleOf(scene.colliders, collider).Some? && handle in Handles() ==> value.Vector?
      modifies scene
      ensures scene.colliders == SetValue(handle, value, collider, old(scene.colliders))
    {
      var shape := TriangleOf(scene.colliders, collider);
      if shape.None? {
        return;
      }
      var triangle := shape.value;
      if handle == aHandle {
        triangle := triangle.(a := Xy(value.v));
      } else if handle == bHandle {
        triangle := triangle.(b := Xy(value.v));
      } else if handle == cHandle {
        triangle := triangle.(c := Xy(value.v));
      } else {
        return;
      }
      scene.colliders := scene.colliders[collider := Triangle(triangle)];
    }
  }

  /** On a triangle collider, exactly the gizmo's vector handles have a value. */
  lemma ValueExactlyForVectorHandles(g: Triangle2DShapeGizmo, handle: NodeHandle, collider: NodeHandle, colliders: Colliders)
    requires TriangleOf(colliders, collider).Some?
    ensures g.ValueByHandle(handle, collider, colliders).Some? <==> g.IsVectorHandle(handle)
  {
  }

  /** Every known handle has a first position among the three. */
  lemma {:induction false} FirstHandleExists(g: Triangle2DShapeGizmo, handle: NodeHandle)
    requires g.IsVectorHandle(handle)
    ensures exists i :: g.IsFirstHandle(handle, i)
  {
    if handle == g.aHandle {
      assert g.IsFirstHandle(handle, 0);
    } else if handle == g.bHandle {
      assert g.IsFirstHandle(handle, 1);
    } else {
      assert g.IsFirstHandle(handle, 2);
    }
  }

  /**
   * Reading a handle right after writing it gives back the written vector's
   * `xy` part, in homogeneous form.
   */
  lemma ReadAfterWrite(g: Triangle2DShapeGizmo, handle: NodeHandle, v: Vec3, collider: NodeHandle, colliders: Colliders)
    requires TriangleOf(colliders, collider).Some? && g.IsVectorHandle(handle)
    ensures g.ValueByHandle(handle, collider, g.SetValue(handle, Vector(v), collider, colliders))
         == Some(Vector(Homogeneous(Xy(v))))
  {
    FirstHandleExists(g, handle);
    var i :| g.IsFirstHandle(handle, i);
    var after := g.SetValue(handle, Vector(v), collider, colliders);
    assert TriangleOf(after, collider) == Some(WithVertex(TriangleOf(colliders, collider).value, i, Xy(v)));
  }

  /**
   * A write through one handle leaves the two other vertices alone: only the
   * first vertex whose handle matches changes.
   */
  lemma WriteChangesOneVertex(g: Triangle2DShapeGizmo, handle: NodeHandle, v: Vec3, collider: NodeHandle, colliders: Colliders, i: nat)
    requires TriangleOf(colliders, collider).Some? && g.IsFirstHandle(handle, i)
    ensures var after := TriangleOf(g.SetValue(handle, Vector(v), collider, colliders), collider);
      && after.Some?
      && Vertices(after.value)[i] == Xy(v)
      && forall j :: 0 <= j < 3 && j != i ==> Vertices(after.value)[j] == Vertices(TriangleOf(colliders, collider).value)[j]
  {
  }
}
