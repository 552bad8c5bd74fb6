/**
 * Animation value blending (src/animation/value.rs): track values, their
 * bindings to a node's channels, collections of bound values with their
 * blend / interpolate operations, and the write-back of a collection into a
 * node.
 *
 * Quaternion nlerp is not computed here; every operation that needs it takes
 * it as a parameter, so the model holds for any nlerp the engine uses.
 */
module AnimationValue {
  import opened Wrappers
  import opened Algebra

  // ---------------------------------------------------------------------
  // TrackValue

  /** A sampled track value: a vector or a unit quaternion. */
  datatype TrackValue = Vector3(v: Vec3) | UnitQuaternion(q: Quat)
  {
    /** Both values are of the same variant. */
    predicate SameKind(other: TrackValue)
    {
      (Vector3? && other.Vector3?) || (UnitQuaternion? && other.UnitQuaternion?)
    }

    /** A copy weighted by `weight`: vectors are scaled, rotations copied unchanged. */
    function WeightedClone(weight: real): (r: TrackValue)
      ensures r.SameKind(this)
      ensures Vector3? ==> r.v == Algebra.Scale(v, weight)
      ensures UnitQuaternion? ==> r == this
    {
      match this
      case Vector3(a) => Vector3(Algebra.Scale(a, weight))
      case UnitQuaternion(a) => UnitQuaternion(a)
    }

    /**
     * The value after `self.blend_with(other, weight)`: vectors accumulate
     * `weight * other`, rotations move towards `other` by nlerp, and a pair
     * of different variants leaves `self` as it was.
     */
    function BlendWith(other: TrackValue, weight: real, nlerp: Nlerp): (r: TrackValue)
      ensures r.SameKind(this)
      ensures !SameKind(other) ==> r == this
      ensures Vector3? && other.Vector3? ==> r.v == Add(v, Algebra.Scale(other.v, weight))
      ensures UnitQuaternion? && other.UnitQuaternion? ==> r.q == nlerp(q, other.q, weight)
    {
      match (this, other)
      case (Vector3(a), Vector3(b)) => Vector3(Add(a, Algebra.Scale(b, weight)))
      case (UnitQuaternion(a), UnitQuaternion(b)) => UnitQuaternion(nlerp(a, b, weight))
      case _ => this
    }

    /** Interpolation towards `other` by `t`; `None` exactly when the variants differ. */
    function Interpolate(other: TrackValue, t: real, nlerp: Nlerp): (r: Option<TrackValue>)
      ensures r.None? <==> !SameKind(other)
      ensures r.Some? ==> r.value.SameKind(this)
      ensures r.Some? && Vector3? ==> r.value.v == Lerp(v, other.v, t)
      ensures r.Some? && UnitQuaternion? ==> r.value.q == nlerp(q, other.q, t)
    {
      match (this, other)
      case (Vector3(a), Vector3(b)) => Some(Vector3(Lerp(a, b, t)))
      case (UnitQuaternion(a), UnitQuaternion(b)) => Some(UnitQuaternion(nlerp(a, b, t)))
      case _ => None
    }
  }

  // ---------------------------------------------------------------------
  // ValueBinding and BoundValue

  /** The channel a value targets. Equality is structural. */
  datatype ValueBinding = Position | Scale | Rotation | Property(name: string)

  datatype BoundValue = BoundValue(binding: ValueBinding, value: TrackValue)
  {
    function WeightedClone(weight: real): (r: BoundValue)
      ensures r.binding == binding
      ensures r.value == value.WeightedClone(weight)
    {
      BoundValue(binding, value.WeightedClone(weight))
    }

    /** `blend_with` asserts that both sides target the same channel. */
    function BlendWith(other: BoundValue, weight: real, nlerp: Nlerp): (r: BoundValue)
      requires binding == other.binding
      ensures r.binding == binding
      ensures r.value == value.BlendWith(other.value, weight, nlerp)
    {
      BoundValue(binding, value.BlendWith(other.value, weight, nlerp))
    }

    /** `interpolate` asserts equal bindings and keeps `self`'s binding on success. */
    function Interpolate(other: BoundValue, t: real, nlerp: Nlerp): (r: Option<BoundValue>)
      requires binding == other.binding
      ensures r.None? <==> !value.SameKind(other.value)
      ensures r.Some? ==> r.value.binding == binding
      ensures r.Some? ==> Some(r.value.value) == value.Interpolate(other.value, t, nlerp)
    {
      match value.Interpolate(other.value, t, nlerp)
      case None => None
      case Some(v) => Some(BoundValue(binding, v))
    }
  }

  // ---------------------------------------------------------------------
  // Specification functions on the entries of a collection

  /** The bindings of `vs`, index by index. */
  function Bindings(vs: seq<BoundValue>): (r: seq<ValueBinding>)
    ensures |r| == |vs|
    ensures forall i :: 0 <= i < |vs| ==> r[i] == vs[i].binding
  {
    seq(|vs|, i requires 0 <= i < |vs| => vs[i].binding)
  }

  /** `vs[j]` is the first entry of `vs` with binding `b`. */
  predicate IsFirst(vs: seq<BoundValue>, b: ValueBinding, j: int)
  {
    0 <= j < |vs| && vs[j].binding == b && forall k :: 0 <= k < j ==> vs[k].binding != b
  }

  /**
   * `other.values.iter().find(|v| v.binding == b)`, as the index of the
   * entry found: the first entry with binding `b`.
   */
  function FirstMatch(vs: seq<BoundValue>, b: ValueBinding): (r: Option<nat>)
    ensures r.None? <==> b !in Bindings(vs)
    ensures r.Some? ==> IsFirst(vs, b, r.value)
  {
    if |vs| == 0 then None
    else if vs[0].binding == b then Some(0)
    else
      match FirstMatch(vs[1..], b)
      case None => None
      case Some(j) => Some(j + 1)
  }

  /** `FirstMatch` returns the first entry with the binding, and no other index. */
  lemma FirstMatchFindsFirst(vs: seq<BoundValue>)
    ensures forall b, j :: IsFirst(vs, b, j) ==> FirstMatch(vs, b) == Some(j)
  {
    forall b, j | IsFirst(vs, b, j) ensures FirstMatch(vs, b) == Some(j) {
      assert Bindings(vs)[j] == b;
    }
  }

  /** The value part of `weighted_clone` on a collection: every entry weighted, in order. */
  function WeightedCloneAll(vs: seq<BoundValue>, weight: real): (r: seq<BoundValue>)
    ensures |r| == |vs|
    ensures forall i :: 0 <= i < |vs| ==> r[i] == vs[i].WeightedClone(weight)
  {
    if vs == [] then []
    else [vs[0].WeightedClone(weight)] + WeightedCloneAll(vs[1..], weight)
  }

  /** One entry of `self` after `blend_with`: blended with its first counterpart, if any. */
  function BlendEntry(x: BoundValue, others: seq<BoundValue>, weight: real, nlerp: Nlerp): (r: BoundValue)
    ensures r.binding == x.binding
    ensures x.binding !in Bindings(others) ==> r == x
    ensures forall j :: IsFirst(others, x.binding, j) ==> r == x.BlendWith(others[j], weight, nlerp)
  {
    match FirstMatch(others, x.binding)
    case None => x
    case Some(m) =>
      assert forall j :: IsFirst(others, x.binding, j) ==> j == m;
      x.BlendWith(others[m], weight, nlerp)
  }

  /** `BlendEntry` in terms of the counterpart `find` returns. */
  lemma BlendEntryOfMatch(x: BoundValue, others: seq<BoundValue>, weight: real, nlerp: Nlerp, found: Option<nat>)
    requires found == FirstMatch(others, x.binding)
    ensures found.Some? ==> found.value < |others| && BlendEntry(x, others, weight, nlerp) == x.BlendWith(others[found.value], weight, nlerp)
    ensures found.None? ==> BlendEntry(x, others, weight, nlerp) == x
  {
  }

  /**
   * The loop of `blend_with` after `i` entries: blended before `i`,
   * untouched from `i` on.
   */
  predicate BlendedUpTo(vs: seq<BoundValue>, before: seq<BoundValue>, others: seq<BoundValue>, weight: real, nlerp: Nlerp, i: int)
  {
    && 0 <= i <= |vs| == |before|
    && (forall k :: 0 <= k < i ==> vs[k] == BlendEntry(before[k], others, weight, nlerp))
    && (forall k :: i <= k < |vs| ==> vs[k] == before[k])
  }

  /** Blending entry `i` extends the blended prefix by one. */
  lemma BlendedPrefixStep(vs: seq<BoundValue>, vs': seq<BoundValue>, before: seq<BoundValue>, others: seq<BoundValue>, weight: real, nlerp: Nlerp, i: int)
    requires BlendedUpTo(vs, before, others, weight, nlerp, i) && i < |vs|
    requires vs' == vs[i := BlendEntry(before[i], others, weight, nlerp)]
    ensures BlendedUpTo(vs', before, others, weight, nlerp, i + 1)
  {
  }

  /** The entries of `self` after `self.blend_with(other, weight)`. */
  function BlendAll(vs: seq<BoundValue>, others: seq<BoundValue>, weight: real, nlerp: Nlerp): (r: seq<BoundValue>)
    ensures |r| == |vs|
    ensures forall i :: 0 <= i < |vs| ==> r[i] == BlendEntry(vs[i], others, weight, nlerp)
  {
    if vs == [] then []
    else [BlendEntry(vs[0], others, weight, nlerp)] + BlendAll(vs[1..], others, weight, nlerp)
  }

  /**
   * The entries whose counterpart has a different variant make `interpolate`
   * panic (it unwraps a `None`); this predicate says there are none.
   */
  predicate CanInterpolate(vs: seq<BoundValue>, others: seq<BoundValue>)
  {

    forall i :: 0 <= i < |vs| ==>
      match FirstMatch(others, vs[i].binding)
      case None => true
      case Some(j) => vs[i].value.SameKind(others[j].value)
  }

  /** The indices of the entries of `vs` that have a counterpart in `others`, in order. */
  function MatchedIndices(vs: seq<BoundValue>, others: seq<BoundValue>): (idx: seq<nat>)
    ensures forall k :: 0 <= k < |idx| ==> idx[k] < |vs|
    ensures forall k, l :: 0 <= k < l < |idx| ==> idx[k] < idx[l]
    ensures forall i :: 0 <= i < |vs| ==> (i in idx <==> vs[i].binding in Bindings(others))
  {
    if vs == [] then []
    else
      var init := MatchedIndices(vs[..|vs| - 1], others);
      if vs[|vs| - 1].binding in Bindings(others) then init + [|vs| - 1] else init
  }

  /**
   * The entries of `self.interpolate(other, t)`: for each entry of `self`, in
   * order, that has a counterpart in `other`, its interpolation with the
   * first counterpart.  Defined on prefixes, as the source's loop builds it.
   */
  function InterpolateAll(vs: seq<BoundValue>, others: seq<BoundValue>, t: real, nlerp: Nlerp): (r: seq<BoundValue>)
    requires CanInterpolate(vs, others)
    ensures |r| <= |vs|
    ensures forall k :: 0 <= k < |r| ==> r[k].binding in Bindings(others)
  {
    if vs == [] then []
    else
      var n := |vs| - 1;
      assert CanInterpolate(vs[..n], others) by {
        forall i | 0 <= i < n ensures vs[..n][i] == vs[i] { }
      }
      var init := InterpolateAll(vs[..n], others, t, nlerp);
      match FirstMatch(others, vs[n].binding)
      case None => init
      case Some(j) => init + [vs[n].Interpolate(others[j], t, nlerp).value]
  }

  // ---------------------------------------------------------------------
  // The node a collection is applied to

  /**
   * A reflected property of a node, as `resolve_path_mut` finds it: a vector
   * or rotation field a track value can be written into, or a field of any
   * other type, named by its type.
   */
  datatype Slot = Vector3Slot(v: Vec3) | UnitQuaternionSlot(q: Quat) | OtherSlot(typeName: string)

  /**
   * `property.set(value.boxed_value())`: the new slot when the property has
   * the value's type, `None` on a type mismatch.
   */
  function SetSlot(slot: Slot, value: TrackValue): (r: Option<Slot>)
    ensures r.Some? <==> (slot.Vector3Slot? && value.Vector3?) || (slot.UnitQuaternionSlot? && value.UnitQuaternion?)
    ensures r.Some? ==> r.value == SlotOf(value)
  {
    match (slot, value)
    case (Vector3Slot(_), Vector3(v)) => Some(Vector3Slot(v))
    case (UnitQuaternionSlot(_), UnitQuaternion(q)) => Some(UnitQuaternionSlot(q))
    case _ => None
  }

  /** The slot a track value is stored as once written. */
  function SlotOf(value: TrackValue): Slot
  {
    match value
    case Vector3(v) => Vector3Slot(v)
    case UnitQuaternion(q) => UnitQuaternionSlot(q)
  }

  /** The part of a node that `apply` can change, as a value. */
  datatype NodeState = NodeState(position: Vec3, scale: Vec3, rotation: Quat, props: map<string, Slot>)

  /** A scene node: its local transform and its reflected properties, by path. */
  class Node {
    var position: Vec3
    var scale: Vec3
    var rotation: Quat
    var props: map<string, Slot>

    constructor (position: Vec3, scale: Vec3, rotation: Quat, props: map<string, Slot>)
      ensures State() == NodeState(position, scale, rotation, props)
    {
      this.position := position;
      this.scale := scale;
      this.rotation := rotation;
      this.props := props;
    }

    function State(): NodeState
      reads this
    {
      NodeState(position, scale, rotation, props)
    }
  }

  /** The state after writing one bound value, following the four arms of `apply`. */
  function ApplyEntry(s: NodeState, bv: BoundValue): (r: NodeState)
    ensures r.props.Keys == s.props.Keys
    ensures bv.binding != Position ==> r.position == s.position
    ensures bv.binding != Scale ==> r.scale == s.scale
    ensures bv.binding != Rotation ==> r.rotation == s.rotation
    ensures forall name :: name in s.props && bv.binding != Property(name) ==> r.props[name] == s.props[name]
  {
    match bv.binding
    case Position =>
      if bv.value.Vector3? then s.(position := bv.value.v) else s
    case Scale =>
      if bv.value.Vector3? then s.(scale := bv.value.v) else s
    case Rotation =>
      if bv.value.UnitQuaternion? then s.(rotation := bv.value.q) else s
    case Property(name) =>
      if name !in s.props then s  // the path does not resolve
      else
        match SetSlot(s.props[name], bv.value)
        case None => s  // the property's type differs from the value's
        case Some(slot) => s.(props := s.props[name := slot])
  }

  /** The state after `apply`: the entries written in order. */
  function ApplyAll(s: NodeState, vs: seq<BoundValue>): (r: NodeState)
    ensures r.props.Keys == s.props.Keys
    ensures (forall j :: 0 <= j < |vs| ==> vs[j].binding != Position) ==> r.position == s.position
    ensures (forall j :: 0 <= j < |vs| ==> vs[j].binding != Scale) ==> r.scale == s.scale
    ensures (forall j :: 0 <= j < |vs| ==> vs[j].binding != Rotation) ==> r.rotation == s.rotation
  {
    if vs == [] then s
    else
      var n := |vs| - 1;
      assert forall j :: 0 <= j < n ==> vs[..n][j] == vs[j];
      ApplyEntry(ApplyAll(s, vs[..n]), vs[n])
  }

  /** `apply` on one more entry writes that entry last. */
  lemma ApplyAllStep(s: NodeState, vs: seq<BoundValue>, i: nat)
    requires i < |vs|
    ensures ApplyAll(s, vs[..i + 1]) == ApplyEntry(ApplyAll(s, vs[..i]), vs[i])
  {
    assert vs[..i + 1][..i] == vs[..i];
  }

  // ---------------------------------------------------------------------
  // BoundValueCollection

  /** One layer's output for one node: an ordered list of bound values. */
  class BoundValueCollection {
    var values: seq<BoundValue>

    constructor (values: seq<BoundValue>)
      ensures this.values == values
    {
      this.values := values;
    }

    /** A new collection with every entry weighted. */
    method WeightedClone(weight: real) returns (r: BoundValueCollection)
      ensures fresh(r)
      ensures r.values == WeightedCloneAll(values, weight)
    {
      r := new BoundValueCollection(WeightedCloneAll(values, weight));
    }

    /**
     * Blends, in place, every entry that has a counterpart in `other` with
     * the first such counterpart; other entries are left alone.
     */
    method BlendWith(other: BoundValueCollection, weight: real, nlerp: Nlerp)
      modifies this
      ensures values == BlendAll(old(values), old(other.values), weight, nlerp)
    {
      ghost var before := values;
      var others := other.values;
      var i := 0;
      while i < |values|
        invariant BlendedUpTo(values, before, others, weight, nlerp, i)
      {
        var value := values[i];
        var found := FirstMatch(others, value.binding);
        BlendEntryOfMatch(value, others, weight, nlerp, found);
        ghost var start := values;
        if found.Some? {
          values := values[i := value.BlendWith(others[found.value], weight, nlerp)];
        }
        BlendedPrefixStep(start, values, before, others, weight, nlerp, i);
        i := i + 1;
      }
    }

    /**
     * A new collection of the entries present on both sides, interpolated.
     * The source unwraps the interpolation, so mismatched variants are a
     * precondition.
     */
    method Interpolate(other: BoundValueCollection, t: real, nlerp: Nlerp) returns (r: BoundValueCollection)
      requires CanInterpolate(values, other.values)
      ensures fresh(r)
      ensures r.values == InterpolateAll(values, other.values, t, nlerp)
    {
      var newValues: seq<BoundValue> := [];
      var i := 0;
      while i < |values|
        invariant 0 <= i <= |values|
        invariant CanInterpolate(values[..i], other.values)
        invariant newValues == InterpolateAll(values[..i], other.values, t, nlerp)
      {
        var value := values[i];
        assert values[..i + 1][..i] == values[..i];
        assert values[..i + 1][i] == value;
        var found := FirstMatch(other.values, value.binding);
        if found.Some? {
          var interpolated := value.Interpolate(other.values[found.value], t, nlerp);
          newValues := newValues + [interpolated.value];
        }
        i := i + 1;
      }
      assert values[..i] == values;
      r := new BoundValueCollection(newValues);
    }

    /**
     * Writes every entry into `node`, in order.  A value of the wrong kind
     * for its channel, a property path that does not resolve and a property
     * of another type are skipped (the source logs them) and the remaining
     * entries are still written.
     */
    method Apply(node: Node)
      modifies node
      ensures node.State() == ApplyAll(old(node.State()), values)
    {
      ghost var start := node.State();
      var i := 0;
      while i < |values|
        invariant 0 <= i <= |values|
        invariant node.State() == ApplyAll(start, values[..i])
      {
        var bv := values[i];
        ghost var pre := node.State();
        match bv.binding {
          case Position =>
            if bv.value.Vector3? {
              node.position := bv.value.v;
            }
          case Scale =>
            if bv.value.Vector3? {
              node.scale := bv.value.v;
            }
          case Rotation =>
            if bv.value.UnitQuaternion? {
              node.rotation := bv.value.q;
            }
          case Property(name) =>
            if name in node.props {
              var written := SetSlot(node.props[name], bv.value);
              if written.Some? {
                node.props := node.props[name := written.value];
              }
            }
        }
        assert node.State() == ApplyEntry(pre, bv);
        ApplyAllStep(start, values, i);
        i := i + 1;
      }
      assert values[..i] == values;
    }
  }
}
