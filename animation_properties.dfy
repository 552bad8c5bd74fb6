/**
 * Properties of the blending operations of src/animation/value.rs, stated
 * on the specification functions that the collection's methods are proved
 * against.
 */
module AnimationProperties {
  import opened Wrappers
  import opened Algebra
  import opened AnimationValue

  // ---------------------------------------------------------------------
  // Track values

  /** Weight one is the identity on vectors; weight zero gives the zero vector. */
  lemma WeightedCloneVectorWeights(a: Vec3)
    ensures Vector3(a).WeightedClone(1.0) == Vector3(a)
    ensures Vector3(a).WeightedClone(0.0) == Vector3(Zero)
  {
  }

  /** Vector interpolation starts at `self` and ends at `other`. */
  lemma InterpolateVectorEndpoints(a: Vec3, b: Vec3, nlerp: Nlerp)
    ensures Vector3(a).Interpolate(Vector3(b), 0.0, nlerp) == Some(Vector3(a))
    ensures Vector3(a).Interpolate(Vector3(b), 1.0, nlerp) == Some(Vector3(b))
  {
  }

  /** Blending a vector with weight zero leaves it as it was. */
  lemma BlendVectorWeightZero(a: TrackValue, b: TrackValue, nlerp: Nlerp)
    requires a.Vector3?
    ensures a.BlendWith(b, 0.0, nlerp) == a
  {
  }

  /** A layer `(1, 0, 0)` blended with `(0, 1, 0)` at weight 0.5 gives `(1, 0.5, 0)`. */
  lemma BlendPositionExample(nlerp: Nlerp)
    ensures BlendAll([BoundValue(Position, Vector3(Vec3(1.0, 0.0, 0.0)))],
                     [BoundValue(Position, Vector3(Vec3(0.0, 1.0, 0.0)))], 0.5, nlerp)
         == [BoundValue(Position, Vector3(Vec3(1.0, 0.5, 0.0)))]
  {
    var x := BoundValue(Position, Vector3(Vec3(1.0, 0.0, 0.0)));
    var y := BoundValue(Position, Vector3(Vec3(0.0, 1.0, 0.0)));
    assert IsFirst([y], Position, 0);
  }

  // ---------------------------------------------------------------------
  // Unit quaternions stay unit quaternions

  /** Every rotation among `vs` has unit length. */
  predicate UnitRotations(vs: seq<BoundValue>)
  {
    forall i :: 0 <= i < |vs| && vs[i].value.UnitQuaternion? ==> IsUnit(vs[i].value.q)
  }

  lemma WeightedCloneKeepsUnit(vs: seq<BoundValue>, weight: real)
    requires UnitRotations(vs)
    ensures UnitRotations(WeightedCloneAll(vs, weight))
  {
  }

  /** With an nlerp that keeps unit length, blending two layers of unit rotations keeps them unit. */
  lemma BlendKeepsUnit(vs: seq<BoundValue>, others: seq<BoundValue>, weight: real, nlerp: Nlerp)
    requires KeepsUnit(nlerp)
    requires UnitRotations(vs) && UnitRotations(others)
    ensures UnitRotations(BlendAll(vs, others, weight, nlerp))
  {
    var r := BlendAll(vs, others, weight, nlerp);
    forall i | 0 <= i < |r| && r[i].value.UnitQuaternion?
      ensures IsUnit(r[i].value.q)
    {
      var m := FirstMatch(others, vs[i].binding);
      if m.Some? {
        assert IsFirst(others, vs[i].binding, m.value);
      }
    }
  }

  /** With an nlerp that keeps unit length, interpolation of unit rotations gives unit rotations. */
  lemma {:induction false} InterpolateKeepsUnit(vs: seq<BoundValue>, others: seq<BoundValue>, t: real, nlerp: Nlerp)
    requires KeepsUnit(nlerp)
    requires UnitRotations(vs) && UnitRotations(others)
    requires CanInterpolate(vs, others)
    ensures UnitRotations(InterpolateAll(vs, others, t, nlerp))
  {
    if vs != [] {
      var n := |vs| - 1;
      assert CanInterpolate(vs[..n], others) by {
        forall i | 0 <= i < n ensures vs[..n][i] == vs[i] { }
      }
      assert UnitRotations(vs[..n]) by {
        forall i | 0 <= i < n ensures vs[..n][i] == vs[i] { }
      }
      InterpolateKeepsUnit(vs[..n], others, t, nlerp);
    }
  }

  // ---------------------------------------------------------------------
  // Collections: which entries survive, in what order

  /** `weighted_clone` keeps every binding, index by index. */
  lemma WeightedCloneKeepsBindings(vs: seq<BoundValue>, weight: real)
    ensures Bindings(WeightedCloneAll(vs, weight)) == Bindings(vs)
  {
  }

  /** `blend_with` keeps every binding, index by index. */
  lemma BlendKeepsBindings(vs: seq<BoundValue>, others: seq<BoundValue>, weight: real, nlerp: Nlerp)
    ensures Bindings(BlendAll(vs, others, weight, nlerp)) == Bindings(vs)
  {
  }

  /** `blend_with` with a layer that shares no binding with `self` changes nothing. */
  lemma BlendWithoutCounterpart(vs: seq<BoundValue>, others: seq<BoundValue>, weight: real, nlerp: Nlerp)
    requires forall i :: 0 <= i < |vs| ==> vs[i].binding !in Bindings(others)
    ensures BlendAll(vs, others, weight, nlerp) == vs
  {
  }

  /** `e` keeps `x`'s binding and is its interpolation with its first counterpart in `others`. */
  predicate InterpolatedFrom(e: BoundValue, x: BoundValue, others: seq<BoundValue>, t: real, nlerp: Nlerp)
  {
    && e.binding == x.binding
    && forall j :: 0 <= j < |others| && IsFirst(others, x.binding, j) ==> Some(e) == x.Interpolate(others[j], t, nlerp)
  }

  /**
   * `interpolate` keeps exactly the entries of `self` that have a
   * counterpart in `other`, in `self`'s order, each interpolated with the
   * first counterpart and keeping `self`'s binding.
   */
  lemma {:induction false} InterpolateEntries(vs: seq<BoundValue>, others: seq<BoundValue>, t: real, nlerp: Nlerp)
    requires CanInterpolate(vs, others)
    ensures var r, idx := InterpolateAll(vs, others, t, nlerp), MatchedIndices(vs, others);
      && |r| == |idx|
      && forall k :: 0 <= k < |r| ==> InterpolatedFrom(r[k], vs[idx[k]], others, t, nlerp)
  {
    if vs != [] {
      var n := |vs| - 1;
      var p := vs[..n];
      assert CanInterpolate(p, others) by {
        forall i | 0 <= i < n ensures p[i] == vs[i] { }
      }
      InterpolateEntries(p, others, t, nlerp);
      var r, idx := InterpolateAll(vs, others, t, nlerp), MatchedIndices(vs, others);
      var r', idx' := InterpolateAll(p, others, t, nlerp), MatchedIndices(p, others);
      var m := FirstMatch(others, vs[n].binding);
      if m.Some? {
        var e := vs[n].Interpolate(others[m.value], t, nlerp).value;
        assert r == r' + [e];
        assert idx == idx' + [n];
        assert InterpolatedFrom(e, vs[n], others, t, nlerp) by {
          assert forall j :: IsFirst(others, vs[n].binding, j) ==> j == m.value;
        }
        EntriesExtend(vs, r', idx', others, t, nlerp, e);
      } else {
        assert r == r' && idx == idx';
        EntriesOfPrefix(vs, r', idx', others, t, nlerp);
      }
    }
  }

  /** Entries interpolated from `vs[..|vs| - 1]` are interpolated from `vs`. */
  lemma EntriesOfPrefix(vs: seq<BoundValue>, r: seq<BoundValue>, idx: seq<nat>, others: seq<BoundValue>, t: real, nlerp: Nlerp)
    requires |vs| > 0 && |r| == |idx|
    requires forall k :: 0 <= k < |idx| ==> idx[k] < |vs| - 1
    requires forall k :: 0 <= k < |r| ==> InterpolatedFrom(r[k], vs[..|vs| - 1][idx[k]], others, t, nlerp)
    ensures forall k :: 0 <= k < |r| ==> InterpolatedFrom(r[k], vs[idx[k]], others, t, nlerp)
  {
    forall k | 0 <= k < |r| ensures InterpolatedFrom(r[k], vs[idx[k]], others, t, nlerp) {
      assert vs[..|vs| - 1][idx[k]] == vs[idx[k]];
    }
  }

  /** The prefix's entries, followed by the last entry's interpolation `e`. */
  lemma EntriesExtend(vs: seq<BoundValue>, r: seq<BoundValue>, idx: seq<nat>, others: seq<BoundValue>, t: real, nlerp: Nlerp, e: BoundValue)
    requires |vs| > 0 && |r| == |idx|
    requires forall k :: 0 <= k < |idx| ==> idx[k] < |vs| - 1
    requires forall k :: 0 <= k < |r| ==> InterpolatedFrom(r[k], vs[..|vs| - 1][idx[k]], others, t, nlerp)
    requires InterpolatedFrom(e, vs[|vs| - 1], others, t, nlerp)
    ensures var r', idx' := r + [e], idx + [|vs| - 1];
      forall k :: 0 <= k < |r'| ==> InterpolatedFrom(r'[k], vs[idx'[k]], others, t, nlerp)
  {
    EntriesOfPrefix(vs, r, idx, others, t, nlerp);
    var r', idx' := r + [e], idx + [|vs| - 1];
    forall k | 0 <= k < |r'| ensures InterpolatedFrom(r'[k], vs[idx'[k]], others, t, nlerp) {
      if k < |r| {
        assert r'[k] == r[k] && idx'[k] == idx[k];
      }
    }
  }

  /**
   * `CanInterpolate` is exactly the condition under which none of the
   * `unwrap`s in `interpolate` meets a `None`: every entry of `self` that has
   * a first counterpart in `other` interpolates with it successfully.
   */
  lemma CanInterpolateExactlyNoPanic(vs: seq<BoundValue>, others: seq<BoundValue>, t: real, nlerp: Nlerp)
    ensures CanInterpolate(vs, others) <==>
            forall i, j :: 0 <= i < |vs| && IsFirst(others, vs[i].binding, j) ==> vs[i].Interpolate(others[j], t, nlerp).Some?
  {
    FirstMatchFindsFirst(others);
    forall i | 0 <= i < |vs| && FirstMatch(others, vs[i].binding).Some?
      ensures IsFirst(others, vs[i].binding, FirstMatch(others, vs[i].binding).value)
    {
    }
  }

  /** A binding present on both sides survives `interpolate`. */
  lemma InterpolateKeepsShared(vs: seq<BoundValue>, others: seq<BoundValue>, t: real, nlerp: Nlerp, b: ValueBinding)
    requires CanInterpolate(vs, others)
    requires b in Bindings(vs) && b in Bindings(others)
    ensures b in Bindings(InterpolateAll(vs, others, t, nlerp))
  {
    InterpolateEntries(vs, others, t, nlerp);
    var r, idx := InterpolateAll(vs, others, t, nlerp), MatchedIndices(vs, others);
    var i :| 0 <= i < |vs| && Bindings(vs)[i] == b;
    assert i in idx;
    var k :| 0 <= k < |idx| && idx[k] == i;
    assert InterpolatedFrom(r[k], vs[idx[k]], others, t, nlerp);
    assert Bindings(r)[k] == b;
  }

  /** A binding in `interpolate`'s result is present on both sides. */
  lemma InterpolateOnlyShared(vs: seq<BoundValue>, others: seq<BoundValue>, t: real, nlerp: Nlerp)
    requires CanInterpolate(vs, others)
    ensures forall b :: b in Bindings(InterpolateAll(vs, others, t, nlerp)) ==> b in Bindings(vs) && b in Bindings(others)
  {
    InterpolateEntries(vs, others, t, nlerp);
    var r, idx := InterpolateAll(vs, others, t, nlerp), MatchedIndices(vs, others);
    forall b | b in Bindings(r) ensures b in Bindings(vs) && b in Bindings(others) {
      var k :| 0 <= k < |r| && Bindings(r)[k] == b;
      assert InterpolatedFrom(r[k], vs[idx[k]], others, t, nlerp);
      assert Bindings(vs)[idx[k]] == b;
    }
  }

  /**
   * The bindings of `interpolate`'s result are exactly those present on both
   * sides, whatever either side holds besides.
   */
  lemma InterpolateBindingsAreShared(vs: seq<BoundValue>, others: seq<BoundValue>, t: real, nlerp: Nlerp)
    requires CanInterpolate(vs, others)
    ensures forall b :: b in Bindings(InterpolateAll(vs, others, t, nlerp)) <==>
                        b in Bindings(vs) && b in Bindings(others)
  {
    InterpolateOnlyShared(vs, others, t, nlerp);
    forall b | b in Bindings(vs) && b in Bindings(others) ensures b in Bindings(InterpolateAll(vs, others, t, nlerp)) {
      InterpolateKeepsShared(vs, others, t, nlerp, b);
    }
  }

  // ---------------------------------------------------------------------
  // apply

  /** What a node holds for one channel; `None` for a property path that does not resolve. */
  function ChannelValue(s: NodeState, b: ValueBinding): Option<Slot>
  {
    match b
    case Position => Some(Vector3Slot(s.position))
    case Scale => Some(Vector3Slot(s.scale))
    case Rotation => Some(UnitQuaternionSlot(s.rotation))
    case Property(name) => if name in s.props then Some(s.props[name]) else None
  }

  /** Writing `bv` into `s` takes effect: the channel exists and has the value's kind. */
  predicate Accepts(s: NodeState, bv: BoundValue)
  {
    match ChannelValue(s, bv.binding)
    case None => false
    case Some(slot) => SetSlot(slot, bv.value).Some?
  }

  predicate SameSlotKind(a: Slot, b: Slot)
  {
    (a.Vector3Slot? && b.Vector3Slot?) || (a.UnitQuaternionSlot? && b.UnitQuaternionSlot?) || (a.OtherSlot? && b.OtherSlot?)
  }

  /** Two states with the same property paths, each of the same kind. */
  predicate SameShape(s: NodeState, t: NodeState)
  {
    && s.props.Keys == t.props.Keys
    && forall n :: n in s.props && n in t.props ==> SameSlotKind(s.props[n], t.props[n])
  }

  /** The channels of a state determine it: nothing else is stored. */
  lemma ChannelsDetermineState(s: NodeState, t: NodeState)
    requires forall b :: ChannelValue(s, b) == ChannelValue(t, b)
    ensures s == t
  {
    assert ChannelValue(s, Position) == ChannelValue(t, Position);
    assert ChannelValue(s, Scale) == ChannelValue(t, Scale);
    assert ChannelValue(s, Rotation) == ChannelValue(t, Rotation);
    forall n ensures (n in s.props <==> n in t.props) && (n in s.props ==> s.props[n] == t.props[n]) {
      assert ChannelValue(s, Property(n)) == ChannelValue(t, Property(n));
    }
    assert s.props == t.props;
  }

  /** Acceptance depends only on the shape of the state. */
  lemma AcceptsDependsOnShape(s: NodeState, t: NodeState, bv: BoundValue)
    requires SameShape(s, t)
    ensures Accepts(s, bv) <==> Accepts(t, bv)
  {
  }

  /**
   * One entry writes its own channel when accepted and changes no other
   * channel; the shape of the state is kept.
   */
  lemma ApplyEntryChannel(s: NodeState, bv: BoundValue, b: ValueBinding)
    ensures ChannelValue(ApplyEntry(s, bv), b) ==
            if bv.binding == b && Accepts(s, bv) then Some(SlotOf(bv.value)) else ChannelValue(s, b)
    ensures SameShape(s, ApplyEntry(s, bv))
  {
  }

  /** `apply` never adds or removes property paths, nor changes their kinds. */
  lemma {:induction false} ApplyKeepsShape(s: NodeState, vs: seq<BoundValue>)
    ensures SameShape(s, ApplyAll(s, vs))
  {
    if vs != [] {
      var n := |vs| - 1;
      ApplyKeepsShape(s, vs[..n]);
      ApplyEntryChannel(ApplyAll(s, vs[..n]), vs[n], Position);
    }
  }

  /**
   * The last accepted entry for a channel wins: after `apply`, the channel
   * holds that entry's value, whatever earlier entries wrote.
   */
  lemma {:induction false} ApplyLastWins(s: NodeState, vs: seq<BoundValue>, b: ValueBinding, k: nat)
    requires k < |vs| && vs[k].binding == b && Accepts(s, vs[k])
    requires forall j :: k < j < |vs| && vs[j].binding == b ==> !Accepts(s, vs[j])
    ensures ChannelValue(ApplyAll(s, vs), b) == Some(SlotOf(vs[k].value))
  {
    var n := |vs| - 1;
    if k < n {
      LastWinsInPrefix(s, vs, vs[..n], b, k);
      ApplyLastWins(s, vs[..n], b, k);
    }
    LastEntryKeepsWinner(s, vs, b, k);
  }

  /** The winning entry of `vs`, when not the last, is also the winner of the prefix. */
  lemma LastWinsInPrefix(s: NodeState, vs: seq<BoundValue>, p: seq<BoundValue>, b: ValueBinding, k: nat)
    requires k < |vs| - 1 && p == vs[..|vs| - 1]
    requires forall j :: k < j < |vs| && vs[j].binding == b ==> !Accepts(s, vs[j])
    ensures p[k] == vs[k]
    ensures forall j :: k < j < |p| && p[j].binding == b ==> !Accepts(s, p[j])
  {
    assert forall j :: k < j < |p| ==> p[j] == vs[j];
  }

  /**
   * After the last entry, channel `b` holds the winner's value: the last
   * entry is the winner, or it does not write `b` and the prefix's result
   * already holds that value.
   */
  lemma LastEntryKeepsWinner(s: NodeState, vs: seq<BoundValue>, b: ValueBinding, k: nat)
    requires k < |vs| && vs[k].binding == b && Accepts(s, vs[k])
    requires forall j :: k < j < |vs| && vs[j].binding == b ==> !Accepts(s, vs[j])
    requires k < |vs| - 1 ==> ChannelValue(ApplyAll(s, vs[..|vs| - 1]), b) == Some(SlotOf(vs[k].value))
    ensures ChannelValue(ApplyAll(s, vs), b) == Some(SlotOf(vs[k].value))
  {
    var n := |vs| - 1;
    var p := vs[..n];
    var before := ApplyAll(s, p);
    ApplyKeepsShape(s, p);
    AcceptsDependsOnShape(s, before, vs[n]);
    ApplyEntryChannel(before, vs[n], b);
  }

  /** A channel that no entry writes successfully is left as it was. */
  lemma {:induction false} ApplyUntouched(s: NodeState, vs: seq<BoundValue>, b: ValueBinding)
    requires forall j :: 0 <= j < |vs| && vs[j].binding == b ==> !Accepts(s, vs[j])
    ensures ChannelValue(ApplyAll(s, vs), b) == ChannelValue(s, b)
  {
    if vs != [] {
      var n := |vs| - 1;
      var p := vs[..n];
      var before := ApplyAll(s, p);
      ApplyKeepsShape(s, p);
      AcceptsDependsOnShape(s, before, vs[n]);
      ApplyEntryChannel(before, vs[n], b);
      ApplyUntouched(s, p, b);
    }
  }

  /** On a channel some entry writes, the result does not depend on the start state's values. */
  lemma {:induction false} ApplyWrittenChannel(s: NodeState, u: NodeState, vs: seq<BoundValue>, b: ValueBinding)
    requires SameShape(s, u)
    requires exists k :: 0 <= k < |vs| && vs[k].binding == b && Accepts(s, vs[k])
    ensures ChannelValue(ApplyAll(s, vs), b) == ChannelValue(ApplyAll(u, vs), b)
  {
    var n := |vs| - 1;
    if !(vs[n].binding == b && Accepts(s, vs[n])) {
      WrittenInPrefix(s, vs, vs[..n], b);
      ApplyWrittenChannel(s, u, vs[..n], b);
    }
    LastEntryAgrees(s, u, vs, b);
  }

  /** When the last entry does not write channel `b`, an earlier one does. */
  lemma WrittenInPrefix(s: NodeState, vs: seq<BoundValue>, p: seq<BoundValue>, b: ValueBinding)
    requires exists k :: 0 <= k < |vs| && vs[k].binding == b && Accepts(s, vs[k])
    requires !(vs[|vs| - 1].binding == b && Accepts(s, vs[|vs| - 1]))
    requires p == vs[..|vs| - 1]
    ensures exists k :: 0 <= k < |p| && p[k].binding == b && Accepts(s, p[k])
  {
    var k :| 0 <= k < |vs| && vs[k].binding == b && Accepts(s, vs[k]);
    assert k < |p| && p[k] == vs[k];
  }

  /**
   * The last entry makes channel `b` agree on two states of the same shape:
   * it writes `b` in both, or the channel already agreed before it.
   */
  lemma LastEntryAgrees(s: NodeState, u: NodeState, vs: seq<BoundValue>, b: ValueBinding)
    requires SameShape(s, u) && |vs| > 0
    requires var n := |vs| - 1;
      (vs[n].binding == b && Accepts(s, vs[n])) ||
      ChannelValue(ApplyAll(s, vs[..n]), b) == ChannelValue(ApplyAll(u, vs[..n]), b)
    ensures ChannelValue(ApplyAll(s, vs), b) == ChannelValue(ApplyAll(u, vs), b)
  {
    var n := |vs| - 1;
    var p := vs[..n];
    ApplyKeepsShape(s, p);
    ApplyKeepsShape(u, p);
    AcceptsDependsOnShape(s, ApplyAll(s, p), vs[n]);
    AcceptsDependsOnShape(u, ApplyAll(u, p), vs[n]);
    AcceptsDependsOnShape(s, u, vs[n]);
    ApplyEntryChannel(ApplyAll(s, p), vs[n], b);
    ApplyEntryChannel(ApplyAll(u, p), vs[n], b);
  }

  /** Applying the same collection twice is the same as applying it once. */
  lemma ApplyIdempotent(s: NodeState, vs: seq<BoundValue>)
    ensures ApplyAll(ApplyAll(s, vs), vs) == ApplyAll(s, vs)
  {
    var once := ApplyAll(s, vs);
    var twice := ApplyAll(once, vs);
    ApplyKeepsShape(s, vs);
    forall b ensures ChannelValue(twice, b) == ChannelValue(once, b) {
      if exists k :: 0 <= k < |vs| && vs[k].binding == b && Accepts(s, vs[k]) {
        ApplyWrittenChannel(s, once, vs, b);
      } else {
        forall j | 0 <= j < |vs| && vs[j].binding == b ensures !Accepts(once, vs[j]) {
          AcceptsDependsOnShape(s, once, vs[j]);
        }
        ApplyUntouched(once, vs, b);
      }
    }
    ChannelsDetermineState(twice, once);
  }

  /** A rotation binding holding a vector leaves the node as it was. */
  lemma ApplyRotationKindMismatch(s: NodeState, v: Vec3)
    ensures ApplyAll(s, [BoundValue(Rotation, Vector3(v))]) == s
  {
    assert [BoundValue(Rotation, Vector3(v))][..0] == [];
  }

  /** A property of another type than the value's is not written. */
  lemma ApplyPropertyTypeMismatch(s: NodeState, v: Vec3)
    requires "Health" in s.props && s.props["Health"] == OtherSlot("f32")
    ensures ApplyAll(s, [BoundValue(Property("Health"), Vector3(v))]) == s
  {
    assert [BoundValue(Property("Health"), Vector3(v))][..0] == [];
  }
}
