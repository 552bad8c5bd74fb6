# Fyrox animation blending and two editor tools, modelled in Dafny

This project models three parts of the Fyrox game engine and its editor.

1. **Animation value blending** (`src/animation/value.rs`). A `TrackValue` is a
   vector or a unit quaternion sampled from an animation track. A
   `ValueBinding` names the channel the value targets: position, scale,
   rotation, or a named reflected property. A `BoundValue` pairs a binding with
   a value. A `BoundValueCollection` is one animation layer's output for one
   node. It is weighted, blended with other layers in place, interpolated with
   another layer, and finally applied to the node.
2. **Material undo/redo commands** (`editor/src/scene/commands/material.rs`).
   One command sets one property of a material. The other replaces a material by
   a new one built from a shader, through a small state machine. Both commands
   undo by swapping again.
3. **The 2-D triangle collider gizmo** (`editor/src/plugins/collider/triangle2d.rs`).
   Three handle nodes stand for the vertices `a`, `b` and `c`. The gizmo sends
   each read and write of a handle to the first vertex whose handle is equal.

Files and modules:

- `wrappers.dfy` (`Wrappers`): `Option`.
- `algebra.dfy` (`Algebra`): vectors and quaternions over `real`, scaling,
  nalgebra's `lerp` (`a*(1-t) + b*t`) and `to_homogeneous` for 2-D vectors.
  Quaternion `nlerp` needs a square root, so it is not defined here. Every
  operation that uses it takes it as a parameter of type `Nlerp`, so the results
  hold for any nlerp.
- `animation_value.dfy` (`AnimationValue`): the value types, and the
  specification functions on sequences of entries (`FirstMatch`,
  `WeightedCloneAll`, `BlendAll`, `InterpolateAll`, `ApplyAll`). It also holds
  two classes. `BoundValueCollection` has its `values` field updated in place:
  `BlendWith` and `Interpolate` loop as the source does. `Node` has its
  transform and properties written by `Apply`.
- `animation_properties.dfy` (`AnimationProperties`): lemmas about those
  functions. They cover which entries survive and in what order, that unit
  length is preserved, and that in `apply` the last write wins, untouched
  channels stay as they were, and applying twice equals applying once.
- `material_commands.dfy` (`MaterialCommands`): the shared material resource
  and both commands as classes. Each command's swap is proved against a pure
  transition function, and the undo properties are proved about that function.
- `triangle_gizmo.dfy` (`TriangleGizmo`): the gizmo and the scene's 2-D
  collider shapes, as a map from collider node to shape.

External collaborators become parameters or plain data:

- `nlerp` is a parameter.
- `Material::from_shader` with the context's resource manager is a
  `FromShader` parameter.
- The scene lookup `try_get_collider_shape_2d` is a map lookup.
- `resolve_path_mut` is a lookup of the whole path in the node's property map.
- `property.set` is `SetSlot`, which succeeds only when the property's type
  matches the value's.
- The gizmo's callback (`FnMut`) is a function that updates a state the caller
  threads through.

Panics in the source become preconditions:

- `assert_eq!` on bindings.
- The `unwrap` in `BoundValueCollection::interpolate`, stated as
  `CanInterpolate`.
- The `unwrap` of the property lookup in the property command.
- `unreachable!()` in the shader command's `Undefined` arm.

Two edge cases are modelled exactly as the code handles them:

- Duplicate bindings in one collection are allowed. Each entry of `self` is
  handled, and each uses its first counterpart in `other`.
- `BoundValue::interpolate` returns `None` for values of mismatched kinds,
  but `BoundValueCollection::interpolate` unwraps that result
  (src/animation/value.rs:120). So the collection operation requires
  `CanInterpolate`.

## Model

| member | source | states |
|---|---|---|
| `Algebra.Scale` | src/animation/value.rs:21 | scaling by one is the identity and scaling by zero gives the zero vector |
| `Algebra.Lerp` | src/animation/value.rs:36 | vector interpolation gives `a` at `t = 0`, `b` at `t = 1`, and `a` whenever `a == b` |
| `Algebra.Homogeneous` | editor/src/plugins/collider/triangle2d.rs:67 | a 2-D vertex in homogeneous form keeps its `xy` part and has zero as third component |
| `AnimationValue.TrackValue.WeightedClone` | src/animation/value.rs:19-24 | keeps the variant; a vector is scaled by `weight`, a quaternion is returned unchanged |
| `AnimationValue.TrackValue.BlendWith` | src/animation/value.rs:26-32 | keeps the variant; different variants leave `self` unchanged; two vectors give `self + weight*other`; two quaternions give `nlerp(self, other, weight)` |
| `AnimationValue.TrackValue.Interpolate` | src/animation/value.rs:34-42 | `None` exactly when the variants differ; otherwise `Some` of the same variant, by lerp for vectors and nlerp for quaternions |
| `AnimationValue.BoundValue.WeightedClone` | src/animation/value.rs:67-72 | keeps the binding and weights the value |
| `AnimationValue.BoundValue.BlendWith` | src/animation/value.rs:74-77 | requires equal bindings (the assertion); keeps the binding and blends the value |
| `AnimationValue.BoundValue.Interpolate` | src/animation/value.rs:79-85 | requires equal bindings; `None` exactly when the value variants differ; on success keeps `self.binding` and carries the values' interpolation |
| `AnimationValue.FirstMatch` | src/animation/value.rs:110 | the `find` over `other`: `None` exactly when no entry has the binding, otherwise the index of the first entry that has it |
| `AnimationValue.FirstMatchFindsFirst` | src/animation/value.rs:119 | whenever an index holds the first entry with a binding, `find` returns exactly that index |
| `AnimationValue.WeightedCloneAll` | src/animation/value.rs:98-106 | same length, entry `i` is entry `i` of `self` weighted |
| `AnimationValue.BlendEntry` | src/animation/value.rs:109-113 | keeps the binding; an entry with no counterpart in `other` is unchanged; otherwise it is blended with the first entry of `other` with the same binding |
| `AnimationValue.BlendAll` | src/animation/value.rs:108-114 | same length, and entry `i` is entry `i` of `self` after `BlendEntry` |
| `AnimationValue.MatchedIndices` | src/animation/value.rs:118-119 | the indices of `self`'s entries that have a counterpart in `other`: strictly increasing, in range, and containing index `i` exactly when entry `i`'s binding occurs in `other` |
| `AnimationValue.InterpolateAll` | src/animation/value.rs:116-125 | requires that no matched pair has different variants (the `unwrap`); the result is no longer than `self` and every binding in it occurs in `other` |
| `AnimationValue.ApplyEntry` | src/animation/value.rs:129-170 | one bound value writes at most the channel its binding names: the property paths stay the same, and every other transform component and every other property keeps its value |
| `AnimationValue.ApplyAll` | src/animation/value.rs:127-171 | `apply` never adds or removes property paths; a transform component (position, scale, rotation) that no entry's binding names keeps its value |
| `AnimationValue.SetSlot` | src/animation/value.rs:156 | writing a value into a reflected property succeeds exactly when the property has the value's type, and then stores the value |
| `AnimationValue.BoundValueCollection.WeightedClone` | src/animation/value.rs:98-106 | returns a new collection holding `WeightedCloneAll` of the entries |
| `AnimationValue.BoundValueCollection.BlendWith` | src/animation/value.rs:108-114 | updates the entries in place to `BlendAll` of the old entries and `other`'s entries |
| `AnimationValue.BoundValueCollection.Interpolate` | src/animation/value.rs:116-125 | under the `unwrap` precondition, returns a new collection whose entries are `InterpolateAll`, built by the source's push loop |
| `AnimationValue.BoundValueCollection.Apply` | src/animation/value.rs:127-173 | the node's new state is `ApplyAll` of its old state and the entries, written one by one in order |
| `AnimationProperties.WeightedCloneVectorWeights` | src/animation/value.rs:21 | weight one is the identity on a vector value and weight zero gives the zero vector |
| `AnimationProperties.InterpolateVectorEndpoints` | src/animation/value.rs:36 | interpolating vector values gives `self` at `t = 0` and `other` at `t = 1` |
| `AnimationProperties.BlendVectorWeightZero` | src/animation/value.rs:28 | blending a vector with weight zero leaves it unchanged, whatever `other` is |
| `AnimationProperties.BlendPositionExample` | src/animation/value.rs:108-114 | a position `(1,0,0)` blended with a layer `(0,1,0)` at weight 0.5 becomes `(1,0.5,0)` |
| `AnimationProperties.WeightedCloneKeepsUnit` | src/animation/value.rs:22 | weighting keeps every rotation of unit length |
| `AnimationProperties.BlendKeepsUnit` | src/animation/value.rs:108-114 | if nlerp keeps unit length, blending two layers of unit rotations gives unit rotations |
| `AnimationProperties.InterpolateKeepsUnit` | src/animation/value.rs:116-125 | if nlerp keeps unit length, interpolating two layers of unit rotations gives unit rotations |
| `AnimationProperties.WeightedCloneKeepsBindings` | src/animation/value.rs:98-106 | the sequence of bindings is unchanged, index by index |
| `AnimationProperties.BlendKeepsBindings` | src/animation/value.rs:108-114 | blending keeps the length and every binding, index by index |
| `AnimationProperties.BlendWithoutCounterpart` | src/animation/value.rs:108-114 | blending with a layer that shares no binding with `self` changes nothing |
| `AnimationProperties.InterpolateEntries` | src/animation/value.rs:116-125 | the result has one entry per matched index of `self`, in `self` order; each keeps that entry's binding and is its interpolation with the first counterpart in `other` |
| `AnimationProperties.CanInterpolateExactlyNoPanic` | src/animation/value.rs:118-120 | `CanInterpolate` holds exactly when every entry of `self` interpolates successfully with its first counterpart in `other`, so that no `unwrap` meets a `None` |
| `AnimationProperties.InterpolateKeepsShared` | src/animation/value.rs:116-125 | a binding that occurs both in `self` and in `other` occurs in the result |
| `AnimationProperties.InterpolateOnlyShared` | src/animation/value.rs:116-125 | every binding of the result occurs both in `self` and in `other` |
| `AnimationProperties.InterpolateBindingsAreShared` | src/animation/value.rs:116-125 | a binding occurs in the result exactly when it occurs both in `self` and in `other` |
| `AnimationProperties.ApplyEntryChannel` | src/animation/value.rs:129-170 | one entry writes its own channel when the value's kind fits and the channel exists; every other channel is unchanged |
| `AnimationProperties.ApplyKeepsShape` | src/animation/value.rs:153-169 | `apply` never adds or removes property paths, nor changes a property's kind |
| `AnimationProperties.ApplyLastWins` | src/animation/value.rs:128-173 | when a channel is written successfully several times, it ends up holding the last such entry's value |
| `AnimationProperties.ApplyUntouched` | src/animation/value.rs:128-173 | a channel that no entry writes successfully (kind mismatch, unknown path, type mismatch, or no entry) keeps its old value |
| `AnimationProperties.ApplyIdempotent` | src/animation/value.rs:127-173 | applying the same collection twice leaves the node as applying it once does |
| `AnimationProperties.ApplyRotationKindMismatch` | src/animation/value.rs:146-151 | a rotation binding whose value is a vector leaves the node unchanged |
| `AnimationProperties.ApplyPropertyTypeMismatch` | src/animation/value.rs:155-161 | a property of another type than the value's (a scalar `Health`) is not written |
| `MaterialCommands.SwapProperty` | editor/src/scene/commands/material.rs:53-63 | requires the property to exist; the material then holds the command's value for `name`, the command holds the material's previous value, and every other property and the shader are unchanged |
| `MaterialCommands.SwapPropertyTwice` | editor/src/scene/commands/material.rs:75-81 | swapping twice restores both the material and the command's stored value |
| `MaterialCommands.SetMaterialPropertyValueCommand.constructor` | editor/src/scene/commands/material.rs:45-51 | the command holds the given material, name and value |
| `MaterialCommands.SetMaterialPropertyValueCommand.Swap` | editor/src/scene/commands/material.rs:53-67 | updates the shared material and the stored value as `SwapProperty` says |
| `MaterialCommands.SetMaterialPropertyValueCommand.Execute` | editor/src/scene/commands/material.rs:75-77 | execute is the swap |
| `MaterialCommands.SetMaterialPropertyValueCommand.Revert` | editor/src/scene/commands/material.rs:79-81 | revert is the same swap |
| `MaterialCommands.SetMaterialPropertyValueCommand.ExecuteThenRevert` | editor/src/scene/commands/material.rs:75-81 | execute followed by revert leaves the material and the command as they were |
| `MaterialCommands.ShaderSwap` | editor/src/scene/commands/material.rs:106-139 | requires a state other than `Undefined`; never returns `Undefined`; `NonExecuted` installs `from_shader(shader)` and keeps the old material; afterwards `Executed` and `Reverted` alternate, trading the stored material for the live one |
| `MaterialCommands.ShaderSwapTwice` | editor/src/scene/commands/material.rs:122-135 | once executed, two swaps give back the same state and live material |
| `MaterialCommands.ShaderExecuteRevertExecute` | editor/src/scene/commands/material.rs:112-135 | execute installs the shader's material, revert restores the original, and a second execute returns to the state and material of the first |
| `MaterialCommands.SetMaterialShaderCommand.constructor` | editor/src/scene/commands/material.rs:99-104 | starts in `NonExecuted` with the given shader |
| `MaterialCommands.SetMaterialShaderCommand.Swap` | editor/src/scene/commands/material.rs:106-139 | updates the state and the shared material as `ShaderSwap` says |
| `MaterialCommands.SetMaterialShaderCommand.Execute` | editor/src/scene/commands/material.rs:147-149 | execute is the swap |
| `MaterialCommands.SetMaterialShaderCommand.Revert` | editor/src/scene/commands/material.rs:151-153 | revert is the same swap |
| `TriangleGizmo.TriangleOf` | editor/src/plugins/collider/triangle2d.rs:61-64 | the collider's triangle exactly when the node is a 2-D collider whose shape is a triangle, otherwise `None`; the same guard is repeated at lines 83-86 and 107-111 |
| `TriangleGizmo.WithVertex` | editor/src/plugins/collider/triangle2d.rs:113-119 | replaces exactly the vertex at the given position |
| `TriangleGizmo.Triangle2DShapeGizmo.ForEachHandle` | editor/src/plugins/collider/triangle2d.rs:49-53 | the callback is applied to `a_handle`, `b_handle`, `c_handle`, in that order, once each |
| `TriangleGizmo.Triangle2DShapeGizmo.IsVectorHandle` | editor/src/plugins/collider/triangle2d.rs:122-124 | true exactly when the handle is one of the three |
| `TriangleGizmo.Triangle2DShapeGizmo.HandleLocalPosition` | editor/src/plugins/collider/triangle2d.rs:55-75 | `None` exactly when the collider is not a triangle or the handle is unknown; otherwise the homogeneous vertex of the first equal handle in the order a, b, c |
| `TriangleGizmo.Triangle2DShapeGizmo.ValueByHandle` | editor/src/plugins/collider/triangle2d.rs:77-97 | the same cases as `HandleLocalPosition`, wrapped as a vector handle value |
| `TriangleGizmo.Triangle2DShapeGizmo.SetValue` | editor/src/plugins/collider/triangle2d.rs:99-120 | no other collider changes; a non-triangle collider or an unknown handle leaves everything unchanged; otherwise only the vertex of the first equal handle takes the value's `xy` part |
| `TriangleGizmo.Triangle2DShapeGizmo.SetValueByHandle` | editor/src/plugins/collider/triangle2d.rs:99-120 | writes the scene's colliders in place as `SetValue` says |
| `TriangleGizmo.ValueExactlyForVectorHandles` | editor/src/plugins/collider/triangle2d.rs:83-97 | on a triangle collider, a handle has a value exactly when `is_vector_handle` holds for it |
| `TriangleGizmo.ReadAfterWrite` | editor/src/plugins/collider/triangle2d.rs:113-118 | after writing a vector through a known handle, reading that handle gives back the vector's `xy` part in homogeneous form |
| `TriangleGizmo.WriteChangesOneVertex` | editor/src/plugins/collider/triangle2d.rs:113-119 | a write through a handle changes only the first matching vertex; the other two keep their values |

## Left out

- `f32` arithmetic is not modelled: components are exact `real`s, so rounding, NaN and infinities are absent.
- Quaternion `nlerp` and normalisation are not modelled: nlerp is a parameter. Unit length is proved only under the hypothesis that nlerp keeps it (`KeepsUnit`). nalgebra's nlerp cannot keep it for opposite quaternions at `t = 0.5`.
- `AnimationValue.TrackValue.BlendWith` is written as a function that returns the new value, not as an in-place update through `&mut self`. A value-typed enum behind an exclusive borrow has no aliasing, so nothing is lost.
- `AnimationValue.BoundValue.BlendWith` is also a function, for the same reason. The in-place update of the collection is modelled by `BoundValueCollection.BlendWith`.
- `TrackValue::boxed_value` and `BoundValue::boxed_value` are not modelled: type erasure for reflection. Its effect, a write checked against the property's type, is `SetSlot`.
- Reflective path resolution is not modelled: a path is one key of the node's property map, with no nested navigation. An unknown key is the "not found" error.
- `AnimationValue.ApplyAll`: property paths are assumed never to reach the node's own transform, so `props` and the position, scale and rotation are disjoint. In the source, a path such as `local_transform.local_position` resolves to the same field that `Position` writes, and a later entry through that path would overwrite it. The model does not capture that aliasing.
- Logging is left out. `Log::err` and `Log::verify` are fire-and-forget and do not affect control flow.
- `BoundValueCollection.BlendWith` reads a copy of `other`'s entries taken at the start. Rust's borrows never let `other` alias `self`, so this is the same behaviour.
- `try_save` is left out: disk I/O. `data_ref()` locking, `header()` and `path_owned()` are resource plumbing and are left out too.
- `MaterialCommands.SetMaterialPropertyValueCommand.Swap`: `Material::set_property` is modelled as a map update. Its own failure cases are not modelled, because `Material` is not part of this model. The source unwraps that result.
- The commands' `name` methods are left out: they only build display labels.
- `context.get_mut::<GameSceneContext>()` is left out: it only supplies the resource manager, which is folded into the `FromShader` parameter.
- `PropertyValue` has only a few variants, because the commands only move values and never look inside them.
- `Triangle2DShapeGizmo::new` is left out: `make_handle` creates scene nodes. The gizmo is built directly from three handles.
- `ShapeHandleValue::into_vector` is not part of this model. Writing a scalar through a vertex handle is a precondition violation (`value.Vector?`).
- `try_get_collider_shape_2d` and its `_mut` variant are modelled as a lookup in the scene's map from collider node to 2-D shape.
- The particle emitter in `fyrox-impl/src/scene/particle_system/emitter/cylinder.rs` is left out: random sampling with `sqrt`, `sin` and `cos` over `f32`, plus clamping setters and a field-copying builder.
