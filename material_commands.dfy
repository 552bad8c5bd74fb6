/**
 * The editor's undo/redo commands on materials
 * (editor/src/scene/commands/material.rs): setting one property value, and
 * replacing a material by a fresh one built from a shader.  Both commands
 * undo by doing the same swap again.
 */
module MaterialCommands {

  /** A shader resource, identified by its handle. */
  datatype ShaderResource = ShaderResource(id: nat)

  /**
   * A material property value.  The engine has more variants; the commands
   * only move values around, so a few stand for all of them.
   */
  datatype PropertyValue =
    | Float(f: real)
    | Int(n: int)
    | Bool(b: bool)
    | Vector4(x: real, y: real, z: real, w: real)
    | Sampler(texture: nat)

  /** A material: the shader it was built from and its named properties. */
  datatype Material = Material(shader: ShaderResource, properties: map<string, PropertyValue>)

  /** `Material::from_shader` with the context's resource manager; supplied by the caller. */
  type FromShader = ShaderResource -> Material

  /** A shared material resource; the editor's commands and the scene hold the same one. */
  class MaterialResource {
    var data: Material

    constructor (data: Material)
      ensures this.data == data
    {
      this.data := data;
    }
  }

  // ---------------------------------------------------------------------
  // SetMaterialPropertyValueCommand

  /**
   * The (material, stored value) pair after one property swap: the material
   * takes the stored value for `name` and the command keeps the material's
   * previous value.  The property must exist (the source unwraps the lookup).
   */
  function SwapProperty(m: Material, name: string, value: PropertyValue): (r: (Material, PropertyValue))
    requires name in m.properties
    ensures r.0.shader == m.shader
    ensures r.0.properties.Keys == m.properties.Keys
    ensures r.0.properties[name] == value
    ensures forall k :: k in m.properties && k != name ==> r.0.properties[k] == m.properties[k]
    ensures r.1 == m.properties[name]
  {
    (m.(properties := m.properties[name := value]), m.properties[name])
  }

  /** Two swaps restore both the material and the stored value. */
  lemma SwapPropertyTwice(m: Material, name: string, value: PropertyValue)
    requires name in m.properties
    ensures var (m', v') := SwapProperty(m, name, value); SwapProperty(m', name, v') == (m, value)
  {
    var (m', v') := SwapProperty(m, name, value);
    var (m'', v'') := SwapProperty(m', name, v');
    assert m''.properties == m.properties;
  }

  class SetMaterialPropertyValueCommand {
    const material: MaterialResource
    const name: string
    var value: PropertyValue

    constructor (material: MaterialResource, name: string, value: PropertyValue)
      ensures this.material == material && this.name == name && this.value == value
    {
      this.material := material;
      this.name := name;
      this.value := value;
    }

    /** Exchanges the stored value with the material's value of `name`. */
    method Swap()
      requires name in material.data.properties
      modifies this, material
      ensures (material.data, value) == SwapProperty(old(material.data), name, old(value))
    {
      var oldValue := material.data.properties[name];
      var newValue := value;
      value := oldValue;
      material.data := material.data.(properties := material.data.properties[name := newValue]);
    }

    method Execute()
      requires name in material.data.properties
      modifies this, material
      ensures (material.data, value) == SwapProperty(old(material.data), name, old(value))
    {
      Swap();
    }

    method Revert()
      requires name in material.data.properties
      modifies this, material
      ensures (material.data, value) == SwapProperty(old(material.data), name, old(value))
    {
      Swap();
    }

    /** Undoing an executed command restores the material and the command. */
    method ExecuteThenRevert()
      requires name in material.data.properties
      modifies this, material
      ensures material.data == old(material.data) && value == old(value)
    {
      Execute();
      Revert();
      SwapPropertyTwice(old(material.data), name, old(value));
    }
  }

  // ---------------------------------------------------------------------
  // SetMaterialShaderCommand

  /**
   * The command's state.  `Undefined` only stands in the field while a swap
   * is under way.
   */
  datatype ShaderCommandState =
    | Undefined
    | NonExecuted(newShader: ShaderResource)
    | Executed(oldMaterial: Material)
    | Reverted(newMaterial: Material)

  /**
   * The (state, live material) pair after one swap.  The first swap builds
   * a material from the shader and keeps the old one; later swaps exchange
   * the stored material with the live one.  A swap never starts in
   * `Undefined` (the source marks that arm unreachable).
   */
  function ShaderSwap(state: ShaderCommandState, m: Material, fromShader: FromShader): (r: (ShaderCommandState, Material))
    requires !state.Undefined?
    ensures r.0.Executed? || r.0.Reverted?
    ensures state.NonExecuted? ==> r.0 == Executed(m) && r.1 == fromShader(state.newShader)
    ensures state.Executed? ==> r.0 == Reverted(m) && r.1 == state.oldMaterial
    ensures state.Reverted? ==> r.0 == Executed(m) && r.1 == state.newMaterial
  {
    match state
    case NonExecuted(shader) => (Executed(m), fromShader(shader))
    case Executed(oldMaterial) => (Reverted(m), oldMaterial)
    case Reverted(newMaterial) => (Executed(m), newMaterial)
  }

  /** Once executed, swapping twice returns to the same state and material. */
  lemma ShaderSwapTwice(state: ShaderCommandState, m: Material, fromShader: FromShader)
    requires state.Executed? || state.Reverted?
    ensures var (s', m') := ShaderSwap(state, m, fromShader); ShaderSwap(s', m', fromShader) == (state, m)
  {
  }

  /**
   * Execute, revert, execute: the first execute installs the shader's
   * material, the revert brings back the original, and the second execute
   * is back where the first left off.
   */
  lemma ShaderExecuteRevertExecute(shader: ShaderResource, m: Material, fromShader: FromShader)
    ensures var (s1, m1) := ShaderSwap(NonExecuted(shader), m, fromShader);
      var (s2, m2) := ShaderSwap(s1, m1, fromShader);
      var (s3, m3) := ShaderSwap(s2, m2, fromShader);
      && m1 == fromShader(shader)
      && m2 == m
      && (s3, m3) == (s1, m1)
  {
  }

  class SetMaterialShaderCommand {
    const material: MaterialResource
    var state: ShaderCommandState

    constructor (material: MaterialResource, shader: ShaderResource)
      ensures this.material == material && state == NonExecuted(shader)
    {
      this.material := material;
      state := NonExecuted(shader);
    }

    method Swap(fromShader: FromShader)
      requires !state.Undefined?
      modifies this, material
      ensures (state, material.data) == ShaderSwap(old(state), old(material.data), fromShader)
    {
      var current := state;
      state := Undefined;
      match current {
        case NonExecuted(newShader) =>
          var oldMaterial := material.data;
          material.data := fromShader(newShader);
          state := Executed(oldMaterial);
        case Executed(oldMaterial) =>
          var newMaterial := material.data;
          material.data := oldMaterial;
          state := Reverted(newMaterial);
        case Reverted(newMaterial) =>
          var oldMaterial := material.data;
          material.data := newMaterial;
          state := Executed(oldMaterial);
      }
    }

    method Execute(fromShader: FromShader)
      requires !state.Undefined?
      modifies this, material
      ensures (state, material.data) == ShaderSwap(old(state), old(material.data), fromShader)
    {
      Swap(fromShader);
    }

    method Revert(fromShader: FromShader)
      requires !state.Undefined?
      modifies this, material
      ensures (state, material.data) == ShaderSwap(old(state), old(material.data), fromShader)
    {
      Swap(fromShader);
    }
  }
}
