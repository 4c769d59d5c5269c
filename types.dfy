/**
 * The constant type tables of the shader catalog (src/shaders/Shader.cpp,
 * `uniformTypes`, `samplerTypes`, `imageTypes`), the per-type upload dispatch
 * of `setUniform`, and an independent description of each GLSL value type by
 * scalar kind and shape against which the byte sizes are checked.
 */
module ShaderTypes {
  import opened Common
  import opened GlDriver

  // Type codes, as returned by glGetActiveUniform (OpenGL 4.6 core profile, table 7.3)
  const GL_FLOAT: nat := 0x1406
  const GL_FLOAT_VEC2: nat := 0x8B50
  const GL_FLOAT_VEC3: nat := 0x8B51
  const GL_FLOAT_VEC4: nat := 0x8B52
  const GL_DOUBLE: nat := 0x140A
  const GL_DOUBLE_VEC2: nat := 0x8FFC
  const GL_DOUBLE_VEC3: nat := 0x8FFD
  const GL_DOUBLE_VEC4: nat := 0x8FFE
  const GL_INT: nat := 0x1404
  const GL_INT_VEC2: nat := 0x8B53
  const GL_INT_VEC3: nat := 0x8B54
  const GL_INT_VEC4: nat := 0x8B55
  const GL_UNSIGNED_INT: nat := 0x1405
  const GL_UNSIGNED_INT_VEC2: nat := 0x8DC6
  const GL_UNSIGNED_INT_VEC3: nat := 0x8DC7
  const GL_UNSIGNED_INT_VEC4: nat := 0x8DC8
  const GL_BOOL: nat := 0x8B56
  const GL_BOOL_VEC2: nat := 0x8B57
  const GL_BOOL_VEC3: nat := 0x8B58
  const GL_BOOL_VEC4: nat := 0x8B59
  const GL_FLOAT_MAT2: nat := 0x8B5A
  const GL_FLOAT_MAT3: nat := 0x8B5B
  const GL_FLOAT_MAT4: nat := 0x8B5C
  const GL_FLOAT_MAT2x3: nat := 0x8B65
  const GL_FLOAT_MAT2x4: nat := 0x8B66
  const GL_FLOAT_MAT3x2: nat := 0x8B67
  const GL_FLOAT_MAT3x4: nat := 0x8B68
  const GL_FLOAT_MAT4x2: nat := 0x8B69
  const GL_FLOAT_MAT4x3: nat := 0x8B6A
  const GL_DOUBLE_MAT2: nat := 0x8F46
  const GL_DOUBLE_MAT3: nat := 0x8F47
  const GL_DOUBLE_MAT4: nat := 0x8F48
  const GL_DOUBLE_MAT2x3: nat := 0x8F49
  const GL_DOUBLE_MAT2x4: nat := 0x8F4A
  const GL_DOUBLE_MAT3x2: nat := 0x8F4B
  const GL_DOUBLE_MAT3x4: nat := 0x8F4C
  const GL_DOUBLE_MAT4x2: nat := 0x8F4D
  const GL_DOUBLE_MAT4x3: nat := 0x8F4E
  const GL_SAMPLER_2D: nat := 0x8B5E
  const GL_SAMPLER_3D: nat := 0x8B5F
  const GL_SAMPLER_CUBE: nat := 0x8B60
  const GL_IMAGE_2D: nat := 0x904D
  const GL_IMAGE_3D: nat := 0x904E
  const GL_IMAGE_CUBE: nat := 0x9050
  const GL_UNSIGNED_INT_ATOMIC_COUNTER: nat := 0x92DB

  /** `Shader::ShaderType`: byte size of one element and its type code. */
  datatype ShaderType = ShaderType(size: nat, glType: nat)

  datatype TextureType = Image2D | Image3D | Cubemap

  const UniformTypes: map<nat, ShaderType> := map[
    GL_FLOAT := ShaderType(1 * 4, GL_FLOAT),
    GL_FLOAT_VEC2 := ShaderType(2 * 4, GL_FLOAT_VEC2),
    GL_FLOAT_VEC3 := ShaderType(3 * 4, GL_FLOAT_VEC3),
    GL_FLOAT_VEC4 := ShaderType(4 * 4, GL_FLOAT_VEC4),
    GL_DOUBLE := ShaderType(8, GL_DOUBLE),
    GL_DOUBLE_VEC2 := ShaderType(2 * 8, GL_DOUBLE_VEC2),
    GL_DOUBLE_VEC3 := ShaderType(3 * 8, GL_DOUBLE_VEC3),
    GL_DOUBLE_VEC4 := ShaderType(4 * 8, GL_DOUBLE_VEC4),
    GL_INT := ShaderType(1 * 4, GL_INT),
    GL_INT_VEC2 := ShaderType(2 * 4, GL_INT_VEC2),
    GL_INT_VEC3 := ShaderType(3 * 4, GL_INT_VEC3),
    GL_INT_VEC4 := ShaderType(4 * 4, GL_INT_VEC4),
    GL_UNSIGNED_INT := ShaderType(1 * 4, GL_UNSIGNED_INT),
    GL_UNSIGNED_INT_VEC2 := ShaderType(2 * 4, GL_UNSIGNED_INT_VEC2),
    GL_UNSIGNED_INT_VEC3 := ShaderType(3 * 4, GL_UNSIGNED_INT_VEC3),
    GL_UNSIGNED_INT_VEC4 := ShaderType(4 * 4, GL_UNSIGNED_INT_VEC4),
    GL_BOOL := ShaderType(1 * 4, GL_BOOL),
    GL_BOOL_VEC2 := ShaderType(2 * 4, GL_BOOL_VEC2),
    GL_BOOL_VEC3 := ShaderType(3 * 4, GL_BOOL_VEC3),
    GL_BOOL_VEC4 := ShaderType(4 * 4, GL_BOOL_VEC4),
    GL_FLOAT_MAT2 := ShaderType(2 * 2 * 4, GL_FLOAT_MAT2),
    GL_FLOAT_MAT3 := ShaderType(3 * 3 * 4, GL_FLOAT_MAT3),
    GL_FLOAT_MAT4 := ShaderType(4 * 4 * 4, GL_FLOAT_MAT4),
    GL_FLOAT_MAT2x3 := ShaderType(2 * 3 * 4, GL_FLOAT_MAT2x3),
    GL_FLOAT_MAT2x4 := ShaderType(2 * 4 * 4, GL_FLOAT_MAT2x4),
    GL_FLOAT_MAT3x2 := ShaderType(3 * 2 * 4, GL_FLOAT_MAT3x2),
    GL_FLOAT_MAT3x4 := ShaderType(3 * 4 * 4, GL_FLOAT_MAT3x4),
    GL_FLOAT_MAT4x2 := ShaderType(4 * 2 * 4, GL_FLOAT_MAT4x2),
    GL_FLOAT_MAT4x3 := ShaderType(4 * 3 * 4, GL_FLOAT_MAT4x3),
    GL_DOUBLE_MAT2 := ShaderType(2 * 2 * 8, GL_DOUBLE_MAT2),
    GL_DOUBLE_MAT3 := ShaderType(3 * 3 * 8, GL_DOUBLE_MAT3),
    GL_DOUBLE_MAT4 := ShaderType(4 * 4 * 8, GL_DOUBLE_MAT4),
    GL_DOUBLE_MAT2x3 := ShaderType(2 * 3 * 8, GL_DOUBLE_MAT2x3),
    GL_DOUBLE_MAT2x4 := ShaderType(2 * 4 * 8, GL_DOUBLE_MAT2x4),
    GL_DOUBLE_MAT3x2 := ShaderType(3 * 2 * 8, GL_DOUBLE_MAT3x2),
    GL_DOUBLE_MAT3x4 := ShaderType(3 * 4 * 8, GL_DOUBLE_MAT3x4),
    GL_DOUBLE_MAT4x2 := ShaderType(4 * 2 * 8, GL_DOUBLE_MAT4x2),
    GL_DOUBLE_MAT4x3 := ShaderType(4 * 3 * 8, GL_DOUBLE_MAT4x3)
  ]

  const SamplerTypes: map<nat, TextureType> := map[
    GL_SAMPLER_2D := Image2D,
    GL_SAMPLER_3D := Image3D,
    GL_SAMPLER_CUBE := Cubemap
  ]

  const ImageTypes: map<nat, TextureType> := map[
    GL_IMAGE_2D := Image2D,
    GL_IMAGE_3D := Image3D,
    GL_IMAGE_CUBE := Cubemap
  ]

  /**
   * A GLSL value type as the OpenGL Shading Language names it: a scalar kind
   * and a shape of `columns` x `rows` components (a scalar is 1 x 1, a vecN
   * is 1 x N, a matCxR is C x R).
   */
  datatype Scalar = Float | Double | Int | Uint | Bool
  datatype ValueType = ValueType(scalar: Scalar, columns: nat, rows: nat)

  function ScalarWidth(s: Scalar): nat
  {
    if s == Double then 8 else 4
  }

  function Components(v: ValueType): nat
  {
    v.columns * v.rows
  }

  /** The value type that each type code names. */
  function ValueTypeOf(code: nat): Option<ValueType>
  {
    if code == GL_FLOAT then Some(ValueType(Float, 1, 1))
    else if code == GL_FLOAT_VEC2 then Some(ValueType(Float, 1, 2))
    else if code == GL_FLOAT_VEC3 then Some(ValueType(Float, 1, 3))
    else if code == GL_FLOAT_VEC4 then Some(ValueType(Float, 1, 4))
    else if code == GL_DOUBLE then Some(ValueType(Double, 1, 1))
    else if code == GL_DOUBLE_VEC2 then Some(ValueType(Double, 1, 2))
    else if code == GL_DOUBLE_VEC3 then Some(ValueType(Double, 1, 3))
    else if code == GL_DOUBLE_VEC4 then Some(ValueType(Double, 1, 4))
    else if code == GL_INT then Some(ValueType(Int, 1, 1))
    else if code == GL_INT_VEC2 then Some(ValueType(Int, 1, 2))
    else if code == GL_INT_VEC3 then Some(ValueType(Int, 1, 3))
    else if code == GL_INT_VEC4 then Some(ValueType(Int, 1, 4))
    else if code == GL_UNSIGNED_INT then Some(ValueType(Uint, 1, 1))
    else if code == GL_UNSIGNED_INT_VEC2 then Some(ValueType(Uint, 1, 2))
    else if code == GL_UNSIGNED_INT_VEC3 then Some(ValueType(Uint, 1, 3))
    else if code == GL_UNSIGNED_INT_VEC4 then Some(ValueType(Uint, 1, 4))
    else if code == GL_BOOL then Some(ValueType(Bool, 1, 1))
    else if code == GL_BOOL_VEC2 then Some(ValueType(Bool, 1, 2))
    else if code == GL_BOOL_VEC3 then Some(ValueType(Bool, 1, 3))
    else if code == GL_BOOL_VEC4 then Some(ValueType(Bool, 1, 4))
    else if code == GL_FLOAT_MAT2 then Some(ValueType(Float, 2, 2))
    else if code == GL_FLOAT_MAT3 then Some(ValueType(Float, 3, 3))
    else if code == GL_FLOAT_MAT4 then Some(ValueType(Float, 4, 4))
    else if code == GL_FLOAT_MAT2x3 then Some(ValueType(Float, 2, 3))
    else if code == GL_FLOAT_MAT2x4 then Some(ValueType(Float, 2, 4))
    else if code == GL_FLOAT_MAT3x2 then Some(ValueType(Float, 3, 2))
    else if code == GL_FLOAT_MAT3x4 then Some(ValueType(Float, 3, 4))
    else if code == GL_FLOAT_MAT4x2 then Some(ValueType(Float, 4, 2))
    else if code == GL_FLOAT_MAT4x3 then Some(ValueType(Float, 4, 3))
    else if code == GL_DOUBLE_MAT2 then Some(ValueType(Double, 2, 2))
    else if code == GL_DOUBLE_MAT3 then Some(ValueType(Double, 3, 3))
    else if code == GL_DOUBLE_MAT4 then Some(ValueType(Double, 4, 4))
    else if code == GL_DOUBLE_MAT2x3 then Some(ValueType(Double, 2, 3))
    else if code == GL_DOUBLE_MAT2x4 then Some(ValueType(Double, 2, 4))
    else if code == GL_DOUBLE_MAT3x2 then Some(ValueType(Double, 3, 2))
    else if code == GL_DOUBLE_MAT3x4 then Some(ValueType(Double, 3, 4))
    else if code == GL_DOUBLE_MAT4x2 then Some(ValueType(Double, 4, 2))
    else if code == GL_DOUBLE_MAT4x3 then Some(ValueType(Double, 4, 3))
    else None
  }

  lemma UniformTypesOnlyValueTypes(code: nat)
    ensures code in UniformTypes ==> ValueTypeOf(code).Some?
  {
  }

  lemma ValueTypesAllCatalogued(code: nat)
    ensures ValueTypeOf(code).Some? ==> code in UniformTypes
  {
  }

  lemma UniformTypeEntrySize(code: nat)
    requires code in UniformTypes && ValueTypeOf(code).Some?
    ensures UniformTypes[code].size == Components(ValueTypeOf(code).value) * ScalarWidth(ValueTypeOf(code).value.scalar)
  {
    // split the codes into three ranges so that each case sees a third of the table
    if code < GL_FLOAT_VEC2 {
    } else if code < GL_SAMPLER_2D {
    } else {
    }
  }

  lemma UniformTypeEntryKey(code: nat)
    ensures code in UniformTypes ==> UniformTypes[code].glType == code
  {
  }

  /**
   * The uniform table covers exactly the value types, and each entry stores
   * its own key and the size components x scalar width.
   */
  lemma UniformTypesMatchValueTypes(code: nat)
    ensures code in UniformTypes <==> ValueTypeOf(code).Some?
    ensures code in UniformTypes ==>
      UniformTypes[code].glType == code &&
      UniformTypes[code].size == Components(ValueTypeOf(code).value) * ScalarWidth(ValueTypeOf(code).value.scalar)
  {
    UniformTypesOnlyValueTypes(code);
    ValueTypesAllCatalogued(code);
    UniformTypeEntryKey(code);
    if code in UniformTypes {
      UniformTypeEntrySize(code);
    }
  }

  lemma UniformTypeSizeExamples()
    ensures UniformTypes[GL_FLOAT_VEC3].size == 12
    ensures UniformTypes[GL_FLOAT_MAT4].size == 64
    ensures UniformTypes[GL_DOUBLE_MAT4x3].size == 96
    ensures UniformTypes[GL_BOOL].size == 4
  {
  }

  /** Where `load` files a uniform of a given type code, in its order of tests. */
  datatype Category = AtomicCounter | PlainUniform | Sampler | Image | Unrecognised

  function CategoryOf(code: nat): (c: Category)
    ensures c == PlainUniform <==> code != GL_UNSIGNED_INT_ATOMIC_COUNTER && code in UniformTypes
    ensures c == Sampler ==> code in SamplerTypes
    ensures c == Image ==> code in ImageTypes
    ensures c == Unrecognised <==>
      code != GL_UNSIGNED_INT_ATOMIC_COUNTER && code !in UniformTypes && code !in SamplerTypes && code !in ImageTypes
  {
    if code == GL_UNSIGNED_INT_ATOMIC_COUNTER then AtomicCounter
    else if code in UniformTypes then PlainUniform
    else if code in SamplerTypes then Sampler
    else if code in ImageTypes then Image
    else Unrecognised
  }

  lemma UniformAndSamplerTypesDisjoint(code: nat)
    ensures !(code in UniformTypes && code in SamplerTypes)
  {
  }

  lemma UniformAndImageTypesDisjoint(code: nat)
    ensures !(code in UniformTypes && code in ImageTypes)
  {
  }

  lemma AtomicCounterNotCatalogued()
    ensures GL_UNSIGNED_INT_ATOMIC_COUNTER !in UniformTypes
    ensures GL_UNSIGNED_INT_ATOMIC_COUNTER !in SamplerTypes
    ensures GL_UNSIGNED_INT_ATOMIC_COUNTER !in ImageTypes
  {
  }

  /**
   * The three tables do not overlap and none holds the atomic-counter code,
   * so the order of the tests in `load` never hides an entry: a sampler or
   * image code is always filed as such.
   */
  lemma TablesDisjoint(code: nat)
    ensures !(code in UniformTypes && code in SamplerTypes)
    ensures !(code in UniformTypes && code in ImageTypes)
    ensures !(code in SamplerTypes && code in ImageTypes)
    ensures code in SamplerTypes ==> CategoryOf(code) == Sampler
    ensures code in ImageTypes ==> CategoryOf(code) == Image
  {
    UniformAndSamplerTypesDisjoint(code);
    UniformAndImageTypesDisjoint(code);
    AtomicCounterNotCatalogued();
  }

  /** The `switch` of `setUniform`: the upload call for each type code it handles. */
  function UploadCallFor(code: nat): Option<UploadCall>
  {
    if code == GL_FLOAT then Some(Uniform1fv)
    else if code == GL_FLOAT_VEC2 then Some(Uniform2fv)
    else if code == GL_FLOAT_VEC3 then Some(Uniform3fv)
    else if code == GL_FLOAT_VEC4 then Some(Uniform4fv)
    else if code == GL_FLOAT_MAT3 then Some(UniformMatrix3fv)
    else if code == GL_FLOAT_MAT4 then Some(UniformMatrix4fv)
    else if code == GL_BOOL then Some(Uniform1iv)
    else if code == GL_UNSIGNED_INT then Some(Uniform1uiv)
    else if code == GL_UNSIGNED_INT_VEC2 then Some(Uniform2uiv)
    else if code == GL_UNSIGNED_INT_VEC3 then Some(Uniform3uiv)
    else if code == GL_UNSIGNED_INT_VEC4 then Some(Uniform4uiv)
    else if code == GL_INT then Some(Uniform1iv)
    else if code == GL_INT_VEC2 then Some(Uniform2iv)
    else if code == GL_INT_VEC3 then Some(Uniform3iv)
    else if code == GL_INT_VEC4 then Some(Uniform4iv)
    else None
  }

  /** The value types that `setUniform` uploads, described by kind and shape. */
  predicate Uploadable(v: ValueType)
  {
    match v.scalar
    case Float => v.columns == 1 || (v.columns == v.rows && v.columns >= 3)
    case Int => v.columns == 1
    case Uint => v.columns == 1
    case Bool => v.columns == 1 && v.rows == 1
    case Double => false
  }

  /**
   * A catalogued uniform type has an upload call exactly when it is a float
   * scalar/vector, mat3 or mat4, an int or uint scalar/vector, or a single
   * bool; doubles, mat2, the rectangular matrices and bool vectors have none.
   * Bool goes through the int path.
   */
  lemma UploadDispatch(code: nat)
    ensures UploadCallFor(code).Some? ==> code in UniformTypes
    ensures code in UniformTypes ==> (UploadCallFor(code).Some? <==> Uploadable(ValueTypeOf(code).value))
    ensures UploadCallFor(GL_BOOL) == UploadCallFor(GL_INT) == Some(Uniform1iv)
  {
  }
}
