/**
 * An abstract model of the OpenGL driver state that the renderer touches.
 * Only the state the catalog, the program cache and the mesh code read back
 * or depend on is kept: buffer objects and their bytes, indexed buffer
 * bindings, the current program, uniform uploads, vertex attribute
 * pointers, draw calls and the polygon mode. The GPU itself is not modelled.
 */
module GlDriver {
  import opened Common

  type Byte = b: int | 0 <= b < 256

  // Buffer binding targets (OpenGL 4.6 core profile, table 6.1)
  const GL_ARRAY_BUFFER: nat := 0x8892
  const GL_ELEMENT_ARRAY_BUFFER: nat := 0x8893
  const GL_SHADER_STORAGE_BUFFER: nat := 0x90D2
  const GL_ATOMIC_COUNTER_BUFFER: nat := 0x92C0

  // Primitive and polygon modes
  const GL_TRIANGLES: nat := 0x0004
  const GL_LINE: nat := 0x1B01
  const GL_FILL: nat := 0x1B02

  /** The glUniform* entry point used for an upload. */
  datatype UploadCall =
    | Uniform1fv | Uniform2fv | Uniform3fv | Uniform4fv
    | UniformMatrix3fv | UniformMatrix4fv
    | Uniform1iv | Uniform2iv | Uniform3iv | Uniform4iv
    | Uniform1uiv | Uniform2uiv | Uniform3uiv | Uniform4uiv

  datatype UniformUpload = UniformUpload(call: UploadCall, count: nat, data: seq<Byte>)

  /** One glVertexAttribPointer record: components, type, stride, byte offset, source buffer. */
  datatype AttribPointer = AttribPointer(size: nat, componentType: nat, stride: nat, offset: nat, buffer: nat)

  /** A draw call, with the polygon mode in force when it was issued. */
  datatype DrawCall =
    | DrawElements(mode: nat, count: nat, polygonMode: nat)
    | DrawArrays(mode: nat, count: nat, polygonMode: nat)

  /**
   * glGetBufferSubData(offset, len) into the first `len` bytes of `dst`: the
   * driver rejects a range that runs past the end of the buffer
   * (GL_INVALID_VALUE) and then writes nothing.
   */
  function SubData(dst: seq<Byte>, src: seq<Byte>, offset: nat, len: nat): (r: seq<Byte>)
    requires len <= |dst|
    ensures |r| == |dst|
  {
    if offset + len <= |src| then src[offset..offset + len] + dst[len..] else dst
  }

  class Gl {
    /** The next unused object name; names start at 1, 0 means "no object". */
    var nextName: nat
    var currentProgram: nat
    /** Buffer objects: name -> data store. */
    var buffers: map<nat, seq<Byte>>
    /** Indexed buffer bindings: (target, binding index) -> buffer name. */
    var indexedBindings: map<(nat, nat), nat>
    /** Uniform values: (program, location) -> last upload. */
    var uniformValues: map<(nat, nat), UniformUpload>
    /** Vertex attribute pointers: (vertex array, attribute index) -> pointer. */
    var attribs: map<(nat, nat), AttribPointer>
    var enabledAttribs: set<(nat, nat)>
    var draws: seq<DrawCall>
    var polygonMode: nat

    ghost predicate Valid()
      reads this`nextName, this`buffers
    {
      0 < nextName && forall id :: id in buffers ==> 0 < id < nextName
    }

    constructor ()
      ensures Valid()
      ensures nextName == 1 && currentProgram == 0 && buffers == map[]
      ensures indexedBindings == map[] && uniformValues == map[]
      ensures attribs == map[] && enabledAttribs == {} && draws == [] && polygonMode == GL_FILL
    {
      nextName, currentProgram := 1, 0;
      buffers, indexedBindings, uniformValues := map[], map[], map[];
      attribs, enabledAttribs, draws, polygonMode := map[], {}, [], GL_FILL;
    }

    /** glCreateProgram / glGenVertexArrays: reserve a fresh name. */
    method CreateName() returns (id: nat)
      requires Valid()
      modifies this`nextName
      ensures Valid() && id == old(nextName) && nextName == id + 1
      ensures 0 < id && id !in buffers
    {
      id := nextName;
      nextName := nextName + 1;
    }

    /** glGenBuffers followed by a first bind: a fresh buffer with an empty data store. */
    method GenBuffer() returns (id: nat)
      requires Valid()
      modifies this`nextName, this`buffers
      ensures Valid() && id == old(nextName) && nextName == id + 1
      ensures id !in old(buffers) && buffers == old(buffers)[id := []]
    {
      id := nextName;
      nextName := nextName + 1;
      buffers := buffers[id := []];
    }

    method UseProgram(id: nat)
      modifies this`currentProgram
      ensures currentProgram == id
    {
      currentProgram := id;
    }

    /** glBufferData with a data pointer: replaces the whole data store. */
    method BufferData(id: nat, data: seq<Byte>)
      requires Valid() && id in buffers
      modifies this`buffers
      ensures Valid() && buffers == old(buffers)[id := data]
    {
      buffers := buffers[id := data];
    }

    /** glBufferData with a null pointer: a data store of `size` bytes whose content is undefined. */
    method BufferStorage(id: nat, size: nat)
      requires Valid() && id in buffers
      modifies this`buffers
      ensures Valid() && id in buffers && |buffers[id]| == size
      ensures buffers == old(buffers)[id := buffers[id]]
    {
      buffers := buffers[id := seq(size, _ => 0)];
    }

    method BindBufferBase(target: nat, index: nat, id: nat)
      modifies this`indexedBindings
      ensures indexedBindings == old(indexedBindings)[(target, index) := id]
    {
      indexedBindings := indexedBindings[(target, index) := id];
    }

    /** GL_BUFFER_SIZE of a buffer. */
    function BufferSize(id: nat): nat
      reads this
    {
      if id in buffers then |buffers[id]| else 0
    }

    method GetBufferSubData(id: nat, offset: nat, len: nat, dst: array<Byte>)
      requires id in buffers && len <= dst.Length
      modifies dst
      ensures dst[..] == SubData(old(dst[..]), buffers[id], offset, len)
    {
      var src := buffers[id];
      if offset + len <= |src| {
        forall i | 0 <= i < len {
          dst[i] := src[offset + i];
        }
        assert dst[..] == src[offset..offset + len] + old(dst[..])[len..];
      }
    }

    /** A glUniform* call: goes to the current program. */
    method Uniform(call: UploadCall, location: nat, count: nat, data: seq<Byte>)
      modifies this`uniformValues
      ensures uniformValues == old(uniformValues)[(currentProgram, location) := UniformUpload(call, count, data)]
    {
      uniformValues := uniformValues[(currentProgram, location) := UniformUpload(call, count, data)];
    }

    method VertexAttribPointer(vao: nat, index: nat, p: AttribPointer)
      modifies this`attribs
      ensures attribs == old(attribs)[(vao, index) := p]
    {
      attribs := attribs[(vao, index) := p];
    }

    method EnableVertexAttribArray(vao: nat, index: nat)
      modifies this`enabledAttribs
      ensures enabledAttribs == old(enabledAttribs) + {(vao, index)}
    {
      enabledAttribs := enabledAttribs + {(vao, index)};
    }

    method Draw(call: DrawCall)
      modifies this`draws
      ensures draws == old(draws) + [call]
    {
      draws := draws + [call];
    }

    method PolygonMode(mode: nat)
      modifies this`polygonMode
      ensures polygonMode == mode
    {
      polygonMode := mode;
    }
  }
}
