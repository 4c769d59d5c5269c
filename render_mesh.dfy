/**
 * `RenderMesh` (src/RenderMesh.cpp): the vertex-layout bookkeeping of a
 * drawable mesh (one vertex buffer per `setVertexData` call, interleaved
 * attributes at consecutive indices), its lazily created index buffer, and
 * the control decisions of `draw`.
 *
 * The header that declares the class is not part of this model; its
 * fields are the ones the definitions in src/RenderMesh.cpp use, and the
 * defaults it would give them are constructor parameters.
 */
module Meshes {
  import opened Common
  import opened GlDriver
  import opened ShaderTypes
  import opened ShaderCatalog
  import opened Shaders
  import opened Programs
  import opened ProgramLoader
  import opened KeyOrder

  /** The byte size of one component of a vertex attribute: only float is known. */
  function GetSize(componentType: nat): (size: nat)
    ensures componentType == GL_FLOAT ==> size == 4
    ensures componentType != GL_FLOAT ==> size == 0
  {
    if componentType == GL_FLOAT then 4 else 0
  }

  /** One interleaved attribute: its component type and its number of components. */
  datatype VertexParameterLayout = VertexParameterLayout(componentType: nat, size: nat)

  /** A vertex buffer: its name and the byte size of one vertex in it. */
  datatype BufferData = BufferData(vbo: nat, elementsSize: nat)

  function Width(p: VertexParameterLayout): nat
  {
    p.size * GetSize(p.componentType)
  }

  /** The bytes one vertex occupies: the sum of the attributes' widths. */
  function Stride(ps: seq<VertexParameterLayout>): nat
  {
    if |ps| == 0 then 0 else Stride(ps[..|ps| - 1]) + Width(ps[|ps| - 1])
  }

  /** Where attribute `i` starts inside a vertex: the widths of the attributes before it. */
  function Offset(ps: seq<VertexParameterLayout>, i: nat): nat
    requires i <= |ps|
  {
    Stride(ps[..i])
  }

  lemma {:induction false} StrideAppend(ps: seq<VertexParameterLayout>, qs: seq<VertexParameterLayout>)
    ensures Stride(ps + qs) == Stride(ps) + Stride(qs)
    decreases |qs|
  {
    if |qs| == 0 {
      assert ps + qs == ps;
    } else {
      assert (ps + qs)[..|ps + qs| - 1] == ps + qs[..|qs| - 1];
      StrideAppend(ps, qs[..|qs| - 1]);
    }
  }

  /**
   * The attributes tile a vertex: each starts where the previous one ends,
   * and each lies inside the stride.
   */
  lemma AttributesTileTheStride(ps: seq<VertexParameterLayout>, i: nat)
    requires i < |ps|
    ensures Offset(ps, i + 1) == Offset(ps, i) + Width(ps[i])
    ensures Offset(ps, i) + Width(ps[i]) <= Stride(ps)
    ensures Offset(ps, 0) == 0 && Offset(ps, |ps|) == Stride(ps)
  {
    var front := ps[..i + 1];
    assert front[..i] == ps[..i] && front[i] == ps[i];
    assert Stride(front) == Stride(ps[..i]) + Width(ps[i]);
    assert ps == front + ps[i + 1..];
    StrideAppend(front, ps[i + 1..]);
    assert ps[..0] == [];
    assert ps[..|ps|] == ps;
  }

  /**
   * The attribute pointers after `setVertexData`: attribute i of `ps` at
   * index base + i of the vertex array, read from `vbo` with the given
   * stride at its offset.
   */
  function AttribsAfter(m: map<(nat, nat), AttribPointer>, vao: nat, base: nat, ps: seq<VertexParameterLayout>, vbo: nat, stride: nat)
    : map<(nat, nat), AttribPointer>
  {
    if |ps| == 0 then m
    else
      var i := |ps| - 1;
      AttribsAfter(m, vao, base, ps[..i], vbo, stride)[(vao, base + i) := AttribPointer(ps[i].size, ps[i].componentType, stride, Offset(ps, i), vbo)]
  }

  lemma {:induction false} AttribsAfterEntries(m: map<(nat, nat), AttribPointer>, vao: nat, base: nat, ps: seq<VertexParameterLayout>, vbo: nat, stride: nat, key: (nat, nat))
    ensures var r := AttribsAfter(m, vao, base, ps, vbo, stride);
      && (key.0 == vao && base <= key.1 < base + |ps| ==>
            var i := key.1 - base;
            key in r && r[key] == AttribPointer(ps[i].size, ps[i].componentType, stride, Offset(ps, i), vbo))
      && (!(key.0 == vao && base <= key.1 < base + |ps|) ==> (key in r <==> key in m) && (key in m ==> r[key] == m[key]))
    decreases |ps|
  {
    if |ps| > 0 {
      var init := ps[..|ps| - 1];
      AttribsAfterEntries(m, vao, base, init, vbo, stride, key);
      if key.0 == vao && base <= key.1 < base + |init| {
        var i := key.1 - base;
        assert init[i] == ps[i];
        assert init[..i] == ps[..i];
      }
    }
  }

  /** The pairs (vertex array, index) for the indices base .. base + n - 1. */
  function IndexRange(vao: nat, base: nat, n: nat): (r: set<(nat, nat)>)
    ensures forall key :: key in r <==> key.0 == vao && base <= key.1 < base + n
  {
    set i | base <= i < base + n :: (vao, i)
  }

  /** One attribute of three float components, the layout of positions and of normals. */
  const Vec3Layout: seq<VertexParameterLayout> := [VertexParameterLayout(GL_FLOAT, 3)]

  /** A single vec3 attribute is one pointer at `base`, at offset 0 with stride 12, and enables that index alone. */
  lemma Vec3AttribAfter(m: map<(nat, nat), AttribPointer>, vao: nat, base: nat, vbo: nat)
    ensures Stride(Vec3Layout) == 12
    ensures AttribsAfter(m, vao, base, Vec3Layout, vbo, 12) == m[(vao, base) := AttribPointer(3, GL_FLOAT, 12, 0, vbo)]
    ensures IndexRange(vao, base, 1) == {(vao, base)}
  {
    assert Vec3Layout[..0] == [];
  }

  /** A mesh's arrays by their byte images: positions and normals as vec3 (12 bytes), indices as 4-byte unsigned ints. */
  datatype Mesh = Mesh(vertices: seq<Byte>, normals: seq<Byte>, indices: seq<Byte>)

  predicate WellFormedMesh(m: Mesh)
  {
    |m.vertices| % 12 == 0 && |m.normals| % 12 == 0 && |m.indices| % 4 == 0
  }

  class RenderMesh {
    var vao: nat
    var buffersData: seq<BufferData>
    var nextAttributeIndex: nat
    var dataArraySize: nat
    var meshAllocated: bool
    var hasElementBuffer: bool
    var ebo: nat
    var indexArraySize: nat
    var format: nat
    const drawMode: nat
    var printSurface: bool
    var printWireframe: bool
    var shader: Shader?
    var gridShader: Shader?

    /** Every vertex buffer and the element buffer exist in the driver; created shaders hold a program. */
    ghost predicate Valid(gl: Gl)
      reads this`buffersData, this`hasElementBuffer, this`ebo, gl`buffers
    {
      && (forall i :: 0 <= i < |buffersData| ==> buffersData[i].vbo in gl.buffers)
      && (hasElementBuffer ==> ebo in gl.buffers)
    }

    /** A shader, once created, has been loaded and holds its program. */
    ghost predicate ShadersLoaded()
      reads this`shader, this`gridShader
      reads if shader == null then {} else {shader}, if gridShader == null then {} else {gridShader}
    {
      && (shader != null ==> shader.program != null)
      && (gridShader != null ==> gridShader.program != null)
    }

    constructor (format: nat, drawMode: nat, printSurface: bool, printWireframe: bool)
      ensures vao == 0 && buffersData == [] && nextAttributeIndex == 0 && dataArraySize == 0
      ensures !meshAllocated && !hasElementBuffer && ebo == 0 && indexArraySize == 0
      ensures this.format == format && this.drawMode == drawMode
      ensures this.printSurface == printSurface && this.printWireframe == printWireframe
      ensures shader == null && gridShader == null
    {
      vao, buffersData, nextAttributeIndex, dataArraySize := 0, [], 0, 0;
      meshAllocated, hasElementBuffer, ebo, indexArraySize := false, false, 0, 0;
      this.format, this.drawMode := format, drawMode;
      this.printSurface, this.printWireframe := printSurface, printWireframe;
      shader, gridShader := null, null;
    }

    /** glGenVertexArrays: the mesh gets its vertex array name. */
    method Start(gl: Gl)
      requires gl.Valid()
      modifies this`vao, gl`nextName
      ensures gl.Valid() && vao == old(gl.nextName) && gl.nextName == vao + 1
    {
      vao := gl.CreateName();
    }

    /** The sum of the parameters' widths, accumulated as `setVertexData` does. */
    static method StripSize(parameters: seq<VertexParameterLayout>) returns (stripSize: nat)
      ensures stripSize == Stride(parameters)
    {
      stripSize := 0;
      var i := 0;
      while i < |parameters|
        invariant 0 <= i <= |parameters| && stripSize == Stride(parameters[..i])
      {
        assert parameters[..i + 1][..i] == parameters[..i];
        stripSize := stripSize + parameters[i].size * GetSize(parameters[i].componentType);
        i := i + 1;
      }
      assert parameters[..|parameters|] == parameters;
    }

    /**
     * Creates a vertex buffer holding `numElements` vertices of the given
     * layout, records it, points consecutive attribute indices at its
     * interleaved attributes, and returns the record's index.
     */
    method SetVertexData(gl: Gl, parameters: seq<VertexParameterLayout>, data: seq<Byte>, numElements: nat) returns (index: nat)
      requires gl.Valid() && Valid(gl)
      requires numElements * Stride(parameters) <= |data|
      modifies this`dataArraySize, this`buffersData, this`nextAttributeIndex, this`meshAllocated
      modifies gl`nextName, gl`buffers, gl`attribs, gl`enabledAttribs
      ensures gl.Valid() && Valid(gl)
      ensures dataArraySize == numElements && meshAllocated
      ensures buffersData == old(buffersData) + [BufferData(old(gl.nextName), Stride(parameters))]
      ensures index == |buffersData| - 1
      ensures buffersData[index].vbo !in old(gl.buffers)
      ensures gl.buffers == old(gl.buffers)[buffersData[index].vbo := data[..numElements * Stride(parameters)]]
      ensures nextAttributeIndex == old(nextAttributeIndex) + |parameters|
      ensures gl.attribs == AttribsAfter(old(gl.attribs), vao, old(nextAttributeIndex), parameters, buffersData[index].vbo, Stride(parameters))
      ensures gl.enabledAttribs == old(gl.enabledAttribs) + IndexRange(vao, old(nextAttributeIndex), |parameters|)
    {
      dataArraySize := numElements;
      var vbo := gl.GenBuffer();
      var stripSize := StripSize(parameters);
      buffersData := buffersData + [BufferData(vbo, stripSize)];
      index := |buffersData| - 1;
      assert buffersData[index].vbo == vbo;
      gl.BufferData(vbo, data[..numElements * stripSize]);

      PointAttributes(gl, parameters, vbo, stripSize);
      meshAllocated := true;
    }

    /** `setVertexData` with the single vec3 float layout, for a whole array of vec3 values. */
    method SetVec3Data(gl: Gl, data: seq<Byte>)
      requires gl.Valid() && Valid(gl) && |data| % 12 == 0
      modifies this`dataArraySize, this`buffersData, this`nextAttributeIndex, this`meshAllocated
      modifies gl`nextName, gl`buffers, gl`attribs, gl`enabledAttribs
      ensures gl.Valid() && Valid(gl)
      ensures dataArraySize == |data| / 12 && meshAllocated
      ensures buffersData == old(buffersData) + [BufferData(old(gl.nextName), 12)]
      ensures old(gl.nextName) !in old(gl.buffers) && gl.buffers == old(gl.buffers)[old(gl.nextName) := data]
      ensures nextAttributeIndex == old(nextAttributeIndex) + 1
      ensures gl.attribs == old(gl.attribs)[(vao, old(nextAttributeIndex)) := AttribPointer(3, GL_FLOAT, 12, 0, old(gl.nextName))]
      ensures gl.enabledAttribs == old(gl.enabledAttribs) + {(vao, old(nextAttributeIndex))}
    {
      var n := |data| / 12;
      assert data[..n * 12] == data;
      Vec3AttribAfter(gl.attribs, vao, nextAttributeIndex, gl.nextName);
      var _ := SetVertexData(gl, Vec3Layout, data, n);
    }

    /** The attribute loop of `setVertexData`: consecutive indices, offsets by running width. */
    method PointAttributes(gl: Gl, parameters: seq<VertexParameterLayout>, vbo: nat, stripSize: nat)
      modifies this`nextAttributeIndex, gl`attribs, gl`enabledAttribs
      ensures nextAttributeIndex == old(nextAttributeIndex) + |parameters|
      ensures gl.attribs == AttribsAfter(old(gl.attribs), vao, old(nextAttributeIndex), parameters, vbo, stripSize)
      ensures gl.enabledAttribs == old(gl.enabledAttribs) + IndexRange(vao, old(nextAttributeIndex), |parameters|)
    {
      var currentSize := 0;
      var i := 0;
      while i < |parameters|
        invariant 0 <= i <= |parameters|
        invariant currentSize == Stride(parameters[..i]) && nextAttributeIndex == old(nextAttributeIndex) + i
        invariant gl.attribs == AttribsAfter(old(gl.attribs), vao, old(nextAttributeIndex), parameters[..i], vbo, stripSize)
        invariant gl.enabledAttribs == old(gl.enabledAttribs) + IndexRange(vao, old(nextAttributeIndex), i)
      {
        assert parameters[..i + 1][..i] == parameters[..i];
        var p := parameters[i];
        gl.VertexAttribPointer(vao, nextAttributeIndex, AttribPointer(p.size, p.componentType, stripSize, currentSize, vbo));
        gl.EnableVertexAttribArray(vao, nextAttributeIndex);
        nextAttributeIndex := nextAttributeIndex + 1;
        currentSize := currentSize + p.size * GetSize(p.componentType);
        i := i + 1;
      }
      assert parameters[..|parameters|] == parameters;
    }

    /** Replaces the data of an existing vertex buffer, using the vertex size recorded for it. */
    method SetVertexDataAt(gl: Gl, bufferId: nat, data: seq<Byte>, numElements: nat)
      requires gl.Valid() && Valid(gl)
      requires bufferId < |buffersData|
      requires numElements * buffersData[bufferId].elementsSize <= |data|
      modifies this`dataArraySize, gl`buffers
      ensures gl.Valid() && Valid(gl) && dataArraySize == numElements
      ensures gl.buffers == old(gl.buffers)[buffersData[bufferId].vbo := data[..numElements * buffersData[bufferId].elementsSize]]
    {
      dataArraySize := numElements;
      var b := buffersData[bufferId];
      gl.BufferData(b.vbo, data[..numElements * b.elementsSize]);
    }

    /**
     * Uploads `numElements` 4-byte indices into the element buffer, creating
     * it on the first call only, and records the count and primitive mode.
     */
    method SetIndexDataMode(gl: Gl, data: seq<Byte>, numElements: nat, mode: nat)
      requires gl.Valid() && Valid(gl)
      requires 4 * numElements <= |data|
      modifies this`hasElementBuffer, this`ebo, this`indexArraySize, this`format, gl`nextName, gl`buffers
      ensures gl.Valid() && Valid(gl)
      ensures hasElementBuffer && indexArraySize == numElements && format == mode
      ensures old(hasElementBuffer) ==> ebo == old(ebo) && gl.nextName == old(gl.nextName)
      ensures !old(hasElementBuffer) ==> ebo == old(gl.nextName) && ebo !in old(gl.buffers)
      ensures gl.buffers == old(gl.buffers)[ebo := data[..4 * numElements]]
    {
      if !hasElementBuffer {
        ebo := gl.GenBuffer();
        hasElementBuffer := true;
      }
      indexArraySize := numElements;
      format := mode;
      gl.BufferData(ebo, data[..4 * numElements]);
    }

    /** `setIndexData(data, numElements)`: triangles. */
    method SetIndexData(gl: Gl, data: seq<Byte>, numElements: nat)
      requires gl.Valid() && Valid(gl)
      requires 4 * numElements <= |data|
      modifies this`hasElementBuffer, this`ebo, this`indexArraySize, this`format, gl`nextName, gl`buffers
      ensures gl.Valid() && Valid(gl)
      ensures hasElementBuffer && indexArraySize == numElements && format == GL_TRIANGLES
      ensures old(hasElementBuffer) ==> ebo == old(ebo) && gl.nextName == old(gl.nextName)
      ensures !old(hasElementBuffer) ==> ebo == old(gl.nextName) && ebo !in old(gl.buffers)
      ensures gl.buffers == old(gl.buffers)[ebo := data[..4 * numElements]]
    {
      SetIndexDataMode(gl, data, numElements, GL_TRIANGLES);
    }

    /** `setIndexData(indices)`: the whole vector, as triangles. */
    method SetIndexDataVector(gl: Gl, indices: seq<Byte>)
      requires gl.Valid() && Valid(gl)
      requires |indices| % 4 == 0
      modifies this`hasElementBuffer, this`ebo, this`indexArraySize, this`format, gl`nextName, gl`buffers
      ensures gl.Valid() && Valid(gl)
      ensures hasElementBuffer && indexArraySize == |indices| / 4 && format == GL_TRIANGLES
      ensures old(hasElementBuffer) ==> ebo == old(ebo) && gl.nextName == old(gl.nextName)
      ensures !old(hasElementBuffer) ==> ebo == old(gl.nextName) && ebo !in old(gl.buffers)
      ensures gl.buffers == old(gl.buffers)[ebo := indices]
    {
      assert indices[..4 * (|indices| / 4)] == indices;
      SetIndexData(gl, indices, |indices| / 4);
    }

    /**
     * Uploads the positions as one vec3 attribute, the normals as another
     * only when there are as many normals as positions, then the indices as
     * triangles.
     */
    method SetMeshData(gl: Gl, mesh: Mesh)
      requires gl.Valid() && Valid(gl) && WellFormedMesh(mesh)
      modifies this`dataArraySize, this`buffersData, this`nextAttributeIndex, this`meshAllocated
      modifies this`hasElementBuffer, this`ebo, this`indexArraySize, this`format
      modifies gl`nextName, gl`buffers, gl`attribs, gl`enabledAttribs
      ensures gl.Valid() && Valid(gl) && meshAllocated
      ensures var withNormals := |mesh.normals| / 12 == |mesh.vertices| / 12;
        && |buffersData| == |old(buffersData)| + (if withNormals then 2 else 1)
        && buffersData[..|old(buffersData)|] == old(buffersData)
        && gl.buffers[buffersData[|old(buffersData)|].vbo] == mesh.vertices
        && (withNormals ==> gl.buffers[buffersData[|old(buffersData)| + 1].vbo] == mesh.normals)
        && nextAttributeIndex == old(nextAttributeIndex) + (if withNormals then 2 else 1)
      ensures var base := old(nextAttributeIndex);
        var position := AttribPointer(3, GL_FLOAT, 12, 0, buffersData[|old(buffersData)|].vbo);
        if |mesh.normals| / 12 == |mesh.vertices| / 12 then
          var normal := AttribPointer(3, GL_FLOAT, 12, 0, buffersData[|old(buffersData)| + 1].vbo);
          && gl.attribs == old(gl.attribs)[(vao, base) := position][(vao, base + 1) := normal]
          && gl.enabledAttribs == old(gl.enabledAttribs) + {(vao, base), (vao, base + 1)}
        else
          && gl.attribs == old(gl.attribs)[(vao, base) := position]
          && gl.enabledAttribs == old(gl.enabledAttribs) + {(vao, base)}
      ensures dataArraySize == |mesh.vertices| / 12
      ensures hasElementBuffer && indexArraySize == |mesh.indices| / 4 && format == GL_TRIANGLES
      ensures old(hasElementBuffer) ==> ebo == old(ebo)
      ensures var positions := buffersData[|old(buffersData)|].vbo;
        if |mesh.normals| / 12 == |mesh.vertices| / 12 then
          var normals := buffersData[|old(buffersData)| + 1].vbo;
          gl.buffers == old(gl.buffers)[positions := mesh.vertices][normals := mesh.normals][ebo := mesh.indices]
        else
          gl.buffers == old(gl.buffers)[positions := mesh.vertices][ebo := mesh.indices]
    {
      var n := |mesh.vertices| / 12;
      ghost var b0 := gl.buffers;
      SetVec3Data(gl, mesh.vertices);
      ghost var positions := buffersData[|buffersData| - 1].vbo;
      ghost var normals := positions;
      if |mesh.normals| / 12 == n {
        SetVec3Data(gl, mesh.normals);
        normals := buffersData[|buffersData| - 1].vbo;
      }
      ghost var b1 := gl.buffers;
      assert hasElementBuffer ==> ebo in b0;
      SetIndexDataVector(gl, mesh.indices);
      assert ebo != positions && ebo != normals;
    }

    /** The draw call of one pass: indexed exactly when an element buffer exists. */
    function DrawFor(polygonMode: nat): (d: DrawCall)
      reads this`hasElementBuffer, this`format, this`indexArraySize, this`dataArraySize
      ensures d.DrawElements? <==> hasElementBuffer
      ensures d.mode == format && d.polygonMode == polygonMode
      ensures d.count == if hasElementBuffer then indexArraySize else dataArraySize
    {
      if hasElementBuffer then DrawElements(format, indexArraySize, polygonMode)
      else DrawArrays(format, dataArraySize, polygonMode)
    }

    /** The surface pass's draw call, given the polygon mode in force before it: the mesh's draw mode, or the mode in force when that is fill. */
    function SurfaceDraws(before: nat): seq<DrawCall>
      reads this`hasElementBuffer, this`format, this`indexArraySize, this`dataArraySize, this`printSurface
    {
      if printSurface then [DrawFor(if drawMode != GL_FILL then drawMode else before)] else []
    }

    /** The wireframe pass's draw call: always in line mode. */
    function WireframeDraws(): seq<DrawCall>
      reads this`hasElementBuffer, this`format, this`indexArraySize, this`dataArraySize, this`printWireframe
    {
      if printWireframe then [DrawFor(GL_LINE)] else []
    }

    /** The draw calls of an allocated mesh when both binds succeed: the surface pass, then the wireframe pass. */
    function PassDraws(before: nat): seq<DrawCall>
      reads this`hasElementBuffer, this`format, this`indexArraySize, this`dataArraySize
      reads this`printSurface, this`printWireframe
    {
      SurfaceDraws(before) + WireframeDraws()
    }

    /** The polygon mode after an allocated mesh is drawn with both binds succeeding. */
    function ModeAfter(before: nat): nat
      reads this`printSurface, this`printWireframe
    {
      if printWireframe || (printSurface && drawMode != GL_FILL) then GL_FILL else before
    }

    /** The issued draws are one per enabled pass, and the wireframe pass is drawn in line mode. */
    lemma PassDrawsShape(before: nat)
      ensures |PassDraws(before)| == (if printSurface then 1 else 0) + (if printWireframe then 1 else 0)
      ensures forall i :: 0 <= i < |PassDraws(before)| ==>
        (PassDraws(before)[i].DrawElements? <==> hasElementBuffer) && PassDraws(before)[i].mode == format
      ensures printWireframe ==> PassDraws(before)[|PassDraws(before)| - 1].polygonMode == GL_LINE
      ensures printSurface && drawMode != GL_FILL ==> PassDraws(before)[0].polygonMode == drawMode
    {
    }

    /** Whatever the passes switched to, the polygon mode ends as fill unless no pass changed it. */
    lemma ModeAfterRestoresFill(before: nat)
      ensures ModeAfter(before) == GL_FILL || ModeAfter(before) == before
      ensures before == GL_FILL ==> ModeAfter(before) == GL_FILL
    {
    }

    /** Creates and loads a pass's shader under `name` if it does not exist yet. */
    static method ShaderFor(s: Shader?, name: string, loader: ShaderProgramLoader, fs: FileSystem, gl: Gl, iface: ProgramInterface)
      returns (r: Shader)
      requires gl.Valid() && Loadable(iface) && (s != null ==> s.program != null)
      modifies loader`programs, loader`alive, gl`nextName
      ensures gl.Valid() && r.program != null && gl.buffers == old(gl.buffers)
      ensures gl.draws == old(gl.draws) && gl.polygonMode == old(gl.polygonMode)
      ensures s != null ==> r == s && gl.nextName == old(gl.nextName) && unchanged(loader)
      ensures s == null ==> fresh(r) && loader.IsLive(name) && loader.programs[name] == r.program
      ensures forall other :: other != name ==>
        (other in loader.programs <==> other in old(loader.programs)) && (other in loader.programs ==> loader.programs[other] == old(loader.programs[other]))
      ensures old(loader.alive) <= loader.alive
    {
      if s == null {
        r := new Shader();
        var loaded := r.Load(name, loader, fs, gl, iface);
      } else {
        r := s;
      }
    }

    /** Binds a pass's shader; the outcome is that of its buffer loop. */
    method BindPass(s: Shader, gl: Gl, camera: Option<MatrixValues>) returns (outcome: BindOutcome)
      requires s.program != null && gl.Valid() && Valid(gl) && ShadersLoaded()
      modifies gl`currentProgram, gl`uniformValues, gl`indexedBindings
      ensures gl.Valid() && Valid(gl) && ShadersLoaded()
      ensures gl.currentProgram == s.program.programId
      ensures gl.draws == old(gl.draws) && gl.polygonMode == old(gl.polygonMode)
      ensures camera.None? ==> gl.uniformValues == old(gl.uniformValues)
      ensures camera.Some? ==>
        gl.uniformValues == CameraEffect(old(gl.uniformValues), s.uniformsInfo, s.program.programId, camera.value)
      ensures var st := BindSeq(old(gl.indexedBindings), s.buffersInfo, InOrder(s.buffersInfo.Keys));
        outcome == st.outcome && gl.indexedBindings == st.bindings
    {
      outcome := s.Bind(gl, camera);
    }

    /** Sets the polygon mode, issues the pass's draw call, and restores fill. */
    method DrawInMode(gl: Gl, mode: nat, switchMode: bool)
      requires gl.Valid() && Valid(gl) && ShadersLoaded()
      modifies gl`polygonMode, gl`draws
      ensures gl.Valid() && Valid(gl) && ShadersLoaded()
      ensures gl.draws == old(gl.draws) + [DrawFor(if switchMode then mode else old(gl.polygonMode))]
      ensures gl.polygonMode == if switchMode then GL_FILL else old(gl.polygonMode)
    {
      if switchMode {
        gl.PolygonMode(mode);
      }
      gl.Draw(DrawFor(gl.polygonMode));
      if switchMode {
        gl.PolygonMode(GL_FILL);
      }
    }

    /**
     * The surface pass, when enabled: bind the "BasicRender" shader, switch
     * to the mesh's draw mode unless it is fill, draw, and switch back to fill.
     */
    method SurfacePass(gl: Gl, camera: Option<MatrixValues>, loader: ShaderProgramLoader, fs: FileSystem, iface: ProgramInterface)
      returns (outcome: BindOutcome)
      requires gl.Valid() && Valid(gl) && ShadersLoaded() && Loadable(iface)
      modifies this`shader, loader`programs, loader`alive
      modifies gl`nextName, gl`currentProgram, gl`uniformValues, gl`indexedBindings, gl`polygonMode, gl`draws
      ensures gl.Valid() && Valid(gl) && ShadersLoaded()
      ensures !printSurface ==> outcome == Bound && shader == old(shader) && unchanged(gl) && unchanged(loader)
      ensures printSurface ==> shader != null && (old(shader) != null ==> shader == old(shader))
      ensures outcome == Bound ==>
        gl.draws == old(gl.draws) + SurfaceDraws(old(gl.polygonMode)) &&
        gl.polygonMode == (if printSurface && drawMode != GL_FILL then GL_FILL else old(gl.polygonMode))
    {
      outcome := Bound;
      if printSurface {
        var s := ShaderFor(shader, "BasicRender", loader, fs, gl, iface);
        shader := s;
        assert Valid(gl) && ShadersLoaded();
        outcome := BindPass(s, gl, camera);
        if outcome.Bound? {
          DrawInMode(gl, drawMode, drawMode != GL_FILL);
        }
      } else {
        assert old(gl.draws) + [] == old(gl.draws);
      }
    }

    /** The wireframe pass, when enabled: bind the "RenderGrid" shader, draw in line mode, and switch back to fill. */
    method WireframePass(gl: Gl, camera: Option<MatrixValues>, loader: ShaderProgramLoader, fs: FileSystem, iface: ProgramInterface)
      returns (outcome: BindOutcome)
      requires gl.Valid() && Valid(gl) && ShadersLoaded() && Loadable(iface)
      modifies this`gridShader, loader`programs, loader`alive
      modifies gl`nextName, gl`currentProgram, gl`uniformValues, gl`indexedBindings, gl`polygonMode, gl`draws
      ensures gl.Valid() && Valid(gl) && ShadersLoaded()
      ensures !printWireframe ==> outcome == Bound && gridShader == old(gridShader) && unchanged(gl) && unchanged(loader)
      ensures printWireframe ==> gridShader != null && (old(gridShader) != null ==> gridShader == old(gridShader))
      ensures outcome == Bound ==>
        gl.draws == old(gl.draws) + WireframeDraws() &&
        gl.polygonMode == (if printWireframe then GL_FILL else old(gl.polygonMode))
    {
      outcome := Bound;
      if printWireframe {
        var g := ShaderFor(gridShader, "RenderGrid", loader, fs, gl, iface);
        gridShader := g;
        assert Valid(gl) && ShadersLoaded();
        outcome := BindPass(g, gl, camera);
        if outcome.Bound? {
          DrawInMode(gl, GL_LINE, true);
        }
      } else {
        assert old(gl.draws) + [] == old(gl.draws);
      }
    }

    /**
     * Draws an allocated mesh: the surface pass, then the wireframe pass,
     * each with its shader created on first use. A bind that meets a null
     * buffer ends the draw.
     */
    method Draw(gl: Gl, camera: Option<MatrixValues>, loader: ShaderProgramLoader, fs: FileSystem,
                basicIface: ProgramInterface, gridIface: ProgramInterface) returns (outcome: BindOutcome)
      requires gl.Valid() && Valid(gl) && ShadersLoaded() && Loadable(basicIface) && Loadable(gridIface)
      modifies this`shader, this`gridShader, loader`programs, loader`alive
      modifies gl`nextName, gl`currentProgram, gl`uniformValues, gl`indexedBindings, gl`polygonMode, gl`draws
      ensures gl.Valid() && Valid(gl) && ShadersLoaded()
      ensures !meshAllocated ==>
        outcome == Bound && shader == old(shader) && gridShader == old(gridShader) && unchanged(gl) && unchanged(loader)
      ensures meshAllocated ==>
        && (printSurface ==> shader != null && (old(shader) != null ==> shader == old(shader)))
        && (!printSurface ==> shader == old(shader))
        && (outcome == Bound && printWireframe ==> gridShader != null && (old(gridShader) != null ==> gridShader == old(gridShader)))
        && (!printWireframe ==> gridShader == old(gridShader))
      ensures meshAllocated && outcome == Bound ==>
        gl.draws == old(gl.draws) + PassDraws(old(gl.polygonMode)) && gl.polygonMode == ModeAfter(old(gl.polygonMode))
    {
      outcome := Bound;
      if meshAllocated {
        outcome := BothPasses(gl, camera, loader, fs, basicIface, gridIface);
      }
    }

    /** The surface pass, then, unless its bind met a null buffer, the wireframe pass. */
    method BothPasses(gl: Gl, camera: Option<MatrixValues>, loader: ShaderProgramLoader, fs: FileSystem,
                      basicIface: ProgramInterface, gridIface: ProgramInterface) returns (outcome: BindOutcome)
      requires gl.Valid() && Valid(gl) && ShadersLoaded() && Loadable(basicIface) && Loadable(gridIface)
      modifies this`shader, this`gridShader, loader`programs, loader`alive
      modifies gl`nextName, gl`currentProgram, gl`uniformValues, gl`indexedBindings, gl`polygonMode, gl`draws
      ensures gl.Valid() && Valid(gl) && ShadersLoaded()
      ensures outcome == Bound ==>
        gl.draws == old(gl.draws) + PassDraws(old(gl.polygonMode)) && gl.polygonMode == ModeAfter(old(gl.polygonMode))
      ensures printSurface ==> shader != null && (old(shader) != null ==> shader == old(shader))
      ensures !printSurface ==> shader == old(shader)
      ensures outcome == Bound && printWireframe ==> gridShader != null && (old(gridShader) != null ==> gridShader == old(gridShader))
      ensures !printWireframe ==> gridShader == old(gridShader)
    {
      ghost var d0 := gl.draws;
      ghost var surface := SurfaceDraws(gl.polygonMode);
      outcome := SurfacePass(gl, camera, loader, fs, basicIface);
      if outcome.NullBuffer? {
        return;
      }
      outcome := WireframePass(gl, camera, loader, fs, gridIface);
      assert d0 + surface + WireframeDraws() == d0 + (surface + WireframeDraws());
    }
  }
}
