/**
 * `Shader` (src/shaders/Shader.cpp, include/MyRender/shaders/Shader.h): the
 * name-keyed catalog of a linked program's uniforms, samplers, images and
 * buffer blocks, and the operations that read and write through it.
 *
 * What the driver reports about a linked program is passed in as a
 * `ProgramInterface`; typed values and vectors are passed as their byte
 * images.
 */
module Shaders {
  import opened Common
  import opened GlDriver
  import opened ShaderTypes
  import opened ShaderBuffers
  import opened ShaderCatalog
  import opened KeyOrder
  import opened Programs
  import opened ProgramLoader

  /** The inner loop of `load` over one block's variables, in enumeration order. */
  method ReadVariables(props: seq<VariableProps>) returns (vars: seq<ShaderBufferVariable>)
    requires forall i :: 0 <= i < |props| ==> props[i].typeCode in UniformTypes
    ensures vars == Variables(props)
  {
    vars := [];
    var i := 0;
    while i < |props|
      invariant 0 <= i <= |props| && |vars| == i
      invariant forall j :: 0 <= j < i ==>
        vars[j] == ShaderBufferVariable(props[j].offset, UniformTypes[props[j].typeCode], props[j].arraySize, props[j].arrayStride)
    {
      var p := props[i];
      vars := vars + [ShaderBufferVariable(p.offset, UniformTypes[p.typeCode], p.arraySize, p.arrayStride)];
      i := i + 1;
    }
  }

  class Shader {
    var valid: bool
    var program: ShaderProgram?
    var uniformsInfo: map<string, UniformInfo>
    var samplersInfo: map<string, TextureInfo>
    var imagesInfo: map<string, TextureInfo>
    var buffersInfo: map<string, ShaderBuffer>

    constructor ()
      ensures !valid && program == null
      ensures uniformsInfo == map[] && samplersInfo == map[] && imagesInfo == map[] && buffersInfo == map[]
    {
      valid, program := false, null;
      uniformsInfo, samplersInfo, imagesInfo, buffersInfo := map[], map[], map[], map[];
    }

    function TablesOf(): Tables
      reads this
    {
      Tables(uniformsInfo, samplersInfo, imagesInfo)
    }

    /** Every backing buffer is a buffer object the driver holds, of its entry's type. */
    ghost predicate BuffersLive(gl: Gl)
      reads this, gl
    {
      forall n :: n in buffersInfo && buffersInfo[n].buffer != null ==>
        buffersInfo[n].buffer.locId in gl.buffers && buffersInfo[n].buffer.bufferType == buffersInfo[n].bufferType
    }

    /** Whether the last `load` succeeded. */
    function IsValid(): (r: bool)
      reads this
      ensures r == valid
    {
      valid
    }

    /** A uniform is known exactly when some value of it would be accepted by `setUniform`. */
    function HasUniform(name: string): (r: bool)
      reads this
      ensures r <==> exists value :: SetUniformAccepts(uniformsInfo, name, value)
    {
      if name in uniformsInfo then
        assert SetUniformAccepts(uniformsInfo, name, seq(ExpectedSize(uniformsInfo[name]), _ => 0));
        true
      else
        false
    }

    /** The buffer backing a catalogued block; null for an unknown name or a block with no buffer yet. */
    function GetBuffer(name: string): (b: Buffer?)
      reads this
      ensures name !in buffersInfo ==> b == null
      ensures name in buffersInfo ==> b == buffersInfo[name].buffer
    {
      if name in buffersInfo then buffersInfo[name].buffer else null
    }

    /** `Shader::loadShader`: a default shader, then `load`. */
    static method LoadShader(shaderName: string, loader: ShaderProgramLoader, fs: FileSystem, gl: Gl, iface: ProgramInterface)
      returns (s: Shader)
      requires gl.Valid() && Loadable(iface)
      modifies loader`programs, loader`alive, gl`nextName
      ensures fresh(s) && gl.Valid() && s.program != null
      ensures s.valid == s.program.valid
      ensures s.valid ==> s.TablesOf() == ClassifyAll(Tables(map[], map[], map[]), iface.uniforms)
      ensures s.valid ==> s.buffersInfo == LoadBuffers(map[], iface)
      ensures !s.valid ==> s.TablesOf() == Tables(map[], map[], map[]) && s.buffersInfo == map[]
      ensures loader.IsLive(shaderName) && loader.programs[shaderName] == s.program
      ensures forall other :: other != shaderName ==>
        (other in loader.programs <==> other in old(loader.programs)) && (other in loader.programs ==> loader.programs[other] == old(loader.programs[other]))
      ensures old(loader.alive) <= loader.alive
    {
      s := new Shader();
      var _ := s.Load(shaderName, loader, fs, gl, iface);
    }

    /**
     * Fetches the program through the cache; when it is valid, catalogues
     * the reflected interface and marks the shader valid. An invalid
     * program leaves the catalog and `valid` as they were.
     */
    method Load(shaderName: string, loader: ShaderProgramLoader, fs: FileSystem, gl: Gl, iface: ProgramInterface)
      returns (ok: bool)
      requires gl.Valid() && Loadable(iface)
      modifies this, loader`programs, loader`alive, gl`nextName
      ensures gl.Valid() && gl.buffers == old(gl.buffers)
      ensures program != null && loader.IsLive(shaderName) && loader.programs[shaderName] == program
      ensures ok == program.valid
      ensures !ok ==> valid == old(valid) && TablesOf() == old(TablesOf()) && buffersInfo == old(buffersInfo)
      ensures ok ==> valid
      ensures ok ==> TablesOf() == ClassifyAll(old(TablesOf()), iface.uniforms)
      ensures ok ==> buffersInfo == LoadBuffers(old(buffersInfo), iface)
      ensures old(BuffersLive(gl)) ==> BuffersLive(gl)
      ensures forall other :: other != shaderName ==>
        (other in loader.programs <==> other in old(loader.programs)) && (other in loader.programs ==> loader.programs[other] == old(loader.programs[other]))
      ensures old(loader.alive) <= loader.alive
    {
      var p := loader.LoadProgram(shaderName, fs, gl);
      program := p;
      if !p.valid {
        ok := false;
        return;
      }
      Catalogue(iface);
      ok := true;
    }

    /** The part of `load` after the validity check: both passes, then `mValid`. */
    method Catalogue(iface: ProgramInterface)
      requires Loadable(iface)
      modifies this`uniformsInfo, this`samplersInfo, this`imagesInfo, this`buffersInfo, this`valid
      ensures valid
      ensures TablesOf() == ClassifyAll(old(TablesOf()), iface.uniforms)
      ensures buffersInfo == LoadBuffers(old(buffersInfo), iface)
      ensures forall n :: n in buffersInfo ==>
        (n in old(buffersInfo) && buffersInfo[n] == old(buffersInfo)[n]) || buffersInfo[n].buffer == null
    {
      ghost var before := buffersInfo;
      var counters := ClassifyUniforms(iface.uniforms);
      var sorted := SortByIndex(counters);
      RegisterStorageBlocks(iface.storageBlocks);
      RegisterCounterBlocks(iface.counterBlocks, sorted);
      valid := true;
      forall n | n in buffersInfo
        ensures (n in before && buffersInfo[n] == before[n]) || buffersInfo[n].buffer == null
      {
        LoadBuffersKeepsAndAddsEmpty(before, iface, n);
      }
    }

    /**
     * The uniform loop of `load`: atomic counters are set aside with their
     * resource index, the rest go to the first table that knows their type,
     * and unrecognised types are skipped.
     */
    method ClassifyUniforms(us: seq<ActiveUniform>) returns (counters: seq<CounterRef>)
      modifies this`uniformsInfo, this`samplersInfo, this`imagesInfo
      ensures TablesOf() == ClassifyAll(old(TablesOf()), us)
      ensures counters == CounterRefs(us)
    {
      counters := [];
      var i := 0;
      while i < |us|
        invariant 0 <= i <= |us|
        invariant TablesOf() == ClassifyAll(old(TablesOf()), us[..i])
        invariant counters == CounterRefs(us[..i])
      {
        assert us[..i + 1][..i] == us[..i];
        var u := us[i];
        if u.typeCode == GL_UNSIGNED_INT_ATOMIC_COUNTER {
          counters := counters + [CounterRef(u.resourceIndex, u.name)];
        } else if u.typeCode in UniformTypes {
          if u.name !in uniformsInfo {
            uniformsInfo := uniformsInfo[u.name := UniformInfo(i, UniformTypes[u.typeCode], u.count)];
          }
        } else if u.typeCode in SamplerTypes {
          if u.name !in samplersInfo {
            samplersInfo := samplersInfo[u.name := TextureInfo(SamplerTypes[u.typeCode])];
          }
        } else if u.typeCode in ImageTypes {
          if u.name !in imagesInfo {
            imagesInfo := imagesInfo[u.name := TextureInfo(ImageTypes[u.typeCode])];
          }
        }
        i := i + 1;
      }
      assert us[..|us|] == us;
    }

    /** The storage-block pass of `load`: each block under its own name. */
    method RegisterStorageBlocks(blocks: seq<StorageBlock>)
      requires forall i :: 0 <= i < |blocks| ==> KnownVariableTypes(blocks[i].block)
      modifies this`buffersInfo
      ensures buffersInfo == RegisterStorage(old(buffersInfo), blocks)
    {
      var bId := 0;
      while bId < |blocks|
        invariant 0 <= bId <= |blocks|
        invariant buffersInfo == RegisterStorage(old(buffersInfo), blocks[..bId])
      {
        assert blocks[..bId + 1][..bId] == blocks[..bId];
        var blk := blocks[bId];
        var vars := ReadVariables(blk.block.variables);
        if blk.name !in buffersInfo {
          buffersInfo := buffersInfo[blk.name := ShaderBuffer(GL_SHADER_STORAGE_BUFFER, blk.block.binding, vars, null)];
        }
        bId := bId + 1;
      }
      assert blocks[..|blocks|] == blocks;
    }

    /** The atomic-counter pass of `load`: the next sorted counter name for each buffer. */
    method RegisterCounterBlocks(blocks: seq<ActiveBlock>, counters: seq<CounterRef>)
      requires |blocks| <= |counters|
      requires forall i :: 0 <= i < |blocks| ==> KnownVariableTypes(blocks[i])
      modifies this`buffersInfo
      ensures buffersInfo == RegisterCounters(old(buffersInfo), blocks, Names(counters))
    {
      var nextAtomicCounterIdx := 0;
      var bId := 0;
      while bId < |blocks|
        invariant 0 <= bId <= |blocks| && nextAtomicCounterIdx == bId
        invariant buffersInfo == RegisterCounters(old(buffersInfo), blocks[..bId], Names(counters))
      {
        assert blocks[..bId + 1][..bId] == blocks[..bId];
        var bufferName := counters[nextAtomicCounterIdx].name;
        nextAtomicCounterIdx := nextAtomicCounterIdx + 1;
        var vars := ReadVariables(blocks[bId].variables);
        if bufferName !in buffersInfo {
          buffersInfo := buffersInfo[bufferName := ShaderBuffer(GL_ATOMIC_COUNTER_BUFFER, blocks[bId].binding, vars, null)];
        }
        bId := bId + 1;
      }
      assert blocks[..|blocks|] == blocks;
    }

    /**
     * Activates the program, then checks the name and the value's byte size;
     * an accepted value is uploaded at the recorded location with the
     * recorded element count when its type has an upload call.
     */
    method SetUniform(gl: Gl, name: string, value: seq<Byte>) returns (ok: bool)
      requires program != null
      modifies gl`currentProgram, gl`uniformValues
      ensures gl.currentProgram == program.programId
      ensures ok == SetUniformAccepts(uniformsInfo, name, value)
      ensures gl.uniformValues == UniformEffect(old(gl.uniformValues), uniformsInfo, program.programId, name, value)
    {
      program.Use(gl);
      if name !in uniformsInfo {
        return false;
      }
      var info := uniformsInfo[name];
      var size := info.numElements * info.shaderType.size;
      if |value| != size {
        return false;
      }
      match UploadCallFor(info.shaderType.glType) {
        case Some(call) => gl.Uniform(call, info.location, info.numElements, value);
        case None =>
      }
      return true;
    }

    /**
     * Activates the program, sets the seven camera uniforms when a camera is
     * given, then binds every catalogued buffer in key order; the first null
     * buffer ends the call.
     */
    method Bind(gl: Gl, camera: Option<MatrixValues>) returns (outcome: BindOutcome)
      requires program != null
      modifies gl`currentProgram, gl`uniformValues, gl`indexedBindings
      ensures gl.currentProgram == program.programId
      ensures camera.None? ==> gl.uniformValues == old(gl.uniformValues)
      ensures camera.Some? ==>
        gl.uniformValues == CameraEffect(old(gl.uniformValues), uniformsInfo, program.programId, camera.value)
      ensures var st := BindSeq(old(gl.indexedBindings), buffersInfo, InOrder(buffersInfo.Keys));
        outcome == st.outcome && gl.indexedBindings == st.bindings
    {
      program.Use(gl);
      if camera.Some? {
        var m := camera.value;
        var accepted := SetUniform(gl, "modelMatrix", m.model);
        accepted := SetUniform(gl, "normalModelMatrix", m.normalModel);
        accepted := SetUniform(gl, "viewMatrix", m.view);
        accepted := SetUniform(gl, "viewModelMatrix", m.viewModel);
        accepted := SetUniform(gl, "normalViewModelMatrix", m.normalViewModel);
        accepted := SetUniform(gl, "projectionMatrix", m.projection);
        accepted := SetUniform(gl, "projectionViewModelMatrix", m.projectionViewModel);
      }
      outcome := BindBuffers(gl);
    }

    /** The buffer loop of `bind`, visiting the entries as `std::map` does. */
    method BindBuffers(gl: Gl) returns (outcome: BindOutcome)
      modifies gl`indexedBindings
      ensures var st := BindSeq(old(gl.indexedBindings), buffersInfo, InOrder(buffersInfo.Keys));
        outcome == st.outcome && gl.indexedBindings == st.bindings
    {
      var remaining := buffersInfo.Keys;
      ghost var done: seq<string> := [];
      outcome := Bound;
      while remaining != {}
        invariant remaining <= buffersInfo.Keys
        invariant done + InOrder(remaining) == InOrder(buffersInfo.Keys)
        invariant forall x :: x in done ==> x in buffersInfo
        invariant BindSeq(old(gl.indexedBindings), buffersInfo, done) == BindState(Bound, gl.indexedBindings)
        decreases |remaining|
      {
        LeastExists(remaining);
        var n :| IsLeast(n, remaining);
        InOrderStep(done, remaining, n);
        BindSeqSnoc(old(gl.indexedBindings), buffersInfo, done, n);
        var e := buffersInfo[n];
        if e.buffer == null {
          outcome := NullBuffer(n);
          BindSeqStops(old(gl.indexedBindings), buffersInfo, done + [n], InOrder(remaining - {n}));
          return;
        }
        gl.BindBufferBase(e.bufferType, e.bindingIndex, e.buffer.locId);
        done := done + [n];
        remaining := remaining - {n};
      }
      assert done == InOrder(buffersInfo.Keys);
    }

    /** The buffer of an entry, created with the entry's type if there is none yet. */
    method EnsureBuffer(gl: Gl, name: string) returns (b: Buffer)
      requires gl.Valid() && BuffersLive(gl) && name in buffersInfo
      modifies this`buffersInfo, gl`nextName, gl`buffers
      ensures gl.Valid() && BuffersLive(gl) && b.locId in gl.buffers
      ensures buffersInfo == old(buffersInfo)[name := old(buffersInfo[name]).(buffer := b)]
      ensures old(buffersInfo[name].buffer) != null ==>
        b == old(buffersInfo[name].buffer) && gl.nextName == old(gl.nextName) && gl.buffers == old(gl.buffers)
      ensures old(buffersInfo[name].buffer) == null ==>
        && fresh(b) && b.bufferType == buffersInfo[name].bufferType
        && b.locId !in old(gl.buffers) && gl.buffers == old(gl.buffers)[b.locId := []]
    {
      var e := buffersInfo[name];
      if e.buffer == null {
        b := new Buffer(gl, e.bufferType);
        buffersInfo := buffersInfo[name := e.(buffer := b)];
      } else {
        b := e.buffer;
        assert buffersInfo == buffersInfo[name := e.(buffer := b)];
      }
    }

    /**
     * Activates the program; for a catalogued name, replaces the buffer's
     * whole contents with `data` (creating the buffer first if there is none)
     * and binds it at the entry's binding point.
     */
    method SetBufferData(gl: Gl, name: string, data: seq<Byte>) returns (ok: bool)
      requires program != null && gl.Valid() && BuffersLive(gl)
      modifies this`buffersInfo, gl`currentProgram, gl`nextName, gl`buffers, gl`indexedBindings
      ensures gl.Valid() && BuffersLive(gl) && gl.currentProgram == program.programId
      ensures ok == (name in old(buffersInfo))
      ensures !ok ==>
        buffersInfo == old(buffersInfo) && gl.nextName == old(gl.nextName) &&
        gl.buffers == old(gl.buffers) && gl.indexedBindings == old(gl.indexedBindings)
      ensures ok ==> name in buffersInfo && GetBuffer(name) != null
      ensures ok ==>
        var e := old(buffersInfo[name]);
        var b := GetBuffer(name);
        && buffersInfo == old(buffersInfo)[name := e.(buffer := b)]
        && (e.buffer != null ==> b == e.buffer && gl.nextName == old(gl.nextName))
        && (e.buffer == null ==> fresh(b) && b.bufferType == e.bufferType && b.locId !in old(gl.buffers))
        && gl.buffers == old(gl.buffers)[b.locId := data]
        && gl.indexedBindings == old(gl.indexedBindings)[BindingPoint(e) := b.locId]
    {
      program.Use(gl);
      if name !in buffersInfo {
        return false;
      }
      var b := EnsureBuffer(gl, name);
      b.SetData(gl, data);
      var e := buffersInfo[name];
      gl.BindBufferBase(e.bufferType, e.bindingIndex, b.GetId());
      return true;
    }

    /**
     * Activates the program; for a catalogued name, gives the buffer exactly
     * `sizeInBytes` bytes (creating it first if there is none) and binds it
     * at the entry's binding point.
     */
    method SetBufferSize(gl: Gl, name: string, sizeInBytes: nat) returns (ok: bool)
      requires program != null && gl.Valid() && BuffersLive(gl)
      modifies this`buffersInfo, gl`currentProgram, gl`nextName, gl`buffers, gl`indexedBindings
      ensures gl.Valid() && BuffersLive(gl) && gl.currentProgram == program.programId
      ensures ok == (name in old(buffersInfo))
      ensures !ok ==>
        buffersInfo == old(buffersInfo) && gl.nextName == old(gl.nextName) &&
        gl.buffers == old(gl.buffers) && gl.indexedBindings == old(gl.indexedBindings)
      ensures ok ==> name in buffersInfo && GetBuffer(name) != null
      ensures ok ==>
        var e := old(buffersInfo[name]);
        var b := GetBuffer(name);
        && buffersInfo == old(buffersInfo)[name := e.(buffer := b)]
        && (e.buffer != null ==> b == e.buffer && gl.nextName == old(gl.nextName))
        && (e.buffer == null ==> fresh(b) && b.bufferType == e.bufferType && b.locId !in old(gl.buffers))
        && b.locId in gl.buffers && |gl.buffers[b.locId]| == sizeInBytes
        && gl.buffers == old(gl.buffers)[b.locId := gl.buffers[b.locId]]
        && gl.indexedBindings == old(gl.indexedBindings)[BindingPoint(e) := b.locId]
    {
      program.Use(gl);
      if name !in buffersInfo {
        return false;
      }
      var b := EnsureBuffer(gl, name);
      b.Resize(gl, sizeInBytes);
      var e := buffersInfo[name];
      gl.BindBufferBase(e.bufferType, e.bindingIndex, b.GetId());
      return true;
    }

    /** Activates the program; the buffer's size, or 0 for an unknown name or a missing buffer. */
    method GetBufferSize(gl: Gl, name: string) returns (size: nat)
      requires program != null && BuffersLive(gl)
      modifies gl`currentProgram
      ensures gl.currentProgram == program.programId
      ensures GetBuffer(name) == null ==> size == 0
      ensures GetBuffer(name) != null ==> size == |gl.buffers[GetBuffer(name).locId]|
    {
      program.Use(gl);
      if name !in buffersInfo || buffersInfo[name].buffer == null {
        return 0;
      }
      size := buffersInfo[name].buffer.GetSize(gl);
    }

    /**
     * Reads the buffer of a catalogued name into the caller's bytes from
     * `byteOffset`; an unknown name or a missing buffer reads nothing.
     */
    method GetBufferDataByteOffset(gl: Gl, name: string, dst: array<Byte>, byteOffset: nat) returns (ok: bool)
      requires BuffersLive(gl)
      modifies dst
      ensures ok == (GetBuffer(name) != null)
      ensures !ok ==> dst[..] == old(dst[..])
      ensures ok ==> dst[..] == ReadBack(old(dst[..]), gl.buffers[GetBuffer(name).locId], byteOffset)
    {
      if name !in buffersInfo || buffersInfo[name].buffer == null {
        return false;
      }
      buffersInfo[name].buffer.GetData(gl, dst, byteOffset);
      return true;
    }

    /** `getBufferData` for elements of `elemSize` bytes: the byte-offset read from `startIndex * elemSize`. */
    method GetBufferData(gl: Gl, name: string, dst: array<Byte>, startIndex: nat, elemSize: nat) returns (ok: bool)
      requires BuffersLive(gl)
      modifies dst
      ensures ok == (GetBuffer(name) != null)
      ensures !ok ==> dst[..] == old(dst[..])
      ensures ok ==> dst[..] == ReadBack(old(dst[..]), gl.buffers[GetBuffer(name).locId], startIndex * elemSize)
    {
      ok := GetBufferDataByteOffset(gl, name, dst, startIndex * elemSize);
    }

    /**
     * Hands a buffer (or null) to a catalogued entry whose type it matches;
     * `getBuffer` then returns it, and no other entry changes.
     */
    method SetBuffer(gl: Gl, name: string, b: Buffer?) returns (ok: bool)
      requires BuffersLive(gl) && (b != null ==> b.locId in gl.buffers)
      modifies this`buffersInfo
      ensures BuffersLive(gl)
      ensures ok == (name in old(buffersInfo) && (b == null || b.GetType() == old(buffersInfo[name]).bufferType))
      ensures !ok ==> buffersInfo == old(buffersInfo)
      ensures ok ==> buffersInfo == old(buffersInfo)[name := old(buffersInfo[name]).(buffer := b)]
      ensures ok ==> GetBuffer(name) == b
      ensures forall other :: other != name ==> GetBuffer(other) == old(GetBuffer(other))
    {
      if name !in buffersInfo || (b != null && b.GetType() != buffersInfo[name].bufferType) {
        return false;
      }
      buffersInfo := buffersInfo[name := buffersInfo[name].(buffer := b)];
      return true;
    }

    /**
     * Writing `data` through `setBufferData` and reading it back from
     * element 0 into as many bytes returns `data`.
     */
    method BufferRoundTrip(gl: Gl, name: string, data: seq<Byte>, dst: array<Byte>, elemSize: nat) returns (ok: bool)
      requires program != null && gl.Valid() && BuffersLive(gl) && dst.Length == |data|
      modifies this`buffersInfo, gl`currentProgram, gl`nextName, gl`buffers, gl`indexedBindings, dst
      ensures ok == (name in old(buffersInfo))
      ensures ok ==> dst[..] == data
    {
      ok := SetBufferData(gl, name, data);
      if ok {
        ghost var before := dst[..];
        ok := GetBufferData(gl, name, dst, 0, elemSize);
        ReadBackRoundTrip(data, before);
      }
    }
  }

  /**
   * After a bind that met no null buffer, every entry whose binding point
   * no other entry shares is bound there to its own buffer; binding points
   * no entry uses are untouched.
   */
  lemma BindPlacesEveryBuffer(b: map<(nat, nat), nat>, bs: map<string, ShaderBuffer>, n: string, point: (nat, nat))
    requires BindSeq(b, bs, InOrder(bs.Keys)).outcome == Bound
    requires n in bs
    requires forall m :: m in bs && m != n ==> BindingPoint(bs[m]) != BindingPoint(bs[n])
    requires forall m :: m in bs ==> BindingPoint(bs[m]) != point
    ensures bs[n].buffer != null
    ensures BindingPoint(bs[n]) in BindSeq(b, bs, InOrder(bs.Keys)).bindings
    ensures BindSeq(b, bs, InOrder(bs.Keys)).bindings[BindingPoint(bs[n])] == bs[n].buffer.locId
    ensures point in BindSeq(b, bs, InOrder(bs.Keys)).bindings <==> point in b
  {
    var order := InOrder(bs.Keys);
    var k :| 0 <= k < |order| && order[k] == n;
    InOrderAscending(bs.Keys);
    forall j | k < j < |order|
      ensures BindingPoint(bs[order[j]]) != BindingPoint(bs[order[k]])
    {
      StrLessIrreflexive(order[k]);
    }
    BindSeqLastWins(b, bs, order, k);
    BindSeqUntouched(b, bs, order, point);
  }
}
