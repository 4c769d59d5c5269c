/**
 * The shader resource catalog as values (src/shaders/Shader.cpp,
 * include/MyRender/shaders/Shader.h): the reflected interface a linked
 * program reports, the catalog records `Shader::load` builds from it, and
 * the functions that say what `load`, `setUniform` and `bind` compute.
 */
module ShaderCatalog {
  import opened Common
  import opened GlDriver
  import opened ShaderTypes
  import opened ShaderBuffers

  /** One active uniform: name, type code, element count, and its GL_UNIFORM resource index. */
  datatype ActiveUniform = ActiveUniform(name: string, typeCode: nat, count: nat, resourceIndex: nat)

  /** GL_OFFSET, GL_TYPE, GL_ARRAY_SIZE and GL_ARRAY_STRIDE of one block variable. */
  datatype VariableProps = VariableProps(offset: nat, typeCode: nat, arraySize: nat, arrayStride: nat)

  /** GL_BUFFER_BINDING and the active variables of one block, in enumeration order. */
  datatype ActiveBlock = ActiveBlock(binding: nat, variables: seq<VariableProps>)

  /** A storage block, whose name the driver reports. */
  datatype StorageBlock = StorageBlock(name: string, block: ActiveBlock)

  /**
   * What the driver reports about a linked program: its active uniforms in
   * index order, its storage blocks, and its atomic-counter buffers (which
   * have no names).
   */
  datatype ProgramInterface = ProgramInterface(
    uniforms: seq<ActiveUniform>,
    storageBlocks: seq<StorageBlock>,
    counterBlocks: seq<ActiveBlock>)

  datatype UniformInfo = UniformInfo(location: nat, shaderType: ShaderType, numElements: nat)
  datatype TextureInfo = TextureInfo(textureType: TextureType)
  datatype ShaderBufferVariable = ShaderBufferVariable(offset: nat, shaderType: ShaderType, numElements: nat, arrayStride: nat)
  datatype ShaderBuffer = ShaderBuffer(bufferType: nat, bindingIndex: nat, variables: seq<ShaderBufferVariable>, buffer: Buffer?)

  /** The three uniform-side maps of the catalog. */
  datatype Tables = Tables(uniforms: map<string, UniformInfo>, samplers: map<string, TextureInfo>, images: map<string, TextureInfo>)

  /** An atomic-counter uniform held back by `load`: its resource index and name. */
  datatype CounterRef = CounterRef(resourceIndex: nat, name: string)

  /** `std::map::emplace`: inserts only when the key is absent. */
  function Emplace<V>(m: map<string, V>, k: string, v: V): map<string, V>
  {
    if k in m then m else m[k := v]
  }

  // ---------------------------------------------------------------- uniforms

  /** Files the uniform with active index `location` into at most one map. */
  function ClassifyUniform(t: Tables, u: ActiveUniform, location: nat): Tables
  {
    match CategoryOf(u.typeCode)
    case PlainUniform => t.(uniforms := Emplace(t.uniforms, u.name, UniformInfo(location, UniformTypes[u.typeCode], u.count)))
    case Sampler => t.(samplers := Emplace(t.samplers, u.name, TextureInfo(SamplerTypes[u.typeCode])))
    case Image => t.(images := Emplace(t.images, u.name, TextureInfo(ImageTypes[u.typeCode])))
    case AtomicCounter => t
    case Unrecognised => t
  }

  /** The uniform loop of `load` over all active uniforms, in index order. */
  function ClassifyAll(t: Tables, us: seq<ActiveUniform>): Tables
  {
    if |us| == 0 then t else ClassifyUniform(ClassifyAll(t, us[..|us| - 1]), us[|us| - 1], |us| - 1)
  }

  /** The names a table holds for a category; atomic counters and unrecognised types have none. */
  function NamesFor(t: Tables, c: Category): set<string>
  {
    match c
    case PlainUniform => t.uniforms.Keys
    case Sampler => t.samplers.Keys
    case Image => t.images.Keys
    case AtomicCounter => {}
    case Unrecognised => {}
  }

  /** One step of the uniform loop adds at most the uniform's own name, to its category's map. */
  lemma ClassifyUniformNames(t: Tables, u: ActiveUniform, location: nat, c: Category, n: string)
    requires c == PlainUniform || c == Sampler || c == Image
    ensures n in NamesFor(ClassifyUniform(t, u, location), c) <==> n in NamesFor(t, c) || (u.name == n && CategoryOf(u.typeCode) == c)
  {
  }

  /** Some active uniform of category `c` is named `n`. */
  predicate Carries(us: seq<ActiveUniform>, c: Category, n: string)
  {
    exists k :: 0 <= k < |us| && us[k].name == n && CategoryOf(us[k].typeCode) == c
  }

  lemma CarriesLast(us: seq<ActiveUniform>, c: Category, n: string)
    requires |us| > 0
    ensures Carries(us, c, n) <==>
      Carries(us[..|us| - 1], c, n) || (us[|us| - 1].name == n && CategoryOf(us[|us| - 1].typeCode) == c)
  {
    var init := us[..|us| - 1];
    if Carries(init, c, n) {
      var k :| 0 <= k < |init| && init[k].name == n && CategoryOf(init[k].typeCode) == c;
      assert us[k] == init[k];
    }
    if Carries(us, c, n) {
      var k :| 0 <= k < |us| && us[k].name == n && CategoryOf(us[k].typeCode) == c;
      if k < |init| {
        assert init[k] == us[k];
      }
    }
  }

  /**
   * After the uniform loop, a name is in the map for a category exactly when
   * it was there before or some active uniform of that category carries it.
   * So an atomic counter or an unrecognised type never enters any map, and
   * no uniform enters a map other than its category's.
   */
  lemma {:induction false} ClassifyAllNames(t: Tables, us: seq<ActiveUniform>, c: Category, n: string)
    requires c == PlainUniform || c == Sampler || c == Image
    ensures n in NamesFor(ClassifyAll(t, us), c) <==> n in NamesFor(t, c) || Carries(us, c, n)
    decreases |us|
  {
    if |us| > 0 {
      var init := us[..|us| - 1];
      ClassifyAllNames(t, init, c, n);
      ClassifyUniformNames(ClassifyAll(t, init), us[|us| - 1], |us| - 1, c, n);
      CarriesLast(us, c, n);
    }
  }

  /** One step of the uniform loop replaces no entry. */
  lemma ClassifyUniformKeeps(t: Tables, u: ActiveUniform, location: nat)
    ensures var r := ClassifyUniform(t, u, location);
      && t.uniforms.Keys <= r.uniforms.Keys && t.samplers.Keys <= r.samplers.Keys && t.images.Keys <= r.images.Keys
      && (forall n :: n in t.uniforms ==> r.uniforms[n] == t.uniforms[n])
      && (forall n :: n in t.samplers ==> r.samplers[n] == t.samplers[n])
      && (forall n :: n in t.images ==> r.images[n] == t.images[n])
  {
  }

  /** Entries already in the catalog are never replaced by the uniform loop. */
  lemma {:induction false} ClassifyAllKeepsExisting(t: Tables, us: seq<ActiveUniform>)
    ensures var r := ClassifyAll(t, us);
      && t.uniforms.Keys <= r.uniforms.Keys && t.samplers.Keys <= r.samplers.Keys && t.images.Keys <= r.images.Keys
      && (forall n :: n in t.uniforms ==> r.uniforms[n] == t.uniforms[n])
      && (forall n :: n in t.samplers ==> r.samplers[n] == t.samplers[n])
      && (forall n :: n in t.images ==> r.images[n] == t.images[n])
    decreases |us|
  {
    if |us| > 0 {
      var init := us[..|us| - 1];
      ClassifyAllKeepsExisting(t, init);
      ClassifyUniformKeeps(ClassifyAll(t, init), us[|us| - 1], |us| - 1);
    }
  }

  /**
   * For a new name, the uniform entry comes from the first plain uniform with
   * that name: its active index as location, its type's table entry and its
   * element count.
   */
  lemma {:induction false} ClassifyAllFirstWins(t: Tables, us: seq<ActiveUniform>, n: string, k: nat)
    requires n !in t.uniforms
    requires k < |us| && us[k].name == n && CategoryOf(us[k].typeCode) == PlainUniform
    requires forall j :: 0 <= j < k ==> !(us[j].name == n && CategoryOf(us[j].typeCode) == PlainUniform)
    ensures n in ClassifyAll(t, us).uniforms
    ensures ClassifyAll(t, us).uniforms[n] == UniformInfo(k, UniformTypes[us[k].typeCode], us[k].count)
    decreases |us|
  {
    var init := us[..|us| - 1];
    if k == |us| - 1 {
      forall j | 0 <= j < |init|
        ensures !(init[j].name == n && CategoryOf(init[j].typeCode) == PlainUniform)
      {
        assert init[j] == us[j];
      }
      ClassifyAllNames(t, init, PlainUniform, n);
    } else {
      forall j | 0 <= j < k
        ensures !(init[j].name == n && CategoryOf(init[j].typeCode) == PlainUniform)
      {
        assert init[j] == us[j];
      }
      ClassifyAllFirstWins(t, init, n, k);
    }
  }

  // ---------------------------------------------------------------- atomic counters

  /** The atomic-counter uniforms, in index order, as `load` collects them. */
  function CounterRefs(us: seq<ActiveUniform>): seq<CounterRef>
  {
    if |us| == 0 then []
    else
      var u := us[|us| - 1];
      CounterRefs(us[..|us| - 1]) + (if u.typeCode == GL_UNSIGNED_INT_ATOMIC_COUNTER then [CounterRef(u.resourceIndex, u.name)] else [])
  }

  /** Exactly the atomic-counter uniforms are collected. */
  lemma {:induction false} CounterRefsExact(us: seq<ActiveUniform>, r: CounterRef)
    ensures r in CounterRefs(us) <==>
      exists k :: 0 <= k < |us| && us[k].typeCode == GL_UNSIGNED_INT_ATOMIC_COUNTER && r == CounterRef(us[k].resourceIndex, us[k].name)
    decreases |us|
  {
    if |us| > 0 {
      var init := us[..|us| - 1];
      CounterRefsExact(init, r);
      if exists k :: 0 <= k < |init| && init[k].typeCode == GL_UNSIGNED_INT_ATOMIC_COUNTER && r == CounterRef(init[k].resourceIndex, init[k].name) {
        var k :| 0 <= k < |init| && init[k].typeCode == GL_UNSIGNED_INT_ATOMIC_COUNTER && r == CounterRef(init[k].resourceIndex, init[k].name);
        assert us[k] == init[k];
      }
      if exists k :: 0 <= k < |us| && us[k].typeCode == GL_UNSIGNED_INT_ATOMIC_COUNTER && r == CounterRef(us[k].resourceIndex, us[k].name) {
        var k :| 0 <= k < |us| && us[k].typeCode == GL_UNSIGNED_INT_ATOMIC_COUNTER && r == CounterRef(us[k].resourceIndex, us[k].name);
        if k < |init| {
          assert init[k] == us[k];
        }
      }
    }
  }

  predicate SortedByIndex(s: seq<CounterRef>)
  {
    forall i, j :: 0 <= i < j < |s| ==> s[i].resourceIndex <= s[j].resourceIndex
  }

  /** Every element of a permutation of `s` plus `x` is at least a common lower bound of both. */
  lemma LowerBoundKept(x: CounterRef, s: seq<CounterRef>, r: seq<CounterRef>, b: nat)
    requires multiset(r) == multiset(s) + multiset{x}
    requires b <= x.resourceIndex && forall i :: 0 <= i < |s| ==> b <= s[i].resourceIndex
    ensures forall k :: 0 <= k < |r| ==> b <= r[k].resourceIndex
  {
    forall k | 0 <= k < |r|
      ensures b <= r[k].resourceIndex
    {
      assert r[k] in multiset(r);
      if r[k] != x {
        assert r[k] in multiset(s);
        var i :| 0 <= i < |s| && s[i] == r[k];
      }
    }
  }

  /** A sorted sequence stays sorted under a head no larger than any of its elements. */
  lemma ConsSorted(h: CounterRef, s: seq<CounterRef>)
    requires SortedByIndex(s) && forall k :: 0 <= k < |s| ==> h.resourceIndex <= s[k].resourceIndex
    ensures SortedByIndex([h] + s)
  {
    var r := [h] + s;
    forall i, j | 0 <= i < j < |r|
      ensures r[i].resourceIndex <= r[j].resourceIndex
    {
      assert r[j] == s[j - 1];
      if i > 0 {
        assert r[i] == s[i - 1];
      }
    }
  }

  function InsertByIndex(x: CounterRef, s: seq<CounterRef>): (r: seq<CounterRef>)
    requires SortedByIndex(s)
    ensures |r| == |s| + 1
    ensures SortedByIndex(r) && multiset(r) == multiset(s) + multiset{x}
  {
    if |s| == 0 then [x]
    else if x.resourceIndex <= s[0].resourceIndex then
      ConsSorted(x, s);
      [x] + s
    else
      var rest := InsertByIndex(x, s[1..]);
      assert s == [s[0]] + s[1..];
      LowerBoundKept(x, s[1..], rest, s[0].resourceIndex);
      ConsSorted(s[0], rest);
      [s[0]] + rest
  }

  /** `std::sort` by resource index, ascending. */
  function SortByIndex(s: seq<CounterRef>): (r: seq<CounterRef>)
    ensures |r| == |s|
    ensures SortedByIndex(r) && multiset(r) == multiset(s)
  {
    if |s| == 0 then []
    else
      assert s == [s[0]] + s[1..];
      InsertByIndex(s[0], SortByIndex(s[1..]))
  }

  function Names(s: seq<CounterRef>): (r: seq<string>)
    ensures |r| == |s| && forall i :: 0 <= i < |s| ==> r[i] == s[i].name
  {
    if |s| == 0 then [] else [s[0].name] + Names(s[1..])
  }

  // ---------------------------------------------------------------- blocks

  predicate KnownVariableTypes(b: ActiveBlock)
  {
    forall i :: 0 <= i < |b.variables| ==> b.variables[i].typeCode in UniformTypes
  }

  function Variables(props: seq<VariableProps>): seq<ShaderBufferVariable>
    requires forall i :: 0 <= i < |props| ==> props[i].typeCode in UniformTypes
  {
    seq(|props|, i requires 0 <= i < |props| =>
      ShaderBufferVariable(props[i].offset, UniformTypes[props[i].typeCode], props[i].arraySize, props[i].arrayStride))
  }

  /** The record `load` registers for a block: its type, binding, variables, and no buffer yet. */
  function NewEntry(bufferType: nat, b: ActiveBlock): ShaderBuffer
    requires KnownVariableTypes(b)
  {
    ShaderBuffer(bufferType, b.binding, Variables(b.variables), null)
  }

  /** The storage-block pass of `load`. */
  function RegisterStorage(bs: map<string, ShaderBuffer>, blocks: seq<StorageBlock>): map<string, ShaderBuffer>
    requires forall i :: 0 <= i < |blocks| ==> KnownVariableTypes(blocks[i].block)
  {
    if |blocks| == 0 then bs
    else
      var b := blocks[|blocks| - 1];
      Emplace(RegisterStorage(bs, blocks[..|blocks| - 1]), b.name, NewEntry(GL_SHADER_STORAGE_BUFFER, b.block))
  }

  /** The atomic-counter pass of `load`: the k-th buffer takes the k-th name. */
  function RegisterCounters(bs: map<string, ShaderBuffer>, blocks: seq<ActiveBlock>, names: seq<string>): map<string, ShaderBuffer>
    requires |blocks| <= |names|
    requires forall i :: 0 <= i < |blocks| ==> KnownVariableTypes(blocks[i])
  {
    if |blocks| == 0 then bs
    else
      var k := |blocks| - 1;
      Emplace(RegisterCounters(bs, blocks[..k], names), names[k], NewEntry(GL_ATOMIC_COUNTER_BUFFER, blocks[k]))
  }

  /**
   * The names after the counter pass are the old names and the first
   * |blocks| counter names; existing entries are kept, and every new entry is
   * an atomic-counter buffer with no backing buffer.
   */
  lemma {:induction false} RegisterCountersEntries(bs: map<string, ShaderBuffer>, blocks: seq<ActiveBlock>, names: seq<string>, n: string)
    requires |blocks| <= |names|
    requires forall i :: 0 <= i < |blocks| ==> KnownVariableTypes(blocks[i])
    ensures n in RegisterCounters(bs, blocks, names) <==> n in bs || exists k :: 0 <= k < |blocks| && names[k] == n
    ensures n in bs ==> RegisterCounters(bs, blocks, names)[n] == bs[n]
    ensures n !in bs && n in RegisterCounters(bs, blocks, names) ==>
      RegisterCounters(bs, blocks, names)[n].bufferType == GL_ATOMIC_COUNTER_BUFFER &&
      RegisterCounters(bs, blocks, names)[n].buffer == null
    decreases |blocks|
  {
    if |blocks| > 0 {
      var init := blocks[..|blocks| - 1];
      RegisterCountersEntries(bs, init, names, n);
    }
  }

  /**
   * Positional naming: the k-th atomic-counter buffer is registered under the
   * k-th name, with its own binding and variables, unless an earlier entry
   * already holds that name.
   */
  lemma {:induction false} RegisterCountersByPosition(bs: map<string, ShaderBuffer>, blocks: seq<ActiveBlock>, names: seq<string>, k: nat)
    requires |blocks| <= |names|
    requires forall i :: 0 <= i < |blocks| ==> KnownVariableTypes(blocks[i])
    requires k < |blocks| && names[k] !in bs
    requires forall j :: 0 <= j < k ==> names[j] != names[k]
    ensures names[k] in RegisterCounters(bs, blocks, names)
    ensures RegisterCounters(bs, blocks, names)[names[k]] == NewEntry(GL_ATOMIC_COUNTER_BUFFER, blocks[k])
    decreases |blocks|
  {
    var init := blocks[..|blocks| - 1];
    if k == |blocks| - 1 {
      RegisterCountersEntries(bs, init, names, names[k]);
    } else {
      assert init[k] == blocks[k];
      RegisterCountersByPosition(bs, init, names, k);
    }
  }

  /** The storage pass keeps existing entries and adds storage buffers with no backing buffer. */
  lemma {:induction false} RegisterStorageEntries(bs: map<string, ShaderBuffer>, blocks: seq<StorageBlock>, n: string)
    requires forall i :: 0 <= i < |blocks| ==> KnownVariableTypes(blocks[i].block)
    ensures n in RegisterStorage(bs, blocks) <==> n in bs || exists k :: 0 <= k < |blocks| && blocks[k].name == n
    ensures n in bs ==> RegisterStorage(bs, blocks)[n] == bs[n]
    ensures n !in bs && n in RegisterStorage(bs, blocks) ==>
      RegisterStorage(bs, blocks)[n].bufferType == GL_SHADER_STORAGE_BUFFER &&
      RegisterStorage(bs, blocks)[n].buffer == null
    decreases |blocks|
  {
    if |blocks| > 0 {
      var init := blocks[..|blocks| - 1];
      RegisterStorageEntries(bs, init, n);
      if exists k :: 0 <= k < |init| && init[k].name == n {
        var k :| 0 <= k < |init| && init[k].name == n;
        assert blocks[k] == init[k];
      }
      if exists k :: 0 <= k < |blocks| && blocks[k].name == n {
        var k :| 0 <= k < |blocks| && blocks[k].name == n;
        if k < |init| {
          assert init[k] == blocks[k];
        }
      }
    }
  }

  /** A storage block's entry is its first occurrence: its binding and exactly its variables, in order. */
  lemma {:induction false} RegisterStorageFirstWins(bs: map<string, ShaderBuffer>, blocks: seq<StorageBlock>, k: nat)
    requires forall i :: 0 <= i < |blocks| ==> KnownVariableTypes(blocks[i].block)
    requires k < |blocks| && blocks[k].name !in bs
    requires forall j :: 0 <= j < k ==> blocks[j].name != blocks[k].name
    ensures blocks[k].name in RegisterStorage(bs, blocks)
    ensures RegisterStorage(bs, blocks)[blocks[k].name] == NewEntry(GL_SHADER_STORAGE_BUFFER, blocks[k].block)
    ensures |RegisterStorage(bs, blocks)[blocks[k].name].variables| == |blocks[k].block.variables|
    decreases |blocks|
  {
    var init := blocks[..|blocks| - 1];
    if k == |blocks| - 1 {
      forall j | 0 <= j < |init|
        ensures init[j].name != blocks[k].name
      {
        assert init[j] == blocks[j];
      }
      RegisterStorageEntries(bs, init, blocks[k].name);
    } else {
      assert init[k] == blocks[k];
      forall j | 0 <= j < k
        ensures init[j].name != init[k].name
      {
        assert init[j] == blocks[j];
      }
      RegisterStorageFirstWins(bs, init, k);
    }
  }

  // ---------------------------------------------------------------- the whole load

  /** What `load` demands of the interface: enough counter names, and known variable types. */
  predicate Loadable(iface: ProgramInterface)
  {
    && |iface.counterBlocks| <= |CounterRefs(iface.uniforms)|
    && (forall i :: 0 <= i < |iface.storageBlocks| ==> KnownVariableTypes(iface.storageBlocks[i].block))
    && (forall i :: 0 <= i < |iface.counterBlocks| ==> KnownVariableTypes(iface.counterBlocks[i]))
  }

  /** The counter names in the order they are handed to the atomic-counter buffers. */
  function CounterNames(iface: ProgramInterface): (r: seq<string>)
    ensures |r| == |CounterRefs(iface.uniforms)|
  {
    Names(SortByIndex(CounterRefs(iface.uniforms)))
  }

  /** The buffer map after both block passes. */
  function LoadBuffers(bs: map<string, ShaderBuffer>, iface: ProgramInterface): map<string, ShaderBuffer>
    requires Loadable(iface)
  {
    RegisterCounters(RegisterStorage(bs, iface.storageBlocks), iface.counterBlocks, CounterNames(iface))
  }

  /** Both block passes keep every existing entry and add entries with no backing buffer. */
  lemma LoadBuffersKeepsAndAddsEmpty(bs: map<string, ShaderBuffer>, iface: ProgramInterface, n: string)
    requires Loadable(iface)
    ensures n in bs ==> n in LoadBuffers(bs, iface) && LoadBuffers(bs, iface)[n] == bs[n]
    ensures n !in bs && n in LoadBuffers(bs, iface) ==> LoadBuffers(bs, iface)[n].buffer == null
  {
    RegisterStorageEntries(bs, iface.storageBlocks, n);
    RegisterCountersEntries(RegisterStorage(bs, iface.storageBlocks), iface.counterBlocks, CounterNames(iface), n);
  }

  /**
   * Handing counter names out by position: when the counters' resource
   * indices are distinct and the k-th sorted name is new, the k-th
   * atomic-counter buffer is registered under the name of the counter with
   * the k-th smallest resource index.
   */
  lemma CounterNamingBySortedIndex(bs: map<string, ShaderBuffer>, iface: ProgramInterface, k: nat)
    requires Loadable(iface)
    requires k < |iface.counterBlocks|
    requires CounterNames(iface)[k] !in RegisterStorage(bs, iface.storageBlocks)
    requires forall j :: 0 <= j < k ==> CounterNames(iface)[j] != CounterNames(iface)[k]
    ensures var sorted := SortByIndex(CounterRefs(iface.uniforms));
      && (forall i, j :: 0 <= i < j < |sorted| ==> sorted[i].resourceIndex <= sorted[j].resourceIndex)
      && multiset(sorted) == multiset(CounterRefs(iface.uniforms))
      && sorted[k].name in LoadBuffers(bs, iface)
      && LoadBuffers(bs, iface)[sorted[k].name] == NewEntry(GL_ATOMIC_COUNTER_BUFFER, iface.counterBlocks[k])
  {
    RegisterCountersByPosition(RegisterStorage(bs, iface.storageBlocks), iface.counterBlocks, CounterNames(iface), k);
  }

  // ---------------------------------------------------------------- setUniform

  /** The byte size `setUniform` demands for a uniform. */
  function ExpectedSize(info: UniformInfo): nat
  {
    info.numElements * info.shaderType.size
  }

  /** `setUniform` returns true exactly for a known name and a value of the recorded size. */
  predicate SetUniformAccepts(uniforms: map<string, UniformInfo>, name: string, value: seq<Byte>)
  {
    name in uniforms && |value| == ExpectedSize(uniforms[name])
  }

  /** The uniform values of the driver after `setUniform` on the program `pid`. */
  function UniformEffect(vals: map<(nat, nat), UniformUpload>, uniforms: map<string, UniformInfo>, pid: nat, name: string, value: seq<Byte>)
    : map<(nat, nat), UniformUpload>
  {
    if SetUniformAccepts(uniforms, name, value) && UploadCallFor(uniforms[name].shaderType.glType).Some? then
      var info := uniforms[name];
      vals[(pid, info.location) := UniformUpload(UploadCallFor(info.shaderType.glType).value, info.numElements, value)]
    else vals
  }

  /**
   * A rejected call leaves the uniforms alone; an accepted one changes at
   * most the uniform's own slot, to an upload of the value with the recorded
   * element count, or nothing for a type with no upload call.
   */
  lemma UniformEffectOnlyOwnSlot(vals: map<(nat, nat), UniformUpload>, uniforms: map<string, UniformInfo>, pid: nat, name: string, value: seq<Byte>)
    ensures !SetUniformAccepts(uniforms, name, value) ==> UniformEffect(vals, uniforms, pid, name, value) == vals
    ensures SetUniformAccepts(uniforms, name, value) ==>
      var info := uniforms[name];
      var r := UniformEffect(vals, uniforms, pid, name, value);
      && (forall key :: key != (pid, info.location) ==> (key in r <==> key in vals) && (key in r ==> r[key] == vals[key]))
      && (UploadCallFor(info.shaderType.glType).Some? ==>
            (pid, info.location) in r && r[(pid, info.location)].data == value && r[(pid, info.location)].count == info.numElements)
      && (UploadCallFor(info.shaderType.glType).None? ==> r == vals)
  {
  }

  /** Repeating an identical `setUniform` leaves the same driver state. */
  lemma UniformEffectIdempotent(vals: map<(nat, nat), UniformUpload>, uniforms: map<string, UniformInfo>, pid: nat, name: string, value: seq<Byte>)
    ensures UniformEffect(UniformEffect(vals, uniforms, pid, name, value), uniforms, pid, name, value)
         == UniformEffect(vals, uniforms, pid, name, value)
  {
  }

  /**
   * A vec3 array uniform of length 4 takes exactly 48 bytes: a
   * `std::array<float, 12>` is accepted and a `std::array<float, 8>` is not.
   */
  lemma Vec3ArrayAcceptsOnlyFullSize(value: seq<Byte>)
    ensures var uniforms := map["name" := UniformInfo(0, UniformTypes[GL_FLOAT_VEC3], 4)];
      SetUniformAccepts(uniforms, "name", value) <==> |value| == 48
  {
    UniformTypeSizeExamples();
  }

  // ---------------------------------------------------------------- bind

  /** The matrices `bind` uploads when given a camera, computed by the caller (byte images of glm values). */
  datatype MatrixValues = MatrixValues(
    model: seq<Byte>, normalModel: seq<Byte>, view: seq<Byte>, viewModel: seq<Byte>,
    normalViewModel: seq<Byte>, projection: seq<Byte>, projectionViewModel: seq<Byte>)

  const CameraUniformNames: seq<string> := [
    "modelMatrix", "normalModelMatrix", "viewMatrix", "viewModelMatrix",
    "normalViewModelMatrix", "projectionMatrix", "projectionViewModelMatrix"]

  /** The seven `setUniform` calls of `bind`, in order. */
  function CameraEffect(vals: map<(nat, nat), UniformUpload>, uniforms: map<string, UniformInfo>, pid: nat, m: MatrixValues)
    : map<(nat, nat), UniformUpload>
  {
    var v1 := UniformEffect(vals, uniforms, pid, "modelMatrix", m.model);
    var v2 := UniformEffect(v1, uniforms, pid, "normalModelMatrix", m.normalModel);
    var v3 := UniformEffect(v2, uniforms, pid, "viewMatrix", m.view);
    var v4 := UniformEffect(v3, uniforms, pid, "viewModelMatrix", m.viewModel);
    var v5 := UniformEffect(v4, uniforms, pid, "normalViewModelMatrix", m.normalViewModel);
    var v6 := UniformEffect(v5, uniforms, pid, "projectionMatrix", m.projection);
    UniformEffect(v6, uniforms, pid, "projectionViewModelMatrix", m.projectionViewModel)
  }

  /**
   * The camera uniforms touch only slots of catalogued camera-uniform names
   * in the bound program; names the program does not declare are skipped.
   */
  lemma CameraEffectOnlyCatalogued(vals: map<(nat, nat), UniformUpload>, uniforms: map<string, UniformInfo>, pid: nat, m: MatrixValues, key: (nat, nat))
    requires forall i :: 0 <= i < |CameraUniformNames| ==>
      CameraUniformNames[i] !in uniforms || key != (pid, uniforms[CameraUniformNames[i]].location)
    ensures var r := CameraEffect(vals, uniforms, pid, m);
      (key in r <==> key in vals) && (key in r ==> r[key] == vals[key])
  {
    assert CameraUniformNames[0] == "modelMatrix";
    assert CameraUniformNames[1] == "normalModelMatrix";
    assert CameraUniformNames[2] == "viewMatrix";
    assert CameraUniformNames[3] == "viewModelMatrix";
    assert CameraUniformNames[4] == "normalViewModelMatrix";
    assert CameraUniformNames[5] == "projectionMatrix";
    assert CameraUniformNames[6] == "projectionViewModelMatrix";
  }

  /** How `bind` ends: every buffer bound, or a null buffer dereferenced. */
  datatype BindOutcome = Bound | NullBuffer(name: string)

  datatype BindState = BindState(outcome: BindOutcome, bindings: map<(nat, nat), nat>)

  /** The indexed binding point of a buffer entry: its target and binding index. */
  function BindingPoint(e: ShaderBuffer): (nat, nat)
  {
    (e.bufferType, e.bindingIndex)
  }

  /**
   * The buffer loop of `bind` over the entries named by `order`: each
   * entry's buffer is bound at its binding point, and the loop ends at the
   * first entry whose buffer is null.
   */
  function BindSeq(b: map<(nat, nat), nat>, bs: map<string, ShaderBuffer>, order: seq<string>): BindState
    requires forall x :: x in order ==> x in bs
  {
    if |order| == 0 then BindState(Bound, b)
    else
      var st := BindSeq(b, bs, order[..|order| - 1]);
      var e := bs[order[|order| - 1]];
      if st.outcome.NullBuffer? then st
      else if e.buffer == null then BindState(NullBuffer(order[|order| - 1]), st.bindings)
      else BindState(Bound, st.bindings[BindingPoint(e) := e.buffer.locId])
  }

  /** One more entry visited: the loop's step. */
  lemma BindSeqSnoc(b: map<(nat, nat), nat>, bs: map<string, ShaderBuffer>, p: seq<string>, n: string)
    requires forall x :: x in p ==> x in bs
    requires n in bs
    ensures forall x :: x in p + [n] ==> x in bs
    ensures BindSeq(b, bs, p + [n]) ==
      var st := BindSeq(b, bs, p);
      if st.outcome.NullBuffer? then st
      else if bs[n].buffer == null then BindState(NullBuffer(n), st.bindings)
      else BindState(Bound, st.bindings[BindingPoint(bs[n]) := bs[n].buffer.locId])
  {
    assert (p + [n])[..|p|] == p;
  }

  /** Once a null buffer has been met, nothing further happens. */
  lemma {:induction false} BindSeqStops(b: map<(nat, nat), nat>, bs: map<string, ShaderBuffer>, p: seq<string>, q: seq<string>)
    requires forall x :: x in p + q ==> x in bs
    requires BindSeq(b, bs, p).outcome.NullBuffer?
    ensures BindSeq(b, bs, p + q) == BindSeq(b, bs, p)
    decreases |q|
  {
    if |q| > 0 {
      assert (p + q)[..|p + q| - 1] == p + q[..|q| - 1];
      BindSeqStops(b, bs, p, q[..|q| - 1]);
    } else {
      assert p + q == p;
    }
  }

  /**
   * The loop binds everything exactly when no entry is null; otherwise it
   * reports the first null entry in visiting order.
   */
  lemma {:induction false} BindSeqOutcome(b: map<(nat, nat), nat>, bs: map<string, ShaderBuffer>, order: seq<string>)
    requires forall x :: x in order ==> x in bs
    ensures BindSeq(b, bs, order).outcome == Bound <==> forall i :: 0 <= i < |order| ==> bs[order[i]].buffer != null
    ensures BindSeq(b, bs, order).outcome.NullBuffer? ==>
      exists k :: 0 <= k < |order| && order[k] == BindSeq(b, bs, order).outcome.name && bs[order[k]].buffer == null &&
        forall j :: 0 <= j < k ==> bs[order[j]].buffer != null
    decreases |order|
  {
    if |order| > 0 {
      var init := order[..|order| - 1];
      BindSeqOutcome(b, bs, init);
      var st := BindSeq(b, bs, init);
      if st.outcome.NullBuffer? {
        var k :| 0 <= k < |init| && init[k] == st.outcome.name && bs[init[k]].buffer == null &&
          forall j :: 0 <= j < k ==> bs[init[j]].buffer != null;
        assert order[k] == init[k];
        assert forall j :: 0 <= j < k ==> order[j] == init[j];
      } else {
        assert forall i :: 0 <= i < |init| ==> order[i] == init[i];
      }
    }
  }

  /**
   * When every entry is bound, a binding point shared by several entries
   * ends up holding the buffer of the last of them in visiting order.
   */
  lemma {:induction false} BindSeqLastWins(b: map<(nat, nat), nat>, bs: map<string, ShaderBuffer>, order: seq<string>, k: nat)
    requires forall x :: x in order ==> x in bs
    requires BindSeq(b, bs, order).outcome == Bound
    requires k < |order|
    requires forall j :: k < j < |order| ==> BindingPoint(bs[order[j]]) != BindingPoint(bs[order[k]])
    ensures bs[order[k]].buffer != null
    ensures BindingPoint(bs[order[k]]) in BindSeq(b, bs, order).bindings
    ensures BindSeq(b, bs, order).bindings[BindingPoint(bs[order[k]])] == bs[order[k]].buffer.locId
    decreases |order|
  {
    var init := order[..|order| - 1];
    BindSeqOutcome(b, bs, order);
    if k < |order| - 1 {
      assert init[k] == order[k];
      assert forall j :: k < j < |init| ==> init[j] == order[j];
      BindSeqLastWins(b, bs, init, k);
    }
  }

  /** Binding points no entry uses keep what they held. */
  lemma {:induction false} BindSeqUntouched(b: map<(nat, nat), nat>, bs: map<string, ShaderBuffer>, order: seq<string>, point: (nat, nat))
    requires forall x :: x in order ==> x in bs
    requires forall i :: 0 <= i < |order| ==> BindingPoint(bs[order[i]]) != point
    ensures point in BindSeq(b, bs, order).bindings <==> point in b
    ensures point in b ==> BindSeq(b, bs, order).bindings[point] == b[point]
    decreases |order|
  {
    if |order| > 0 {
      var init := order[..|order| - 1];
      assert forall i :: 0 <= i < |init| ==> init[i] == order[i];
      BindSeqUntouched(b, bs, init, point);
    }
  }
}
