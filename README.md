# MyRender shader catalog, program cache and render mesh — a Dafny model

This project models the core of the MyRender OpenGL renderer.

- **`ShaderTypes`** (`types.dfy`): the three constant tables that `Shader::load` classifies active uniforms against.
  - The value-type table maps each GL type code to its byte size.
  - The sampler codes and the image codes are two sets.
  - The model proves that every entry's size is its component count times its scalar width.
  - It proves that the three tables are pairwise disjoint.
  - It proves that `setUniform` has an upload call for exactly the catalogued types it handles.
- **`ShaderCatalog`** (`catalog.dfy`): the pure parts of `Shader::load`, `setUniform` and `bind`.
  - `load` sorts the uniforms into the name-keyed tables with `emplace`, so the first entry for a name wins.
  - It collects atomic counters, sorts them by resource index, and names counter blocks after them.
  - It registers storage blocks and their variables.
  - `setUniform` has a type and size check, and each upload touches only its own slot.
  - `bind` binds every buffer block in map order and stops at the first block with no buffer.
- **`KeyOrder`** (`key_order.dfy`): the ascending string order that a `std::map<std::string, …>` is iterated in.
- **`ShaderBuffers`** (`buffer.dfy`): `Shader::Buffer`, a driver buffer with write, resize, size and read-back.
- **`Shaders`** (`shader.dfy`): the `Shader` class. Its catalog fields are Dafny maps that its methods reassign. Its methods are `load`, `setUniform`, `bind` and the buffer accessors.
- **`Programs`** (`shader_program.dfy`): the `ShaderProgram` constructor.
  - It walks the search paths for files named after the program.
  - The first file fixes whether the program is a compute program or a graphics pipeline.
  - It attaches one shader per stage.
  - A file that fails to load is skipped. The program is valid exactly when some shader was attached, so a failed file does not make it invalid.
- **`ProgramLoader`** (`program_loader.dfy`): the program cache.
  - It maps a name to a weak reference and holds a list of search paths.
  - `loadProgram`, `reloadProgram` and the lazily created singleton are modelled.
- **`Meshes`** (`render_mesh.dfy`): `RenderMesh`.
  - Vertex buffers with interleaved attributes, where attributes tile the stride.
  - A lazily created index buffer.
  - `draw`'s two passes: a surface pass in the mesh's polygon mode and a wireframe pass in `GL_LINE`, with the mode restored to `GL_FILL`.
- **`GlDriver`** (`gl.dfy`): the OpenGL state these operations read and change.
  - Buffer objects are byte sequences.
  - The model also tracks indexed bindings, uploaded uniform values, vertex attribute pointers, the polygon mode, the current program and the draw calls issued.
  - These members model the environment, not the repository, so they have no rows below.

Typed values and `std::vector<T>` arguments are modelled as byte images of `size() * sizeof(T)` bytes. The file system is a parameter: a map from search path to a directory tree. Each file says whether `loadShader` succeeds on it. What the driver reports about a linked program is also a parameter (`ProgramInterface`): its active uniforms, its storage blocks and its atomic-counter blocks.

## Model

| member | source | states |
|---|---|---|
| ShaderTypes.UniformTypesOnlyValueTypes | src/shaders/Shader.cpp:13-52 | every code in the uniform table is one of the GLSL value types (scalar, vector or matrix) |
| ShaderTypes.ValueTypesAllCatalogued | src/shaders/Shader.cpp:13-52 | every GLSL value type has an entry in the uniform table |
| ShaderTypes.UniformTypeEntrySize | src/shaders/Shader.cpp:13-52 | each entry's byte size is the type's component count times the width of its scalar |
| ShaderTypes.UniformTypeEntryKey | src/shaders/Shader.cpp:13-52 | each entry records its own GL type code |
| ShaderTypes.UniformTypesMatchValueTypes | src/shaders/Shader.cpp:13-52 | the table holds exactly the value types, each with the size of its components |
| ShaderTypes.UniformTypeSizeExamples | src/shaders/Shader.cpp:13-52 | vec3 is 12 bytes, mat4 64, dmat4x3 96 and bool 4 |
| ShaderTypes.CategoryOf | src/shaders/Shader.cpp:96-124 | a uniform is a plain uniform exactly when it is catalogued and not an atomic counter; otherwise a sampler, an image, or unrecognised exactly when it is in none of the tables |
| ShaderTypes.UniformAndSamplerTypesDisjoint | src/shaders/Shader.cpp:13-58 | no code is both a uniform type and a sampler type |
| ShaderTypes.UniformAndImageTypesDisjoint | src/shaders/Shader.cpp:13-64 | no code is both a uniform type and an image type |
| ShaderTypes.AtomicCounterNotCatalogued | src/shaders/Shader.cpp:96-101 | the atomic-counter type is in none of the three tables, so it reaches only the counter path |
| ShaderTypes.TablesDisjoint | src/shaders/Shader.cpp:13-64 | the three tables are pairwise disjoint, so the `if`/`else if` dispatch files every sampler and image code under its own table |
| ShaderTypes.UploadDispatch | include/MyRender/shaders/Shader.h:145-195 | `setUniform`'s switch has an upload call only for catalogued types; a catalogued type has one exactly when it is a float scalar or vector, mat3 or mat4, an int or uint scalar or vector, or a single bool; bool and int share `glUniform1iv` |
| ShaderCatalog.ClassifyUniformNames | src/shaders/Shader.cpp:102-124 | after one uniform, a table holds a name exactly when it held it before or the uniform has that name and belongs to that table |
| ShaderCatalog.ClassifyAllNames | src/shaders/Shader.cpp:90-125 | after the loop, a table holds a name exactly when it held it before or some active uniform of that category carries that name |
| ShaderCatalog.ClassifyUniformKeeps | src/shaders/Shader.cpp:105-120 | `emplace` never overwrites: every entry present before one uniform is unchanged after it |
| ShaderCatalog.ClassifyAllKeepsExisting | src/shaders/Shader.cpp:90-125 | entries present before `load` are unchanged after the loop in all three tables |
| ShaderCatalog.ClassifyAllFirstWins | src/shaders/Shader.cpp:103-109 | for a new name, the entry kept is the first plain uniform with that name, with its active index as location, its type's table entry and its array count |
| ShaderCatalog.CounterRefsExact | src/shaders/Shader.cpp:96-101 | the counter list holds a (name, resource index) pair exactly when some active uniform of atomic-counter type has that name and index |
| ShaderCatalog.InsertByIndex | src/shaders/Shader.cpp:127 | inserting into a list sorted by resource index keeps it sorted and adds exactly the one element |
| ShaderCatalog.SortByIndex | src/shaders/Shader.cpp:127 | the counter list sorted by resource index is a permutation of the input |
| ShaderCatalog.Names | src/shaders/Shader.cpp:146 | the i-th counter name is the name of the i-th counter |
| ShaderCatalog.RegisterCountersEntries | src/shaders/Shader.cpp:133-178 | counter blocks add exactly the names of the first n sorted counters; existing entries are kept; a new entry is an atomic-counter buffer with no buffer object |
| ShaderCatalog.RegisterCountersByPosition | src/shaders/Shader.cpp:144-147 | the k-th counter block is registered under the k-th sorted counter's name, the first time that name appears |
| ShaderCatalog.RegisterStorageEntries | src/shaders/Shader.cpp:133-178 | storage blocks add exactly their names; existing entries are kept; a new entry is a storage buffer with no buffer object |
| ShaderCatalog.RegisterStorageFirstWins | src/shaders/Shader.cpp:148-177 | a new storage name gets the first block of that name, with its binding and one variable per block variable |
| ShaderCatalog.CounterNames | src/shaders/Shader.cpp:127-146 | there is one name per atomic counter |
| ShaderCatalog.LoadBuffersKeepsAndAddsEmpty | src/shaders/Shader.cpp:131-179 | the buffer passes keep existing entries, and every entry they add has no buffer object yet |
| ShaderCatalog.CounterNamingBySortedIndex | src/shaders/Shader.cpp:127-147 | the counters are sorted by resource index (a permutation), and the k-th counter block is registered under the k-th sorted counter's name when no storage block or earlier counter block took it |
| ShaderCatalog.UniformEffectOnlyOwnSlot | include/MyRender/shaders/Shader.h:133-198 | a rejected `setUniform` uploads nothing; an accepted one changes only the uniform's own (program, location) slot, to the value with its array count |
| ShaderCatalog.UniformEffectIdempotent | include/MyRender/shaders/Shader.h:133-198 | setting the same value twice has the same effect as setting it once |
| ShaderCatalog.Vec3ArrayAcceptsOnlyFullSize | include/MyRender/shaders/Shader.h:139-144 | a `vec3[4]` uniform accepts a value exactly when it is 48 bytes |
| ShaderCatalog.CameraEffectOnlyCatalogued | src/shaders/Shader.cpp:196-207 | the seven camera uniforms leave every slot that is not a catalogued camera name's location in the bound program as it was |
| ShaderCatalog.BindSeqStops | src/shaders/Shader.cpp:209-213 | once a block with no buffer is met, later blocks change nothing |
| ShaderCatalog.BindSeqOutcome | src/shaders/Shader.cpp:209-213 | binding succeeds exactly when every block visited has a buffer; otherwise the outcome names the first block in order that has none |
| ShaderCatalog.BindSeqLastWins | src/shaders/Shader.cpp:209-213 | on success, a block's binding point holds its buffer when no later block shares that point |
| ShaderCatalog.BindSeqUntouched | src/shaders/Shader.cpp:209-213 | binding points that no visited block uses keep their previous binding |
| KeyOrder.StrLessIrreflexive | src/shaders/Shader.cpp:209 | the key order of `std::map<std::string, …>` is irreflexive |
| KeyOrder.StrLessTransitive | src/shaders/Shader.cpp:209 | the key order is transitive |
| KeyOrder.StrLessTotal | src/shaders/Shader.cpp:209 | any two distinct keys are ordered |
| KeyOrder.LeastExists | src/shaders/Shader.cpp:209 | a non-empty key set has a least key |
| KeyOrder.LeastUnique | src/shaders/Shader.cpp:209 | the least key is unique |
| KeyOrder.Least | src/shaders/Shader.cpp:209 | the least key is in the set and below every other key |
| KeyOrder.InOrder | src/shaders/Shader.cpp:209 | map iteration visits each key exactly once |
| KeyOrder.InOrderAscending | src/shaders/Shader.cpp:209 | map iteration visits the keys in strictly ascending order |
| KeyOrder.InOrderStep | src/shaders/Shader.cpp:209 | iterating a map is its least key followed by the iteration of the remaining keys |
| KeyOrder.InOrderUnfold | src/shaders/Shader.cpp:209 | iteration over a non-empty key set starts with its least key |
| ShaderBuffers.ReadBack | include/MyRender/shaders/Shader.h:247-255 | the read-back as written never changes the length of the caller's vector |
| ShaderBuffers.ReadBackRoundTrip | include/MyRender/shaders/Shader.h:247-255 | reading n written bytes back into n bytes from offset 0 returns them |
| ShaderBuffers.ReadBackLargerDestination | include/MyRender/shaders/Shader.h:247-255 | a larger vector gets the buffer's bytes at its front and keeps the rest |
| ShaderBuffers.ReadBackSmallerDestination | include/MyRender/shaders/Shader.h:247-255 | a smaller vector gets the buffer's first bytes |
| ShaderBuffers.ReadBackPastEnd | include/MyRender/shaders/Shader.h:247-255 | an offset at or past the end copies nothing |
| ShaderBuffers.ReadBackOffsetCopiesNothing | include/MyRender/shaders/Shader.h:250-254 | as written, any positive offset into a vector at least as large as the buffer copies nothing |
| ShaderBuffers.ReadBackOffsetExample | include/MyRender/shaders/Shader.h:250-254 | an 8-byte buffer read from byte 4 into 8 bytes gives nothing as written, and gives the last four bytes when corrected |
| ShaderBuffers.ClampedReadBack | include/MyRender/shaders/Shader.h:247-255 | the corrected read never changes the length of the caller's vector |
| ShaderBuffers.ClampedReadBackCopies | include/MyRender/shaders/Shader.h:247-255 | the corrected read copies the bytes from the offset until either the buffer or the vector ends, and leaves the rest of the vector alone |
| ShaderBuffers.ClampedReadBackAgreesAtZero | include/MyRender/shaders/Shader.h:247-255 | from offset 0 the corrected read and the read as written agree |
| ShaderBuffers.Buffer.constructor | include/MyRender/shaders/Shader.h:37-40 | a fresh buffer name with an empty data store and the given target type |
| ShaderBuffers.Buffer.SetData | include/MyRender/shaders/Shader.h:219-230 | the buffer's whole contents become the data; no other buffer changes |
| ShaderBuffers.Buffer.Resize | src/shaders/Shader.cpp:236-241 | the buffer has exactly the requested size; no other buffer changes |
| ShaderBuffers.Buffer.GetSize | src/shaders/Shader.cpp:251-265 | the size is the buffer's byte length, or 0 when it has no store |
| ShaderBuffers.Buffer.GetId | include/MyRender/shaders/Shader.h:46 | the driver name every other buffer operation acts on |
| ShaderBuffers.Buffer.GetType | include/MyRender/shaders/Shader.h:47 | the target the buffer was created for, which `setBuffer` compares with the block's |
| ShaderBuffers.Buffer.GetData | include/MyRender/shaders/Shader.h:247-255 | the caller's bytes become the read-back as written (`ReadBack`): `min(size, capacity)` bytes from the offset, or nothing when that range runs past the buffer |
| Shaders.ReadVariables | src/shaders/Shader.cpp:168-176 | one variable per reported variable, in order, with its offset, its array size and its type's table entry |
| Shaders.Shader.constructor | include/MyRender/shaders/Shader.h:120-123 | not valid, no program, and all four catalogs empty |
| Shaders.Shader.IsValid | include/MyRender/shaders/Shader.h:62 | the flag that `load` sets exactly when its program is valid |
| Shaders.Shader.HasUniform | include/MyRender/shaders/Shader.h:71 | a name is known exactly when `setUniform` would accept some value for it |
| Shaders.Shader.GetBuffer | src/shaders/Shader.cpp:275-280 | null for an unknown name; otherwise the block's buffer slot, which is null until a buffer is created or set |
| Shaders.Shader.LoadShader | src/shaders/Shader.cpp:67-72 | a fresh shader whose validity is its program's; when valid, its tables and buffers are the ones `load` computes from empty; otherwise all empty; the program is cached live under the name, other names' cache entries are untouched and no live program expires |
| Shaders.Shader.Load | src/shaders/Shader.cpp:75-183 | the program comes from the cache and stays live; `load` succeeds exactly when it is valid; on failure the program slot is replaced but the catalog and the flag are unchanged; on success the tables and buffers are extended as classified; other names' cache entries are untouched and no live program expires |
| Shaders.Shader.Catalogue | src/shaders/Shader.cpp:84-182 | the shader becomes valid, with the uniform loop applied to its tables and the buffer passes applied to its buffers |
| Shaders.Shader.ClassifyUniforms | src/shaders/Shader.cpp:90-125 | the loop leaves the tables classified by `ClassifyAll` and returns exactly the atomic counters |
| Shaders.Shader.RegisterStorageBlocks | src/shaders/Shader.cpp:133-178 | the loop over storage blocks leaves exactly the registered map |
| Shaders.Shader.RegisterCounterBlocks | src/shaders/Shader.cpp:128-178 | the loop over counter blocks leaves exactly the map registered under the sorted counter names |
| Shaders.Shader.SetUniform | include/MyRender/shaders/Shader.h:133-198 | the program becomes current; the result is true exactly when the name is catalogued and the value's size matches; the uploads change as `UniformEffect` says |
| Shaders.Shader.Bind | src/shaders/Shader.cpp:185-216 | the program becomes current; camera uniforms are set only when a camera is given; buffers are bound in ascending name order with the outcome of `BindSeq` |
| Shaders.Shader.BindBuffers | src/shaders/Shader.cpp:209-213 | the indexed bindings and the outcome are those of binding the blocks in ascending name order |
| Shaders.Shader.EnsureBuffer | include/MyRender/shaders/Shader.h:207-210 | an existing buffer is kept; a missing one is created fresh with the block's target; only that entry's buffer changes |
| Shaders.Shader.SetBufferData | include/MyRender/shaders/Shader.h:200-217 | true exactly when the block exists; then the block's buffer exists and holds exactly the data, and only that buffer changes |
| Shaders.Shader.SetBufferSize | src/shaders/Shader.cpp:218-234 | true exactly when the block exists; then the block's buffer exists and has exactly the requested size |
| Shaders.Shader.GetBufferSize | src/shaders/Shader.cpp:243-249 | the size of the block's buffer, or 0 when the block or its buffer is missing |
| Shaders.Shader.GetBufferDataByteOffset | include/MyRender/shaders/Shader.h:238-245 | true exactly when the block has a buffer; then the bytes are the read-back as written from the offset; otherwise untouched |
| Shaders.Shader.GetBufferData | include/MyRender/shaders/Shader.h:232-236 | as the byte-offset read, with the offset given as start index times element size |
| Shaders.Shader.SetBuffer | src/shaders/Shader.cpp:267-273 | true exactly when the block exists and the buffer is null or of the block's target type; then only that block's buffer is replaced |
| Shaders.Shader.BufferRoundTrip | include/MyRender/shaders/Shader.h:200-255 | writing data to an existing block and reading it back from index 0 into as many bytes returns the data |
| Shaders.BindPlacesEveryBuffer | src/shaders/Shader.cpp:209-213 | on success, every block whose binding point no other block shares is bound there to its own buffer; binding points no block uses are untouched |
| Programs.SelectAllAppend | src/shaders/ShaderProgram.cpp:90-93 | walking one list of files and then another is walking their concatenation |
| Programs.ProgramTypeFixedByFirstFile | src/shaders/ShaderProgram.cpp:47-50 | the first matching file fixes the program type, and nothing changes it later |
| Programs.SelectAllCoherent | src/shaders/ShaderProgram.cpp:47-73 | a compute program has at most one shader and it is a compute shader; a graphics program has no compute shader and no stage twice |
| Programs.AttachedFilesLoaded | src/shaders/ShaderProgram.cpp:75-84 | every attached shader was attached before or is a file of the walk that loaded |
| Programs.LoadFailureClearsValid | src/shaders/ShaderProgram.cpp:75-81 | a file that would be attached but fails to load clears the walk's local flag and attaches nothing; the constructor overwrites that flag at line 108 once something was attached |
| Programs.SelectAllValidOnlyCleared | src/shaders/ShaderProgram.cpp:79-108 | the walk never sets its local flag, it can only clear it; the constructor sets it afterwards when something was attached |
| Programs.FailedFileDoesNotInvalidate | src/shaders/ShaderProgram.cpp:75-108 | a failing `.frag` beside a loading `.vert` clears the walk's flag but still attaches the vertex shader, so by the constructor's contract the program is valid |
| Programs.ConsiderFile | src/shaders/ShaderProgram.cpp:43-85 | the decision for one matching file is `Step`: skip, fail, or attach |
| Programs.SearchShaders | src/shaders/ShaderProgram.cpp:31-88 | the recursive directory walk applies `Step` to the matching files in walk order |
| Programs.ShaderProgram.constructor | src/shaders/ShaderProgram.cpp:15-109 | a fresh program name; the selection is the walk over all search paths; valid exactly when some shader was attached; linked exactly when valid; name and type never assigned |
| Programs.ShaderProgram.IsValid | include/MyRender/shaders/ShaderProgram.h:24 | the validity the constructor computes: valid exactly when some shader was attached; a failed file does not make it invalid |
| Programs.ShaderProgram.Use | include/MyRender/shaders/ShaderProgram.h:28 | the program becomes the current one |
| Programs.ShaderProgram.AssignFrom | src/shaders/ShaderProgramLoader.cpp:27 | every field is copied from the freshly built program |
| ProgramLoader.ShaderProgramLoader.constructor | include/MyRender/shaders/ShaderProgramLoader.h:17 | the search paths are `./shaders` alone, and the cache is empty |
| ProgramLoader.ShaderProgramLoader.GetSearchPaths | include/MyRender/shaders/ShaderProgramLoader.h:28 | the search paths in the order `loadProgram` walks them |
| ProgramLoader.ShaderProgramLoader.AddSearchPath | include/MyRender/shaders/ShaderProgramLoader.h:29 | the path is appended and the earlier paths are kept in order |
| ProgramLoader.ShaderProgramLoader.LoadProgram | src/shaders/ShaderProgramLoader.cpp:6-19 | a live cached program is returned unchanged; otherwise a new one is built from the search paths and cached; other names are untouched |
| ProgramLoader.ShaderProgramLoader.ReloadProgram | src/shaders/ShaderProgramLoader.cpp:21-30 | true exactly when the name is live; then the cached object is rebuilt in place from the search paths; otherwise nothing changes |
| ProgramLoader.ShaderProgramLoader.Release | include/MyRender/shaders/ShaderProgramLoader.h:35 | when the last holder lets go, every cache entry for that program expires |
| ProgramLoader.LoaderSingleton.constructor | include/MyRender/shaders/ShaderProgramLoader.h:33 | no instance exists yet |
| ProgramLoader.LoaderSingleton.GetInstance | include/MyRender/shaders/ShaderProgramLoader.h:19-26 | the first call creates the loader; every later call returns the same one |
| Meshes.GetSize | src/RenderMesh.cpp:113-119 | a float component is 4 bytes; every other component type is 0 |
| Meshes.StrideAppend | src/RenderMesh.cpp:131-135 | the stride of concatenated layouts is the sum of their strides |
| Meshes.AttributesTileTheStride | src/RenderMesh.cpp:143-148 | each attribute starts where the previous one ends, the first at 0, and the last ends at the stride |
| Meshes.AttribsAfterEntries | src/RenderMesh.cpp:143-148 | after the loop, attribute index base+i points into the buffer at attribute i's offset, with its size, type and the stride; other indices are unchanged |
| Meshes.IndexRange | src/RenderMesh.cpp:143-148 | the enabled indices are exactly base up to base+n on the mesh's vertex array |
| Meshes.RenderMesh.Start | src/RenderMesh.cpp:34-39 | the mesh gets a fresh vertex-array name |
| Meshes.RenderMesh.StripSize | src/RenderMesh.cpp:131-135 | the summing loop gives the layout's stride |
| Meshes.RenderMesh.SetVertexData | src/RenderMesh.cpp:122-155 | one fresh vertex buffer is pushed with the stride; it holds exactly the vertices' bytes; attributes are pointed at it from the next free index and enabled; the returned index is the new buffer's |
| Meshes.RenderMesh.PointAttributes | src/RenderMesh.cpp:143-148 | the loop points and enables one attribute per layout entry from the next free index |
| Meshes.RenderMesh.SetVertexDataAt | src/RenderMesh.cpp:157-167 | the chosen vertex buffer is refilled with the new vertices, and only it |
| Meshes.RenderMesh.SetIndexDataMode | src/RenderMesh.cpp:179-196 | the index buffer is created on first use and reused afterwards; it holds exactly the indices; the count and primitive mode are recorded |
| Meshes.RenderMesh.SetIndexData | src/RenderMesh.cpp:174-177 | as the mode variant, with triangles |
| Meshes.RenderMesh.SetIndexDataVector | src/RenderMesh.cpp:169-172 | as the count variant, with the vector's element count |
| Meshes.RenderMesh.SetMeshData | src/RenderMesh.cpp:10-22 | one new vertex buffer holding the positions, plus a second holding the normals when there is one normal per vertex; earlier buffers are kept; the next free attribute index points at the positions as three floats with stride 12 and offset 0, and the following index at the normals in the same way, and exactly those indices are enabled; the vertex count is the position count; the indices become the index buffer, drawn as triangles, reusing an existing index buffer; no other driver buffer changes |
| Meshes.RenderMesh.DrawFor | src/RenderMesh.cpp:58-65 | the draw is indexed exactly when there is an index buffer, with the mesh's mode, the current polygon mode and the index or vertex count |
| Meshes.RenderMesh.PassDrawsShape | src/RenderMesh.cpp:45-97 | one draw per enabled pass, each indexed exactly when there is an index buffer and in the mesh's primitive mode; the surface draw uses the mesh's polygon mode when that is not `GL_FILL`; the wireframe draw uses `GL_LINE` |
| Meshes.RenderMesh.ModeAfterRestoresFill | src/RenderMesh.cpp:56-96 | after drawing, the polygon mode is `GL_FILL` or what it was before; it stays `GL_FILL` when it started there |
| Meshes.RenderMesh.ShaderFor | src/RenderMesh.cpp:47-51 | an existing shader is reused and the cache is unchanged; otherwise one is loaded from the cache, which keeps its program live and leaves other names' entries untouched |
| Meshes.RenderMesh.BindPass | src/RenderMesh.cpp:52 | binds the pass's shader: its program becomes current, the camera uniforms are set only when a camera is given, and the indexed bindings and the outcome are the ordered buffer bind |
| Meshes.RenderMesh.DrawInMode | src/RenderMesh.cpp:56-67 | one draw in the given mode when the mode is switched, after which the mode is `GL_FILL`; otherwise one draw in the current mode |
| Meshes.RenderMesh.SurfacePass | src/RenderMesh.cpp:45-68 | a disabled pass leaves the driver, the cache and the shader unchanged; an enabled one keeps or loads the surface shader; on success it issues exactly the surface draws and leaves the mode as the pass sets it |
| Meshes.RenderMesh.WireframePass | src/RenderMesh.cpp:71-97 | a disabled pass leaves the driver, the cache and the shader unchanged; an enabled one keeps or loads the grid shader; on success it issues exactly the wireframe draws and leaves `GL_FILL` |
| Meshes.RenderMesh.Draw | src/RenderMesh.cpp:41-102 | a mesh with no vertex data leaves the driver, the cache and both shaders unchanged; otherwise each enabled pass's shader is created once and reused afterwards, and on success the draws are exactly the two passes' draws and the mode is as `ModeAfter` says |
| Meshes.RenderMesh.BothPasses | src/RenderMesh.cpp:45-98 | on success, the surface pass and then the wireframe pass issue exactly their draws in that order; an enabled pass's shader is created once and reused afterwards, a disabled pass's is untouched |

## Left out

- Integer widths: the model uses unbounded naturals. `GLint`/`GLsizei` casts, 32-bit overflow of sizes and counts, and signed/unsigned conversions are not modelled.
- The loader singleton: `Shader.Load`, `Shader.LoadShader` and `RenderMesh.ShaderFor` take the loader as a parameter where the source calls `ShaderProgramLoader::getInstance()`, and the `ShaderProgram` constructor takes the search paths the source reads from that instance. The singleton itself is modelled by `LoaderSingleton`.
- File I/O, `#include` preprocessing and shader compilation (`ShaderProgram::loadShader`): each file carries a flag saying whether it loads.
- `std::filesystem` directory iteration order is unspecified; the model takes it as the order of a directory's entry sequence.
- Driver introspection (`glGetProgramInterfaceiv`, `glGetProgramResource*`) is a `ProgramInterface` parameter. Uniform locations are the active index, as the source records them.
- Camera maths: the matrices that `bind` uploads come in as `MatrixValues`; how the camera computes them is not part of this model.
- Logging, `glGetError`, `glLineWidth`, `glDepthFunc`, unbinding with `glBindBuffer(target, 0)`, and the vertex-array bind: they change no state the model tracks.
- Destructors and `glDelete*` calls: object lifetime is not modelled, apart from the cache's weak references.
- Textures, `linkUniform`, `RenderMesh::drawGui` (ImGui checkboxes) and the mesh transform are outside the modelled core.
- The `RenderMesh` class declaration is not part of this model: `Meshes.RenderMesh.constructor` takes the field defaults as parameters.
- `ShaderProgramLoader::reloadProgram` is defined but not declared in the header; it is modelled as a method of the class anyway.
- `std::sort` is modelled by an insertion-sort function (`SortByIndex`). When two counters share a resource index, the model fixes one order where `std::sort` may choose either.
- Shaders.Shader.Bind: a block with no buffer object makes the source dereference a null pointer. The model stops there with the outcome `NullBuffer(name)` instead of crashing.
- Shaders.Shader.Load: requires that the driver report at least as many atomic counters as counter blocks (`Shader.cpp:146` reads past the vector otherwise). It also requires that every buffer variable's type be in the uniform table (`Shader.cpp:173-174` dereferences `end()` otherwise).
- Meshes.RenderMesh.SetVertexDataAt: requires that the buffer index be in range, which the source does not check.
- Meshes.RenderMesh.SetVertexData: requires the data to cover `numElements` vertices; the source reads past the end otherwise.
- Meshes.RenderMesh.SetVertexDataAt: requires the data to cover `numElements` vertices of the buffer's stride; the source reads past the end otherwise.
- Meshes.RenderMesh.SetIndexDataMode: requires the data to hold `numElements` 4-byte indices; the source reads past the end otherwise.
- Meshes.RenderMesh.SetIndexData: the same data-length requirement as the mode variant.
- Meshes.RenderMesh.SetIndexDataVector: requires the byte image to be a whole number of 4-byte indices, which any `std::vector<unsigned int>` is.
- Shaders.Shader.SetUniform: requires a loaded program; on a shader never loaded the source dereferences a null `mProgram` in `use()`.
- Shaders.Shader.Bind: the same loaded-program requirement as `SetUniform`.
- Shaders.Shader.SetBufferData: the same loaded-program requirement as `SetUniform`.
- Shaders.Shader.SetBufferSize: the same loaded-program requirement as `SetUniform`.
- Shaders.Shader.GetBufferSize: the same loaded-program requirement as `SetUniform`.
- Shaders.Shader.BufferRoundTrip: the same loaded-program requirement as `SetUniform`.
- Shaders.Shader.SetBuffer: requires a non-null buffer to be a live driver buffer.
- ShaderBuffers.Buffer.GetData: requires `mLocId` to be a name the driver generated; every `Buffer` the model constructs has one, so the requirement excludes only names never generated.
- ShaderBuffers.Buffer.Resize: states only the new size, because `glBufferData` with no data leaves the contents undefined.
- Meshes.RenderMesh.SurfacePass: does not restate that a freshly loaded shader's program is live in the cache; `Meshes.RenderMesh.ShaderFor` states it.
- Meshes.RenderMesh.WireframePass: the same as the surface pass.
- Meshes.RenderMesh.Draw: when binding fails, it says nothing about the draws issued, because the source would have crashed.

## Findings

| source | as written | input that shows it | evidently intended | confidence | as-written member | corrected member |
|---|---|---|---|---|---|---|
| include/MyRender/shaders/Shader.h:247-255 | `Buffer::getData` asks the driver for `min(getSize(), capacity)` bytes starting at `byteOffset`, without subtracting the offset from the length | an 8-byte buffer read from byte offset 4 into an 8-byte vector: the range 4..12 runs past the buffer, `glGetBufferSubData` rejects it with `GL_INVALID_VALUE`, and nothing is copied | copy `min(getSize() - byteOffset, capacity)` bytes, i.e. the bytes from the offset to the end of the buffer or of the vector | not executed | ShaderBuffers.ReadBackOffsetCopiesNothing | ShaderBuffers.ClampedReadBackCopies |

`Buffer.GetData` and the `Shader` read accessors keep the read as written, so the model reproduces the defect. `ClampedReadBack` is the corrected definition beside it. `ClampedReadBackAgreesAtZero` shows the two reads agree from offset 0, so `Shader.BufferRoundTrip` holds under either.
