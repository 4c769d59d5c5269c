/**
 * `ShaderProgram` (src/shaders/ShaderProgram.cpp): the constructor walks the
 * search paths for files named after the program, decides whether it is a
 * compute or a graphics program from the first such file, attaches one
 * shader per stage, and links. Reading, preprocessing and compiling a file
 * (`loadShader`) is outside the model: each file says whether it loads.
 */
module Programs {
  import opened Common
  import opened GlDriver

  // Shader stage codes (OpenGL 4.6 core profile, glCreateShader)
  const GL_VERTEX_SHADER: nat := 0x8B31
  const GL_FRAGMENT_SHADER: nat := 0x8B30
  const GL_COMPUTE_SHADER: nat := 0x91B9
  const GL_GEOMETRY_SHADER: nat := 0x8DD9
  const GL_TESS_CONTROL_SHADER: nat := 0x8E88
  const GL_TESS_EVALUATION_SHADER: nat := 0x8E87

  const ExtensionToShaderType: map<string, nat> := map[
    ".vert" := GL_VERTEX_SHADER,
    ".frag" := GL_FRAGMENT_SHADER,
    ".comp" := GL_COMPUTE_SHADER,
    ".geom" := GL_GEOMETRY_SHADER,
    ".tesc" := GL_TESS_CONTROL_SHADER,
    ".tese" := GL_TESS_EVALUATION_SHADER
  ]

  /**
   * A directory entry. A file records its stem and extension, whether it is a
   * regular file, and whether `loadShader` succeeds on it.
   */
  datatype FsNode =
    | File(stem: string, extension: string, isRegular: bool, loadsOk: bool)
    | Directory(entries: seq<FsNode>)

  /** Search path -> what is found there; a path missing here is not a directory. */
  type FileSystem = map<string, FsNode>

  datatype ProgramType = GraphicsPipeline | ComputeShader

  /** An attached shader: the file's extension and its stage. */
  datatype InputShader = InputShader(extension: string, stage: nat)

  /** A file the walk considers: regular, named after the program, known extension. */
  datatype Candidate = Candidate(extension: string, stage: nat, loadsOk: bool)

  /** The constructor's working state: the optional program type, the attached shaders and `mValid` as the walk leaves it. */
  datatype Selection = Selection(programType: Option<ProgramType>, inputShaders: seq<InputShader>, valid: bool)

  const Initial: Selection := Selection(None, [], false)

  function KindOf(stage: nat): ProgramType
  {
    if stage == GL_COMPUTE_SHADER then ComputeShader else GraphicsPipeline
  }

  /** The candidate a single directory entry contributes, if any. */
  function FileMatch(f: FsNode, name: string): seq<Candidate>
    requires f.File?
  {
    if f.isRegular && f.stem == name && f.extension in ExtensionToShaderType
    then [Candidate(f.extension, ExtensionToShaderType[f.extension], f.loadsOk)]
    else []
  }

  /** The candidates met, in visiting order, when the walk is started on `node`. */
  function Matches(node: FsNode, name: string): seq<Candidate>
    decreases node
  {
    match node
    case File(_, _, _, _) => []
    case Directory(es) => MatchesIn(es, name)
  }

  /** The candidates met in a directory's entries, depth first. */
  function MatchesIn(es: seq<FsNode>, name: string): seq<Candidate>
    decreases es
  {
    if |es| == 0 then []
    else
      var last := es[|es| - 1];
      MatchesIn(es[..|es| - 1], name) + (if last.Directory? then Matches(last, name) else FileMatch(last, name))
  }

  /** The candidates met over all search paths, in list order. */
  function SearchOrder(fs: FileSystem, paths: seq<string>, name: string): seq<Candidate>
  {
    if |paths| == 0 then []
    else
      var p := paths[|paths| - 1];
      SearchOrder(fs, paths[..|paths| - 1], name) + (if p in fs then Matches(fs[p], name) else [])
  }

  function Attach(sel: Selection, c: Candidate): Selection
  {
    if c.loadsOk then sel.(inputShaders := sel.inputShaders + [InputShader(c.extension, c.stage)])
    else sel.(valid := false)
  }

  predicate HasStage(shaders: seq<InputShader>, stage: nat)
  {
    exists i :: 0 <= i < |shaders| && shaders[i].stage == stage
  }

  /** The acceptance rules for one candidate. */
  function Step(sel: Selection, c: Candidate): Selection
  {
    if sel.programType.None? then Attach(sel.(programType := Some(KindOf(c.stage))), c)
    else if sel.programType.value == ComputeShader then sel
    else if c.stage == GL_COMPUTE_SHADER then sel
    else if HasStage(sel.inputShaders, c.stage) then sel
    else Attach(sel, c)
  }

  function SelectAll(sel: Selection, cs: seq<Candidate>): Selection
  {
    if |cs| == 0 then sel else Step(SelectAll(sel, cs[..|cs| - 1]), cs[|cs| - 1])
  }

  lemma {:induction false} SelectAllAppend(sel: Selection, a: seq<Candidate>, b: seq<Candidate>)
    ensures SelectAll(sel, a + b) == SelectAll(SelectAll(sel, a), b)
    decreases |b|
  {
    if |b| == 0 {
      assert a + b == a;
    } else {
      assert (a + b)[..|a + b| - 1] == a + b[..|b| - 1];
      SelectAllAppend(sel, a, b[..|b| - 1]);
    }
  }

  /**
   * Once a program type is set it never changes; while unset, the first
   * candidate sets it, whether or not that file then loads.
   */
  lemma {:induction false} ProgramTypeFixedByFirstFile(sel: Selection, cs: seq<Candidate>)
    ensures sel.programType.Some? ==> SelectAll(sel, cs).programType == sel.programType
    ensures sel.programType.None? && |cs| > 0 ==> SelectAll(sel, cs).programType == Some(KindOf(cs[0].stage))
    ensures sel.programType.None? && |cs| == 0 ==> SelectAll(sel, cs).programType.None?
    decreases |cs|
  {
    if |cs| > 0 {
      ProgramTypeFixedByFirstFile(sel, cs[..|cs| - 1]);
      if |cs| > 1 {
        assert cs[..|cs| - 1][0] == cs[0];
      }
    }
  }

  /**
   * What the attached shaders look like for each program type: none before
   * the type is fixed; at most one, a compute stage, for a compute program;
   * no compute stage and no stage twice for a graphics program.
   */
  ghost predicate Coherent(sel: Selection)
  {
    && (sel.programType.None? ==> sel.inputShaders == [])
    && (sel.programType == Some(ComputeShader) ==>
          |sel.inputShaders| <= 1 && forall i :: 0 <= i < |sel.inputShaders| ==> sel.inputShaders[i].stage == GL_COMPUTE_SHADER)
    && (sel.programType == Some(GraphicsPipeline) ==>
          && (forall i :: 0 <= i < |sel.inputShaders| ==> sel.inputShaders[i].stage != GL_COMPUTE_SHADER)
          && (forall i, j :: 0 <= i < j < |sel.inputShaders| ==> sel.inputShaders[i].stage != sel.inputShaders[j].stage))
  }

  lemma {:induction false} SelectAllCoherent(sel: Selection, cs: seq<Candidate>)
    requires Coherent(sel)
    ensures Coherent(SelectAll(sel, cs))
    decreases |cs|
  {
    if |cs| > 0 {
      SelectAllCoherent(sel, cs[..|cs| - 1]);
      var s := SelectAll(sel, cs[..|cs| - 1]);
      var c := cs[|cs| - 1];
      var r := Step(s, c);
      if s.programType == Some(GraphicsPipeline) && c.stage != GL_COMPUTE_SHADER && !HasStage(s.inputShaders, c.stage) && c.loadsOk {
        assert r.inputShaders == s.inputShaders + [InputShader(c.extension, c.stage)];
        forall i, j | 0 <= i < j < |r.inputShaders|
          ensures r.inputShaders[i].stage != r.inputShaders[j].stage
        {
          if j == |s.inputShaders| {
            assert r.inputShaders[i] == s.inputShaders[i];
          }
        }
      }
    }
  }

  /** Only files that loaded are attached, and every attached file was a candidate. */
  lemma {:induction false} AttachedFilesLoaded(sel: Selection, cs: seq<Candidate>, x: InputShader)
    requires x in SelectAll(sel, cs).inputShaders
    ensures x in sel.inputShaders || exists k :: 0 <= k < |cs| && cs[k].loadsOk && x == InputShader(cs[k].extension, cs[k].stage)
    decreases |cs|
  {
    if |cs| > 0 {
      var s := SelectAll(sel, cs[..|cs| - 1]);
      var c := cs[|cs| - 1];
      if x in s.inputShaders {
        AttachedFilesLoaded(sel, cs[..|cs| - 1], x);
        if x !in sel.inputShaders {
          var k :| 0 <= k < |cs[..|cs| - 1]| && cs[..|cs| - 1][k].loadsOk && x == InputShader(cs[..|cs| - 1][k].extension, cs[..|cs| - 1][k].stage);
          assert cs[k] == cs[..|cs| - 1][k];
        }
      } else {
        assert c.loadsOk && x == InputShader(c.extension, c.stage);
      }
    }
  }

  /**
   * A file that fails to load, once the walk reaches it with room for its
   * stage, clears the walk's `mValid` and attaches nothing. The constructor
   * overwrites that flag after the walk whenever some shader was attached.
   */
  lemma LoadFailureClearsValid(sel: Selection, c: Candidate)
    requires !c.loadsOk
    requires sel.programType.None? || (sel.programType == Some(GraphicsPipeline) && c.stage != GL_COMPUTE_SHADER && !HasStage(sel.inputShaders, c.stage))
    ensures !Step(sel, c).valid && Step(sel, c).inputShaders == sel.inputShaders
  {
  }

  /**
   * The body of the walk for one regular file named after the program with a
   * known extension: fix the program type, or skip the file, or load and
   * attach it. The warnings it prints are not modelled.
   */
  method ConsiderFile(sel: Selection, c: Candidate) returns (r: Selection)
    ensures r == Step(sel, c)
  {
    r := sel;
    var shaderType := c.stage;
    if r.programType.None? {
      r := r.(programType := Some(if shaderType == GL_COMPUTE_SHADER then ComputeShader else GraphicsPipeline));
    } else if r.programType.value == ComputeShader {
      // a second compute file only draws a warning; any other file is ignored
      return;
    } else if r.programType.value == GraphicsPipeline {
      if shaderType == GL_COMPUTE_SHADER {
        return;
      }
      if exists j :: 0 <= j < |r.inputShaders| && r.inputShaders[j].stage == shaderType {
        return;
      }
    }
    if !c.loadsOk {
      r := r.(valid := false);
      return;
    }
    r := r.(inputShaders := r.inputShaders + [InputShader(c.extension, shaderType)]);
  }

  /** Walking one candidate is one step. */
  lemma SelectAllSingle(sel: Selection, c: Candidate)
    ensures SelectAll(sel, [c]) == Step(sel, c)
  {
    assert [c][..0] == [];
  }

  /** The candidates a directory entry contributes, whether it is a subdirectory or a file. */
  function EntryMatches(entry: FsNode, name: string): seq<Candidate>
  {
    if entry.Directory? then Matches(entry, name) else FileMatch(entry, name)
  }

  /** One entry more of the walk: the state after it is the walk over the longer prefix. */
  lemma WalkEntry(sel: Selection, es: seq<FsNode>, i: nat, name: string, before: Selection, after: Selection)
    requires i < |es|
    requires before == SelectAll(sel, MatchesIn(es[..i], name))
    requires after == SelectAll(before, EntryMatches(es[i], name))
    ensures after == SelectAll(sel, MatchesIn(es[..i + 1], name))
  {
    assert es[..i + 1][..i] == es[..i];
    assert MatchesIn(es[..i + 1], name) == MatchesIn(es[..i], name) + EntryMatches(es[i], name);
    SelectAllAppend(sel, MatchesIn(es[..i], name), EntryMatches(es[i], name));
  }

  /**
   * The recursive directory walk of the constructor. `sel` is the state the
   * lambda captures by reference; a path that is not a directory is skipped.
   */
  method SearchShaders(path: FsNode, shaderName: string, sel: Selection) returns (r: Selection)
    ensures r == SelectAll(sel, Matches(path, shaderName))
    decreases path
  {
    r := sel;
    if !path.Directory? {
      return;
    }
    var es := path.entries;
    var i := 0;
    while i < |es|
      invariant 0 <= i <= |es|
      invariant r == SelectAll(sel, MatchesIn(es[..i], shaderName))
    {
      var entry := es[i];
      ghost var before := r;
      if entry.Directory? {
        r := SearchShaders(entry, shaderName, r);
      } else if entry.isRegular && entry.stem == shaderName && entry.extension in ExtensionToShaderType {
        var c := Candidate(entry.extension, ExtensionToShaderType[entry.extension], entry.loadsOk);
        r := ConsiderFile(r, c);
        SelectAllSingle(before, c);
      }
      WalkEntry(sel, es, i, shaderName, before, r);
      i := i + 1;
    }
    assert es[..|es|] == es;
  }

  class ShaderProgram {
    var valid: bool
    /** Never assigned by the constructor: it keeps the empty default string. */
    var programName: string
    /** Never assigned by the constructor; `None` stands for its indeterminate value. */
    var programType: Option<ProgramType>
    var programId: nat
    /** The constructor's local state once every search path has been walked. */
    ghost var selection: Selection
    ghost var linked: bool

    /**
     * Walks the search paths in list order, attaches the accepted files,
     * and links when at least one is attached.
     */
    constructor (shaderName: string, searchPaths: seq<string>, fs: FileSystem, gl: Gl)
      requires gl.Valid()
      modifies gl`nextName
      ensures gl.Valid() && programId == old(gl.nextName) && gl.nextName == programId + 1
      ensures selection == SelectAll(Initial, SearchOrder(fs, searchPaths, shaderName))
      ensures valid <==> |selection.inputShaders| > 0
      ensures linked == valid
      ensures programName == "" && programType == None
    {
      var id := gl.CreateName();
      var sel := Initial;
      var i := 0;
      while i < |searchPaths|
        invariant 0 <= i <= |searchPaths|
        invariant sel == SelectAll(Initial, SearchOrder(fs, searchPaths[..i], shaderName))
        invariant gl.Valid() && gl.nextName == id + 1
      {
        assert searchPaths[..i + 1][..i] == searchPaths[..i];
        var p := searchPaths[i];
        assert SearchOrder(fs, searchPaths[..i + 1], shaderName) ==
          SearchOrder(fs, searchPaths[..i], shaderName) + (if p in fs then Matches(fs[p], shaderName) else []);
        if p in fs {
          ghost var before := sel;
          sel := SearchShaders(fs[p], shaderName, sel);
          SelectAllAppend(Initial, SearchOrder(fs, searchPaths[..i], shaderName), Matches(fs[p], shaderName));
          assert sel == SelectAll(Initial, SearchOrder(fs, searchPaths[..i], shaderName) + Matches(fs[p], shaderName));
        } else {
          assert SearchOrder(fs, searchPaths[..i], shaderName) + [] == SearchOrder(fs, searchPaths[..i], shaderName);
        }
        i := i + 1;
      }
      assert searchPaths[..|searchPaths|] == searchPaths;
      programId := id;
      programName := "";
      programType := None;
      selection := sel;
      // mValid starts false and the walk only ever clears it; a linked program sets it regardless
      SelectAllValidOnlyCleared(Initial, SearchOrder(fs, searchPaths, shaderName));
      if |sel.inputShaders| == 0 {
        // nothing found: return without linking
        valid := sel.valid;
        linked := false;
      } else {
        linked := true;  // glLinkProgram, then glDeleteShader for every attached shader
        valid := true;
      }
    }

    /** Whether some shader was attached; a file that failed to load does not make the program invalid. */
    function IsValid(): (r: bool)
      reads this
      ensures r == valid
    {
      valid
    }

    method Use(gl: Gl)
      modifies gl`currentProgram
      ensures gl.currentProgram == programId
    {
      gl.UseProgram(programId);
    }

    /** The implicitly defined copy assignment `*this = other`. */
    method AssignFrom(other: ShaderProgram)
      modifies this
      ensures valid == old(other.valid) && programName == old(other.programName)
      ensures programType == old(other.programType) && programId == old(other.programId)
      ensures selection == old(other.selection) && linked == old(other.linked)
    {
      valid, programName, programType, programId := other.valid, other.programName, other.programType, other.programId;
      selection, linked := other.selection, other.linked;
    }
  }

  /** The walk never sets `mValid`; it can only clear it (the constructor sets it afterwards when something was attached). */
  lemma {:induction false} SelectAllValidOnlyCleared(sel: Selection, cs: seq<Candidate>)
    ensures SelectAll(sel, cs).valid ==> sel.valid
    decreases |cs|
  {
    if |cs| > 0 {
      SelectAllValidOnlyCleared(sel, cs[..|cs| - 1]);
    }
  }

  /**
   * A failing fragment shader next to a loading vertex shader: the walk
   * clears its flag but still attaches the vertex shader, so by the
   * constructor's contract the program is valid all the same.
   */
  lemma FailedFileDoesNotInvalidate()
    ensures var sel := SelectAll(Initial, [Candidate(".frag", GL_FRAGMENT_SHADER, false), Candidate(".vert", GL_VERTEX_SHADER, true)]);
      !sel.valid && sel.inputShaders == [InputShader(".vert", GL_VERTEX_SHADER)]
  {
    var frag := Candidate(".frag", GL_FRAGMENT_SHADER, false);
    var cs := [frag, Candidate(".vert", GL_VERTEX_SHADER, true)];
    assert cs[..1] == [frag] && [frag][..0] == [];
    assert SelectAll(Initial, [frag]) == Selection(Some(GraphicsPipeline), [], false);
  }
}
