/**
 * `ShaderProgramLoader` (include/MyRender/shaders/ShaderProgramLoader.h,
 * src/shaders/ShaderProgramLoader.cpp): a name -> weak-program cache with a
 * list of search paths, reached through a lazily created singleton.
 *
 * A weak reference is modelled by the map entry together with the set
 * `alive` of programs that still have a strong holder: an entry whose
 * program is not alive is expired. `Release` is the event of the last
 * strong holder letting go; the cache itself never adds a holder.
 */
module ProgramLoader {
  import opened GlDriver
  import opened Programs

  class ShaderProgramLoader {
    var searchPaths: seq<string>
    var programs: map<string, ShaderProgram>
    var alive: set<ShaderProgram>

    constructor ()
      ensures searchPaths == ["./shaders"] && programs == map[] && alive == {}
    {
      searchPaths := ["./shaders"];
      programs := map[];
      alive := {};
    }

    /** The entry for `name` exists and has not expired. */
    predicate IsLive(name: string)
      reads this
    {
      name in programs && programs[name] in alive
    }

    /** The directories `loadProgram` searches, in order. */
    function GetSearchPaths(): (paths: seq<string>)
      reads this
      ensures paths == searchPaths
    {
      searchPaths
    }

    method AddSearchPath(path: string)
      modifies this`searchPaths
      ensures searchPaths == old(searchPaths) + [path]
      ensures searchPaths[..|old(searchPaths)|] == old(searchPaths) && searchPaths[|searchPaths| - 1] == path
    {
      searchPaths := searchPaths + [path];
    }

    /**
     * Returns the live program cached under `name`, or builds a new one,
     * caches it and returns it; other names' entries are untouched.
     */
    method LoadProgram(name: string, fs: FileSystem, gl: Gl) returns (p: ShaderProgram)
      requires gl.Valid()
      modifies this`programs, this`alive, gl`nextName
      ensures gl.Valid()
      ensures IsLive(name) && programs[name] == p
      ensures old(IsLive(name)) ==>
        p == old(programs[name]) && programs == old(programs) && alive == old(alive) && gl.nextName == old(gl.nextName)
      ensures !old(IsLive(name)) ==>
        && fresh(p) && programs == old(programs)[name := p] && alive == old(alive) + {p}
        && p.programId == old(gl.nextName) && gl.nextName == p.programId + 1
        && p.selection == SelectAll(Initial, SearchOrder(fs, searchPaths, name))
        && (p.valid <==> |p.selection.inputShaders| > 0)
      ensures forall other :: other != name ==>
        (other in programs <==> other in old(programs)) && (other in programs ==> programs[other] == old(programs[other]))
    {
      if name in programs && programs[name] in alive {
        p := programs[name];
      } else {
        p := new ShaderProgram(name, searchPaths, fs, gl);
        programs := programs[name := p];
        alive := alive + {p};
      }
    }

    /**
     * Rebuilds a live program in place: the cached object takes the state of
     * a freshly built one, so every holder sees it through the same handle;
     * the map entry is not rebound. The freshly built object is leaked, as in
     * the source.
     */
    method ReloadProgram(name: string, fs: FileSystem, gl: Gl) returns (ok: bool)
      requires gl.Valid()
      modifies gl`nextName, programs.Values
      ensures gl.Valid()
      ensures ok == old(IsLive(name))
      ensures !ok ==> gl.nextName == old(gl.nextName) && unchanged(programs.Values)
      ensures ok ==>
        var q := programs[name];
        && q.programId == old(gl.nextName) && gl.nextName == q.programId + 1
        && q.selection == SelectAll(Initial, SearchOrder(fs, searchPaths, name))
        && (q.valid <==> |q.selection.inputShaders| > 0)
        && q.programName == "" && q.programType.None?
        && forall other :: other in programs && programs[other] != q ==> unchanged(programs[other])
    {
      if name in programs && programs[name] in alive {
        var rebuilt := new ShaderProgram(name, searchPaths, fs, gl);
        programs[name].AssignFrom(rebuilt);
        ok := true;
      } else {
        ok := false;
      }
    }

    /** The last strong holder of `p` lets go: every entry naming `p` expires. */
    method Release(p: ShaderProgram)
      modifies this`alive
      ensures alive == old(alive) - {p}
      ensures forall n :: n in programs && programs[n] == p ==> !IsLive(n)
    {
      alive := alive - {p};
    }
  }

  /** The static `instance` slot behind `ShaderProgramLoader::getInstance`. */
  class LoaderSingleton {
    var instance: ShaderProgramLoader?

    constructor ()
      ensures instance == null
    {
      instance := null;
    }

    /** Creates the loader on the first call; every later call returns the same one. */
    method GetInstance() returns (l: ShaderProgramLoader)
      modifies this
      ensures instance == l
      ensures old(instance) != null ==> l == old(instance)
      ensures old(instance) == null ==>
        fresh(l) && l.searchPaths == ["./shaders"] && l.programs == map[] && l.alive == {}
    {
      if instance == null {
        instance := new ShaderProgramLoader();
      }
      l := instance;
    }
  }
}
