/**
 * File naming, path search and format dispatch of src/Persist.cxx.
 *
 * The file system, the environment and the foreign libraries (Jsonnet,
 * JsonCpp, bzip2) are collaborators given as values: `Env` answers what
 * boost::filesystem and getenv would, and `Libraries` answers what the
 * Jsonnet evaluator and the JSON reader would.
 */
module Persist {
  import opened Wrappers

  /** Json::Value, as a plain tree. */
  datatype Json =
    | Null
    | Bool(b: bool)
    | Number(n: int)
    | Text(s: string)
    | Array(items: seq<Json>)
    | Object(members: map<string, Json>)

  /** The exceptions Persist throws. */
  datatype Error = IOError(message: string) | ValueError(message: string) | ParseError(message: string)

  /** What the process and the file system answer. */
  datatype Env = Env(
    /** boost::filesystem::current_path() */
    cwd: string,
    /** getenv("WIRECELL_PATH"), already split into its entries; None when unset */
    wirecellPath: Option<seq<string>>,
    /** boost::filesystem::exists: true for any existing path, file or directory */
    pathExists: string -> bool,
    /** boost::filesystem::canonical */
    canonical: string -> string)

  /** The settings a Jsonnet evaluator is given. */
  datatype JsonnetConfig = JsonnetConfig(importPaths: seq<string>, extVars: map<string, string>, extCodes: map<string, string>)

  /** The foreign libraries, as functions of their inputs. */
  datatype Libraries = Libraries(
    /** Jsonnet evaluateFile: the output text, or the evaluator's last error */
    evaluateFile: (string, JsonnetConfig) -> Result<string, string>,
    /** json2object: reading JSON text */
    parse: string -> Result<Json, string>,
    /** reading a JSON file, through a bzip2 decompressor when the flag is set */
    readFile: (string, bool) -> Result<Json, string>)

  // ---------------------------------------------------------------------
  // file_extension

  /** std::string::rfind of one character: the last position holding `c`. */
  function RFind(s: string, c: char): (r: Option<nat>)
    ensures r.None? <==> c !in s
    ensures r.Some? ==> r.value < |s| && s[r.value] == c && c !in s[r.value + 1..]
  {
    if |s| == 0 then None
    else if s[|s| - 1] == c then Some(|s| - 1)
    else
      var r := RFind(s[..|s| - 1], c);
      assert s == s[..|s| - 1] + [s[|s| - 1]];
      r
  }

  /**
   * file_extension: "" when the name holds no '.', otherwise the suffix
   * that starts at the last '.'.
   */
  function FileExtension(filename: string): (ext: string)
    ensures '.' !in filename ==> ext == ""
    ensures '.' in filename ==>
              && |ext| > 0 && ext[0] == '.' && '.' !in ext[1..]
              && |ext| <= |filename| && filename[|filename| - |ext|..] == ext
  {
    match RFind(filename, '.')
    case None => ""
    case Some(ind) => filename[ind..]
  }

  /**
   * For an extension made of one '.' and no other, the name has that
   * extension exactly when it ends with it.
   */
  lemma {:induction false} ExtensionIsSuffix(filename: string, e: string)
    requires |e| > 0 && e[0] == '.' && '.' !in e[1..]
    ensures FileExtension(filename) == e <==> |filename| >= |e| && filename[|filename| - |e|..] == e
  {
    var ext := FileExtension(filename);
    if |filename| >= |e| && filename[|filename| - |e|..] == e {
      assert '.' in filename by { assert filename[|filename| - |e|] == '.'; }
      // Both are suffixes that start with a '.' and hold no other, so they coincide.
      var ind := |filename| - |ext|;
      var dot := |filename| - |e|;
      assert filename[ind] == '.' && filename[dot] == '.';
      forall j | ind < j < |filename|
        ensures filename[j] != '.'
      {
        assert filename[j] == ext[1..][j - ind - 1];
      }
      forall j | dot < j < |filename|
        ensures filename[j] != '.'
      {
        assert filename[j] == e[1..][j - dot - 1];
      }
    }
  }

  // ---------------------------------------------------------------------
  // Load formats

  /** How a file is turned into a Json value. */
  datatype Reader = ViaJsonnet | PlainJson | Bzip2Json

  /** The reader Persist::load uses for an extension. */
  function LoadReader(ext: string): Reader
  {
    if ext == ".jsonnet" then ViaJsonnet
    else if ext == ".bz2" then Bzip2Json
    else PlainJson
  }

  /** The reader Parser::load uses: also Jsonnet when there is no extension. */
  function ParserReader(ext: string): Reader
  {
    if ext == ".jsonnet" || ext == "" then ViaJsonnet
    else if ext == ".bz2" then Bzip2Json
    else PlainJson
  }

  /** A name ends with the given suffix. */
  predicate EndsWith(filename: string, suffix: string)
  {
    |filename| >= |suffix| && filename[|filename| - |suffix|..] == suffix
  }

  /**
   * Both loaders decompress exactly the names ending in ".bz2", and
   * Persist::load sends exactly the names ending in ".jsonnet" to Jsonnet.
   */
  lemma LoadReaderBySuffix(filename: string)
    ensures LoadReader(FileExtension(filename)) == Bzip2Json <==> EndsWith(filename, ".bz2")
    ensures ParserReader(FileExtension(filename)) == Bzip2Json <==> EndsWith(filename, ".bz2")
    ensures LoadReader(FileExtension(filename)) == ViaJsonnet <==> EndsWith(filename, ".jsonnet")
  {
    ExtensionIsSuffix(filename, ".bz2");
    ExtensionIsSuffix(filename, ".jsonnet");
  }

  /** The two loaders pick different readers exactly for names without a '.'. */
  lemma ReadersDifferOnlyWithoutDot(filename: string)
    ensures ParserReader(FileExtension(filename)) != LoadReader(FileExtension(filename)) <==> '.' !in filename
  {
  }

  /** What dump() writes: the file, whether through bzip2, and the text. */
  datatype Written = Written(path: string, compressed: bool, text: string)

  /**
   * dump(filename, jroot, pretty): writes the text the writer gives (styled
   * when `pretty`, compact otherwise) to `filename`, through a bzip2
   * compressor exactly when the name ends with ".bz2".
   */
  function Dump(filename: string, jroot: Json, pretty: bool, write: (Json, bool) -> string): (w: Written)
    ensures w.path == filename && w.text == write(jroot, pretty)
    ensures w.compressed <==> EndsWith(filename, ".bz2")
    ensures w.compressed <==> LoadReader(FileExtension(filename)) == Bzip2Json
  {
    LoadReaderBySuffix(filename);
    var ext := FileExtension(filename);
    Written(filename, ext == ".bz2", write(jroot, pretty))
  }

  // ---------------------------------------------------------------------
  // Path search

  /** boost::filesystem `dir / name` for a relative name. */
  function Join(dir: string, name: string): string
  {
    if dir == "" then name
    else if dir[|dir| - 1] == '/' then dir + name
    else dir + "/" + name
  }

  /** The entries of WIRECELL_PATH, none when it is unset. */
  function PathEntries(env: Env): seq<string>
  {
    match env.wirecellPath
    case None => []
    case Some(entries) => entries
  }

  /** get_path(): the entries of WIRECELL_PATH, in order. */
  method GetPath(env: Env) returns (ret: seq<string>)
    ensures env.wirecellPath.None? ==> ret == []
    ensures env.wirecellPath.Some? ==> ret == env.wirecellPath.value
  {
    ret := [];
    if env.wirecellPath.None? {
      return;
    }
    var cpath := env.wirecellPath.value;
    for i := 0 to |cpath|
      invariant ret == cpath[..i]
    {
      ret := ret + [cpath[i]];
    }
  }

  /**
   * The canonical form of the first candidate `dir / filename` that
   * exists, scanning `dirs` in order; "" when none exists.
   */
  function SearchIn(dirs: seq<string>, filename: string, env: Env): (r: string)
    ensures (forall j :: 0 <= j < |dirs| ==> !env.pathExists(Join(dirs[j], filename))) ==> r == ""
    ensures forall k :: 0 <= k < |dirs| && env.pathExists(Join(dirs[k], filename))
                          && (forall j :: 0 <= j < k ==> !env.pathExists(Join(dirs[j], filename))) ==>
              r == env.canonical(Join(dirs[k], filename))
  {
    if dirs == [] then ""
    else if env.pathExists(Join(dirs[0], filename)) then env.canonical(Join(dirs[0], filename))
    else
      var r := SearchIn(dirs[1..], filename, env);
      assert forall k :: 1 <= k < |dirs| ==> dirs[1..][k - 1] == dirs[k];
      r
  }

  /**
   * resolve over a list of directories: "" for "", an absolute name as
   * is, otherwise the first hit of the search.
   */
  function ResolveIn(dirs: seq<string>, filename: string, env: Env): string
  {
    if filename == "" then ""
    else if filename[0] == '/' then filename
    else SearchIn(dirs, filename, env)
  }

  /** The directories Persist::resolve checks: the working directory, then WIRECELL_PATH. */
  function Candidates(env: Env): seq<string>
  {
    [env.cwd] + PathEntries(env)
  }

  /** The candidate loop shared by both resolve functions. */
  method FirstExisting(dirs: seq<string>, filename: string, env: Env) returns (r: string)
    ensures r == SearchIn(dirs, filename, env)
  {
    for i := 0 to |dirs|
      invariant forall j :: 0 <= j < i ==> !env.pathExists(Join(dirs[j], filename))
    {
      var full := Join(dirs[i], filename);
      if env.pathExists(full) {
        return env.canonical(full);
      }
    }
    return "";
  }

  /** Persist::resolve(filename) */
  method Resolve(filename: string, env: Env) returns (r: string)
    ensures r == ResolveIn(Candidates(env), filename, env)
  {
    if filename == "" {
      return "";
    }
    if filename[0] == '/' {
      return filename;
    }
    var tocheck := [env.cwd];
    var paths := GetPath(env);
    for i := 0 to |paths|
      invariant tocheck == [env.cwd] + paths[..i]
    {
      tocheck := tocheck + [paths[i]];
    }
    assert paths[..|paths|] == paths;
    r := FirstExisting(tocheck, filename, env);
  }

  /**
   * A relative name found in the working directory resolves there,
   * whatever WIRECELL_PATH holds; one found nowhere resolves to "".
   */
  lemma ResolveOrder(filename: string, env: Env)
    requires filename != "" && filename[0] != '/'
    ensures env.pathExists(Join(env.cwd, filename)) ==>
              ResolveIn(Candidates(env), filename, env) == env.canonical(Join(env.cwd, filename))
    ensures !env.pathExists(Join(env.cwd, filename)) ==>
              ResolveIn(Candidates(env), filename, env) == SearchIn(PathEntries(env), filename, env)
  {
    var dirs := Candidates(env);
    assert dirs[0] == env.cwd && dirs[1..] == PathEntries(env);
  }

  // ---------------------------------------------------------------------
  // Loading

  /** The hint load and Parser::load append to a missing file's name. */
  const AddPathHint := ". Maybe you need to add to WIRECELL_PATH."
  /** The hint evaluate_jsonnet_file appends instead. */
  const AddPathHintLower := ", maybe you need to add to WIRECELL_PATH."

  /** The message of the IOError for a file that resolves to nothing. */
  function NoSuchFile(filename: string, hint: string): string
  {
    "no such file: " + filename + hint
  }

  /** Reading a resolved file as JSON, through bzip2 or not. */
  function ReadJson(fname: string, reader: Reader, libs: Libraries): Result<Json, Error>
  {
    match libs.readFile(fname, reader == Bzip2Json)
    case Failure(msg) => Failure(ParseError(msg))
    case Success(v) => Success(v)
  }

  /** Jsonnet output turned into a value by json2object. */
  function FromJsonnet(output: Result<string, string>, libs: Libraries): Result<Json, Error>
  {
    match output
    case Failure(msg) => Failure(ValueError(msg))
    case Success(text) =>
      match libs.parse(text)
      case Failure(msg) => Failure(ParseError(msg))
      case Success(v) => Success(v)
  }

  /**
   * evaluate_jsonnet_file followed by json2object: resolve the name, then
   * evaluate it with WIRECELL_PATH as import paths.
   */
  function JsonnetFileValue(filename: string, extvar: map<string, string>, extcode: map<string, string>,
                            env: Env, libs: Libraries): Result<Json, Error>
  {
    var fname := ResolveIn(Candidates(env), filename, env);
    if fname == "" then Failure(IOError(NoSuchFile(filename, AddPathHintLower)))
    else FromJsonnet(libs.evaluateFile(fname, JsonnetConfig(PathEntries(env), extvar, extcode)), libs)
  }

  /** Persist::evaluate_jsonnet_file with json2object applied to its output. */
  method EvaluateJsonnetFile(filename: string, extvar: map<string, string>, extcode: map<string, string>,
                             env: Env, libs: Libraries) returns (r: Result<Json, Error>)
    ensures r == JsonnetFileValue(filename, extvar, extcode, env, libs)
  {
    var fname := Resolve(filename, env);
    if fname == "" {
      return Failure(IOError(NoSuchFile(filename, AddPathHintLower)));
    }
    var importPaths := GetPath(env);
    var output := libs.evaluateFile(fname, JsonnetConfig(importPaths, extvar, extcode));
    r := FromJsonnet(output, libs);
  }

  /** The static json_cache of Persist::load. */
  class JsonCache {
    /** Values of non-Jsonnet files, keyed by the name as given. */
    var entries: map<string, Json>

    /** No Jsonnet file is ever cached. */
    ghost predicate Valid()
      reads this
    {
      forall n | n in entries :: FileExtension(n) != ".jsonnet"
    }

    constructor ()
      ensures entries == map[] && Valid()
    {
      entries := map[];
    }

    /**
     * Persist::load.  A ".jsonnet" name is evaluated every time and never
     * cached.  Any other name already cached is answered from the cache
     * without resolving it; otherwise it is resolved, read, and on success
     * cached under the name as given.
     */
    method Load(filename: string, extvar: map<string, string>, extcode: map<string, string>,
                env: Env, libs: Libraries) returns (r: Result<Json, Error>)
      modifies this
      ensures FileExtension(filename) == ".jsonnet" ==>
                r == JsonnetFileValue(filename, extvar, extcode, env, libs) && entries == old(entries)
      ensures FileExtension(filename) != ".jsonnet" && filename in old(entries) ==>
                r == Success(old(entries)[filename]) && entries == old(entries)
      ensures FileExtension(filename) != ".jsonnet" && filename !in old(entries) ==>
                var fname := ResolveIn(Candidates(env), filename, env);
                && (fname == "" ==> r == Failure(IOError(NoSuchFile(filename, AddPathHint))))
                && (fname != "" ==> r == ReadJson(fname, LoadReader(FileExtension(filename)), libs))
                && (r.Failure? ==> entries == old(entries))
                && (r.Success? ==> entries == old(entries)[filename := r.value])
      ensures old(Valid()) ==> Valid()
    {
      var ext := FileExtension(filename);
      if ext == ".jsonnet" {
        r := EvaluateJsonnetFile(filename, extvar, extcode, env, libs);
        return;
      }

      if filename in entries {
        return Success(entries[filename]);
      }

      var fname := Resolve(filename, env);
      if fname == "" {
        return Failure(IOError(NoSuchFile(filename, AddPathHint)));
      }

      r := ReadJson(fname, if ext == ".bz2" then Bzip2Json else PlainJson, libs);
      if r.Success? {
        entries := entries[filename := r.value];
      }
    }
  }

  /** Persist::Parser: a Jsonnet evaluator set up with an ordered search path. */
  class Parser {
    /** m_load_paths */
    const loadPaths: seq<string>
    /** The import paths handed to m_jsonnet, in the order they were added. */
    const importPaths: seq<string>
    const extVars: map<string, string>
    const extCodes: map<string, string>

    /**
     * Load paths: the working directory, the given paths, then
     * WIRECELL_PATH.  They are added to Jsonnet last to first.
     */
    constructor (givenPaths: seq<string>, extvar: map<string, string>, extcode: map<string, string>, env: Env)
      ensures loadPaths == [env.cwd] + givenPaths + PathEntries(env)
      ensures |importPaths| == |loadPaths|
      ensures forall i :: 0 <= i < |loadPaths| ==>
                importPaths[i] == env.canonical(loadPaths[|loadPaths| - 1 - i])
      ensures extVars == extvar && extCodes == extcode
    {
      var paths := [env.cwd];
      for i := 0 to |givenPaths|
        invariant paths == [env.cwd] + givenPaths[..i]
      {
        paths := paths + [givenPaths[i]];
      }
      assert givenPaths[..|givenPaths|] == givenPaths;
      var fromEnv := GetPath(env);
      for i := 0 to |fromEnv|
        invariant paths == [env.cwd] + givenPaths + fromEnv[..i]
      {
        paths := paths + [fromEnv[i]];
      }
      assert fromEnv[..|fromEnv|] == fromEnv;

      var imports := [];
      var k := |paths|;
      while k > 0
        invariant 0 <= k <= |paths|
        invariant |imports| == |paths| - k
        invariant forall i :: 0 <= i < |imports| ==> imports[i] == env.canonical(paths[|paths| - 1 - i])
      {
        k := k - 1;
        imports := imports + [env.canonical(paths[k])];
      }

      loadPaths := paths;
      importPaths := imports;
      extVars := extvar;
      extCodes := extcode;
    }

    /**
     * Parser::resolve: like Persist::resolve, over the load paths in order.
     * The file system is the one at the time of the call (`env`); only the
     * load paths were fixed at construction.
     */
    method Resolve(filename: string, env: Env) returns (r: string)
      ensures r == ResolveIn(loadPaths, filename, env)
    {
      if filename == "" {
        return "";
      }
      if filename[0] == '/' {
        return filename;
      }
      r := FirstExisting(loadPaths, filename, env);
    }

    /**
     * Parser::load: resolve first, then evaluate with Jsonnet when the
     * extension is ".jsonnet" or missing, else read JSON, through bzip2
     * for ".bz2".
     */
    method Load(filename: string, env: Env, libs: Libraries) returns (r: Result<Json, Error>)
      ensures var fname := ResolveIn(loadPaths, filename, env);
              && (fname == "" ==> r == Failure(IOError(NoSuchFile(filename, AddPathHint))))
              && (fname != "" && ParserReader(FileExtension(filename)) == ViaJsonnet ==>
                    r == FromJsonnet(libs.evaluateFile(fname, JsonnetConfig(importPaths, extVars, extCodes)), libs))
              && (fname != "" && ParserReader(FileExtension(filename)) != ViaJsonnet ==>
                    r == ReadJson(fname, ParserReader(FileExtension(filename)), libs))
    {
      var fname := Resolve(filename, env);
      if fname == "" {
        return Failure(IOError(NoSuchFile(filename, AddPathHint)));
      }
      var ext := FileExtension(filename);

      if ext == ".jsonnet" || ext == "" {
        var output := libs.evaluateFile(fname, JsonnetConfig(importPaths, extVars, extCodes));
        return FromJsonnet(output, libs);
      }

      r := ReadJson(fname, if ext == ".bz2" then Bzip2Json else PlainJson, libs);
    }
  }

  /**
   * A parser constructed with no extra load paths, while the working
   * directory and WIRECELL_PATH are still those it was constructed under,
   * resolves a name to the same file as Persist::resolve: it searches the
   * same directories in the same order, whatever the file system holds.
   */
  lemma ParserResolveMatchesResolve(p: Parser, filename: string, env: Env)
    requires p.loadPaths == [env.cwd] + [] + PathEntries(env)
    ensures ResolveIn(p.loadPaths, filename, env) == ResolveIn(Candidates(env), filename, env)
  {
    assert p.loadPaths == Candidates(env);
  }
}
