/** The toolchain helpers of src/sgdk.js: the option objects of the C
    compiler, the assembler and the linker with their Release and Debug
    presets, how overrides are merged onto them, how defines, flags and
    include paths are rendered, the name of a compiled file, and the three
    command lines handed to the shell. The option classes never change after
    construction, so every one of them is a value here. */
module Sgdk {
  import opened Js
  import opened ShellWords

  /** A `#define` for the compiler: a symbol and, optionally, its value. */
  datatype DefineItem = DefineItem(key: string, value: Option<string>)

  /** The keys a `CCOptionsObj` may carry; an absent key is `None`. */
  datatype CCOptionsObj = CCOptionsObj(
    includePaths: Option<seq<string>>,
    defines: Option<seq<DefineItem>>,
    flags: Option<seq<string>>,
    baseSdk: Option<string>,
    ccPath: Option<string>,
    outputFile: Option<string>)

  datatype ASOptionsObj = ASOptionsObj(
    defines: Option<seq<DefineItem>>,
    flags: Option<seq<string>>,
    baseSdk: Option<string>,
    asPath: Option<string>,
    outputFile: Option<string>)

  datatype LDOptionsObj = LDOptionsObj(
    linkerFile: Option<string>,
    flags: Option<seq<string>>,
    libraries: Option<seq<string>>,
    baseSdk: Option<string>,
    ldPath: Option<string>)

  const NO_CC_OPTIONS := CCOptionsObj(None, None, None, None, None, None)
  const NO_AS_OPTIONS := ASOptionsObj(None, None, None, None, None)
  const NO_LD_OPTIONS := LDOptionsObj(None, None, None, None, None)

  // ---------------------------------------------------------------------
  // Objects as dictionaries: the reference meaning of `Object.assign`

  /** A value stored under a key of an options object. */
  datatype Value = Text(s: string) | Texts(ss: seq<string>) | Defines(ds: seq<DefineItem>)

  function TextValue(v: Option<string>): Option<Value>
  {
    if v.Some? then Some(Text(v.value)) else None
  }

  function TextsValue(v: Option<seq<string>>): Option<Value>
  {
    if v.Some? then Some(Texts(v.value)) else None
  }

  function DefinesValue(v: Option<seq<DefineItem>>): Option<Value>
  {
    if v.Some? then Some(Defines(v.value)) else None
  }

  /** `o[key]`, or `None` when `o` lacks the key. */
  function CCGet(o: CCOptionsObj, key: string): Option<Value>
  {
    if key == "include_paths" then TextsValue(o.includePaths)
    else if key == "defines" then DefinesValue(o.defines)
    else if key == "flags" then TextsValue(o.flags)
    else if key == "base_sdk" then TextValue(o.baseSdk)
    else if key == "cc_path" then TextValue(o.ccPath)
    else if key == "output_file" then TextValue(o.outputFile)
    else None
  }

  function ASGet(o: ASOptionsObj, key: string): Option<Value>
  {
    if key == "defines" then DefinesValue(o.defines)
    else if key == "flags" then TextsValue(o.flags)
    else if key == "base_sdk" then TextValue(o.baseSdk)
    else if key == "as_path" then TextValue(o.asPath)
    else if key == "output_file" then TextValue(o.outputFile)
    else None
  }

  function LDGet(o: LDOptionsObj, key: string): Option<Value>
  {
    if key == "linker_file" then TextValue(o.linkerFile)
    else if key == "flags" then TextsValue(o.flags)
    else if key == "libraries" then TextsValue(o.libraries)
    else if key == "base_sdk" then TextValue(o.baseSdk)
    else if key == "ld_path" then TextValue(o.ldPath)
    else None
  }

  const CC_KEYS: set<string> := {"include_paths", "defines", "flags", "base_sdk", "cc_path", "output_file"}
  const AS_KEYS: set<string> := {"defines", "flags", "base_sdk", "as_path", "output_file"}
  const LD_KEYS: set<string> := {"linker_file", "flags", "libraries", "base_sdk", "ld_path"}

  /** The object as the dictionary of its present keys. */
  function CCMap(o: CCOptionsObj): map<string, Value>
  {
    map k | k in CC_KEYS && CCGet(o, k).Some? :: CCGet(o, k).value
  }

  function ASMap(o: ASOptionsObj): map<string, Value>
  {
    map k | k in AS_KEYS && ASGet(o, k).Some? :: ASGet(o, k).value
  }

  function LDMap(o: LDOptionsObj): map<string, Value>
  {
    map k | k in LD_KEYS && LDGet(o, k).Some? :: LDGet(o, k).value
  }

  /** `Object.assign` for one key: the source's value if it has the key,
      otherwise the target's. */
  function Assign<T>(target: Option<T>, source: Option<T>): Option<T>
  {
    if source.Some? then source else target
  }

  function AssignCC(target: CCOptionsObj, source: CCOptionsObj): (r: CCOptionsObj)
    ensures forall k :: CCGet(r, k) == Assign(CCGet(target, k), CCGet(source, k))
  {
    CCOptionsObj(
      Assign(target.includePaths, source.includePaths), Assign(target.defines, source.defines),
      Assign(target.flags, source.flags), Assign(target.baseSdk, source.baseSdk),
      Assign(target.ccPath, source.ccPath), Assign(target.outputFile, source.outputFile))
  }

  function AssignAS(target: ASOptionsObj, source: ASOptionsObj): (r: ASOptionsObj)
    ensures forall k :: ASGet(r, k) == Assign(ASGet(target, k), ASGet(source, k))
  {
    ASOptionsObj(
      Assign(target.defines, source.defines), Assign(target.flags, source.flags),
      Assign(target.baseSdk, source.baseSdk), Assign(target.asPath, source.asPath),
      Assign(target.outputFile, source.outputFile))
  }

  function AssignLD(target: LDOptionsObj, source: LDOptionsObj): (r: LDOptionsObj)
    ensures forall k :: LDGet(r, k) == Assign(LDGet(target, k), LDGet(source, k))
  {
    LDOptionsObj(
      Assign(target.linkerFile, source.linkerFile), Assign(target.flags, source.flags),
      Assign(target.libraries, source.libraries), Assign(target.baseSdk, source.baseSdk),
      Assign(target.ldPath, source.ldPath))
  }

  /** Merging two C compiler option objects is the right-biased union of
      their dictionaries: every key of either object is present, and a key
      the source has takes the source's value. */
  lemma AssignCCIsUnion(target: CCOptionsObj, source: CCOptionsObj)
    ensures CCMap(AssignCC(target, source)) == CCMap(target) + CCMap(source)
  {
    var merged, union := CCMap(AssignCC(target, source)), CCMap(target) + CCMap(source);
    forall k
      ensures k in merged <==> k in union
      ensures k in merged ==> merged[k] == union[k]
    {
    }
  }

  /** Merging two assembler option objects is the right-biased union of
      their dictionaries. */
  lemma AssignASIsUnion(target: ASOptionsObj, source: ASOptionsObj)
    ensures ASMap(AssignAS(target, source)) == ASMap(target) + ASMap(source)
  {
    var merged, union := ASMap(AssignAS(target, source)), ASMap(target) + ASMap(source);
    forall k
      ensures k in merged <==> k in union
      ensures k in merged ==> merged[k] == union[k]
    {
    }
  }

  /** Merging two linker option objects is the right-biased union of their
      dictionaries. */
  lemma AssignLDIsUnion(target: LDOptionsObj, source: LDOptionsObj)
    ensures LDMap(AssignLD(target, source)) == LDMap(target) + LDMap(source)
  {
    var merged, union := LDMap(AssignLD(target, source)), LDMap(target) + LDMap(source);
    forall k
      ensures k in merged <==> k in union
      ensures k in merged ==> merged[k] == union[k]
    {
    }
  }

  // ---------------------------------------------------------------------
  // Presets

  const DEBUG_DEFINE := DefineItem("_DEBUG", None)

  /** `CCOptions.defaults()`, the Release preset. */
  function CCDefaults(): CCOptionsObj
  {
    NO_CC_OPTIONS.(
      includePaths := Some(["inc"]),
      defines := Some([]),
      flags := Some(["-m68000", "-Wall", "-O1", "-fomit-frame-pointer", "-fno-builtin-memset", "-fno-builtin-memcpy"]))
  }

  /** `CCOptions.defaultsDebug()`. */
  function CCDefaultsDebug(): CCOptionsObj
  {
    NO_CC_OPTIONS.(
      includePaths := Some(["inc"]),
      defines := Some([DEBUG_DEFINE]),
      flags := Some(["-g3", "-m68000", "-Wall", "-fomit-frame-pointer", "-fno-builtin-memset", "-fno-builtin-memcpy", "-O1"]))
  }

  function ASDefaults(): ASOptionsObj
  {
    NO_AS_OPTIONS.(defines := Some([]))
  }

  function ASDefaultsDebug(): ASOptionsObj
  {
    NO_AS_OPTIONS.(defines := Some([DEBUG_DEFINE]))
  }

  function LDDefaults(): LDOptionsObj
  {
    NO_LD_OPTIONS.(
      linkerFile := Some("md.ld"),
      flags := Some(["-nostdlib", "--oformat binary"]),
      libraries := Some(["libmd.a"]))
  }

  function LDDefaultsDebug(): LDOptionsObj
  {
    NO_LD_OPTIONS.(
      linkerFile := Some("md.ld"),
      flags := Some(["-nostdlib", "--oformat binary"]),
      libraries := Some(["libmd.a"]))
  }

  /** A named build configuration: the option objects of the three tools. */
  datatype BuildConfig = BuildConfig(
    name: string,
    ccOptions: CCOptionsObj,
    asOptions: ASOptionsObj,
    ldOptions: LDOptionsObj)

  /** `BuildConfig.defaults()`: Release, then Debug. */
  function BuildConfigDefaults(): seq<BuildConfig>
  {
    [BuildConfig("Release", CCDefaults(), ASDefaults(), LDDefaults()),
     BuildConfig("Debug", CCDefaultsDebug(), ASDefaultsDebug(), LDDefaultsDebug())]
  }

  /** What the Debug configuration changes: the compiler gets the define
      `_DEBUG` and the flag `-g3`, keeps every Release flag but moves `-O1`
      to the end; every other compiler key, the include path `inc` among
      them, is as in Release, and neither preset names `base_sdk` or
      `cc_path`. The assembler only gains `_DEBUG`; the linker is configured
      identically. */
  lemma DebugPresetDifferences()
    ensures var configs := BuildConfigDefaults();
            var release, debug := configs[0], configs[1];
            && |configs| == 2 && release.name == "Release" && debug.name == "Debug"
            && release.ccOptions.includePaths == Some(["inc"])
            && release.ccOptions.baseSdk.None? && release.ccOptions.ccPath.None?
            && debug.ccOptions.defines.value == release.ccOptions.defines.value + [DEBUG_DEFINE]
            && |release.ccOptions.flags.value| > 2 && release.ccOptions.flags.value[2] == "-O1"
            && debug.ccOptions.flags.value
               == ["-g3"] + release.ccOptions.flags.value[..2] + release.ccOptions.flags.value[3..] + ["-O1"]
            && debug.ccOptions == release.ccOptions.(defines := debug.ccOptions.defines, flags := debug.ccOptions.flags)
            && debug.asOptions == release.asOptions.(defines := Some(release.asOptions.defines.value + [DEBUG_DEFINE]))
            && debug.ldOptions == release.ldOptions
  {
    var release, debug := CCDefaults().flags.value, CCDefaultsDebug().flags.value;
    assert debug == ["-g3"] + release[..2] + release[3..] + [release[2]];
  }


  // ---------------------------------------------------------------------
  // The option classes

  /** A `CCOptions` instance: its merged `options` object. */
  datatype CCOptions = CCOptions(options: CCOptionsObj)

  datatype ASOptions = ASOptions(options: ASOptionsObj)

  datatype LDOptions = LDOptions(options: LDOptionsObj)

  /** `new CCOptions(options)`: the Release defaults overridden by the keys
      `options` has; a null or absent `options` is `None`. */
  function NewCCOptions(options: Option<CCOptionsObj>): (r: CCOptions)
    ensures CCMap(r.options) == CCMap(CCDefaults()) + (if options.Some? then CCMap(options.value) else map[])
    ensures r.options.includePaths.Some? && r.options.defines.Some? && r.options.flags.Some?
  {
    var overrides := if options.Some? then options.value else NO_CC_OPTIONS;
    OverridesCC(options);
    CCOptions(AssignCC(AssignCC(NO_CC_OPTIONS, CCDefaults()), overrides))
  }

  /** Merging onto the empty object `{}` copies the defaults; a null
      argument adds no key. */
  lemma OverridesCC(options: Option<CCOptionsObj>)
    ensures var overrides := if options.Some? then options.value else NO_CC_OPTIONS;
            CCMap(AssignCC(AssignCC(NO_CC_OPTIONS, CCDefaults()), overrides))
            == CCMap(CCDefaults()) + (if options.Some? then CCMap(options.value) else map[])
  {
    var overrides := if options.Some? then options.value else NO_CC_OPTIONS;
    assert AssignCC(NO_CC_OPTIONS, CCDefaults()) == CCDefaults();
    AssignCCIsUnion(CCDefaults(), overrides);
    if options.None? {
      NoCCKeys();
    }
  }

  lemma NoCCKeys()
    ensures CCMap(NO_CC_OPTIONS) == map[]
  {
    assert forall k :: k !in CCMap(NO_CC_OPTIONS);
  }

  /** `new ASOptions(options)`. */
  function NewASOptions(options: Option<ASOptionsObj>): (r: ASOptions)
    ensures ASMap(r.options) == ASMap(ASDefaults()) + (if options.Some? then ASMap(options.value) else map[])
    ensures r.options.defines.Some?
  {
    var overrides := if options.Some? then options.value else NO_AS_OPTIONS;
    OverridesAS(options);
    ASOptions(AssignAS(AssignAS(NO_AS_OPTIONS, ASDefaults()), overrides))
  }

  /** Merging onto the empty object `{}` copies the defaults; a null
      argument adds no key. */
  lemma OverridesAS(options: Option<ASOptionsObj>)
    ensures var overrides := if options.Some? then options.value else NO_AS_OPTIONS;
            ASMap(AssignAS(AssignAS(NO_AS_OPTIONS, ASDefaults()), overrides))
            == ASMap(ASDefaults()) + (if options.Some? then ASMap(options.value) else map[])
  {
    var overrides := if options.Some? then options.value else NO_AS_OPTIONS;
    assert AssignAS(NO_AS_OPTIONS, ASDefaults()) == ASDefaults();
    AssignASIsUnion(ASDefaults(), overrides);
    if options.None? {
      NoASKeys();
    }
  }

  lemma NoASKeys()
    ensures ASMap(NO_AS_OPTIONS) == map[]
  {
    assert forall k :: k !in ASMap(NO_AS_OPTIONS);
  }

  /** `new LDOptions(options)`. */
  function NewLDOptions(options: Option<LDOptionsObj>): (r: LDOptions)
    ensures LDMap(r.options) == LDMap(LDDefaults()) + (if options.Some? then LDMap(options.value) else map[])
    ensures r.options.linkerFile.Some? && r.options.flags.Some? && r.options.libraries.Some?
  {
    var overrides := if options.Some? then options.value else NO_LD_OPTIONS;
    OverridesLD(options);
    LDOptions(AssignLD(AssignLD(NO_LD_OPTIONS, LDDefaults()), overrides))
  }

  /** Merging onto the empty object `{}` copies the defaults; a null
      argument adds no key. */
  lemma OverridesLD(options: Option<LDOptionsObj>)
    ensures var overrides := if options.Some? then options.value else NO_LD_OPTIONS;
            LDMap(AssignLD(AssignLD(NO_LD_OPTIONS, LDDefaults()), overrides))
            == LDMap(LDDefaults()) + (if options.Some? then LDMap(options.value) else map[])
  {
    var overrides := if options.Some? then options.value else NO_LD_OPTIONS;
    assert AssignLD(NO_LD_OPTIONS, LDDefaults()) == LDDefaults();
    AssignLDIsUnion(LDDefaults(), overrides);
    if options.None? {
      NoLDKeys();
    }
  }

  lemma NoLDKeys()
    ensures LDMap(NO_LD_OPTIONS) == map[]
  {
    assert forall k :: k !in LDMap(NO_LD_OPTIONS);
  }

  // ---------------------------------------------------------------------
  // Rendering defines, flags and include paths

  /** `CCOptions.mapDefine`: `-D<key>`, followed by `=<value>` when the
      define has a value. */
  function MapDefine(define: DefineItem): (r: string)
    ensures |r| >= 2 && r[..2] == "-D"
  {
    "-D" + define.key + (if define.value.Some? then "=" + define.value.value else "")
  }

  /** How a compiler reads a `-D` argument back: the symbol up to the first
      `=`, and the rest as the value. */
  function ParseDefine(arg: string): Option<DefineItem>
  {
    if |arg| < 2 || arg[..2] != "-D" then None
    else
      var body := arg[2..];
      var eq := IndexOf(body, '=');
      if eq < 0 then Some(DefineItem(body, None))
      else Some(DefineItem(body[..eq], Some(body[eq + 1..])))
  }

  /** A rendered define reads back as the define itself, provided its
      symbol has no `=`. */
  lemma ParseMapDefine(define: DefineItem)
    requires '=' !in define.key
    ensures ParseDefine(MapDefine(define)) == Some(define)
  {
    var body := MapDefine(define)[2..];
    var k := define.key;
    if define.value.Some? {
      assert body == k + ['='] + define.value.value;
      assert body[..|k|] == k;
      assert body[|k|] == '=';
      IndexOfFirst(body, '=', |k|);
      assert body[|k| + 1..] == define.value.value;
    } else {
      assert body == k;
    }
  }

  lemma IndexOfFirst(s: string, c: char, i: nat)
    requires i < |s| && s[i] == c && c !in s[..i]
    ensures IndexOf(s, c) == i
  {
    var r := IndexOf(s, c);
    assert forall j :: 0 <= j < r ==> s[j] == s[..r][j];
    assert forall j :: 0 <= j < i ==> s[j] == s[..i][j];
  }

  /** A define renders as a single shell argument when neither its symbol
      nor its value contains a space. */
  predicate PlainDefine(define: DefineItem)
  {
    && ' ' !in define.key && '=' !in define.key
    && (define.value.Some? ==> ' ' !in define.value.value)
  }

  function MapDefines(defines: seq<DefineItem>): (r: seq<string>)
    ensures |r| == |defines|
  {
    seq(|defines|, i requires 0 <= i < |defines| => MapDefine(defines[i]))
  }

  function ParseDefines(args: seq<string>): Option<seq<DefineItem>>
  {
    if args == [] then Some([])
    else
      match (ParseDefine(args[0]), ParseDefines(args[1..]))
      case (Some(d), Some(ds)) => Some([d] + ds)
      case _ => None
  }

  /** `getDefines()`: the rendered defines joined with spaces. Without a
      `defines` key, `undefined.map` throws a TypeError. */
  function GetDefines(o: CCOptions): (r: Completion<string>)
    ensures r.Normal? <==> o.options.defines.Some?
  {
    if o.options.defines.None? then Throw(TypeError)
    else Normal(Join(MapDefines(o.options.defines.value), " "))
  }

  /** The compiler receives exactly the configured defines, in order: the
      string `getDefines` produces splits into one argument per define, and
      each argument reads back as its define. */
  lemma {:induction false} DefinesReachCompiler(o: CCOptions)
    requires o.options.defines.Some?
    requires forall i :: 0 <= i < |o.options.defines.value| ==> PlainDefine(o.options.defines.value[i])
    ensures GetDefines(o).Normal?
    ensures ParseDefines(Words(GetDefines(o).value)) == o.options.defines
  {
    var ds := o.options.defines.value;
    var args := MapDefines(ds);
    forall i | 0 <= i < |args|
      ensures IsWord(args[i])
    {
      var d := ds[i];
      assert PlainDefine(d);
      assert args[i] == "-D" + d.key + (if d.value.Some? then "=" + d.value.value else "");
    }
    SplitJoin(args);
    ParseAllDefines(ds);
  }

  lemma {:induction false} ParseAllDefines(ds: seq<DefineItem>)
    requires forall i :: 0 <= i < |ds| ==> '=' !in ds[i].key
    ensures ParseDefines(MapDefines(ds)) == Some(ds)
  {
    if ds != [] {
      ParseMapDefine(ds[0]);
      ParseAllDefines(ds[1..]);
      assert MapDefines(ds)[1..] == MapDefines(ds[1..]);
      assert [ds[0]] + ds[1..] == ds;
    }
  }

  /** `getFlags()`: the flags joined with spaces; a TypeError without a
      `flags` key. */
  function GetFlags(o: CCOptions): (r: Completion<string>)
    ensures r.Normal? <==> o.options.flags.Some?
  {
    if o.options.flags.None? then Throw(TypeError)
    else Normal(Join(o.options.flags.value, " "))
  }

  /** The compiler receives the flags in order, each split at its own
      spaces. */
  lemma FlagsReachCompiler(o: CCOptions)
    requires o.options.flags.Some?
    ensures GetFlags(o).Normal?
    ensures Words(GetFlags(o).value) == FlatWords(o.options.flags.value)
  {
    WordsJoin(o.options.flags.value);
  }

  /** `getIncludes()` as written: `map` calls the unbound
      `this.mapIncludePath`, whose `this` is undefined in a class body, so
      reading `this.options` throws a TypeError as soon as there is one
      include path. An absent key throws as well. */
  function GetIncludes(o: CCOptions): (r: Completion<string>)
    ensures r.Normal? <==> o.options.includePaths == Some([])
  {
    if o.options.includePaths.None? then Throw(TypeError)
    else if o.options.includePaths.value == [] then Normal("")
    else Throw(TypeError)
  }

  /** Every configuration built from the presets has an include path, so
      `getIncludes`, and with it `CCLauncher.compile`, throws. */
  lemma PresetIncludesThrow(config: BuildConfig)
    requires config in BuildConfigDefaults()
    ensures GetIncludes(NewCCOptions(Some(config.ccOptions))) == Throw(TypeError)
  {
    assert NewCCOptions(Some(config.ccOptions)).options.includePaths == Some(["inc"]);
  }

  /** The evident intent of `getIncludes`: each include path joined to the
      SDK base path and rendered `-I"<path>"`, joined with spaces. The
      platform's `path.join` is a parameter; given an absent base path it
      throws a TypeError, which only happens once `map` calls it, so an
      empty list gives `""` whatever the base path. */
  function GetIncludesBound(o: CCOptions, joinPath: (string, string) -> string): (r: Completion<string>)
    ensures r.Normal? <==> o.options.includePaths.Some?
                           && (o.options.includePaths.value == [] || o.options.baseSdk.Some?)
    ensures r.Normal? && o.options.includePaths.value == [] ==> r.value == ""
  {
    if o.options.includePaths.None? then Throw(TypeError)
    else if o.options.includePaths.value == [] then Normal("")
    else if o.options.baseSdk.None? then Throw(TypeError)
    else Normal(Join(IncludeArgs(o.options.baseSdk.value, o.options.includePaths.value, joinPath), " "))
  }

  /** The correction changes nothing where the code as written succeeds:
      both give `""` for a present, empty include-path list. */
  lemma IncludesBoundExtendsWritten(o: CCOptions, joinPath: (string, string) -> string)
    requires GetIncludes(o).Normal?
    ensures GetIncludesBound(o, joinPath) == GetIncludes(o)
  {
  }

  function IncludeArgs(base: string, paths: seq<string>, joinPath: (string, string) -> string): (r: seq<string>)
    ensures |r| == |paths|
  {
    seq(|paths|, i requires 0 <= i < |paths| => "-I\"" + joinPath(base, paths[i]) + "\"")
  }

  /** With the intended `getIncludes`, every include path reaches the
      compiler as its own argument (quotes still in place), in order,
      as long as no joined path holds a space. */
  lemma IncludesReachCompiler(o: CCOptions, joinPath: (string, string) -> string)
    requires GetIncludesBound(o, joinPath).Normal?
    requires o.options.baseSdk.Some? ==>
               forall p :: p in o.options.includePaths.value ==> ' ' !in joinPath(o.options.baseSdk.value, p)
    ensures o.options.includePaths.value == [] ==> Words(GetIncludesBound(o, joinPath).value) == []
    ensures o.options.baseSdk.Some? ==>
              Words(GetIncludesBound(o, joinPath).value)
              == IncludeArgs(o.options.baseSdk.value, o.options.includePaths.value, joinPath)
  {
    if o.options.baseSdk.Some? {
      var args := IncludeArgs(o.options.baseSdk.value, o.options.includePaths.value, joinPath);
      forall i | 0 <= i < |args|
        ensures IsWord(args[i])
      {
        assert o.options.includePaths.value[i] in o.options.includePaths.value;
      }
      SplitJoin(args);
    }
  }

  // ---------------------------------------------------------------------
  // Output names and command lines

  /** `map_input_filename_to_output` of `CFileConfig` and `SFileConfig`
      (the two are identical): everything before the last `.`, then `.o`. */
  function MapInputFilenameToOutput(filename: string): (r: string)
    ensures |r| >= 2 && r[|r| - 2..] == ".o"
    ensures '.' !in filename ==> r == ".o"
  {
    Substr(filename, 0, LastIndexOf(filename, '.')) + ".o"
  }

  /** Only the last extension is replaced, whatever the stem holds. */
  lemma ReplacesLastExtension(stem: string, extension: string)
    requires '.' !in extension
    ensures MapInputFilenameToOutput(stem + "." + extension) == stem + ".o"
  {
    var f := stem + "." + extension;
    var r := LastIndexOf(f, '.');
    assert f[|stem|] == '.';
    assert forall j :: |stem| < j < |f| ==> f[j] == extension[j - |stem| - 1];
    assert forall j :: r < j < |f| ==> f[j] == f[r + 1..][j - r - 1];
    assert r == |stem|;
    assert f[..|stem|] == stem;
  }

  /** An output name maps to itself. */
  lemma OutputNameIsFixedPoint(filename: string)
    ensures MapInputFilenameToOutput(MapInputFilenameToOutput(filename)) == MapInputFilenameToOutput(filename)
  {
    var r := MapInputFilenameToOutput(filename);
    var stem := r[..|r| - 2];
    assert r == stem + "." + "o";
    ReplacesLastExtension(stem, "o");
  }

  /** `main.c` compiles to `main.o`, `a.b.s` to `a.b.o`, and a name without
      a dot to the bare `.o`, since `substr(0, -1)` is empty. */
  lemma OutputNameExamples()
    ensures MapInputFilenameToOutput("main.c") == "main.o"
    ensures MapInputFilenameToOutput("a.b.s") == "a.b.o"
    ensures MapInputFilenameToOutput("Makefile") == ".o"
  {
    OutputNameOfSource();
    OutputNameOfDottedSource();
  }

  lemma OutputNameOfSource()
    ensures MapInputFilenameToOutput("main.c") == "main.o"
  {
    assert "main.c" == "main" + "." + "c";
    ReplacesLastExtension("main", "c");
  }

  lemma OutputNameOfDottedSource()
    ensures MapInputFilenameToOutput("a.b.s") == "a.b.o"
  {
    assert "a.b.s" == "a.b" + "." + "s";
    ReplacesLastExtension("a.b", "s");
  }

  /** The compile command of `CCLauncher.compile`: the compiler, the
      flags, the defines, the include options, then `-c` with the input and
      `-o` with the output, one space apart. */
  function CompileCommand(cc: string, flags: string, defines: string, includes: string,
                          filenameIn: string, filenameOut: string): (r: string)
    ensures Words(r) == Words(cc) + (Words(flags) + (Words(defines) + (Words(includes)
                        + (["-c"] + (Words(filenameIn) + (["-o"] + Words(filenameOut)))))))
  {
    WordsOfWord("-c");
    WordsOfWord("-o");
    Spaced(cc, Spaced(flags, Spaced(defines, Spaced(includes,
      Spaced("-c", Spaced(filenameIn, Spaced("-o", filenameOut)))))))
  }

  /** The command of `ASLauncher.compile`: the assembler, `-o` with the
      output, then the input. */
  function AssembleCommand(gas: string, filenameOut: string, filenameIn: string): (r: string)
    ensures Words(r) == Words(gas) + (["-o"] + (Words(filenameOut) + Words(filenameIn)))
  {
    WordsOfWord("-o");
    Spaced(gas, Spaced("-o", Spaced(filenameOut, filenameIn)))
  }

  /** The command of `LDLauncher.link`: the linker, `-T` with the linker
      script, the flags, `-o` with the output, then the inputs joined with
      spaces. */
  function LinkCommand(ld: string, linkerFile: string, flags: string, filenameOut: string,
                       filenamesIn: seq<string>): (r: string)
    ensures Words(r) == Words(ld) + (["-T"] + (Words(linkerFile) + (Words(flags)
                        + (["-o"] + (Words(filenameOut) + FlatWords(filenamesIn))))))
  {
    WordsOfWord("-T");
    WordsOfWord("-o");
    WordsJoin(filenamesIn);
    Spaced(ld, Spaced("-T", Spaced(linkerFile, Spaced(flags,
      Spaced("-o", Spaced(filenameOut, Join(filenamesIn, " ")))))))
  }

  /** What the compiler sees when it compiles one file: the configured
      flags in order, one `-D` argument per define in order, the include
      options, then `-c` with the input and `-o` with the output. */
  lemma CompileArguments(o: CCOptions, cc: string, includes: string, filenameIn: string, filenameOut: string)
    requires o.options.flags.Some? && AllWords(o.options.flags.value)
    requires o.options.defines.Some?
    requires forall i :: 0 <= i < |o.options.defines.value| ==> PlainDefine(o.options.defines.value[i])
    requires IsWord(cc) && IsWord(filenameIn) && IsWord(filenameOut)
    ensures GetFlags(o).Normal? && GetDefines(o).Normal?
    ensures Words(CompileCommand(cc, GetFlags(o).value, GetDefines(o).value, includes, filenameIn, filenameOut))
            == [cc] + o.options.flags.value + MapDefines(o.options.defines.value) + Words(includes)
               + ["-c", filenameIn, "-o", filenameOut]
  {
    FlagsReachCompiler(o);
    FlatWordsOfWords(o.options.flags.value);
    var args := MapDefines(o.options.defines.value);
    forall i | 0 <= i < |args|
      ensures IsWord(args[i])
    {
      var d := o.options.defines.value[i];
      assert PlainDefine(d);
      assert args[i] == "-D" + d.key + (if d.value.Some? then "=" + d.value.value else "");
    }
    SplitJoin(args);
    WordsOfWord(cc);
    WordsOfWord(filenameIn);
    WordsOfWord(filenameOut);
    var flags, includeArgs := o.options.flags.value, Words(includes);
    assert Words(CompileCommand(cc, GetFlags(o).value, GetDefines(o).value, includes, filenameIn, filenameOut))
        == [cc] + (flags + (args + (includeArgs + (["-c"] + ([filenameIn] + (["-o"] + [filenameOut]))))));
    Reassociate([cc], flags, args, includeArgs, ["-c", filenameIn, "-o", filenameOut]);
  }

  lemma Reassociate(a: seq<string>, b: seq<string>, c: seq<string>, d: seq<string>, e: seq<string>)
    requires |e| == 4
    ensures a + (b + (c + (d + ([e[0]] + ([e[1]] + ([e[2]] + [e[3]])))))) == a + b + c + d + e
  {
    assert [e[0]] + ([e[1]] + ([e[2]] + [e[3]])) == e;
  }

  /** Both presets meet the conditions of `CompileArguments`: their flags
      are single arguments and their defines are plain, and the Debug
      preset renders its one define as `-D_DEBUG`. */
  lemma PresetsCompileCleanly(config: BuildConfig)
    requires config in BuildConfigDefaults()
    ensures var o := NewCCOptions(Some(config.ccOptions));
            && o.options.flags.Some? && AllWords(o.options.flags.value)
            && o.options.defines.Some?
            && (forall i :: 0 <= i < |o.options.defines.value| ==> PlainDefine(o.options.defines.value[i]))
            && MapDefines(o.options.defines.value) == (if config.name == "Debug" then ["-D_DEBUG"] else [])
  {
    var o := NewCCOptions(Some(config.ccOptions));
    PresetOptionsKept(config.ccOptions);
    if config.name == "Debug" {
      DebugFlagsAreWords();
      DebugDefineRendering();
    } else {
      ReleaseFlagsAreWords();
    }
  }

  lemma ReleaseFlagsAreWords()
    ensures AllWords(CCDefaults().flags.value)
  {
  }

  lemma DebugFlagsAreWords()
    ensures AllWords(CCDefaultsDebug().flags.value)
  {
  }

  /** A preset names every key the defaults name, so the merge keeps it
      whole. */
  lemma PresetOptionsKept(preset: CCOptionsObj)
    requires preset.includePaths.Some? && preset.defines.Some? && preset.flags.Some?
    ensures NewCCOptions(Some(preset)).options == preset
  {
  }

  /** The Debug preset's define `{ key: '_DEBUG' }` renders as `-D_DEBUG`. */
  lemma DebugDefineRendering()
    ensures MapDefines([DEBUG_DEFINE]) == ["-D_DEBUG"]
  {
    assert MapDefine(DEBUG_DEFINE) == "-D_DEBUG";
    assert MapDefines([DEBUG_DEFINE]) == [MapDefine(DEBUG_DEFINE)];
  }
}
