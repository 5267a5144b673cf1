/**
 * `LuaManager`: how a script sandbox is put together, the `log` function,
 * running a script, and the name of the native library to load.
 *
 * The Lua state is modelled by what a script can observe of it: its memory
 * limit, the libraries opened, and the global table. What each standard
 * library installs is JNLua's and Lua's business, so it is the `libs`
 * parameter. Loading and running Lua code is the virtual machine's, so the
 * outcome of a script run is an argument.
 */
module LuaManager {
  import opened Wrappers
  import opened LuaValues
  import VectorsApi
  import EventsApi

  /** `MEMORY_LIMIT`: the byte limit the state is created with. */
  const MEMORY_LIMIT := 1000000

  /** The standard libraries JNLua can open. */
  datatype Library = Base | Bit32 | TableLib | StringLib | MathLib | Io | Os | Package | Debug

  /** `openLibraries`: the libraries opened, in this order; BIT32 is left closed. */
  const OPENED: seq<Library> := [Base, TableLib, StringLib, MathLib]

  /** The globals the script of `runSandboxer` sets to nil (`collectgarbage` stays). */
  const REMOVED: set<string> :=
    {"debug", "dofile", "_G", "getfenv", "load", "loadfile", "loadstring",
     "rawequal", "rawget", "rawset", "setfenv"}

  /** `DO_NOTHING`: the Java function that returns nothing, bound to `log` and `print`. */
  const DO_NOTHING := Function("doNothing")

  /** The function `setupLog` binds. */
  const LOG := Function("log")

  /** `LOG_HEADER`. */
  const LOG_HEADER := "[FIGUA LOG] >>> "

  datatype LuaState = LuaState(memoryLimit: int, libraries: seq<Library>, globals: map<string, Value>)

  /** `openLib`: the library's globals are added, replacing any of the same name. */
  function OpenLib(s: LuaState, lib: Library, libs: Library -> map<string, Value>): (r: LuaState)
    ensures r.libraries == s.libraries + [lib] && r.memoryLimit == s.memoryLimit
    ensures r.globals.Keys == s.globals.Keys + libs(lib).Keys
    ensures forall k :: k in libs(lib) ==> r.globals[k] == libs(lib)[k]
  {
    s.(libraries := s.libraries + [lib], globals := s.globals + libs(lib))
  }

  /** `setGlobal(name)` of a value: nil removes the name, anything else binds it. */
  function SetGlobal(g: map<string, Value>, name: string, v: Value): (r: map<string, Value>)
    ensures v.Nil? ==> name !in r && forall k :: k in g && k != name ==> k in r && r[k] == g[k]
    ensures !v.Nil? ==> r == g[name := v]
  {
    if v.Nil? then g - {name} else g[name := v]
  }

  /** Reading a global: an unbound name reads as nil. */
  function Global(g: map<string, Value>, name: string): (v: Value)
    ensures name in g ==> v == g[name]
    ensures name !in g ==> v.Nil?
  {
    if name in g then g[name] else Nil
  }

  /** The `events` global as a table of its two channels, both empty. */
  function EventsGlobal(): (v: Value)
    ensures v.Table? && v.fields.Keys == EventsApi.CHANNELS
  {
    var e := EventsApi.AddTo();
    Table(map name | name in e.channels :: Table(map[]))
  }

  /**
   * `runSandboxer`: the sandbox script, one assignment after the other. The
   * last one indexes the global `string`; when that is not a table the
   * script raises and `createLuaState` with it.
   */
  function Sandbox(g: map<string, Value>): (r: Result<map<string, Value>>)
    ensures r.Ok? <==> "string" in g && g["string"].Table?
    ensures r.Ok? ==> r.value.Keys == g.Keys - REMOVED
    ensures r.Ok? ==> forall k :: k in r.value && k != "string" ==> r.value[k] == g[k]
    ensures r.Ok? ==> r.value["string"] == Table(g["string"].fields - {"dump"})
    ensures r.Err? ==> r.error.LuaRuntime?
  {
    var cleared := g - REMOVED;
    if "string" in cleared && cleared["string"].Table? then
      Ok(cleared["string" := Table(cleared["string"].fields - {"dump"})])
    else Err(LuaRuntime("attempt to index a nil value (global 'string')"))
  }

  /** What the four opened libraries install together, later libraries winning. */
  function LibraryGlobals(libs: Library -> map<string, Value>): map<string, Value> {
    libs(Base) + libs(TableLib) + libs(StringLib) + libs(MathLib)
  }

  /** The names `createLuaState` binds itself, after opening the libraries. */
  const INSTALLED: set<string> := {"vectors", "events", "log", "print"}

  /** The start of `createLuaState`, with `openLibraries`: a fresh state with the memory limit and the four libraries opened in order. */
  function OpenLibraries(libs: Library -> map<string, Value>): (r: LuaState)
    ensures r.memoryLimit == MEMORY_LIMIT && r.libraries == OPENED
    ensures r.globals == LibraryGlobals(libs)
  {
    var s0 := LuaState(MEMORY_LIMIT, [], map[]);
    OpenLib(OpenLib(OpenLib(OpenLib(s0, Base, libs), TableLib, libs), StringLib, libs), MathLib, libs)
  }

  /** The middle of `createLuaState`: `vectors` and `events` installed, then `log` and `print` bound to the function that does nothing. */
  function Install(g: map<string, Value>): (r: map<string, Value>)
    ensures r.Keys == g.Keys + INSTALLED
    ensures r["vectors"] == Table(VectorsApi.Installed()) && r["events"] == EventsGlobal()
    ensures r["log"] == DO_NOTHING && r["print"] == DO_NOTHING
    ensures forall k :: k in g && k !in INSTALLED ==> r[k] == g[k]
  {
    var g' := g["vectors" := Table(VectorsApi.Installed())]["events" := EventsGlobal()];
    SetGlobal(SetGlobal(g', "log", DO_NOTHING), "print", DO_NOTHING)
  }

  /** `createLuaState`: libraries, then the installed globals, then the sandbox script, whose error escapes. */
  function CreateLuaState(libs: Library -> map<string, Value>): (r: Result<LuaState>)
  {
    var s := OpenLibraries(libs);
    match Sandbox(Install(s.globals))
    case Err(e) => Err(e)
    case Ok(sandboxed) => Ok(s.(globals := sandboxed))
  }

  /**
   * The state `createLuaState` returns: the limit and the four libraries;
   * no removed name, with `vectors`, `events`, `log` and `print` installed
   * over the libraries' globals; `string.dump` gone; every other library
   * global, `collectgarbage` included, kept.
   */
  lemma CreatedState(libs: Library -> map<string, Value>)
    ensures var r := CreateLuaState(libs);
      var lg := LibraryGlobals(libs);
      (r.Ok? <==> Global(lg, "string").Table?)
      && (r.Ok? ==>
        var g := r.value.globals;
        r.value.memoryLimit == MEMORY_LIMIT && r.value.libraries == OPENED
        && g.Keys == (lg.Keys + INSTALLED) - REMOVED
        && Global(g, "vectors") == Table(VectorsApi.Installed()) && Global(g, "events") == EventsGlobal()
        && Global(g, "log") == DO_NOTHING && Global(g, "print") == DO_NOTHING
        && Global(g, "string") == Table(Global(lg, "string").fields - {"dump"})
        && (forall k :: k in lg && k !in REMOVED + INSTALLED + {"string"} ==> Global(g, k) == lg[k]))
  {
    var s := OpenLibraries(libs);
    NamesApart();
  }

  /** The names `createLuaState` installs, `string` and `collectgarbage` are none of them removed. */
  lemma NamesApart()
    ensures "vectors" !in REMOVED && "events" !in REMOVED && "log" !in REMOVED && "print" !in REMOVED
    ensures "string" !in REMOVED + INSTALLED && "collectgarbage" !in REMOVED + INSTALLED + {"string"}
  {
  }

  /**
   * After `createLuaState`, every removed name and
   * `string.dump` read as nil, while a `collectgarbage` the base library
   * provides (and no later library replaces) is still there.
   */
  lemma SandboxRemoves(libs: Library -> map<string, Value>)
    requires "collectgarbage" in libs(Base)
    requires forall l :: l in OPENED[1..] ==> "collectgarbage" !in libs(l)
    requires CreateLuaState(libs).Ok?
    ensures var g := CreateLuaState(libs).value.globals;
      Global(g, "collectgarbage") == libs(Base)["collectgarbage"]
      && (forall k :: k in REMOVED ==> Global(g, k).Nil?)
      && Global(Global(g, "string").fields, "dump").Nil?
  {
    CreatedState(libs);
    NamesApart();
    var g := CreateLuaState(libs).value.globals;
    assert OPENED[1..] == [TableLib, StringLib, MathLib];
    assert LibraryGlobals(libs)["collectgarbage"] == libs(Base)["collectgarbage"];
    forall k | k in REMOVED
      ensures Global(g, k).Nil?
    {
      assert k !in g;
    }
  }

  /** `setupLog` binds `log` and `print` to the same logging function. */
  function SetupLog(s: LuaState): (r: LuaState)
    ensures r.globals.Keys == s.globals.Keys + {"log", "print"}
    ensures r.globals["log"] == r.globals["print"] == LOG
    ensures forall k :: k in s.globals && k !in {"log", "print"} ==> r.globals[k] == s.globals[k]
    ensures r.memoryLimit == s.memoryLimit && r.libraries == s.libraries
  {
    var g := SetGlobal(s.globals, "log", LOG);
    s.(globals := SetGlobal(g, "print", g["log"]))
  }

  /** `typeName(1)`: Lua answers "no value" for a position past the arguments. */
  function TypeNameAt(args: seq<Value>, k: nat): (s: string)
    requires k >= 1
    ensures IsNone(args, k) ==> s == "no value"
    ensures !IsNone(args, k) ==> s == TypeName(args[k - 1])
  {
    if IsNone(args, k) then "no value" else TypeName(args[k - 1])
  }

  /** `isString(1)`: true for strings and for numbers, which Lua converts. */
  predicate IsString(args: seq<Value>, k: nat) {
    1 <= k <= |args| && (args[k - 1].Str? || args[k - 1].Int? || args[k - 1].Float?)
  }

  /**
   * The line the logging function of `setupLog` writes for a call with
   * `args`: the header and the first argument as a string, or its type
   * name in brackets.
   */
  function LogMessage(args: seq<Value>, showFloat: real -> string): (m: string)
    ensures |m| >= |LOG_HEADER| && m[..|LOG_HEADER|] == LOG_HEADER
    ensures IsString(args, 1) ==> m == LOG_HEADER + CheckString(args, 1, showFloat).value
    ensures !IsString(args, 1) ==> m == LOG_HEADER + "[" + TypeNameAt(args, 1) + "]"
  {
    if IsString(args, 1) then LOG_HEADER + CheckString(args, 1, showFloat).value
    else LOG_HEADER + "[" + TypeNameAt(args, 1) + "]"
  }

  /** The logged text after the header gives back a string argument, and the bracketed type of anything else. */
  lemma LogMessageRecovers(args: seq<Value>, showFloat: real -> string)
    ensures var m := LogMessage(args, showFloat);
      (|args| >= 1 && args[0].Str? ==> m[|LOG_HEADER|..] == args[0].s)
      && (|args| >= 1 && args[0].Int? ==> m[|LOG_HEADER|..] == IntString(args[0].i))
      && (|args| >= 1 && args[0].Table? ==> m[|LOG_HEADER|..] == "[table]")
      && (args == [] ==> m == LOG_HEADER + "[no value]")
  {
  }

  /** The end of `runSource`: whether the chunk was called, and the exception printed, if any. */
  datatype SourceRun = SourceRun(called: bool, reported: Option<Exception>)

  /**
   * `runSource`: load the source, then call it; an exception from either is
   * printed and swallowed, so the result is never an error.
   */
  function RunSource(load: Option<Exception>, call: Option<Exception>): (r: SourceRun)
    ensures r.called <==> load.None?
    ensures r.reported.None? <==> load.None? && call.None?
    ensures load.Some? ==> r.reported == load
  {
    if load.Some? then SourceRun(false, load)
    else SourceRun(true, call)
  }

  /** Lower-casing, over the ASCII letters. */
  function Lower(s: string): (r: string)
    ensures |r| == |s|
    ensures forall i :: 0 <= i < |s| ==> r[i] == LowerChar(s[i])
  {
    if s == [] then [] else [LowerChar(s[0])] + Lower(s[1..])
  }

  function LowerChar(c: char): (d: char)
    ensures 'A' <= c <= 'Z' ==> 'a' <= d <= 'z' && d as int - c as int == 32
    ensures !('A' <= c <= 'Z') ==> d == c
  {
    if 'A' <= c <= 'Z' then (c as int + 32) as char else c
  }

  /** `part` occurs in `s` at some position. */
  predicate Contains(s: string, part: string) {
    |part| <= |s| && (s[..|part|] == part || Contains(s[1..], part))
  }

  predicate EndsWith(s: string, suffix: string) {
    |suffix| <= |s| && s[|s| - |suffix|..] == suffix
  }

  /** The platform as the two tests classify it: Windows, else Mac, else Linux. */
  datatype Platform = Windows | Mac | Linux

  /** The operating-system tests of `setupLuaNatives`: the Windows test comes first. */
  function PlatformOf(osName: string): (p: Platform)
    ensures p == Windows <==> Contains(Lower(osName), "win")
    ensures p == Mac <==> !Contains(Lower(osName), "win") && Contains(Lower(osName), "mac")
  {
    var os := Lower(osName);
    if Contains(os, "win") then Windows else if Contains(os, "mac") then Mac else Linux
  }

  /** The file name segments for a platform and word size. */
  function Prefix(p: Platform): string { if p == Windows then "libjnlua-" else "jnlua-" }
  function OsSegment(p: Platform): string { match p case Windows => "windows-" case Mac => "mac-" case Linux => "linux-" }
  function ArchSegment(wide: bool): string { if wide then "amd64" else "i686" }
  function Extension(p: Platform): string { match p case Windows => ".dll" case Mac => ".dylib" case Linux => ".so" }

  /**
   * `setupLuaNatives`: the library's name and extension, chosen from `os.name`
   * and `os.arch`.
   */
  function NativeName(osName: string, osArch: string): (r: (string, string))
    ensures r.1 == ".dll" <==> Contains(Lower(osName), "win")
    ensures |r.0| >= 10 && (r.0[0] == 'l' <==> r.1 == ".dll")
    ensures r.0[|r.0| - 1] == '4' <==> EndsWith(osArch, "64")
  {
    var p := PlatformOf(osName);
    (Prefix(p) + "5.3-" + OsSegment(p) + ArchSegment(EndsWith(osArch, "64")), Extension(p))
  }

  /**
   * Different files for different configurations: two property pairs give
   * the same name and extension exactly when they classify as the same
   * platform and word size.
   */
  lemma NativeNameInjective(os1: string, arch1: string, os2: string, arch2: string)
    ensures NativeName(os1, arch1) == NativeName(os2, arch2)
      <==> PlatformOf(os1) == PlatformOf(os2) && EndsWith(arch1, "64") == EndsWith(arch2, "64")
  {
    var p1, p2 := PlatformOf(os1), PlatformOf(os2);
    if NativeName(os1, arch1) == NativeName(os2, arch2) {
      assert Extension(p1) == Extension(p2);
      assert |Extension(p1)| == |Extension(p2)|;
      var w1, w2 := EndsWith(arch1, "64"), EndsWith(arch2, "64");
      assert |ArchSegment(w1)| == |ArchSegment(w2)|;
    }
  }

  /** An `os.name` mentioning both "win" and "mac" is taken as Windows, for the name and the extension alike. */
  lemma WindowsFirst(osName: string, osArch: string)
    requires Contains(Lower(osName), "win") && Contains(Lower(osName), "mac")
    ensures NativeName(osName, osArch).0[..9] == "libjnlua-"
    ensures NativeName(osName, osArch).1 == ".dll"
  {
  }
}
