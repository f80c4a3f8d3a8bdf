/** Hot reload: cmd/mcp-server/main.go (start-up and watchLoop) over pkg/server/server.go. */
module Reload {
  import opened Text
  import opened Schema
  import opened Parser
  import opened Composition
  import opened RoundTrip
  import opened Config
  import opened Tools
  import opened Runner

  /** What the command line fixes; `isMedia` stands for mime.ParseMediaType succeeding. */
  datatype Settings = Settings(configPath: string, cli: Config, isMedia: string -> bool)

  /** What start-up needs of the host: the log file opens, telemetry starts, the paths can be watched. */
  datatype Host = Host(logOpens: bool, telemetryStarts: bool, pathsWatched: bool)

  /** What the disk holds when it is read: the decoded config file, unless it cannot be loaded, the
      text of every readable file, the IDs whose schema json.Marshal refuses, and the host around it. */
  datatype Disk = Disk(config: Option<Config>, texts: map<string, string>, unencodable: set<string>, host: Host)

  /** A debounced event, and the disk that its handling reads. */
  datatype FileEvent = FileEvent(path: string, disk: Disk)

  // ---- Reading ----

  /** loadConfig */
  function LoadConfig(configPath: string, override: Config, disk: Disk): Option<Config> {
    if configPath == "" then Some(Merge(DEFAULT, override))
    else if disk.config.None? then None
    else Some(Merge(Merge(DEFAULT, disk.config.value), override))
  }

  function ReadFiles(paths: seq<string>, disk: Disk): seq<File> {
    seq(|paths|, i requires 0 <= i < |paths| =>
      File(paths[i], if paths[i] in disk.texts then Some(ScanLines(disk.texts[paths[i]])) else None))
  }

  function OptionsOf(s: Settings, cfg: Config): Options {
    Options(cfg.delimiter, cfg.strict, s.isMedia)
  }

  /** filepath.Dir of a clean slash-separated path. */
  function Dir(path: string): string {
    var head := path[..|path| - |AfterSlash(path)|];
    if head == "" then "." else if StripSlashes(head) == "" then "/" else StripSlashes(head)
  }

  predicate NoSlash(name: string) {
    name != "" && forall i | 0 <= i < |name| :: name[i] != '/'
  }

  lemma {:induction false} AfterLastSlash(head: string, name: string)
    requires (head != "" ==> head[|head| - 1] == '/') && forall i | 0 <= i < |name| :: name[i] != '/'
    ensures AfterSlash(head + name) == name
    decreases |name|
  {
    var path := head + name;
    if name == "" {
      assert path == head;
    } else {
      var front := name[..|name| - 1];
      assert path[..|path| - 1] == head + front && path[|path| - 1] == name[|name| - 1];
      AfterLastSlash(head, front);
    }
  }

  lemma SplitAt(head: string, name: string)
    requires (head != "" ==> head[|head| - 1] == '/') && NoSlash(name)
    ensures Base(head + name) == name
    ensures Dir(head + name) == if head == "" then "." else if StripSlashes(head) == "" then "/" else StripSlashes(head)
  {
    hide AfterSlash, StripSlashes;
    AfterLastSlash(head, name);
    var path := head + name;
    NothingToStrip(path);
    assert path[..|path| - |name|] == head;
  }

  lemma NothingToStrip(path: string)
    requires path != "" && path[|path| - 1] != '/'
    ensures StripSlashes(path) == path
  {
  }

  lemma OneSlash(dir: string)
    requires dir != "" ==> dir[|dir| - 1] != '/'
    ensures StripSlashes(dir + "/") == dir
  {
    assert (dir + "/")[..|dir|] == dir;
  }

  /** The directory in which make runs and the file name that it is given put the path together. */
  lemma DirAndBaseSplit(dir: string, name: string)
    requires dir != "" && dir[|dir| - 1] != '/' && NoSlash(name)
    ensures Dir(dir + "/" + name) == dir && Base(dir + "/" + name) == name
    ensures Dir(name) == "." && Base(name) == name
    ensures Dir("/" + name) == "/" && Base("/" + name) == name
    ensures forall id :: Prefix(id, dir + "/" + name) == ["--no-print-directory", "-f", name, id]
  {
    hide Dir, Base, StripSlashes;
    SplitAt(dir + "/", name);
    OneSlash(dir);
    SplitAt("/", name);
    OneSlash("");
    assert "" + "/" == "/" && "" + name == name;
    SplitAt("", name);
  }

  /** rootDir, from the config that New was given. */
  function RootDir(cfg: Config): string {
    if |cfg.makefiles| == 0 then "" else Dir(cfg.makefiles[0])
  }

  /** The parse of all configured Makefiles, unless one cannot be read. */
  function ParseAll(s: Settings, cfg: Config, disk: Disk): Option<ParseResult> {
    ParseFiles(OptionsOf(s, cfg), ReadFiles(cfg.makefiles, disk))
  }

  // ---- The system as a value ----

  /** `outcomes` are the recorded reload results in order, true for success. */
  datatype System = System(
    cfg: Config,
    registered: Registered,
    swaps: nat,
    notifications: nat,
    outcomes: seq<bool>
  )

  function Failed(sys: System): System {
    sys.(outcomes := sys.outcomes + [false])
  }

  /** The config that the event leads to: reloaded when the event is for the config file. */
  function NextConfig(s: Settings, sys: System, ev: FileEvent): Option<Config> {
    if s.configPath != "" && ev.path == s.configPath then
      match LoadConfig(s.configPath, ZERO, ev.disk)
      case None => None
      case Some(reloaded) => Some(Merge(reloaded, s.cli))
    else Some(sys.cfg)
  }

  /** What one turn of watchLoop does with an event. */
  function Handle(s: Settings, sys: System, ev: FileEvent): System {
    match NextConfig(s, sys, ev)
    case None => Failed(sys)
    case Some(cfg) =>
      match ParseAll(s, cfg, ev.disk)
      case None => Failed(sys)
      case Some(result) =>
        if !result.Valid() then Failed(sys)
        else
          match Build(result.recipes, ev.disk.unencodable)
          case None => Failed(sys)
          case Some(registered) =>
            System(cfg, registered, sys.swaps + 1, sys.notifications + 1, sys.outcomes + [true])
  }

  function Run(s: Settings, sys: System, events: seq<FileEvent>): System {
    if events == [] then sys
    else Handle(s, Run(s, sys, events[..|events| - 1]), events[|events| - 1])
  }

  predicate IsTransport(t: string) {
    t == "stdio" || t == "http" || t == "both"
  }

  /** stderr, or a file that has to be opened. */
  predicate LogOpens(cfg: Config, host: Host) {
    cfg.logPath == "stderr" || cfg.logPath == "" || host.logOpens
  }

  /** Start-up: the config, its checks, the log file, telemetry, the parse, the validation, New, and the
      watcher, in this order. */
  function StartUp(s: Settings, disk: Disk): Option<System> {
    match LoadConfig(s.configPath, s.cli, disk)
    case None => None
    case Some(cfg) =>
      if |cfg.makefiles| == 0 || !IsTransport(cfg.transport) then None
      else if cfg.logPath == "stdin" || cfg.logPath == "stdout" then None
      else if !LogOpens(cfg, disk.host) || !disk.host.telemetryStarts then None
      else
        match ParseAll(s, cfg, disk)
        case None => None
        case Some(result) =>
          if !result.Valid() then None
          else
            match Build(result.recipes, disk.unencodable)
            case None => None
            case Some(registered) =>
              if disk.host.pathsWatched then Some(System(cfg, registered, 0, 0, [])) else None
  }

  // ---- The objects ----

  /** Registry, with the live tools and the recipe index. */
  class Registry {
    var tools: seq<Tool>
    var recipes: map<string, Recipe>

    constructor ()
      ensures tools == [] && recipes == map[]
    {
      tools, recipes := [], map[];
    }

    method Swap(tools: seq<Tool>, recipes: map<string, Recipe>)
      modifies this
      ensures this.tools == tools && this.recipes == recipes
    {
      this.tools := tools;
      this.recipes := recipes;
    }

    function GetRecipe(name: string): Option<Recipe>
      reads this
    {
      if name in recipes then Some(recipes[name]) else None
    }

    /** The recipes of the names that are registered, in the order of the names. */
    method GetRecipesByNames(names: seq<string>) returns (found: seq<Recipe>)
      ensures found == Lookup(recipes, names)
    {
      found := [];
      for i := 0 to |names|
        invariant found == Lookup(recipes, names[..i])
      {
        assert names[..i + 1][..i] == names[..i];
        if names[i] in recipes {
          found := found + [recipes[names[i]]];
        }
      }
      assert names[..|names|] == names;
    }
  }

  function Lookup(index: map<string, Recipe>, names: seq<string>): seq<Recipe> {
    if names == [] then []
    else
      var last := names[|names| - 1];
      Lookup(index, names[..|names| - 1]) + (if last in index then [index[last]] else [])
  }

  /** The recipes come name by name: one for each registered name, its own. */
  lemma {:induction false} LookupIsByName(index: map<string, Recipe>, a: seq<string>, b: seq<string>, name: string)
    ensures Lookup(index, a + b) == Lookup(index, a) + Lookup(index, b)
    ensures Lookup(index, [name]) == if name in index then [index[name]] else []
    decreases |b|
  {
    assert Lookup(index, []) == [] && [name][..0] == [];
    if b == [] {
      assert a + b == a;
    } else {
      var front := b[..|b| - 1];
      assert (a + b)[..|a + b| - 1] == a + front;
      LookupIsByName(index, a, front, name);
    }
  }

  datatype Call =
    | NotFound(name: string)
    | MissingTarget
    | InvalidParams(error: Error)
    | Make(argv: seq<string>)

  /** The call was answered by building the vector for the recipe. */
  predicate IsAnswer(recipe: Recipe, args: Arguments, source: string, r: Call) {
    || (r.Make? && IsBuilt(recipe, args, source, Ok(r.argv)))
    || (r.InvalidParams? && IsBuilt(recipe, args, source, Err(r.error)))
  }

  /** r is what a call of the named tool leads to, over the given index. */
  predicate IsCall(index: map<string, Recipe>, name: string, args: Arguments, rootDir: string, r: Call) {
    if name !in index then r == NotFound(name)
    else if index[name].id == "" then r == MissingTarget
    else IsAnswer(index[name], args, if rootDir != "" then "" else index[name].sourceFile, r)
  }

  /** ToolServer, with what it has sent to the MCP library and to the metrics. */
  class ToolServer {
    const registry: Registry
    var served: seq<Tool>      // the argument of the last SetTools
    var swaps: nat             // registry swaps after start-up
    var notifications: nat     // list_changed notifications
    var outcomes: seq<bool>    // recorded reload results

    ghost predicate Valid()
      reads this, registry
    {
      served == registry.tools
    }

    /** New, for recipes whose schemas can be encoded. */
    constructor (registered: Registered)
      ensures Valid() && fresh(registry)
      ensures Registered(registry.tools, registry.recipes) == registered
      ensures swaps == notifications == 0 && outcomes == []
    {
      registry := new Registry();
      served := registered.tools;
      swaps, notifications, outcomes := 0, 0, [];
      new;
      registry.Swap(registered.tools, registered.index);
    }

    function Ready(): (ready: bool)
      reads this, registry
      ensures ready <==> registry.tools != []
    {
      |registry.tools| > 0
    }

    /** handleToolCall up to the start of make, and the checks of RunStream: the vector for make,
        or an error. */
    method HandleToolCall(name: string, args: Arguments, rootDir: string) returns (r: Call)
      ensures IsCall(registry.recipes, name, args, rootDir, r)
    {
      var recipe := registry.GetRecipe(name);
      if recipe.None? {
        return NotFound(name);
      }
      if recipe.value.id == "" {
        return MissingTarget;
      }
      var sourceMakefile := recipe.value.sourceFile;
      if rootDir != "" {
        sourceMakefile := "";
      }
      var built := BuildArgs(recipe.value, args, sourceMakefile);
      if built.Err? {
        return InvalidParams(built.error);
      }
      r := Make(built.value);
    }

    method Record(success: bool)
      modifies this`outcomes
      ensures outcomes == old(outcomes) + [success]
    {
      outcomes := outcomes + [success];
    }

    /** The registry changes first: until the tools are set, calls run the new recipes while clients
        still see the old tools. */
    method SwapIn(built: Registered)
      modifies this`swaps, registry
      ensures Registered(registry.tools, registry.recipes) == built && swaps == old(swaps) + 1
    {
      registry.Swap(built.tools, built.index);
      swaps := swaps + 1;
    }

    /** SetTools and the notification end this window. */
    method Publish(tools: seq<Tool>)
      requires tools == registry.tools
      modifies this`served, this`notifications
      ensures Valid() && notifications == old(notifications) + 1
    {
      served := tools;
      notifications := notifications + 1;
    }

    /** Reload: replaces the tools and notifies the clients, or records a failure and changes
        nothing. */
    method Reload(recipes: seq<Recipe>, unencodable: set<string>) returns (ok: bool)
      requires Valid()
      modifies this, registry
      ensures Valid() && ok == Build(recipes, unencodable).Some?
      ensures outcomes == old(outcomes) + [ok]
      ensures ok ==> Registered(registry.tools, registry.recipes) == Build(recipes, unencodable).value
      ensures ok ==> swaps == old(swaps) + 1 && notifications == old(notifications) + 1
      ensures !ok ==> registry.tools == old(registry.tools) && registry.recipes == old(registry.recipes)
      ensures !ok ==> swaps == old(swaps) && notifications == old(notifications)
    {
      var built := BuildServerTools(recipes, unencodable);
      if built.None? {
        Record(false);
        return false;
      }
      SwapIn(built.value);
      assert served == old(registry.tools);
      Publish(built.value.tools);
      Record(true);
      ok := true;
    }
  }

  /** The variables of watchLoop. */
  class Daemon {
    const settings: Settings
    const server: ToolServer
    var cfg: Config

    ghost predicate Valid()
      reads this, server, server.registry
    {
      server.Valid()
    }

    ghost function Abs(): System
      reads this, server, server.registry
    {
      System(cfg, Registered(server.registry.tools, server.registry.recipes),
             server.swaps, server.notifications, server.outcomes)
    }

    constructor (settings: Settings, cfg: Config, server: ToolServer)
      requires server.Valid()
      ensures Valid() && this.settings == settings && this.server == server && this.cfg == cfg
    {
      this.settings := settings;
      this.server := server;
      this.cfg := cfg;
    }

    /** The case of watchLoop that receives a file event. */
    method OnEvent(ev: FileEvent)
      requires Valid()
      modifies this, server, server.registry
      ensures Valid() && Abs() == Handle(settings, old(Abs()), ev)
    {
      hide ParseFiles, Build, OptionsOf, ReadFiles, Merge, LoadConfig;
      var nextCfg := cfg;
      if settings.configPath != "" && ev.path == settings.configPath {
        var reloaded := LoadConfig(settings.configPath, ZERO, ev.disk);
        if reloaded.None? {
          server.Record(false);
          return;
        }
        nextCfg := MergeFields(reloaded.value, settings.cli);
      }
      var result := ParseMakefiles(ReadFiles(nextCfg.makefiles, ev.disk), OptionsOf(settings, nextCfg));
      if result.None? {
        server.Record(false);
        return;
      }
      if !result.value.Valid() {
        server.Record(false);
        return;
      }
      var ok := server.Reload(result.value.recipes, ev.disk.unencodable);
      if !ok {
        return;
      }
      cfg := nextCfg;
    }

    /** watchLoop over the events that arrive until the channel is closed. */
    method WatchLoop(events: seq<FileEvent>)
      requires Valid()
      modifies this, server, server.registry
      ensures Valid() && Abs() == Run(settings, old(Abs()), events)
    {
      var i := 0;
      while i < |events|
        invariant 0 <= i <= |events| && Valid()
        invariant Abs() == Run(settings, old(Abs()), events[..i])
      {
        OnEvent(events[i]);
        assert events[..i + 1][..i] == events[..i];
        i := i + 1;
      }
      assert events[..i] == events;
    }
  }

  /** New: the server for the recipes, unless a schema cannot be encoded. */
  method NewServer(recipes: seq<Recipe>, unencodable: set<string>) returns (server: ToolServer?)
    ensures server == null <==> Build(recipes, unencodable).None?
    ensures server != null ==>
              && fresh(server) && fresh(server.registry) && server.Valid()
              && Build(recipes, unencodable) == Some(Registered(server.registry.tools, server.registry.recipes))
              && server.swaps == server.notifications == 0 && server.outcomes == []
  {
    var built := BuildServerTools(recipes, unencodable);
    if built.None? {
      return null;
    }
    server := new ToolServer(built.value);
  }

  /** run, up to the start of watchLoop. */
  method Start(s: Settings, disk: Disk) returns (daemon: Daemon?)
    ensures daemon == null <==> StartUp(s, disk).None?
    ensures daemon != null ==>
              && fresh(daemon) && fresh(daemon.server) && fresh(daemon.server.registry)
              && daemon.Valid() && daemon.settings == s && daemon.Abs() == StartUp(s, disk).value
  {
    var cfg := LoadConfig(s.configPath, s.cli, disk);
    if cfg.None? {
      return null;
    }
    if |cfg.value.makefiles| == 0 {
      return null;
    }
    if !IsTransport(cfg.value.transport) {
      return null;
    }
    if cfg.value.logPath == "stdin" || cfg.value.logPath == "stdout" {
      return null;
    }
    if cfg.value.logPath != "stderr" && cfg.value.logPath != "" && !disk.host.logOpens {
      return null;
    }
    if !disk.host.telemetryStarts {
      return null;
    }
    var result := ParseMakefiles(ReadFiles(cfg.value.makefiles, disk), OptionsOf(s, cfg.value));
    if result.None? || !result.value.Valid() {
      return null;
    }
    var server := NewServer(result.value.recipes, disk.unencodable);
    if server == null || !disk.host.pathsWatched {
      return null;
    }
    daemon := new Daemon(s, cfg.value, server);
  }
}
