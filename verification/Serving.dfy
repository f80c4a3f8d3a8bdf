/** What is served in every reachable state, from the text of the Makefiles to the vector for make. */
module Serving {
  import opened Text
  import opened Annotation
  import opened Schema
  import opened Parser
  import opened Composition
  import opened Validation
  import opened RoundTrip
  import opened Config
  import opened Tools
  import opened Runner
  import opened Agreement
  import opened Reload
  import opened Regex
  import MakeLine
  import Protocol
  import Debounce

  // ---- One event ----

  /** Every event records one outcome. It is a success exactly when the config loads, every Makefile
      can be read and is valid, and every schema can be encoded: then there is one swap and one
      notification. Otherwise the config and the registry are left alone. */
  lemma HandleIsAllOrNothing(s: Settings, sys: System, ev: FileEvent)
    ensures var next, cfg := Handle(s, sys, ev), NextConfig(s, sys, ev);
            if cfg.Some? && exists registered :: Produces(s, cfg.value, ev.disk, registered) then
              && next.outcomes == sys.outcomes + [true]
              && next.swaps == sys.swaps + 1 && next.notifications == sys.notifications + 1
              && next.cfg == cfg.value && Produces(s, next.cfg, ev.disk, next.registered)
            else next == sys.(outcomes := sys.outcomes + [false])
  {
    var next, cfg := Handle(s, sys, ev), NextConfig(s, sys, ev);
    if cfg.Some? && ParseAll(s, cfg.value, ev.disk).Some? {
      var p := ParseAll(s, cfg.value, ev.disk).value;
      if p.Valid() && Build(p.recipes, ev.disk.unencodable).Some? {
        assert Produces(s, cfg.value, ev.disk, Build(p.recipes, ev.disk.unencodable).value);
      }
    }
  }

  /** The registered tools are those of a valid parse under the config. */
  predicate Produces(s: Settings, cfg: Config, disk: Disk, registered: Registered) {
    var p := ParseAll(s, cfg, disk);
    && p.Some? && p.value.Valid()
    && Build(p.value.recipes, disk.unencodable) == Some(registered)
  }

  // ---- Every run ----

  function Successes(outcomes: seq<bool>): nat {
    if outcomes == [] then 0
    else Successes(outcomes[..|outcomes| - 1]) + (if outcomes[|outcomes| - 1] then 1 else 0)
  }

  /** Over any run every handled event has recorded exactly one outcome, and the successes are the
      registry swaps and the notifications. */
  lemma {:induction false} ReloadsAreAccountedFor(s: Settings, disk: Disk, events: seq<FileEvent>)
    requires StartUp(s, disk).Some?
    ensures var sys := Run(s, StartUp(s, disk).value, events);
            && |sys.outcomes| == |events|
            && Successes(sys.outcomes) == sys.swaps == sys.notifications
  {
    if events != [] {
      var front := events[..|events| - 1];
      ReloadsAreAccountedFor(s, disk, front);
      var before := Run(s, StartUp(s, disk).value, front);
      HandleIsAllOrNothing(s, before, events[|events| - 1]);
      var sys := Run(s, StartUp(s, disk).value, events);
      assert sys.outcomes[..|sys.outcomes| - 1] == before.outcomes;
    }
  }

  /** The disk as it is read at start-up (0) and for the k-th event. */
  function DiskAt(disk: Disk, events: seq<FileEvent>, k: nat): Disk
    requires k <= |events|
  {
    if k == 0 then disk else events[k - 1].disk
  }

  /** k is the last successful step of a run: start-up, or an event after which all have failed. */
  predicate LastGood(outcomes: seq<bool>, k: nat) {
    && k <= |outcomes|
    && (k > 0 ==> outcomes[k - 1])
    && forall j | k <= j < |outcomes| :: !outcomes[j]
  }

  lemma StartUpProduces(s: Settings, disk: Disk)
    requires StartUp(s, disk).Some?
    ensures var sys := StartUp(s, disk).value;
            && Produces(s, sys.cfg, disk, sys.registered) && sys.outcomes == []
            && LoadConfig(s.configPath, s.cli, disk) == Some(sys.cfg)
            && sys.cfg.makefiles != []
  {
  }

  /** What is served is always a validated parse: in every reachable state the registry is built
      from the parse, under the current config, of the files as they were at the last successful
      step. */
  lemma {:induction false} ServedIsLastGoodParse(s: Settings, disk: Disk, events: seq<FileEvent>) returns (k: nat)
    requires StartUp(s, disk).Some?
    ensures var sys := Run(s, StartUp(s, disk).value, events);
            && |sys.outcomes| == |events| && LastGood(sys.outcomes, k)
            && Produces(s, sys.cfg, DiskAt(disk, events, k), sys.registered)
  {
    hide Produces, Handle;
    if events == [] {
      StartUpProduces(s, disk);
      k := 0;
    } else {
      var front := events[..|events| - 1];
      k := ServedIsLastGoodParse(s, disk, front);
      var before := Run(s, StartUp(s, disk).value, front);
      HandleIsAllOrNothing(s, before, events[|events| - 1]);
      var sys := Run(s, StartUp(s, disk).value, events);
      if sys.outcomes[|events| - 1] {
        k := |events|;
      } else {
        assert DiskAt(disk, events, k) == DiskAt(disk, front, k);
      }
    }
  }

  // ---- The config ----

  /** Defaults, then the config file, then the command line. */
  function Layers(s: Settings, file: Config): Config {
    Merge(Merge(DEFAULT, file), s.cli)
  }

  lemma LoadedIsLayered(s: Settings, disk: Disk)
    requires LoadConfig(s.configPath, s.cli, disk).Some?
    ensures LoadConfig(s.configPath, s.cli, disk).value ==
            Layers(s, if s.configPath == "" then ZERO else disk.config.value)
  {
    MergeLayers(DEFAULT, ZERO, s.cli);
  }

  lemma ReloadedIsLayered(s: Settings, sys: System, ev: FileEvent)
    requires NextConfig(s, sys, ev).Some?
    ensures var cfg := NextConfig(s, sys, ev).value; cfg == sys.cfg || exists file :: cfg == Layers(s, file)
  {
    if s.configPath != "" && ev.path == s.configPath {
      MergeLayers(Merge(DEFAULT, ev.disk.config.value), ZERO, ZERO);
      assert NextConfig(s, sys, ev).value == Layers(s, ev.disk.config.value);
    }
  }

  /** In every reachable state the config consists of the three layers, and every field that the
      command line sets has survived all reloads. */
  lemma {:induction false} ConfigStaysLayered(s: Settings, disk: Disk, events: seq<FileEvent>)
    requires StartUp(s, disk).Some?
    ensures var cfg := Run(s, StartUp(s, disk).value, events).cfg;
            (exists file :: cfg == Layers(s, file)) && Prevails(s.cli, cfg)
  {
    var cfg := Run(s, StartUp(s, disk).value, events).cfg;
    if events == [] {
      StartUpProduces(s, disk);
      LoadedIsLayered(s, disk);
    } else {
      var front := events[..|events| - 1];
      ConfigStaysLayered(s, disk, front);
      var before := Run(s, StartUp(s, disk).value, front);
      HandleIsAllOrNothing(s, before, events[|events| - 1]);
      if NextConfig(s, before, events[|events| - 1]).Some? {
        ReloadedIsLayered(s, before, events[|events| - 1]);
      }
    }
    var file :| cfg == Layers(s, file);
    MergeLayers(Merge(DEFAULT, file), s.cli, ZERO);
  }

  // ---- The recipes ----

  lemma TagKeepsWellFormed(opts: Options, path: string, p: ParseResult)
    requires forall r | r in p.recipes :: WellFormed(opts, r)
    ensures forall r | r in Tag(path, p).recipes :: WellFormed(opts, r)
  {
    forall r | r in Tag(path, p).recipes ensures WellFormed(opts, r) {
      var i :| 0 <= i < |p.recipes| && r == p.recipes[i].(sourceFile := path);
      assert WellFormed(opts, p.recipes[i]);
    }
  }

  predicate ScannedFiles(files: seq<File>) {
    forall i, k | 0 <= i < |files| && files[i].lines.Some? && 0 <= k < |files[i].lines.value| ::
      IsLine(files[i].lines.value[k])
  }

  lemma {:induction false} MergedAreWellFormed(opts: Options, files: seq<File>)
    requires Readable(files) && ScannedFiles(files) && Merged(opts, files).Valid()
    ensures forall r | r in Merged(opts, files).recipes :: WellFormed(opts, r)
  {
    if files != [] {
      var front, last := files[..|files| - 1], files[|files| - 1];
      var own := Parse(opts, INITIAL, last.lines.value);
      assert Merged(opts, files).errors == Merged(opts, front).errors + TagErrors(last.path, own.errors);
      assert |TagErrors(last.path, own.errors)| == |own.errors|;
      MergedAreWellFormed(opts, front);
      ValidParsesAreWellFormed(opts, last.lines.value);
      TagKeepsWellFormed(opts, last.path, own);
    }
  }

  lemma ReadFilesAreScanned(paths: seq<string>, disk: Disk)
    ensures ScannedFiles(ReadFiles(paths, disk))
  {
    var files := ReadFiles(paths, disk);
    forall i, k | 0 <= i < |files| && files[i].lines.Some? && 0 <= k < |files[i].lines.value|
      ensures IsLine(files[i].lines.value[k])
    {
      ScannedAreLines(disk.texts[paths[i]]);
    }
  }

  /** The recipe is well formed and valid under the config. */
  predicate Sound(s: Settings, cfg: Config, r: Recipe) {
    && WellFormed(OptionsOf(s, cfg), r) && Validate(r, s.isMedia) == []
    && (cfg.strict ==> AllHints(r.hints))
  }

  lemma ProducedAreWellFormed(s: Settings, cfg: Config, disk: Disk, registered: Registered)
    returns (recipes: seq<Recipe>)
    requires Produces(s, cfg, disk, registered)
    ensures registered == Registered(RecipeTools(recipes), IndexByID(recipes))
    ensures forall r | r in recipes :: Sound(s, cfg, r)
  {
    recipes := ParseAll(s, cfg, disk).value.recipes;
    ReadFilesAreScanned(cfg.makefiles, disk);
    MergedAreWellFormed(OptionsOf(s, cfg), ReadFiles(cfg.makefiles, disk));
  }

  /** Every recipe that is ever served is well formed, under strict rules when the current config is
      strict: not only those in the index, but also those of tools whose name a later one shadows. */
  lemma ServedAreWellFormed(s: Settings, disk: Disk, events: seq<FileEvent>) returns (recipes: seq<Recipe>)
    requires StartUp(s, disk).Some?
    ensures var sys := Run(s, StartUp(s, disk).value, events);
            && sys.registered == Registered(RecipeTools(recipes), IndexByID(recipes))
            && forall r | r in recipes :: Sound(s, sys.cfg, r)
  {
    hide Reload.Run, StartUp, Sound;
    var k := ServedIsLastGoodParse(s, disk, events);
    var sys := Run(s, StartUp(s, disk).value, events);
    recipes := ProducedAreWellFormed(s, sys.cfg, DiskAt(disk, events, k), sys.registered);
  }

  lemma ServedIsWellFormed(s: Settings, disk: Disk, events: seq<FileEvent>, id: string)
    requires StartUp(s, disk).Some?
    requires id in Run(s, StartUp(s, disk).value, events).registered.index
    ensures var sys := Run(s, StartUp(s, disk).value, events);
            sys.registered.index[id].id == id && Sound(s, sys.cfg, sys.registered.index[id])
  {
    hide Reload.Run, StartUp, Sound;
    var recipes := ServedAreWellFormed(s, disk, events);
    IndexHoldsRecipes(recipes, id);
  }

  /** In every reachable state the server is ready if and only if the last good parse holds a recipe. */
  lemma ReadyExactly(s: Settings, disk: Disk, events: seq<FileEvent>, server: ToolServer) returns (k: nat)
    requires StartUp(s, disk).Some?
    requires server.registry.tools == Run(s, StartUp(s, disk).value, events).registered.tools
    ensures var sys := Run(s, StartUp(s, disk).value, events);
            && |sys.outcomes| == |events| && LastGood(sys.outcomes, k)
            && var p := ParseAll(s, sys.cfg, DiskAt(disk, events, k));
               p.Some? && (server.Ready() <==> p.value.recipes != [])
  {
    hide Reload.Run, StartUp, ParseAll;
    k := ServedIsLastGoodParse(s, disk, events);
  }

  // ---- From the Makefile to make ----

  /** t is the tool that a client sees under its name: the last one that was registered. */
  predicate Advertised(tools: seq<Tool>, t: Tool) {
    exists i :: && 0 <= i < |tools| && tools[i] == t
                && forall l | i < l < |tools| :: tools[l].name != t.name
  }

  lemma AdvertisedIsIndexed(s: Settings, disk: Disk, events: seq<FileEvent>, t: Tool)
    requires StartUp(s, disk).Some?
    requires Advertised(Run(s, StartUp(s, disk).value, events).registered.tools, t)
    ensures var index := Run(s, StartUp(s, disk).value, events).registered.index;
            t.name in index && t == RecipeTool(index[t.name])
  {
    hide StartUp, Handle, ParseAll;
    var k := ServedIsLastGoodParse(s, disk, events);
    var sys := Run(s, StartUp(s, disk).value, events);
    var recipes := ParseAll(s, sys.cfg, DiskAt(disk, events, k)).value.recipes;
    var tools := sys.registered.tools;
    assert tools == RecipeTools(recipes) && sys.registered.index == IndexByID(recipes);
    var i :| 0 <= i < |tools| && tools[i] == t && forall l | i < l < |tools| :: tools[l].name != t.name;
    assert IsLast(recipes, i) by {
      forall l | i < l < |recipes| ensures recipes[l].id != recipes[i].id {
        assert tools[l].name != t.name;
      }
    }
    IndexMatchesTools(recipes);
  }

  /** Under a strict config no hint is a default: what a tool advertises is what its Makefile says. */
  lemma StrictHintsAreDeclared(s: Settings, disk: Disk, events: seq<FileEvent>, t: Tool)
    requires StartUp(s, disk).Some?
    requires Advertised(Run(s, StartUp(s, disk).value, events).registered.tools, t)
    ensures t.name in Run(s, StartUp(s, disk).value, events).registered.index
    ensures Run(s, StartUp(s, disk).value, events).cfg.strict ==>
              Run(s, StartUp(s, disk).value, events).registered.index[t.name].hints ==
              ToolHints(Some(t.readOnlyHint), Some(t.destructiveHint), Some(t.idempotentHint), Some(t.openWorldHint))
  {
    hide Reload.Run, StartUp, Advertised, WellFormed;
    AdvertisedIsIndexed(s, disk, events, t);
    ServedIsWellFormed(s, disk, events, t.name);
  }

  /** A tool can be called by exactly the names that are advertised. */
  lemma CallableNamesAreAdvertised(s: Settings, disk: Disk, events: seq<FileEvent>, name: string)
    requires StartUp(s, disk).Some?
    ensures var registered := Run(s, StartUp(s, disk).value, events).registered;
            name in registered.index <==> exists i :: 0 <= i < |registered.tools| && registered.tools[i].name == name
  {
    var k := ServedIsLastGoodParse(s, disk, events);
    var sys := Run(s, StartUp(s, disk).value, events);
    IndexMatchesTools(ParseAll(s, sys.cfg, DiskAt(disk, events, k)).value.recipes);
  }

  lemma WellFormedParams(opts: Options, r: Recipe)
    requires WellFormed(opts, r)
    ensures NamesAreKnown(ParamList(r)) && TypesAreKnown(ParamList(r))
  {
    var params := ParamList(r);
    forall i | 0 <= i < |params| ensures IsParamName(params[i].name) && IsParamType(params[i].ptype) {
      assert params[i] in r.params.value;
    }
  }

  /** What answers a call of a recipe: it is refused unless the arguments conform to the advertised
      schema, and reaches make if they do, as long as no name is declared with two types. The vector
      is the fixed prefix, the target, and one entry for every provided param in declaration order,
      which decodes to the param's variable and the exact value. */
  predicate Decided(recipe: Recipe, args: Arguments, source: string, r: Call) {
    var params, properties := ParamList(recipe), Properties(ParamList(recipe));
    var prefix, provided := Prefix(recipe.id, source), Provided(params, args);
    && (r.Make? <==> !r.InvalidParams?)
    && (r.Make? ==> Conforms(properties, args))
    && (Consistent(params) ==> (Conforms(properties, args) <==> r.Make?))
    && (r.Make? ==>
          && prefix <= r.argv && |r.argv| == |prefix| + |provided|
          && forall k | 0 <= k < |provided| ::
               && provided[k].name in args
               && DecodesTo(r.argv[|prefix| + k], provided[k], args[provided[k].name]))
  }

  lemma AnswersAreDecided(recipe: Recipe, args: Arguments, source: string, r: Call)
    requires NamesAreKnown(ParamList(recipe)) && TypesAreKnown(ParamList(recipe))
    requires IsAnswer(recipe, args, source, r)
    ensures Decided(recipe, args, source, r)
  {
    var params := ParamList(recipe);
    if Accepts(params, args) {
      AcceptedConforms(params, args);
      EntriesDecode(params, args);
    }
    if Consistent(params) && Conforms(Properties(params), args) {
      ConformingIsAccepted(params, args);
    }
  }

  /** The whole way, from the text of the Makefiles to make: after any run of file events over any
      contents, a call of an advertised tool is decided by the schema advertised with it. */
  lemma CallsReachMake(s: Settings, disk: Disk, events: seq<FileEvent>, sys: System,
                       t: Tool, args: Arguments, rootDir: string, r: Call)
    requires StartUp(s, disk).Some? && sys == Run(s, StartUp(s, disk).value, events)
    requires Advertised(sys.registered.tools, t)
    requires IsCall(sys.registered.index, t.name, args, rootDir, r)
    ensures t.name in sys.registered.index
    ensures var recipe := sys.registered.index[t.name];
            && recipe.id == t.name && t.properties == Properties(ParamList(recipe))
            && Decided(recipe, args, if rootDir != "" then "" else recipe.sourceFile, r)
  {
    AdvertisedIsIndexed(s, disk, events, t);
    ServedIsWellFormed(s, disk, events, t.name);
    var recipe := sys.registered.index[t.name];
    WellFormedParams(OptionsOf(s, sys.cfg), recipe);
    AnswersAreDecided(recipe, args, if rootDir != "" then "" else recipe.sourceFile, r);
  }

  /** Once the server has started, make always runs in the directory of the first Makefile, also for the
      recipes of the others. */
  lemma RootDirIsSet(s: Settings, disk: Disk)
    requires StartUp(s, disk).Some?
    ensures var cfg := StartUp(s, disk).value.cfg;
            && RootDir(cfg) != "" && cfg.makefiles != []
            && (NoSlash(cfg.makefiles[0]) ==> RootDir(cfg) == ".")
            && forall dir, name | dir != "" && dir[|dir| - 1] != '/' && NoSlash(name)
                                  && cfg.makefiles[0] == dir + "/" + name :: RootDir(cfg) == dir
  {
    hide StartUp, Dir;
    StartUpProduces(s, disk);
    var path := StartUp(s, disk).value.cfg.makefiles[0];
    DirIsSet(path);
    if NoSlash(path) {
      SplitAt("", path);
      assert "" + path == path;
    }
    forall dir, name | dir != "" && dir[|dir| - 1] != '/' && NoSlash(name) && path == dir + "/" + name
      ensures Dir(path) == dir
    {
      DirAndBaseSplit(dir, name);
    }
  }

  lemma DirIsSet(path: string)
    ensures Dir(path) != ""
  {
  }

  /** From a root directory the vector is the fixed flag, the name of the tool, and one setting for every
      provided param. */
  lemma CallsHaveFixedPrefix(s: Settings, disk: Disk, events: seq<FileEvent>, sys: System,
                             t: Tool, args: Arguments, rootDir: string, r: Call)
    requires StartUp(s, disk).Some? && sys == Run(s, StartUp(s, disk).value, events)
    requires Advertised(sys.registered.tools, t)
    requires rootDir != "" && IsCall(sys.registered.index, t.name, args, rootDir, r)
    ensures t.name in sys.registered.index
    ensures r.Make? ==>
              && |r.argv| >= 2 && r.argv[..2] == [MakeLine.FLAG, t.name]
              && |r.argv| == 2 + |Provided(ParamList(sys.registered.index[t.name]), args)|
              && forall k | 2 <= k < |r.argv| :: MakeLine.IsSetting(r.argv[k])
  {
    hide Reload.Run, WellFormed, Advertised, IsCall, Handle, ParseAll, DecodesTo;
    CallsReachMake(s, disk, events, sys, t, args, rootDir, r);
    assert Prefix(t.name, "") == [MakeLine.FLAG, t.name];
    if r.Make? {
      var provided := Provided(ParamList(sys.registered.index[t.name]), args);
      forall k | 2 <= k < |r.argv| ensures MakeLine.IsSetting(r.argv[k]) {
        DecodedIsSetting(r.argv[2 + (k - 2)], provided[k - 2], args[provided[k - 2].name]);
      }
    }
  }

  lemma NamesSetNothing(s: Settings, cfg: Config, r: Recipe)
    requires Sound(s, cfg, r)
    ensures r.id != "" && '=' !in r.id
  {
    assert forall i | 0 <= i < |r.id| :: In(r.id[i], TargetChar);
  }

  lemma DecodedIsSetting(entry: string, p: Param, v: Json)
    requires DecodesTo(entry, p, v)
    ensures MakeLine.IsSetting(entry)
  {
    var n := Index(entry, "=", 0).value;
    assert entry[n..n + 1][0] == entry[n];
    assert entry[..n][0] == entry[0];
  }

  /** What make is told to build. For every reachable state, every advertised tool and every call that
      reaches make, whichever switches take operands: make reads the tool's name as a goal, the only
      one, and all arguments as variables, if and only if the name does not start with "-". Otherwise
      the name is a switch, and make is given no goal. */
  lemma CallsRunTheirTargetExactly(s: Settings, disk: Disk, events: seq<FileEvent>, sys: System,
                                   t: Tool, args: Arguments, rootDir: string, r: Call, takes: set<string>)
    requires StartUp(s, disk).Some? && sys == Run(s, StartUp(s, disk).value, events)
    requires Advertised(sys.registered.tools, t)
    requires rootDir != "" && MakeLine.FLAG !in takes
    ensures t.name != ""
    ensures r.Make? && IsCall(sys.registered.index, t.name, args, rootDir, r) ==>
            var readings := MakeLine.Readings(takes, r.argv);
            && |readings| == |r.argv| >= 2 && r.argv[1] == t.name && readings[0] == MakeLine.Switch
            && (readings[1] == MakeLine.Goal && MakeLine.AllVariables(readings[2..]) <==> t.name[0] != '-')
            && (forall k | 3 <= k < |readings| :: readings[k] == MakeLine.Variable)
            && MakeLine.Goals(takes, r.argv) == if t.name[0] != '-' then [t.name] else []
  {
    hide Reload.Run, StartUp, Advertised, IsCall, Sound, MakeLine.Readings, MakeLine.Goals, MakeLine.IsSetting;
    AdvertisedIsIndexed(s, disk, events, t);
    ServedIsWellFormed(s, disk, events, t.name);
    NamesSetNothing(s, sys.cfg, sys.registered.index[t.name]);
    if r.Make? && IsCall(sys.registered.index, t.name, args, rootDir, r) {
      CallsHaveFixedPrefix(s, disk, events, sys, t, args, rootDir, r);
      assert r.argv == [MakeLine.FLAG, t.name] + r.argv[2..];
      MakeLine.VectorReadings(takes, t.name, r.argv[2..]);
    }
  }

  // ---- Between registry.swap and SetTools ----

  /** While an event is handled, after the registry has been swapped and before the tools are set, a
      client still sees a tool of the old state, and a call of it runs the recipe of the new one. The
      schema it sees agrees with the runner on all arguments if and only if its names and types are the
      usable ones of the new recipe. */
  lemma WindowAgreesExactly(s: Settings, disk: Disk, events: seq<FileEvent>, ev: FileEvent, t: Tool)
    requires StartUp(s, disk).Some?
    requires Advertised(Run(s, StartUp(s, disk).value, events).registered.tools, t)
    requires t.name in Handle(s, Run(s, StartUp(s, disk).value, events), ev).registered.index
    ensures var params := ParamList(Handle(s, Run(s, StartUp(s, disk).value, events), ev).registered.index[t.name]);
            (forall args :: Conforms(t.properties, args) <==> Accepts(params, args)) <==>
            SameTypes(t.properties, Usable(params))
  {
    hide StartUp, Reload.Run, Handle, Advertised, Conforms, Accepts, Usable, WellFormed;
    var sys := Run(s, StartUp(s, disk).value, events);
    AdvertisedIsIndexed(s, disk, events, t);
    PropertiesHaveKnownTypes(ParamList(sys.registered.index[t.name]));
    RunOneMore(s, StartUp(s, disk).value, events, ev);
    ServedIsWellFormed(s, disk, events + [ev], t.name);
    var next := Handle(s, sys, ev);
    WellFormedParams(OptionsOf(s, next.cfg), next.registered.index[t.name]);
    RunnerAgreesExactly(t.properties, ParamList(next.registered.index[t.name]));
  }

  lemma RunOneMore(s: Settings, sys: System, events: seq<FileEvent>, ev: FileEvent)
    ensures Run(s, sys, events + [ev]) == Handle(s, Run(s, sys, events), ev)
  {
    assert (events + [ev])[..|events|] == events;
  }

  /** A call reaches make exactly when its arguments are accepted, at any moment. */
  lemma MadeIfAccepted(index: map<string, Recipe>, name: string, args: Arguments, rootDir: string, r: Call)
    requires IsCall(index, name, args, rootDir, r) && name in index && index[name].id != ""
    ensures r.Make? <==> Accepts(ParamList(index[name]), args)
  {
  }

  // ---- From the file system to the registry ----

  function Paths(events: seq<FileEvent>): seq<string> {
    seq(|events|, i requires 0 <= i < |events| => events[i].path)
  }

  /** The watcher in front of the reload loop: if the loop has handled the events that it received
      from some run of the watcher, then every reload goes back to an enqueue of its path of its
      own, and the events sent are the reloads recorded and the events still in the buffer. */
  lemma ReloadsAreBackedByEnqueues(requested: int, clock: int, tr: Protocol.Trace,
                                   s: Settings, disk: Disk, events: seq<FileEvent>)
    requires Protocol.Run(Protocol.Start(requested, clock), tr).Some?
    requires StartUp(s, disk).Some? && Paths(events) == Protocol.Received(tr)
    ensures var sys := Run(s, StartUp(s, disk).value, events);
            var watcher := Protocol.Run(Protocol.Start(requested, clock), tr).value;
            && |sys.outcomes| + |watcher.events| == |Protocol.Sent(tr)|
            && multiset(Paths(events)) <= multiset(Debounce.Marked(tr))
            && sys.swaps <= |Debounce.Marked(tr)|
  {
    ReloadsAreAccountedFor(s, disk, events);
    Debounce.EventsAreConserved(requested, clock, tr);
    Debounce.EventsAreBacked(requested, clock, tr);
    var sys := Run(s, StartUp(s, disk).value, events);
    var watcher := Protocol.Run(Protocol.Start(requested, clock), tr).value;
    assert |Paths(events)| == |events|;
    assert multiset(Protocol.Sent(tr)) == multiset(Protocol.Received(tr)) + multiset(watcher.events);
    SuccessesAreFewer(sys.outcomes);
    CountsAreOrdered(Paths(events), Debounce.Marked(tr));
  }

  lemma {:induction false} SuccessesAreFewer(outcomes: seq<bool>)
    ensures Successes(outcomes) <= |outcomes|
  {
    if outcomes != [] {
      SuccessesAreFewer(outcomes[..|outcomes| - 1]);
    }
  }

  lemma CountsAreOrdered(a: seq<string>, b: seq<string>)
    requires multiset(a) <= multiset(b)
    ensures |a| <= |b|
  {
    var rest := multiset(b) - multiset(a);
    assert multiset(b) == multiset(a) + rest;
    assert |multiset(b)| == |multiset(a)| + |rest|;
  }
}
