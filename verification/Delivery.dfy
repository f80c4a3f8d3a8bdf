/** From the characters on the disk to the tools that are served: all configured Makefiles, each target
    line with a block above it, and what the tool made from it says. */
module Delivery {
  import opened Text
  import opened Annotation
  import opened Schema
  import opened Parser
  import opened LookBack
  import opened Composition
  import opened Validation
  import opened RoundTrip
  import opened Provenance
  import opened Config
  import opened Tools
  import opened Reload
  import opened Serving
  import opened Convergence

  // ---- Every configured Makefile is read ----

  /** The files are the configured ones in order, with the lines that the disk holds for each. */
  predicate IsReading(paths: seq<string>, disk: Disk, files: seq<File>) {
    && |files| == |paths|
    && forall i | 0 <= i < |paths| ::
         && files[i].path == paths[i]
         && files[i].lines == if paths[i] in disk.texts then Some(ScanLines(disk.texts[paths[i]])) else None
  }

  /** There is such a reading. */
  lemma ReadFilesAre(paths: seq<string>, disk: Disk)
    ensures IsReading(paths, disk, ReadFiles(paths, disk))
  {
    hide ScanLines;
  }

  function OptionsFor(s: Settings, cfg: Config): Options {
    Options(cfg.delimiter, cfg.strict, s.isMedia)
  }

  lemma ParseAllReads(s: Settings, cfg: Config, disk: Disk, files: seq<File>)
    requires IsReading(cfg.makefiles, disk, files)
    ensures ParseAll(s, cfg, disk) == if Readable(files) then Some(Merged(OptionsFor(s, cfg), files)) else None
  {
    hide ScanLines, Merged;
    var read := ReadFiles(cfg.makefiles, disk);
    forall i | 0 <= i < |files| ensures files[i] == read[i] {
    }
    assert read == files;
  }

  /** If a configured Makefile is not on the disk, the server does not start. */
  lemma StartUpNeedsAllFiles(s: Settings, disk: Disk, i: nat)
    requires OnDisk(s, disk).Some? && i < |OnDisk(s, disk).value.makefiles|
    requires OnDisk(s, disk).value.makefiles[i] !in disk.texts
    ensures StartUp(s, disk).None?
  {
    hide OnDisk, Merged;
    StartUpExactly(s, disk);
    NotAllAreRead(s, OnDisk(s, disk).value, disk, i);
  }

  /** ... and an event changes nothing. */
  lemma ReloadNeedsAllFiles(s: Settings, sys: System, ev: FileEvent, i: nat)
    requires NextConfig(s, sys, ev).Some? && i < |NextConfig(s, sys, ev).value.makefiles|
    requires NextConfig(s, sys, ev).value.makefiles[i] !in ev.disk.texts
    ensures Handle(s, sys, ev) == sys.(outcomes := sys.outcomes + [false])
  {
    hide NextConfig, ParseAll;
    NotAllAreRead(s, NextConfig(s, sys, ev).value, ev.disk, i);
  }

  lemma NotAllAreRead(s: Settings, cfg: Config, disk: Disk, i: nat)
    requires i < |cfg.makefiles| && cfg.makefiles[i] !in disk.texts
    ensures ParseAll(s, cfg, disk).None?
  {
    hide Merged;
    assert ReadFiles(cfg.makefiles, disk)[i].lines.None?;
  }

  // ---- What the tools say ----

  function HintOr(block: seq<Field>, key: string, default: bool): bool {
    var hint := HintOf(block, key);
    if hint.Some? then hint.value else default
  }

  function ParamsOfBlock(block: seq<Field>): seq<Param> {
    if "none" in ParamValues(block) then [] else Parsable(ParamValues(block))
  }

  /** The tool says what the block above the target line says. */
  predicate Says(t: Tool, id: string, block: seq<Field>) {
    && t.name == id
    && t.description == ValueOf(block, "description") && t.title == ValueOf(block, "name")
    && t.readOnlyHint == HintOr(block, "read-only", false)
    && t.destructiveHint == HintOr(block, "destructive", ValueOf(block, "risk") == "high")
    && t.idempotentHint == HintOr(block, "idempotent", false)
    && t.openWorldHint == HintOr(block, "open-world", true)
    && t.properties == Properties(ParamsOfBlock(block))
  }

  predicate SaysPlace(opts: Options, files: seq<File>, p: Place, t: Tool)
    requires Readable(files)
  {
    && IsPlace(opts, files, p)
    && var lines := files[p.file].lines.value;
       Says(t, Classify(lines[p.line], opts.Delim()).name, BlockAbove(opts, lines, p.line))
  }

  lemma ToolSaysPlace(opts: Options, files: seq<File>, p: Place)
    requires Readable(files) && IsPlace(opts, files, p)
    ensures SaysPlace(opts, files, p, RecipeTool(RecipeAt(opts, files, p)))
  {
    hide Classify, Properties, LastValue, ParamValues;
  }

  /** The tools and the index come from the target lines of the files: one tool for each, in order. */
  ghost predicate ComesFrom(registered: Registered, opts: Options, files: seq<File>) {
    && Readable(files)
    && |registered.tools| == |Places(opts, files)|
    && (forall n | 0 <= n < |registered.tools| :: SaysPlace(opts, files, Places(opts, files)[n], registered.tools[n]))
    && exists recipes :: RecipesAt(opts, files, Places(opts, files), recipes) && registered.index == IndexByID(recipes)
  }

  lemma ProducedComesFrom(s: Settings, cfg: Config, disk: Disk, registered: Registered, files: seq<File>)
    requires Produces(s, cfg, disk, registered) && IsReading(cfg.makefiles, disk, files)
    ensures ComesFrom(registered, OptionsFor(s, cfg), files)
  {
    hide ParseAll, Merged, Places, SaysPlace, RecipeAt, IsPlace, RecipeTool, IsReading;
    var opts := OptionsFor(s, cfg);
    ParseAllReads(s, cfg, disk, files);
    RecipesHavePlaces(opts, files);
    var recipes, places := Merged(opts, files).recipes, Places(opts, files);
    forall n | 0 <= n < |registered.tools| ensures SaysPlace(opts, files, places[n], registered.tools[n]) {
      ToolSaysPlace(opts, files, places[n]);
    }
  }

  /** In every reachable state: the config names the Makefiles, and the tools say what the blocks above the
      target lines of all of them say, as they were at the last successful step. */
  lemma ToolsSayWhatFilesSay(s: Settings, first: Disk, events: seq<FileEvent>) returns (k: nat)
    requires StartUp(s, first).Some?
    ensures var sys := Run(s, StartUp(s, first).value, events);
            && |sys.outcomes| == |events| && LastGood(sys.outcomes, k)
            && forall files | IsReading(sys.cfg.makefiles, DiskAt(first, events, k), files) ::
                 ComesFrom(sys.registered, OptionsFor(s, sys.cfg), files)
  {
    hide StartUp, Reload.Run, ComesFrom, IsReading, Produces;
    k := ServedIsLastGoodParse(s, first, events);
    var sys := Run(s, StartUp(s, first).value, events);
    forall files | IsReading(sys.cfg.makefiles, DiskAt(first, events, k), files)
      ensures ComesFrom(sys.registered, OptionsFor(s, sys.cfg), files)
    {
      ProducedComesFrom(s, sys.cfg, DiskAt(first, events, k), sys.registered, files);
    }
  }

  // ---- Printed Makefiles are served ----

  /** The recipes of all files in order, each with the path of its file. */
  function AllRecipes(paths: seq<string>, lists: seq<seq<Recipe>>): seq<Recipe>
    requires |paths| == |lists|
  {
    if paths == [] then []
    else
      var n := |paths| - 1;
      AllRecipes(paths[..n], lists[..n])
      + seq(|lists[n]|, i requires 0 <= i < |lists[n]| => lists[n][i].(sourceFile := paths[n]))
  }

  /** Every Makefile on the disk is the printed form of its recipes, which are well formed. */
  predicate IsPrinted(opts: Options, paths: seq<string>, disk: Disk, lists: seq<seq<Recipe>>) {
    && IsLine(opts.Delim()) && |lists| == |paths|
    && (forall i | 0 <= i < |paths| ::
          paths[i] in disk.texts && disk.texts[paths[i]] == PrintMakefile(opts.Delim(), lists[i]))
    && forall i, r | 0 <= i < |lists| && r in lists[i] :: WellFormed(opts, r) && r.sourceFile == ""
  }

  lemma {:induction false} PrintedAreMerged(opts: Options, paths: seq<string>, disk: Disk, lists: seq<seq<Recipe>>,
                                            files: seq<File>)
    requires IsPrinted(opts, paths, disk, lists) && IsReading(paths, disk, files)
    ensures Readable(files) && Merged(opts, files) == ParseResult(AllRecipes(paths, lists), [])
    decreases |paths|
  {
    hide WellFormed, PrintMakefile, ScanLines, Parse;
    if paths != [] {
      var n := |paths| - 1;
      PrintedAreMerged(opts, paths[..n], disk, lists[..n], files[..n]);
      PrintThenParse(opts, lists[n]);
      assert Merged(opts, files) == Merged(opts, files[..n]).Join(Tag(paths[n], ParseResult(lists[n], [])));
    }
  }

  lemma PrintedAreProduced(s: Settings, cfg: Config, disk: Disk, lists: seq<seq<Recipe>>)
    requires IsPrinted(OptionsFor(s, cfg), cfg.makefiles, disk, lists) && disk.unencodable == {}
    ensures var all := AllRecipes(cfg.makefiles, lists);
            Produces(s, cfg, disk, Registered(RecipeTools(all), IndexByID(all)))
  {
    hide IsPrinted, IsReading, Merged, AllRecipes, ParseAll;
    var files := ReadFiles(cfg.makefiles, disk);
    assert IsReading(cfg.makefiles, disk, files) by {
      ReadFilesAre(cfg.makefiles, disk);
    }
    ParseAllReads(s, cfg, disk, files);
    PrintedAreMerged(OptionsFor(s, cfg), cfg.makefiles, disk, lists, files);
  }

  /** For any number of Makefiles, any one-line delimiter, strict or not: a server that starts on printed
      Makefiles serves the recipes of all of them, in order, each with the path of its own file. */
  lemma StartUpServesAllFiles(s: Settings, disk: Disk, lists: seq<seq<Recipe>>)
    requires OnDisk(s, disk).Some? && Startable(OnDisk(s, disk).value, disk.host) && disk.unencodable == {}
    requires IsPrinted(OptionsFor(s, OnDisk(s, disk).value), OnDisk(s, disk).value.makefiles, disk, lists)
    ensures var cfg := OnDisk(s, disk).value;
            var all := AllRecipes(cfg.makefiles, lists);
            StartUp(s, disk) == Some(System(cfg, Registered(RecipeTools(all), IndexByID(all)), 0, 0, []))
  {
    hide AllRecipes, Startable, OnDisk, Produces, StartUp, PrintMakefile, WellFormed;
    var cfg := OnDisk(s, disk).value;
    var all := AllRecipes(cfg.makefiles, lists);
    PrintedAreProduced(s, cfg, disk, lists);
    assert Loadable(s, disk);
    StartUpExactly(s, disk);
    StartsUnused(s, disk);
    ProducesOne(s, cfg, disk, Registered(RecipeTools(all), IndexByID(all)), StartUp(s, disk).value.registered);
  }

  lemma StartsUnused(s: Settings, disk: Disk)
    requires StartUp(s, disk).Some?
    ensures var sys := StartUp(s, disk).value; sys.swaps == 0 && sys.notifications == 0 && sys.outcomes == []
  {
  }

  /** ... and so does a running server after an event. */
  lemma ReloadServesAllFiles(s: Settings, sys: System, ev: FileEvent, lists: seq<seq<Recipe>>)
    requires NextConfig(s, sys, ev).Some? && ev.disk.unencodable == {}
    requires var cfg := NextConfig(s, sys, ev).value;
             IsPrinted(OptionsFor(s, cfg), cfg.makefiles, ev.disk, lists)
    ensures var cfg := NextConfig(s, sys, ev).value;
            var all := AllRecipes(cfg.makefiles, lists);
            Handle(s, sys, ev) == System(cfg, Registered(RecipeTools(all), IndexByID(all)),
                                         sys.swaps + 1, sys.notifications + 1, sys.outcomes + [true])
  {
    hide AllRecipes, NextConfig, Produces, Handle, PrintMakefile, WellFormed;
    var cfg := NextConfig(s, sys, ev).value;
    var all := AllRecipes(cfg.makefiles, lists);
    var registered := Registered(RecipeTools(all), IndexByID(all));
    PrintedAreProduced(s, cfg, ev.disk, lists);
    HandleIsAllOrNothing(s, sys, ev);
    ProducesOne(s, cfg, ev.disk, registered, Handle(s, sys, ev).registered);
  }
}
