/** Makefiles that the parser accepts without an error, and what goes wrong when they are served. */
module Declarable {
  import opened Text
  import opened Schema
  import opened Parser
  import opened Composition
  import opened Validation
  import opened RoundTrip
  import opened Config
  import opened Tools
  import opened Runner
  import opened Agreement
  import opened Reload
  import opened Serving
  import opened Convergence
  import MakeLine

  // ---- Every well-formed recipe can be served ----

  /** A server without a config file, for the Makefile "m". */
  predicate ServesM(s: Settings) {
    s.configPath == "" && s.cli == ZERO.(makefiles := ["m"])
  }

  function Holding(recipe: Recipe): Disk {
    Disk(None, map["m" := PrintMakefile("@", [recipe])], {}, WILLING)
  }

  /** The recipe as it is served. */
  function Served(recipe: Recipe): Recipe {
    recipe.(sourceFile := "m")
  }

  /** Whatever is well formed can be declared, and a server that starts on it serves just that. */
  lemma WellFormedIsServed(s: Settings, recipe: Recipe)
    requires ServesM(s) && recipe.sourceFile == "" && WellFormed(Options("@", false, s.isMedia), recipe)
    ensures StartUp(s, Holding(recipe)).Some?
    ensures var sys := StartUp(s, Holding(recipe)).value;
            && sys.registered == Registered([RecipeTool(Served(recipe))], map[recipe.id := Served(recipe)])
            && Advertised(sys.registered.tools, RecipeTool(Served(recipe)))
            && RootDir(sys.cfg) == "."
  {
    hide WellFormed, StartUp, Produces, ParseAll, RecipeTool, LoadConfig, Dir;
    var disk := Holding(recipe);
    var cfg := DEFAULT.(makefiles := ["m"]);
    var registered := Registered([RecipeTool(Served(recipe))], map[recipe.id := Served(recipe)]);
    MIsRead(s, disk);
    OneIsProduced(s, cfg, recipe);
    assert OnDisk(s, disk) == Some(cfg) && Loadable(s, disk) && Startable(cfg, disk.host);
    StartUpExactly(s, disk);
    ProducesOne(s, cfg, disk, registered, StartUp(s, disk).value.registered);
    assert registered.tools[0] == RecipeTool(Served(recipe));
  }

  lemma MIsRead(s: Settings, disk: Disk)
    requires ServesM(s)
    ensures LoadConfig(s.configPath, s.cli, disk) == Some(DEFAULT.(makefiles := ["m"])) && Dir("m") == "."
  {
    SplitAt("", "m");
    assert "" + "m" == "m";
  }

  lemma OneIsProduced(s: Settings, cfg: Config, recipe: Recipe)
    requires recipe.sourceFile == "" && WellFormed(Options("@", false, s.isMedia), recipe)
    requires cfg.makefiles == ["m"] && cfg.delimiter == "@" && !cfg.strict
    ensures Produces(s, cfg, Holding(recipe),
                     Registered([RecipeTool(Served(recipe))], map[recipe.id := Served(recipe)]))
  {
    hide WellFormed, ParseAll, RecipeTool;
    OneRecipeIsParsed(s, cfg, recipe);
    OneRecipeIsBuilt(Served(recipe));
  }

  lemma OneRecipeIsParsed(s: Settings, cfg: Config, recipe: Recipe)
    requires recipe.sourceFile == "" && WellFormed(Options("@", false, s.isMedia), recipe)
    requires cfg.makefiles == ["m"] && cfg.delimiter == "@" && !cfg.strict
    ensures ParseAll(s, cfg, Holding(recipe)) == Some(ParseResult([Served(recipe)], []))
  {
    hide WellFormed, PrintMakefile, Parse, Merged;
    var opts := Options("@", false, s.isMedia);
    var file := File("m", Some(ScanLines(PrintMakefile("@", [recipe]))));
    PrintThenParse(opts, [recipe]);
    assert ReadFiles(cfg.makefiles, Holding(recipe)) == [file];
    MergedOne(opts, file);
    assert Tag("m", ParseResult([recipe], [])) == ParseResult([Served(recipe)], []);
  }

  lemma MergedOne(opts: Options, file: File)
    requires file.lines.Some?
    ensures Merged(opts, [file]) == Tag(file.path, Parse(opts, INITIAL, file.lines.value))
  {
    hide Parse, Tag;
    var own := Tag(file.path, Parse(opts, INITIAL, file.lines.value));
    assert [file][..0] == [];
    assert NOTHING.Join(own) == own;
  }

  lemma OneRecipeIsBuilt(recipe: Recipe)
    ensures Build([recipe], {}) == Some(Registered([RecipeTool(recipe)], map[recipe.id := recipe]))
  {
    hide RecipeTool;
    assert RecipeTools([recipe]) == [RecipeTool(recipe)];
    assert [recipe][..0] == [] && IndexByID([]) == map[];
    assert IndexByID([recipe]) == map[recipe.id := recipe];
  }

  // ---- Three such recipes ----

  function Plain(id: string, params: seq<Param>): Recipe {
    Recipe("", id, "n", "d", "low", Some(params), "o", "text/plain", ToolHints(None, None, None, None))
  }

  predicate AllParams(params: seq<Param>) {
    forall p | p in params :: IsParam(p)
  }

  lemma PlainIsWellFormed(s: Settings, id: string, params: seq<Param>)
    requires s.isMedia("text/plain") && IsTargetName(id) && !HasPrefix(id, ".")
    requires AllParams(params)
    ensures WellFormed(Options("@", false, s.isMedia), Plain(id, params))
  {
  }

  lemma ParamsAreKnown(params: seq<Param>)
    requires AllParams(params)
    ensures NamesAreKnown(params) && TypesAreKnown(params)
  {
    forall i | 0 <= i < |params| ensures IsParam(params[i]) {
      assert params[i] in params;
    }
  }

  /** Whatever params declare a name with two types, a Makefile can declare them: then some call that
      conforms to the advertised schema is refused. */
  lemma TwoTypesAreServed(s: Settings, params: seq<Param>) returns (args: Arguments)
    requires ServesM(s) && s.isMedia("text/plain") && AllParams(params) && !Consistent(params)
    ensures var recipe := Plain("t", params);
            && StartUp(s, Holding(recipe)).Some?
            && var registered := StartUp(s, Holding(recipe)).value.registered;
               && Advertised(registered.tools, RecipeTool(Served(recipe)))
               && Conforms(RecipeTool(Served(recipe)).properties, args)
               && forall r | IsCall(registered.index, "t", args, ".", r) :: r.InvalidParams?
  {
    hide StartUp, WellFormed, Conforms, Accepts, Advertised, IsCall, Properties, IsParam;
    var recipe := Plain("t", params);
    ParamsAreKnown(params);
    PlainIsWellFormed(s, "t", params);
    WellFormedIsServed(s, recipe);
    args := Disagreement(params);
    var index := map["t" := Served(recipe)];
    forall r | IsCall(index, "t", args, ".", r) ensures r.InvalidParams? {
      RefusedIsInvalid(index, "t", args, r);
    }
  }

  lemma RefusedIsInvalid(index: map<string, Recipe>, id: string, args: Arguments, r: Call)
    requires id != "" && id in index && index[id].id == id && IsCall(index, id, args, ".", r)
    requires !Accepts(ParamList(index[id]), args)
    ensures r.InvalidParams?
  {
    hide Accepts, IsBuilt;
    MadeIfAccepted(index, id, args, ".", r);
  }

  lemma Disagreement(params: seq<Param>) returns (args: Arguments)
    requires TypesAreKnown(params) && !Consistent(params)
    ensures Conforms(Properties(params), args) && !Accepts(params, args)
  {
    hide Conforms, Accepts, Properties;
    SchemaAgreesExactly(params);
    args :| Conforms(Properties(params), args) != Accepts(params, args);
    if Accepts(params, args) {
      AcceptedConforms(params, args);
    }
  }

  /** Whatever params with distinct names clash, a Makefile can declare them: then two different calls run
      make alike. */
  lemma ClashesAreServed(s: Settings, params: seq<Param>) returns (a: Arguments, b: Arguments)
    requires ServesM(s) && s.isMedia("text/plain") && AllParams(params) && DistinctNames(params) && !NoClash(params)
    ensures a != b && StartUp(s, Holding(Plain("t", params))).Some?
    ensures var index := StartUp(s, Holding(Plain("t", params))).value.registered.index;
            exists argv :: IsCall(index, "t", a, ".", Make(argv)) && IsCall(index, "t", b, ".", Make(argv))
  {
    hide StartUp, WellFormed, IsCall, Advertised, IsParam, NoClash;
    var recipe := Plain("t", params);
    ParamsAreKnown(params);
    PlainIsWellFormed(s, "t", params);
    WellFormedIsServed(s, recipe);
    a, b := ClashIsAmbiguous(params);
    SameCall(map["t" := Served(recipe)], "t", params, a, b);
  }

  lemma SameCall(index: map<string, Recipe>, id: string, params: seq<Param>, a: Arguments, b: Arguments)
    requires id != "" && id in index && index[id].id == id && index[id].params == Some(params)
    requires SameVector(params, a, b)
    ensures exists argv :: IsCall(index, id, a, ".", Make(argv)) && IsCall(index, id, b, ".", Make(argv))
  {
    var argv := Prefix(id, "") + Entries(params, a).value;
    assert IsCall(index, id, a, ".", Make(argv));
  }

  /** There are such params. */
  lemma TwoTypesAndClashesExist()
    ensures exists params :: AllParams(params) && !Consistent(params)
    ensures exists params :: AllParams(params) && DistinctNames(params) && !NoClash(params)
  {
    var two := TwoTypes();
    var one := OneVariable();
  }

  lemma TwoTypes() returns (params: seq<Param>)
    ensures AllParams(params) && !Consistent(params)
  {
    params := [Param("x", "string", "d"), Param("x", "int", "d")];
    assert params[0].name == params[1].name && params[0].ptype != params[1].ptype;
  }

  lemma OneVariable() returns (params: seq<Param>)
    ensures AllParams(params) && DistinctNames(params) && !NoClash(params)
  {
    params := [Param("a-b", "string", "d"), Param("a_b", "string", "d")];
    SameVariable();
    assert "a-b"[1] != "a_b"[1];
    assert Clash(params[0], params[1]);
  }

  lemma SameVariable()
    ensures VarName("a-b") == VarName("a_b")
  {
    assert VarName("a-b") == ['A', '_', 'B'];
  }

  /** A Makefile can declare a target whose name make takes for a switch: its tool can be called, and
      then make is told to build nothing. This one even names another Makefile. */
  lemma SwitchesAreServed(s: Settings, takes: set<string>) returns (recipe: Recipe, argv: seq<string>)
    requires ServesM(s) && s.isMedia("text/plain") && MakeLine.FLAG !in takes
    ensures StartUp(s, Holding(recipe)).Some? && recipe.id == "-fother.mk"
    ensures var registered := StartUp(s, Holding(recipe)).value.registered;
            && Advertised(registered.tools, RecipeTool(Served(recipe)))
            && IsCall(registered.index, recipe.id, map[], ".", Make(argv))
    ensures argv == [MakeLine.FLAG, "-fother.mk"] && MakeLine.Goals(takes, argv) == []
  {
    hide StartUp, WellFormed, MakeLine.Goals, MakeLine.Readings, IsTargetName, Advertised, RecipeTool, IsCall;
    recipe := Plain("-fother.mk", []);
    argv := [MakeLine.FLAG, "-fother.mk"];
    OtherIsTargetName();
    PlainIsWellFormed(s, recipe.id, []);
    WellFormedIsServed(s, recipe);
    NoArguments(map[recipe.id := Served(recipe)], recipe.id);
    MakeLine.VectorReadings(takes, "-fother.mk", []);
    assert [MakeLine.FLAG, "-fother.mk"] + [] == argv;
  }

  lemma OtherIsTargetName()
    ensures IsTargetName("-fother.mk") && !HasPrefix("-fother.mk", ".")
  {
  }

  lemma NoArguments(index: map<string, Recipe>, id: string)
    requires id != "" && id in index && index[id].id == id && index[id].params == Some([])
    ensures IsCall(index, id, map[], ".", Make([MakeLine.FLAG, id]))
  {
    NoEntries([], map[]);
    assert Prefix(id, "") + [] == [MakeLine.FLAG, id];
  }
}
