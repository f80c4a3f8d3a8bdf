/** pkg/server/tools.go: the tools that are advertised for the recipes. */
module Tools {
  import opened Text
  import opened Schema

  /** One entry of the "properties" of an input schema. */
  datatype Property = Property(jsonType: string, description: string)

  datatype Tool = Tool(
    name: string,
    description: string,
    properties: map<string, Property>,
    title: string,
    readOnlyHint: bool,
    destructiveHint: bool,
    idempotentHint: bool,
    openWorldHint: bool
  )

  function SchemaType(ptype: string): string {
    if ptype == "int" then "integer" else if ptype == "bool" then "boolean" else "string"
  }

  function ParamList(r: Recipe): seq<Param> {
    if r.params.Some? then r.params.value else []
  }

  /** The properties after the loop of buildInputSchema: a later param replaces an earlier one. */
  function Properties(params: seq<Param>): map<string, Property> {
    if params == [] then map[]
    else
      var last := params[|params| - 1];
      Properties(params[..|params| - 1])[last.name := Property(SchemaType(last.ptype), last.description)]
  }

  method BuildInputSchema(params: seq<Param>) returns (properties: map<string, Property>)
    ensures properties == Properties(params)
  {
    properties := map[];
    for i := 0 to |params|
      invariant properties == Properties(params[..i])
    {
      assert params[..i + 1][..i] == params[..i];
      properties := properties[params[i].name := Property(SchemaType(params[i].ptype), params[i].description)];
    }
    assert params[..|params|] == params;
  }

  function BoolHint(value: Option<bool>, default: bool): bool {
    if value.Some? then value.value else default
  }

  function RecipeTool(r: Recipe): Tool {
    Tool(r.id, r.description, Properties(ParamList(r)), r.name,
         BoolHint(r.hints.readOnly, false), BoolHint(r.hints.destructive, r.risk == "high"),
         BoolHint(r.hints.idempotent, false), BoolHint(r.hints.openWorld, true))
  }

  method RecipeToTool(r: Recipe) returns (tool: Tool)
    ensures tool == RecipeTool(r)
  {
    var schema := BuildInputSchema(ParamList(r));
    tool := Tool(r.id, r.description, schema, r.name,
                 BoolHint(r.hints.readOnly, false), BoolHint(r.hints.destructive, r.risk == "high"),
                 BoolHint(r.hints.idempotent, false), BoolHint(r.hints.openWorld, true));
  }

  /** The tools in order, and the index from ID to recipe. */
  datatype Registered = Registered(tools: seq<Tool>, index: map<string, Recipe>)

  function RecipeTools(recipes: seq<Recipe>): seq<Tool> {
    seq(|recipes|, i requires 0 <= i < |recipes| => RecipeTool(recipes[i]))
  }

  function IndexByID(recipes: seq<Recipe>): map<string, Recipe> {
    if recipes == [] then map[]
    else
      var last := recipes[|recipes| - 1];
      IndexByID(recipes[..|recipes| - 1])[last.id := last]
  }

  /** buildServerTools; `unencodable` are the IDs of the recipes whose schema json.Marshal refuses. */
  function Build(recipes: seq<Recipe>, unencodable: set<string>): Option<Registered> {
    if exists i :: 0 <= i < |recipes| && recipes[i].id in unencodable then None
    else Some(Registered(RecipeTools(recipes), IndexByID(recipes)))
  }

  method BuildServerTools(recipes: seq<Recipe>, unencodable: set<string>) returns (r: Option<Registered>)
    ensures r == Build(recipes, unencodable)
  {
    var tools: seq<Tool> := [];
    var index: map<string, Recipe> := map[];
    var i := 0;
    while i < |recipes|
      invariant 0 <= i <= |recipes|
      invariant tools == RecipeTools(recipes[..i]) && index == IndexByID(recipes[..i])
      invariant forall k | 0 <= k < i :: recipes[k].id !in unencodable
    {
      var recipe := recipes[i];
      if recipe.id in unencodable {
        return None;
      }
      var tool := RecipeToTool(recipe);
      assert recipes[..i + 1][..i] == recipes[..i];
      tools := tools + [tool];
      index := index[recipe.id := recipe];
      i := i + 1;
    }
    assert recipes[..i] == recipes;
    r := Some(Registered(tools, index));
  }

  // ---- What the index and the tool list say ----

  /** recipes[k] is the last recipe with its ID. */
  predicate IsLast(recipes: seq<Recipe>, k: nat)
    requires k < |recipes|
  {
    forall l | k < l < |recipes| :: recipes[l].id != recipes[k].id
  }

  lemma {:induction false} LastWithID(recipes: seq<Recipe>, i: nat) returns (k: nat)
    requires i < |recipes|
    ensures i <= k < |recipes| && recipes[k].id == recipes[i].id && IsLast(recipes, k)
    decreases |recipes| - i
  {
    if l :| i < l < |recipes| && recipes[l].id == recipes[i].id {
      k := LastWithID(recipes, l);
    } else {
      k := i;
    }
  }

  lemma {:induction false} IndexKeepsLast(recipes: seq<Recipe>, k: nat)
    requires k < |recipes| && IsLast(recipes, k)
    ensures recipes[k].id in IndexByID(recipes) && IndexByID(recipes)[recipes[k].id] == recipes[k]
  {
    var front := recipes[..|recipes| - 1];
    if k < |front| {
      assert front[k] == recipes[k] && recipes[|front|].id != recipes[k].id;
      IndexKeepsLast(front, k);
    }
  }

  lemma {:induction false} IndexHoldsRecipes(recipes: seq<Recipe>, id: string)
    requires id in IndexByID(recipes)
    ensures IndexByID(recipes)[id].id == id && IndexByID(recipes)[id] in recipes
  {
    var front := recipes[..|recipes| - 1];
    if recipes[|front|].id != id {
      IndexHoldsRecipes(front, id);
    }
  }

  /** The index has the names of the tools as its keys, maps each to the last recipe with that ID,
      and the last tool of a name is the one made from that recipe. */
  lemma IndexMatchesTools(recipes: seq<Recipe>)
    ensures var tools, index := RecipeTools(recipes), IndexByID(recipes);
            && (forall id :: id in index <==> exists i :: 0 <= i < |tools| && tools[i].name == id)
            && (forall k | 0 <= k < |recipes| && IsLast(recipes, k) ::
                  recipes[k].id in index && index[recipes[k].id] == recipes[k]
                  && tools[k] == RecipeTool(index[tools[k].name]))
  {
    var tools, index := RecipeTools(recipes), IndexByID(recipes);
    forall k | 0 <= k < |recipes| && IsLast(recipes, k)
      ensures recipes[k].id in index && index[recipes[k].id] == recipes[k]
    {
      IndexKeepsLast(recipes, k);
    }
    forall id | id in index ensures exists i :: 0 <= i < |tools| && tools[i].name == id {
      IndexHoldsRecipes(recipes, id);
      var i :| 0 <= i < |recipes| && recipes[i] == index[id];
      assert tools[i].name == id;
    }
    forall i | 0 <= i < |tools| ensures tools[i].name in index {
      var k := LastWithID(recipes, i);
      IndexKeepsLast(recipes, k);
    }
  }

  predicate Declared(params: seq<Param>, name: string) {
    exists i :: 0 <= i < |params| && params[i].name == name
  }

  /** params[k] is the last declaration of its name. */
  predicate LastDeclared(params: seq<Param>, k: nat)
    requires k < |params|
  {
    forall l | k < l < |params| :: params[l].name != params[k].name
  }

  /** The advertised names are the declared ones. */
  lemma {:induction false} PropertiesAreDeclared(params: seq<Param>, name: string)
    ensures name in Properties(params) <==> Declared(params, name)
  {
    if params != [] {
      var front, last := params[..|params| - 1], params[|params| - 1];
      PropertiesAreDeclared(front, name);
      if Declared(front, name) {
        var i :| 0 <= i < |front| && front[i].name == name;
        assert params[i].name == name;
      }
      if Declared(params, name) && last.name != name {
        var i :| 0 <= i < |params| && params[i].name == name;
        assert front[i].name == name;
      }
    }
  }

  /** The advertised type of a name is that of its last declaration. */
  lemma {:induction false} PropertyOfLast(params: seq<Param>, k: nat)
    requires k < |params| && LastDeclared(params, k)
    ensures params[k].name in Properties(params)
    ensures Properties(params)[params[k].name] == Property(SchemaType(params[k].ptype), params[k].description)
  {
    var front := params[..|params| - 1];
    if k < |front| {
      assert front[k] == params[k] && params[|front|].name != params[k].name;
      assert LastDeclared(front, k);
      PropertyOfLast(front, k);
    }
  }

  lemma {:induction false} LastDeclaration(params: seq<Param>, i: nat) returns (k: nat)
    requires i < |params|
    ensures i <= k < |params| && params[k].name == params[i].name && LastDeclared(params, k)
    decreases |params| - i
  {
    if l :| i < l < |params| && params[l].name == params[i].name {
      k := LastDeclaration(params, l);
    } else {
      k := i;
    }
  }
}
