/** pkg/parser/schema.go: recipes and their field-level validation. */
module Schema {
  import opened Text

  /** `params` is None for Go's nil slice: no @param annotation was present at all. */
  datatype Recipe = Recipe(
    sourceFile: string,
    id: string,
    name: string,
    description: string,
    risk: string,
    params: Option<seq<Param>>,
    output: string,
    outputType: string,
    hints: ToolHints
  )

  datatype Param = Param(name: string, ptype: string, description: string)

  datatype ToolHints = ToolHints(
    readOnly: Option<bool>,
    destructive: Option<bool>,
    idempotent: Option<bool>,
    openWorld: Option<bool>
  )

  /** The error messages of the parser, by kind. */
  datatype Violation =
    | MissingID
    | MissingName
    | MissingDescription
    | MissingParams
    | MissingOutput
    | MissingOutputType
    | BadOutputType(value: string)
    | BadRisk
    | ParamFormat(raw: string)
    | ParamFields(raw: string)
    | ParamName(name: string)
    | ParamKind(name: string, kind: string)
    | MixedParams
    | BadBool(key: string, raw: string)
    | MissingHint(key: string)

  datatype ValidationError = ValidationError(recipeID: string, sourceFile: string, err: Violation)

  datatype ParseResult = ParseResult(recipes: seq<Recipe>, errors: seq<ValidationError>) {
    predicate Valid() {
      errors == []
    }

    function Join(next: ParseResult): ParseResult {
      ParseResult(recipes + next.recipes, errors + next.errors)
    }
  }

  const NOTHING := ParseResult([], [])

  predicate IsRisk(risk: string) {
    risk == "low" || risk == "medium" || risk == "high"
  }

  predicate IsParamType(t: string) {
    t == "string" || t == "int" || t == "bool"
  }

  function When(condition: bool, violation: Violation): seq<Violation> {
    if condition then [violation] else []
  }

  function MissingFields(r: Recipe): (violations: seq<Violation>)
    ensures violations == [] <==>
            r.id != "" && r.name != "" && r.description != "" && r.params.Some? && r.output != ""
  {
    When(r.id == "", MissingID)
    + When(r.name == "", MissingName)
    + When(r.description == "", MissingDescription)
    + When(r.params.None?, MissingParams)
    + When(r.output == "", MissingOutput)
  }

  /** What Recipe.Validate reports; `isMedia` stands for mime.ParseMediaType succeeding. */
  function Validate(r: Recipe, isMedia: string -> bool): (violations: seq<Violation>)
    ensures violations == [] <==>
            && r.id != "" && r.name != "" && r.description != "" && r.params.Some?
            && r.output != "" && r.outputType != "" && isMedia(r.outputType) && IsRisk(r.risk)
  {
    MissingFields(r)
    + (if r.outputType == "" then [MissingOutputType]
       else When(!isMedia(r.outputType), BadOutputType(r.outputType)))
    + When(!IsRisk(r.risk), BadRisk)
  }

  method AppendIf(errs: seq<Violation>, condition: bool, violation: Violation) returns (more: seq<Violation>)
    ensures more == errs + When(condition, violation)
  {
    more := errs;
    if condition {
      more := more + [violation];
    }
  }

  method CollectMissing(r: Recipe) returns (errs: seq<Violation>)
    ensures errs == MissingFields(r)
  {
    errs := AppendIf([], r.id == "", MissingID);
    errs := AppendIf(errs, r.name == "", MissingName);
    errs := AppendIf(errs, r.description == "", MissingDescription);
    errs := AppendIf(errs, r.params.None?, MissingParams);
    errs := AppendIf(errs, r.output == "", MissingOutput);
  }

  /** Recipe.Validate, which appends every violation as it finds it. */
  method CollectViolations(r: Recipe, isMedia: string -> bool) returns (errs: seq<Violation>)
    ensures errs == Validate(r, isMedia)
  {
    errs := CollectMissing(r);
    if r.outputType == "" {
      errs := errs + [MissingOutputType];
    } else {
      errs := AppendIf(errs, !isMedia(r.outputType), BadOutputType(r.outputType));
    }
    errs := AppendIf(errs, !IsRisk(r.risk), BadRisk);
  }
}
