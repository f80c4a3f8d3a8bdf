/** pkg/parser/parser.go: the line state machine. */
module Parser {
  import opened Text
  import opened Annotation
  import opened Schema

  /** ParseOptions; `isMedia` stands for mime.ParseMediaType succeeding. */
  datatype Options = Options(delimiter: string, strict: bool, isMedia: string -> bool) {
    function Delim(): string {
      if delimiter == "" then "@" else delimiter
    }
  }

  // ---- @param values and hints ----

  /** ^[a-zA-Z][a-zA-Z0-9_-]*$ */
  predicate IsParamName(name: string) {
    && name != ""
    && IsLetter(name[0])
    && forall i | 0 <= i < |name| ::
         IsLetter(name[i]) || IsDigit(name[i]) || name[i] == '_' || name[i] == '-'
  }

  datatype ParsedParam = Parsed(param: Param) | Rejected(err: Violation)

  /** parseParam */
  function ParseParam(val: string): ParsedParam {
    match Index(val, " | ", 0)
    case None => Rejected(ParamFormat(val))
    case Some(bar) =>
      var nameType := Fields(val[..bar]);
      if |nameType| != 2 then Rejected(ParamFields(val))
      else if !IsParamName(nameType[0]) then Rejected(ParamName(nameType[0]))
      else if !IsParamType(nameType[1]) then Rejected(ParamKind(nameType[0], nameType[1]))
      else Parsed(Param(nameType[0], nameType[1], Trim(val[bar + 3..])))
  }

  function Parsable(raw: seq<string>): seq<Param> {
    if raw == [] then []
    else (match ParseParam(raw[0]) case Parsed(p) => [p] case Rejected(_) => []) + Parsable(raw[1..])
  }

  function Unparsable(raw: seq<string>): seq<Violation> {
    if raw == [] then []
    else (match ParseParam(raw[0]) case Parsed(_) => [] case Rejected(e) => [e]) + Unparsable(raw[1..])
  }

  function Attach(id: string, violations: seq<Violation>): (errs: seq<ValidationError>)
    ensures |errs| == |violations|
  {
    seq(|violations|, i requires 0 <= i < |violations| => ValidationError(id, "", violations[i]))
  }

  function ParamsOf(st: State): Option<seq<Param>> {
    if !st.paramsSeen then None
    else if st.noneSeen then Some([])
    else Some(Parsable(st.raw))
  }

  function ParamViolations(st: State): seq<Violation> {
    if !st.paramsSeen then []
    else if st.noneSeen then When(st.raw != [], MixedParams)
    else Unparsable(st.raw)
  }

  lemma FirstRaw(raw: seq<string>, i: nat)
    requires i < |raw|
    ensures var p := ParseParam(raw[i]);
            && Parsable(raw[i..]) == (if p.Parsed? then [p.param] else []) + Parsable(raw[i + 1..])
            && Unparsable(raw[i..]) == (if p.Parsed? then [] else [p.err]) + Unparsable(raw[i + 1..])
  {
    assert raw[i..][1..] == raw[i + 1..];
  }

  /** buildParams */
  method BuildParams(id: string, st: State) returns (params: Option<seq<Param>>, errs: seq<ValidationError>)
    ensures params == ParamsOf(st) && errs == Attach(id, ParamViolations(st))
  {
    hide ParseParam;
    if !st.paramsSeen {
      return None, [];
    }
    if st.noneSeen && |st.raw| > 0 {
      return Some([]), [ValidationError(id, "", MixedParams)];
    }
    if st.noneSeen {
      return Some([]), [];
    }
    var parsed: seq<Param> := [];
    errs := [];
    ghost var found: seq<Violation> := [];
    var i := 0;
    while i < |st.raw|
      invariant 0 <= i <= |st.raw|
      invariant Parsable(st.raw) == parsed + Parsable(st.raw[i..])
      invariant Unparsable(st.raw) == found + Unparsable(st.raw[i..])
      invariant errs == Attach(id, found)
    {
      FirstRaw(st.raw, i);
      match ParseParam(st.raw[i]) {
        case Rejected(e) =>
          errs := errs + [ValidationError(id, "", e)];
          found := found + [e];
        case Parsed(p) =>
          parsed := parsed + [p];
      }
      i := i + 1;
    }
    assert st.raw[i..] == [] && Parsable(st.raw) == parsed && Unparsable(st.raw) == found;
    params := Some(parsed);
  }

  const HINT_KEYS := ["read-only", "destructive", "idempotent", "open-world"]

  /** strconv.ParseBool */
  function ParseBool(raw: string): Option<bool> {
    if raw in ["1", "t", "T", "TRUE", "true", "True"] then Some(true)
    else if raw in ["0", "f", "F", "FALSE", "false", "False"] then Some(false)
    else None
  }

  /** optionalBoolAnnotation: the hint, and the violations it adds. */
  function OptionalBool(meta: map<string, string>, key: string): Option<bool> {
    if key in meta then ParseBool(meta[key]) else None
  }

  function BoolViolations(meta: map<string, string>, key: string): seq<Violation> {
    if key in meta && ParseBool(meta[key]).None? then [BadBool(key, meta[key])] else []
  }

  function HintsOf(meta: map<string, string>): ToolHints {
    ToolHints(OptionalBool(meta, "read-only"), OptionalBool(meta, "destructive"),
              OptionalBool(meta, "idempotent"), OptionalBool(meta, "open-world"))
  }

  function HintViolations(meta: map<string, string>): seq<Violation> {
    BoolViolations(meta, "read-only") + BoolViolations(meta, "destructive")
    + BoolViolations(meta, "idempotent") + BoolViolations(meta, "open-world")
  }

  /** appendBoolAnnotationError, after optionalBoolAnnotation for the key. */
  method AppendBoolError(errs: seq<ValidationError>, id: string, meta: map<string, string>, key: string)
    returns (more: seq<ValidationError>)
    ensures more == errs + Attach(id, BoolViolations(meta, key))
  {
    more := errs;
    if key in meta && ParseBool(meta[key]).None? {
      more := more + [ValidationError(id, "", BadBool(key, meta[key]))];
    }
  }

  /** buildToolHints */
  method BuildToolHints(id: string, meta: map<string, string>) returns (hints: ToolHints, errs: seq<ValidationError>)
    ensures hints == HintsOf(meta) && errs == Attach(id, HintViolations(meta))
  {
    hide ParseBool;
    var readOnly := OptionalBool(meta, "read-only");
    errs := AppendBoolError([], id, meta, "read-only");
    var destructive := OptionalBool(meta, "destructive");
    errs := AppendBoolError(errs, id, meta, "destructive");
    var idempotent := OptionalBool(meta, "idempotent");
    errs := AppendBoolError(errs, id, meta, "idempotent");
    var openWorld := OptionalBool(meta, "open-world");
    errs := AppendBoolError(errs, id, meta, "open-world");
    hints := ToolHints(readOnly, destructive, idempotent, openWorld);
  }

  function MissingHints(meta: map<string, string>, keys: seq<string>): seq<Violation> {
    if keys == [] then []
    else When(keys[0] !in meta, MissingHint(keys[0])) + MissingHints(meta, keys[1..])
  }

  function StrictViolations(meta: map<string, string>, strict: bool): seq<Violation> {
    if strict then MissingHints(meta, HINT_KEYS) else []
  }

  lemma {:induction false} FirstMissing(meta: map<string, string>, keys: seq<string>, i: nat)
    requires i < |keys|
    ensures MissingHints(meta, keys[i..]) ==
            When(keys[i] !in meta, MissingHint(keys[i])) + MissingHints(meta, keys[i + 1..])
  {
    assert keys[i..][1..] == keys[i + 1..];
  }

  lemma NothingRequired(meta: map<string, string>)
    ensures MissingHints(meta, []) == []
  {
  }

  /** The loop of validateStrictAnnotations. */
  method FindMissing(id: string, meta: map<string, string>, required: seq<string>) returns (errs: seq<ValidationError>)
    ensures errs == Attach(id, MissingHints(meta, required))
  {
    hide MissingHints;
    errs := [];
    ghost var found: seq<Violation> := [];
    var i := 0;
    while i < |required|
      invariant 0 <= i <= |required|
      invariant MissingHints(meta, required) == found + MissingHints(meta, required[i..])
      invariant errs == Attach(id, found)
    {
      FirstMissing(meta, required, i);
      var key := required[i];
      if key !in meta {
        errs := errs + [ValidationError(id, "", MissingHint(key))];
        found := found + [MissingHint(key)];
      }
      i := i + 1;
    }
    assert required[i..] == [];
    NothingRequired(meta);
  }

  /** validateStrictAnnotations */
  method ValidateStrict(id: string, meta: map<string, string>, strict: bool) returns (errs: seq<ValidationError>)
    ensures errs == Attach(id, StrictViolations(meta, strict))
  {
    if !strict {
      return [];
    }
    errs := FindMissing(id, meta, HINT_KEYS);
  }

  // ---- The state machine ----

  /** pendingMeta, pendingParamStrings, paramsSeen, paramNoneSeen, inAnnotationBlock */
  datatype State = State(
    meta: map<string, string>,
    raw: seq<string>,
    paramsSeen: bool,
    noneSeen: bool,
    inBlock: bool
  )

  const INITIAL := State(map[], [], false, false, false)

  datatype Kind = Annotated(field: Field) | Comment | Target(name: string) | Blank | Other

  /** The five cases of the switch, in its order. */
  function Classify(line: string, delim: string): Kind {
    var trimmed := Trim(line);
    var annotation := Extract(line, delim);
    var target := MatchTarget(trimmed);
    if annotation.Some? then Annotated(annotation.value)
    else if HasPrefix(trimmed, "#") then Comment
    else if target.Some? then Target(target.value)
    else if trimmed == "" then Blank
    else Other
  }

  function Annotate(st: State, f: Field): State {
    if f.key == "param" then
      if f.value == "none" then st.(paramsSeen := true, noneSeen := true, inBlock := true)
      else st.(paramsSeen := true, raw := st.raw + [f.value], inBlock := true)
    else st.(meta := st.meta[f.key := f.value], inBlock := true)
  }

  function Next(st: State, kind: Kind): State {
    match kind
    case Annotated(f) => Annotate(st, f)
    case Comment => st
    case Target(_) => INITIAL
    case Blank => if st.inBlock then INITIAL else st
    case Other => INITIAL
  }

  function Get(meta: map<string, string>, key: string): string {
    if key in meta then meta[key] else ""
  }

  function BuildRecipe(id: string, st: State): Recipe {
    Recipe("", id, Get(st.meta, "name"), Get(st.meta, "description"), Get(st.meta, "risk"),
           ParamsOf(st), Get(st.meta, "output"), Get(st.meta, "output-type"), HintsOf(st.meta))
  }

  function Violations(opts: Options, id: string, st: State): seq<Violation> {
    ParamViolations(st) + HintViolations(st.meta) + StrictViolations(st.meta, opts.strict)
    + Validate(BuildRecipe(id, st), opts.isMedia)
  }

  predicate Emits(st: State, kind: Kind) {
    kind.Target? && st.inBlock && (st.meta != map[] || st.paramsSeen) && !HasPrefix(kind.name, ".")
  }

  function Emit(opts: Options, st: State, kind: Kind): ParseResult {
    if Emits(st, kind) then
      ParseResult([BuildRecipe(kind.name, st)], Attach(kind.name, Violations(opts, kind.name, st)))
    else NOTHING
  }

  /** What the remaining lines produce from a state. */
  function Parse(opts: Options, st: State, lines: seq<string>): ParseResult
    decreases |lines|
  {
    if lines == [] then NOTHING
    else
      var kind := Classify(lines[0], opts.Delim());
      Emit(opts, st, kind).Join(Parse(opts, Next(st, kind), lines[1..]))
  }

  /** The state that the lines leave behind. */
  function After(opts: Options, st: State, lines: seq<string>): State
    decreases |lines|
  {
    if lines == [] then st
    else After(opts, Next(st, Classify(lines[0], opts.Delim())), lines[1..])
  }

  lemma AttachJoins(id: string, a: seq<Violation>, b: seq<Violation>)
    ensures Attach(id, a + b) == Attach(id, a) + Attach(id, b)
  {
  }

  /** The recipe of an annotated target, and everything that is wrong with it. */
  method Assemble(name: string, st: State, opts: Options) returns (recipe: Recipe, errs: seq<ValidationError>)
    ensures recipe == BuildRecipe(name, st) && errs == Attach(name, Violations(opts, name, st))
  {
    var params, paramErrs := BuildParams(name, st);
    var hints, hintErrs := BuildToolHints(name, st.meta);
    var strictErrs := ValidateStrict(name, st.meta, opts.strict);
    recipe := Recipe("", name, Get(st.meta, "name"), Get(st.meta, "description"), Get(st.meta, "risk"),
                     params, Get(st.meta, "output"), Get(st.meta, "output-type"), hints);
    var violations := CollectViolations(recipe, opts.isMedia);
    errs := paramErrs + hintErrs + strictErrs + Attach(name, violations);
    var p, h, s := ParamViolations(st), HintViolations(st.meta), StrictViolations(st.meta, opts.strict);
    AttachJoins(name, p, h);
    AttachJoins(name, p + h, s);
    AttachJoins(name, p + h + s, violations);
  }

  /** What holds between any two lines. */
  predicate Settled(st: State) {
    (st.inBlock <==> st.meta != map[] || st.paramsSeen) && (!st.inBlock ==> st == INITIAL)
  }

  /** The switch: what a line emits, and the state that it leaves. */
  method ReadLine(line: string, st: State, opts: Options, delim: string) returns (emitted: ParseResult, next: State)
    requires delim == opts.Delim() && Settled(st)
    ensures emitted == Emit(opts, st, Classify(line, delim))
    ensures next == Next(st, Classify(line, delim)) && Settled(next)
  {
    emitted, next := NOTHING, st;
    var trimmed := Trim(line);
    var annotation := Extract(line, delim);
    var target := MatchTarget(trimmed);
    if annotation.Some? {
      var f := annotation.value;
      if f.key == "param" {
        next := next.(paramsSeen := true);
        if f.value == "none" {
          next := next.(noneSeen := true);
        } else {
          next := next.(raw := next.raw + [f.value]);
        }
      } else {
        next := next.(meta := next.meta[f.key := f.value]);
        assert f.key in next.meta;
      }
      next := next.(inBlock := true);
    } else if HasPrefix(trimmed, "#") {
    } else if target.Some? {
      var name := target.value;
      if !st.inBlock || (st.meta == map[] && !st.paramsSeen) {
        next := INITIAL;
      } else if HasPrefix(name, ".") {
        next := INITIAL;
      } else {
        var recipe, errs := Assemble(name, st, opts);
        emitted := ParseResult([recipe], errs);
        next := INITIAL;
      }
    } else if trimmed == "" {
      if st.inBlock {
        next := INITIAL;
      }
    } else {
      next := INITIAL;
    }
  }

  /** ParseMakefile over the lines that its scanner delivers. */
  method ParseMakefile(lines: seq<string>, opts: Options) returns (result: ParseResult)
    ensures result == Parse(opts, INITIAL, lines)
  {
    hide Classify, Emit, Next;
    var delim := if opts.delimiter == "" then "@" else opts.delimiter;
    result := ParseResult([], []);
    var st := INITIAL;
    var i := 0;
    while i < |lines|
      invariant 0 <= i <= |lines| && Settled(st)
      invariant Parse(opts, INITIAL, lines) == result.Join(Parse(opts, st, lines[i..]))
    {
      var emitted, next := ReadLine(lines[i], st, opts, delim);
      ghost var before := result;
      result := ParseResult(result.recipes + emitted.recipes, result.errors + emitted.errors);
      StepJoins(opts, st, lines[i..], before, result, next);
      assert lines[i..][1..] == lines[i + 1..];
      st := next;
      i := i + 1;
    }
  }

  lemma JoinIsAssociative(a: ParseResult, b: ParseResult, c: ParseResult)
    ensures a.Join(b).Join(c) == a.Join(b.Join(c))
  {
  }

  lemma StepJoins(opts: Options, st: State, lines: seq<string>, a: ParseResult, b: ParseResult, st': State)
    requires lines != []
    requires var kind := Classify(lines[0], opts.Delim()); b == a.Join(Emit(opts, st, kind)) && st' == Next(st, kind)
    ensures a.Join(Parse(opts, st, lines)) == b.Join(Parse(opts, st', lines[1..]))
  {
    var kind := Classify(lines[0], opts.Delim());
    JoinIsAssociative(a, Emit(opts, st, kind), Parse(opts, st', lines[1..]));
  }
}
