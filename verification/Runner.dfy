/** pkg/runner/runner.go: the argument vector of a make invocation. */
module Runner {
  import opened Text
  import opened Schema
  import opened Tools

  // ---- Arguments ----

  /** JSON numbers inside the int64 range. */
  type Number = r: real | -9223372036854775808.0 <= r < 9223372036854775808.0

  /** A decoded JSON value. */
  datatype Json =
    | Null
    | Boolean(b: bool)
    | Numeric(n: Number)
    | Textual(s: string)
    | Array(items: seq<Json>)
    | Object(fields: map<string, Json>)

  type Arguments = map<string, Json>

  datatype Error =
    | UnknownParam(key: string, tool: string)
    | WrongType(name: string, want: string)
    | UnsupportedType(ptype: string, name: string)

  datatype Outcome<T> = Ok(value: T) | Err(error: Error)

  // ---- Decimal text ----

  const DIGITS := "0123456789"

  function DecimalNat(n: nat): string {
    if n < 10 then [DIGITS[n]] else DecimalNat(n / 10) + [DIGITS[n % 10]]
  }

  /** strconv.FormatInt(n, 10) */
  function Decimal(n: int): string {
    if n < 0 then "-" + DecimalNat(-n) else DecimalNat(n)
  }

  function ParseNat(s: string): int {
    if s == "" then 0 else 10 * ParseNat(s[..|s| - 1]) + (s[|s| - 1] as int - '0' as int)
  }

  function ParseDecimal(s: string): int {
    if s != "" && s[0] == '-' then -ParseNat(s[1..]) else ParseNat(s)
  }

  lemma Digit(d: nat)
    requires d < 10
    ensures IsDigit(DIGITS[d]) && DIGITS[d] as int - '0' as int == d
  {
  }

  lemma {:induction false} DecimalNatDecodes(n: nat)
    ensures ParseNat(DecimalNat(n)) == n
    ensures DecimalNat(n) != "" && IsDigit(DecimalNat(n)[0])
  {
    var s := DecimalNat(n);
    Digit(n % 10);
    if n < 10 {
      assert s[..0] == "";
    } else {
      DecimalNatDecodes(n / 10);
      assert s[..|s| - 1] == DecimalNat(n / 10);
    }
  }

  /** The decimal text of an integer parses back to it. */
  lemma DecimalDecodes(n: int)
    ensures ParseDecimal(Decimal(n)) == n
    ensures Decimal(n) != "" && (Decimal(n)[0] == '-' <==> n < 0)
    ensures n >= 0 ==> IsDigit(Decimal(n)[0])
  {
    var m := if n < 0 then -n else n;
    DecimalNatDecodes(m);
    SignDecodes(DecimalNat(m));
  }

  lemma SignDecodes(digits: string)
    requires digits != "" && IsDigit(digits[0])
    ensures ParseDecimal(digits) == ParseNat(digits) && ParseDecimal("-" + digits) == -ParseNat(digits)
  {
    assert ("-" + digits)[1..] == digits;
  }

  /** Digits without a leading zero. */
  predicate IsCanonical(digits: string) {
    && digits != "" && (forall i | 0 <= i < |digits| :: IsDigit(digits[i]))
    && (digits[0] == '0' ==> |digits| == 1)
  }

  lemma {:induction false} DecimalNatIsCanonical(n: nat)
    ensures IsCanonical(DecimalNat(n)) && (DecimalNat(n)[0] == '0' ==> n == 0)
  {
    Digit(n % 10);
    if n >= 10 {
      DecimalNatIsCanonical(n / 10);
    }
  }

  // ---- Values and variable names ----

  /** int64(v) */
  function Truncate(v: real): int {
    if v >= 0.0 then v.Floor else -((-v).Floor)
  }

  /** The text of a value of the given type, if it has that type. */
  function Stringify(p: Param, v: Json): Outcome<string> {
    if p.ptype == "string" then
      if v.Textual? then Ok(v.s) else Err(WrongType(p.name, "string"))
    else if p.ptype == "int" then
      if v.Numeric? && v.n == Truncate(v.n) as real then Ok(Decimal(Truncate(v.n)))
      else Err(WrongType(p.name, "integer"))
    else if p.ptype == "bool" then
      if v.Boolean? then Ok(if v.b then "true" else "false") else Err(WrongType(p.name, "boolean"))
    else Err(UnsupportedType(p.ptype, p.name))
  }

  function UpperChar(c: char): char {
    if c == '-' then '_' else if 'a' <= c <= 'z' then (c as int - 32) as char else c
  }

  /** makeVariableName, on the ASCII names that params can have. */
  function VarName(name: string): string {
    seq(|name|, i requires 0 <= i < |name| => UpperChar(name[i]))
  }

  // ---- buildArgs ----

  /** filepath.Base on slash-separated paths. */
  function Base(path: string): string {
    if path == "" then "."
    else
      var p := StripSlashes(path);
      if p == "" then "/" else AfterSlash(p)
  }

  function StripSlashes(path: string): string {
    if path != "" && path[|path| - 1] == '/' then StripSlashes(path[..|path| - 1]) else path
  }

  function AfterSlash(path: string): (name: string)
    ensures |name| <= |path|
  {
    if path == "" || path[|path| - 1] == '/' then "" else AfterSlash(path[..|path| - 1]) + [path[|path| - 1]]
  }

  /** What comes before the variables. */
  function Prefix(id: string, source: string): seq<string> {
    ["--no-print-directory"] + (if source != "" then ["-f", Base(source)] else []) + [id]
  }

  /** One entry for every provided param, in declaration order; or the first type error. */
  function Entries(params: seq<Param>, provided: Arguments): Outcome<seq<string>> {
    if params == [] then Ok([])
    else
      var last := params[|params| - 1];
      match Entries(params[..|params| - 1], provided)
      case Err(e) => Err(e)
      case Ok(entries) =>
        if last.name !in provided then Ok(entries)
        else
          match Stringify(last, provided[last.name])
          case Err(e) => Err(e)
          case Ok(text) => Ok(entries + [VarName(last.name) + "=" + text])
  }

  /** Every provided key is declared. */
  predicate AllDeclared(params: seq<Param>, provided: Arguments) {
    forall k | k in provided :: Declared(params, k)
  }

  /** The provided arguments are accepted. */
  predicate Accepts(params: seq<Param>, provided: Arguments) {
    AllDeclared(params, provided) && Entries(params, provided).Ok?
  }

  lemma {:induction false} ErrorsStay(params: seq<Param>, i: nat, provided: Arguments)
    requires i <= |params| && Entries(params[..i], provided).Err?
    ensures Entries(params, provided) == Entries(params[..i], provided)
    decreases |params|
  {
    if i < |params| {
      var front := params[..|params| - 1];
      assert front[..i] == params[..i];
      ErrorsStay(front, i, provided);
    } else {
      assert params[..i] == params;
    }
  }

  /** The declared names, as the keys of the map that buildArgs fills first. */
  method Allowed(params: seq<Param>) returns (allowed: map<string, Param>)
    ensures forall k :: k in allowed <==> Declared(params, k)
  {
    allowed := map[];
    for i := 0 to |params|
      invariant forall k :: k in allowed <==> exists l :: 0 <= l < i && params[l].name == k
    {
      allowed := allowed[params[i].name := params[i]];
    }
  }

  /** r is an outcome of building the vector: only which unknown key an error names is open. */
  predicate IsBuilt(recipe: Recipe, provided: Arguments, source: string, r: Outcome<seq<string>>) {
    var params := ParamList(recipe);
    if AllDeclared(params, provided) then
      var entries := Entries(params, provided);
      r == if entries.Ok? then Ok(Prefix(recipe.id, source) + entries.value) else entries
    else
      && r.Err? && r.error.UnknownParam? && r.error.tool == recipe.id
      && r.error.key in provided && !Declared(params, r.error.key)
  }

  /** buildArgs. The keys of the argument map are visited in an arbitrary order; the order only
      decides which unknown key the error names. */
  method BuildArgs(recipe: Recipe, provided: Arguments, source: string) returns (r: Outcome<seq<string>>)
    ensures IsBuilt(recipe, provided, source, r)
  {
    var params := ParamList(recipe);
    var allowed := Allowed(params);
    var args := ["--no-print-directory"];
    if source != "" {
      args := args + ["-f", Base(source)];
    }
    args := args + [recipe.id];

    var keys := provided.Keys;
    while keys != {}
      invariant keys <= provided.Keys
      invariant forall k | k in provided && k !in keys :: Declared(params, k)
    {
      var key :| key in keys;
      if key !in allowed {
        return Err(UnknownParam(key, recipe.id));
      }
      keys := keys - {key};
    }

    var i := 0;
    while i < |params|
      invariant 0 <= i <= |params|
      invariant Entries(params[..i], provided).Ok?
      invariant args == Prefix(recipe.id, source) + Entries(params[..i], provided).value
    {
      var param := params[i];
      assert params[..i + 1][..i] == params[..i];
      if param.name in provided {
        match Stringify(param, provided[param.name]) {
          case Err(e) =>
            ErrorsStay(params, i + 1, provided);
            return Err(e);
          case Ok(text) =>
            args := args + [VarName(param.name) + "=" + text];
        }
      }
      i := i + 1;
    }
    assert params[..i] == params;
    r := Ok(args);
  }
}
