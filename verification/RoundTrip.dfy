/** Printing recipes in the documented comment format and parsing them again. */
module RoundTrip {
  import opened Text
  import opened Regex
  import opened Annotation
  import opened Schema
  import opened Parser
  import opened LookBack
  import opened Composition
  import opened Validation

  // ---- Text and lines ----

  function DropCR(line: string): string {
    if line != "" && line[|line| - 1] == '\r' then line[..|line| - 1] else line
  }

  /** bufio.ScanLines */
  function ScanLines(text: string): seq<string>
    decreases |text|
  {
    if text == "" then []
    else
      match Index(text, "\n", 0)
      case None => [DropCR(text)]
      case Some(n) => [DropCR(text[..n])] + ScanLines(text[n + 1..])
  }

  function Unlines(lines: seq<string>): string {
    if lines == [] then "" else lines[0] + "\n" + Unlines(lines[1..])
  }

  /** A line that survives being written and read. */
  predicate IsWritable(line: string) {
    IsLine(line) && DropCR(line) == line
  }

  lemma {:induction false} IndexIs(s: string, t: string, i: nat, e: nat)
    requires i <= e <= |s| && OccursAt(s, t, e) && forall k | i <= k < e :: !OccursAt(s, t, k)
    ensures Index(s, t, i) == Some(e)
    decreases e - i
  {
    if i < e {
      IndexIs(s, t, i + 1, e);
    }
  }

  lemma ScanFirstLine(line: string, rest: string)
    requires IsWritable(line)
    ensures ScanLines(line + "\n" + rest) == [line] + ScanLines(rest)
  {
    FirstNewline(line, rest);
  }

  lemma FirstNewline(line: string, rest: string)
    requires IsLine(line)
    ensures ScanLines(line + "\n" + rest) == [DropCR(line)] + ScanLines(rest)
  {
    var text := line + "\n" + rest;
    forall k | 0 <= k <= |line| ensures OccursAt(text, "\n", k) <==> k == |line| {
      OneCharOccurs(text, '\n', k);
      if k < |line| {
        assert text[k] == line[k] && line[k] in line;
      }
    }
    IndexIs(text, "\n", 0, |line|);
    assert text[..|line|] == line && text[|line| + 1..] == rest;
  }

  /** Lines end at a newline or at the end of the text, which need not have one; one carriage return
      before the end is dropped. */
  lemma LineEndings(line: string, rest: string)
    requires IsLine(line)
    ensures ScanLines(line + "\r\n" + rest) == [line] + ScanLines(rest)
    ensures IsWritable(line) ==> ScanLines(line + "\n" + rest) == [line] + ScanLines(rest)
    ensures ScanLines(line + "\r") == [line]
    ensures IsWritable(line) && line != "" ==> ScanLines(line) == [line]
  {
    hide ScanLines;
    FirstNewline(line + "\r", rest);
    assert line + "\r\n" + rest == line + "\r" + "\n" + rest;
    assert (line + "\r")[..|line|] == line;
    LastLine(line + "\r");
    if IsWritable(line) {
      FirstNewline(line, rest);
      LastLine(line);
    }
  }

  lemma LastLine(line: string)
    requires IsLine(line)
    ensures line != "" ==> ScanLines(line) == [DropCR(line)]
  {
    hide DropCR;
    if n: nat :| Index(line, "\n", 0) == Some(n) {
      OneCharOccurs(line, '\n', n);
    }
  }

  lemma {:induction false} ScanWritten(lines: seq<string>)
    requires forall k | 0 <= k < |lines| :: IsWritable(lines[k])
    ensures ScanLines(Unlines(lines)) == lines
  {
    if lines != [] {
      ScanFirstLine(lines[0], Unlines(lines[1..]));
      ScanWritten(lines[1..]);
    }
  }

  lemma {:induction false} ScannedAreLines(text: string)
    ensures forall k | 0 <= k < |ScanLines(text)| :: IsLine(ScanLines(text)[k])
    decreases |text|
  {
    if text != "" {
      match Index(text, "\n", 0)
      case None =>
        forall k | 0 <= k < |text| ensures text[k] != '\n' {
          OneCharOccurs(text, '\n', k);
        }
      case Some(n) =>
        forall k | 0 <= k < n ensures text[k] != '\n' {
          OneCharOccurs(text, '\n', k);
        }
        assert IsLine(text[..n]);
        ScannedAreLines(text[n + 1..]);
    }
  }

  /** ParseMakefile on the text of a file. */
  function ParseText(opts: Options, text: string): ParseResult {
    Parse(opts, INITIAL, ScanLines(text))
  }

  // ---- One annotation line ----

  function Body(key: string, value: string): string {
    " " + key + ": " + value
  }

  /** "# <delimiter> <key>: <value>" */
  function AnnotationLine(delim: string, key: string, value: string): string {
    "# " + delim + Body(key, value)
  }

  lemma ScanBody(s: string, j: nat, key: string, value: string)
    requires IsKey(key) && Trimmed(value) && j + 2 + |key| <= |s|
    requires s[j] == ' ' && s[j + 1..j + 1 + |key|] == key && s[j + 1 + |key|] == ':'
    requires s[j + 2 + |key|..] == " " + value
    ensures ScanField(s, j) == Some(Field(key, value))
  {
    var e := j + 1 + |key|;
    forall k | j + 1 <= k < e ensures s[k] == key[k - j - 1] {
    }
    RunEndIs(Space, s, j, j + 1);
    RunEndIs(KeyTail, s, j + 2, e);
    TrimSkips(" ", value);
    TrimIsTrimmed(value);
  }

  /** One white space character more in front of a field makes no difference. */
  lemma ScanFieldSkips(s: string, j: nat)
    requires j + 1 < |s| && In(s[j + 1], Space) && ScanField(s, j).Some?
    ensures ScanField(s, j) == ScanField(s, j + 1)
  {
  }

  lemma AnnotationLineParts(delim: string, key: string, value: string)
    ensures var s, j := AnnotationLine(delim, key, value), 2 + |delim|;
            && j + 2 + |key| <= |s| && s[0] == '#' && OccursAt(s, delim, 2)
            && s[j] == ' ' && s[j + 1..j + 1 + |key|] == key && s[j + 1 + |key|] == ':'
            && s[j + 2 + |key|..] == " " + value
  {
    var s, j := AnnotationLine(delim, key, value), 2 + |delim|;
    assert s[2..j] == delim;
    assert s[j + 1..j + 1 + |key|] == key;
    assert s[j + 2 + |key|..] == " " + value;
  }

  lemma ScanAnnotationLine(delim: string, key: string, value: string)
    requires delim != "" && IsKey(key) && Trimmed(value)
    ensures Scan(AnnotationLine(delim, key, value), delim) == Some(Field(key, value))
  {
    var s, j := AnnotationLine(delim, key, value), 2 + |delim|;
    AnnotationLineParts(delim, key, value);
    OneCharOccurs(s, '#', 0);
    ScanBody(s, j, key, value);
    ScanFrom(s, delim, Field(key, value));
  }

  lemma ScanFrom(s: string, delim: string, f: Field)
    requires |delim| + 2 < |s| && OccursAt(s, "#", 0) && OccursAt(s, delim, 2) && s[2 + |delim|] == ' '
    requires ScanField(s, 2 + |delim|) == Some(f)
    ensures Scan(s, delim) == Some(f)
  {
    assert ScanDelimiter(s, delim, 2) == Some(f);
    if OccursAt(s, delim, 1) && ScanField(s, 1 + |delim|).Some? {
      ScanFieldSkips(s, 1 + |delim|);
    }
    assert Index(s, "#", 0) == Some(0);
  }

  /** Whatever the delimiter is, an annotation line is read back as the key and value it was
      written with. */
  lemma AnnotationLineIsRead(delim: string, key: string, value: string)
    requires delim != "" && IsLine(delim) && IsKey(key) && IsValue(value)
    ensures Classify(AnnotationLine(delim, key, value), delim) == Annotated(Field(key, value))
    ensures IsLine(AnnotationLine(delim, key, value))
  {
    var s := AnnotationLine(delim, key, value);
    assert IsLine(Body(key, value)) by {
      assert '\n' !in key by {
        forall i | 0 <= i < |key| ensures key[i] != '\n' {
          assert In(key[i], KeyTail);
        }
      }
    }
    ScanAnnotationLine(delim, key, value);
    ScanIsExtract(s, delim);
  }

  // ---- One target line ----

  lemma TargetLineIsRead(id: string, delim: string)
    requires IsTargetName(id)
    ensures Classify(id + ":", delim) == Target(id)
    ensures IsWritable(id + ":")
  {
    var s := id + ":";
    forall i | 0 <= i < |s| ensures s[i] != '#' && s[i] != '\n' {
      assert i < |id| ==> s[i] == id[i] && In(id[i], TargetChar);
    }
    assert s[|s| - 1] == ':' && !IsSpace(':') && s[0] == id[0];
    TrimIsTrimmed(s);
    assert Index(s, "#", 0).None? by {
      forall k | 0 <= k <= |s| ensures !OccursAt(s, "#", k) {
        OneCharOccurs(s, '#', k);
      }
    }
    ScanIsExtract(s, delim);
    assert SplitsTarget(s, |id|);
    MatchTargetAt(s, |id|);
    assert s[..|id|] == id;
    TrimIsTrimmed(id);
  }

  // ---- Blocks of annotations ----

  function AnnotationLines(delim: string, block: seq<Field>): seq<string> {
    seq(|block|, i requires 0 <= i < |block| => AnnotationLine(delim, block[i].key, block[i].value))
  }

  predicate IsField(f: Field) {
    IsKey(f.key) && IsValue(f.value)
  }

  predicate IsBlock(block: seq<Field>) {
    forall f | f in block :: IsField(f)
  }

  lemma {:induction false} BlockIsRead(opts: Options, block: seq<Field>)
    requires IsLine(opts.Delim()) && IsBlock(block)
    ensures After(opts, INITIAL, AnnotationLines(opts.Delim(), block)) == StateOf(block)
    ensures Parse(opts, INITIAL, AnnotationLines(opts.Delim(), block)) == NOTHING
  {
    hide Classify, AnnotationLine, IsKey, IsValue, IsLine;
    if block == [] {
      assert StateOf(block) == INITIAL;
    } else {
      var front, f := block[..|block| - 1], block[|block| - 1];
      assert f in block && IsField(f);
      BlockIsRead(opts, front);
      var line := AnnotationLine(opts.Delim(), f.key, f.value);
      assert AnnotationLines(opts.Delim(), block) == AnnotationLines(opts.Delim(), front) + [line];
      AnnotationLineIsRead(opts.Delim(), f.key, f.value);
      OneMoreIsRead(opts, AnnotationLines(opts.Delim(), front), front, line, f);
      assert front + [f] == block;
    }
  }

  lemma OneMoreIsRead(opts: Options, lines: seq<string>, front: seq<Field>, line: string, f: Field)
    requires After(opts, INITIAL, lines) == StateOf(front) && Parse(opts, INITIAL, lines) == NOTHING
    requires Classify(line, opts.Delim()) == Annotated(f)
    ensures After(opts, INITIAL, lines + [line]) == StateOf(front + [f])
    ensures Parse(opts, INITIAL, lines + [line]) == NOTHING
  {
    AfterSplits(opts, INITIAL, lines, [line]);
    ParseSplits(opts, INITIAL, lines, [line]);
    AfterOne(opts, StateOf(front), line);
    AnnotateExtends(front, f);
    assert [line][1..] == [];
    assert Parse(opts, StateOf(front), [line]) == NOTHING.Join(NOTHING) == NOTHING;
  }

  // ---- Recipes ----

  function ShowBool(b: bool): string {
    if b then "true" else "false"
  }

  function HintField(key: string, hint: Option<bool>): seq<Field> {
    if hint.Some? then [Field(key, ShowBool(hint.value))] else []
  }

  /** "<name> <type> | <description>" */
  function ShowParam(p: Param): string {
    p.name + (" " + p.ptype) + (" | " + p.description)
  }

  function ParamFields(params: seq<Param>): seq<Field> {
    seq(|params|, i requires 0 <= i < |params| => Field("param", ShowParam(params[i])))
  }

  function Heading(r: Recipe): seq<Field> {
    [Field("name", r.name), Field("description", r.description), Field("risk", r.risk)]
  }

  function HintFields(h: ToolHints): seq<Field> {
    HintField("read-only", h.readOnly) + HintField("destructive", h.destructive)
    + HintField("idempotent", h.idempotent) + HintField("open-world", h.openWorld)
  }

  /** No @param line for Go's nil slice, "none" for an empty one. */
  function InputFields(params: Option<seq<Param>>): seq<Field> {
    match params
    case None => []
    case Some(list) => if list == [] then [Field("param", "none")] else ParamFields(list)
  }

  function OutputFields(r: Recipe): seq<Field> {
    [Field("output", r.output), Field("output-type", r.outputType)]
  }

  /** The annotations of a recipe in the documented order. */
  function RecipeFields(r: Recipe): seq<Field> {
    Heading(r) + HintFields(r.hints) + InputFields(r.params) + OutputFields(r)
  }

  function RecipeLines(delim: string, r: Recipe): seq<string> {
    AnnotationLines(delim, RecipeFields(r)) + [r.id + ":", ""]
  }

  function MakefileLines(delim: string, recipes: seq<Recipe>): seq<string> {
    if recipes == [] then []
    else RecipeLines(delim, recipes[0]) + MakefileLines(delim, recipes[1..])
  }

  /** The Makefile that declares the recipes. */
  function PrintMakefile(delim: string, recipes: seq<Recipe>): string {
    Unlines(MakefileLines(delim, recipes))
  }

  // ---- What the parser makes of the printed annotations ----

  lemma ShownIsValue(p: Param)
    requires IsParam(p)
    ensures IsValue(ShowParam(p)) && ShowParam(p) != "none"
  {
    var s := ShowParam(p);
    NamesHaveNoSpace(p);
    assert s[0] == p.name[0] && s[|s| - 1] == p.description[|p.description| - 1];
    assert s[|p.name|] == ' ' && ' ' in s && ' ' !in "none";
  }

  lemma ShownIsParsed(p: Param)
    requires IsParam(p)
    ensures ParseParam(ShowParam(p)) == Parsed(p)
  {
    var s := ShowParam(p);
    var bar := |p.name| + 1 + |p.ptype|;
    var head := p.name + (" " + p.ptype);
    ShowParamParts(p);
    forall k | 0 <= k < bar ensures !OccursAt(s, " | ", k) {
      NoEarlierBar(p, k);
    }
    IndexIs(s, " | ", 0, bar);
    NamesHaveNoSpace(p);
    FieldsOfTwo(p.name, " ", p.ptype);
    TrimIsTrimmed(p.description);
    ParseParamAt(s, bar, p);
  }

  lemma ShowParamParts(p: Param)
    ensures var s, bar := ShowParam(p), |p.name| + 1 + |p.ptype|;
            && bar + 3 <= |s| && s[..bar] == p.name + (" " + p.ptype)
            && OccursAt(s, " | ", bar) && s[bar + 3..] == p.description
  {
    var s, bar := ShowParam(p), |p.name| + 1 + |p.ptype|;
    var head := p.name + (" " + p.ptype);
    assert s == head + (" | " + p.description) && |head| == bar;
    assert s[bar..bar + 3] == " | ";
  }

  lemma ParseParamAt(s: string, bar: nat, p: Param)
    requires Index(s, " | ", 0) == Some(bar) && Fields(s[..bar]) == [p.name, p.ptype]
    requires IsParam(p) && Trim(s[bar + 3..]) == p.description
    ensures ParseParam(s) == Parsed(p)
  {
  }

  lemma NamesHaveNoSpace(p: Param)
    requires IsParam(p)
    ensures NoSpace(p.name) && NoSpace(p.ptype) && p.name != "" && p.ptype != ""
    ensures '|' !in p.name && '|' !in p.ptype && '\n' !in p.name && '\n' !in p.ptype
  {
  }

  lemma BarStartsWithSpace(s: string, k: nat)
    requires OccursAt(s, " | ", k)
    ensures s[k] == ' ' && s[k + 1] == '|'
  {
    assert s[k] == s[k..k + 3][0] && s[k + 1] == s[k..k + 3][1];
  }

  lemma NoEarlierBar(p: Param, k: nat)
    requires IsParam(p) && k < |p.name| + 1 + |p.ptype|
    ensures !OccursAt(ShowParam(p), " | ", k)
  {
    var s := ShowParam(p);
    NamesHaveNoSpace(p);
    if k < |p.name| {
      assert s[k] == p.name[k];
    } else if k == |p.name| {
      assert s[k + 1] == p.ptype[0];
    } else {
      assert s[k] == p.ptype[k - |p.name| - 1];
    }
    if OccursAt(s, " | ", k) {
      BarStartsWithSpace(s, k);
    }
  }

  lemma {:induction false} LastOfJoin(a: seq<Field>, b: seq<Field>, key: string)
    ensures LastValue(a + b, key) == if LastValue(b, key).Some? then LastValue(b, key) else LastValue(a, key)
    decreases |b|
  {
    if b == [] {
      assert a + b == a;
    } else {
      var front := b[..|b| - 1];
      assert (a + b)[..|a + b| - 1] == a + front;
      LastOfJoin(a, front, key);
    }
  }

  lemma {:induction false} ParamsOfJoin(a: seq<Field>, b: seq<Field>)
    ensures ParamValues(a + b) == ParamValues(a) + ParamValues(b)
    decreases |b|
  {
    if b == [] {
      assert a + b == a;
    } else {
      var front := b[..|b| - 1];
      assert (a + b)[..|a + b| - 1] == a + front;
      ParamsOfJoin(a, front);
    }
  }

  lemma OneField(f: Field, key: string)
    ensures LastValue([f], key) == if f.key == key then Some(f.value) else None
    ensures ParamValues([f]) == if f.key == "param" then [f.value] else []
  {
    assert [f][..0] == [];
  }

  /** The last value of a key among the printed annotations. */
  function Printed(r: Recipe, key: string): Option<string> {
    if key == "name" then Some(r.name)
    else if key == "description" then Some(r.description)
    else if key == "risk" then Some(r.risk)
    else if key == "output" then Some(r.output)
    else if key == "output-type" then Some(r.outputType)
    else if key == "read-only" then PrintedHint(r.hints.readOnly)
    else if key == "destructive" then PrintedHint(r.hints.destructive)
    else if key == "idempotent" then PrintedHint(r.hints.idempotent)
    else if key == "open-world" then PrintedHint(r.hints.openWorld)
    else None
  }

  function PrintedHint(hint: Option<bool>): Option<string> {
    if hint.Some? then Some(ShowBool(hint.value)) else None
  }

  lemma HeadingFields(r: Recipe, key: string)
    ensures ParamValues(Heading(r)) == []
    ensures LastValue(Heading(r), key) ==
            if key == "name" then Some(r.name)
            else if key == "description" then Some(r.description)
            else if key == "risk" then Some(r.risk)
            else None
  {
    var a, b, c := Field("name", r.name), Field("description", r.description), Field("risk", r.risk);
    assert Heading(r) == [a] + [b] + [c];
    OneField(a, key);
    OneField(b, key);
    OneField(c, key);
    LastOfJoin([a], [b], key);
    LastOfJoin([a] + [b], [c], key);
    ParamsOfJoin([a], [b]);
    ParamsOfJoin([a] + [b], [c]);
  }

  lemma OutputAnnotations(r: Recipe, key: string)
    ensures ParamValues(OutputFields(r)) == []
    ensures LastValue(OutputFields(r), key) ==
            if key == "output" then Some(r.output)
            else if key == "output-type" then Some(r.outputType)
            else None
  {
    var a, b := Field("output", r.output), Field("output-type", r.outputType);
    assert OutputFields(r) == [a] + [b];
    OneField(a, key);
    OneField(b, key);
    LastOfJoin([a], [b], key);
    ParamsOfJoin([a], [b]);
  }

  lemma OneHint(name: string, hint: Option<bool>, key: string)
    requires name != "param"
    ensures ParamValues(HintField(name, hint)) == []
    ensures LastValue(HintField(name, hint), key) == if key == name then PrintedHint(hint) else None
  {
    if hint.Some? {
      OneField(Field(name, ShowBool(hint.value)), key);
    }
  }

  lemma HintAnnotations(h: ToolHints, key: string)
    ensures ParamValues(HintFields(h)) == []
    ensures LastValue(HintFields(h), key) ==
            if key == "read-only" then PrintedHint(h.readOnly)
            else if key == "destructive" then PrintedHint(h.destructive)
            else if key == "idempotent" then PrintedHint(h.idempotent)
            else if key == "open-world" then PrintedHint(h.openWorld)
            else None
  {
    var a, b := HintField("read-only", h.readOnly), HintField("destructive", h.destructive);
    var c, d := HintField("idempotent", h.idempotent), HintField("open-world", h.openWorld);
    OneHint("read-only", h.readOnly, key);
    OneHint("destructive", h.destructive, key);
    OneHint("idempotent", h.idempotent, key);
    OneHint("open-world", h.openWorld, key);
    LastOfJoin(a, b, key);
    LastOfJoin(a + b, c, key);
    LastOfJoin(a + b + c, d, key);
    ParamsOfJoin(a, b);
    ParamsOfJoin(a + b, c);
    ParamsOfJoin(a + b + c, d);
  }

  function Shown(params: seq<Param>): seq<string> {
    seq(|params|, i requires 0 <= i < |params| => ShowParam(params[i]))
  }

  lemma {:induction false} ParamAnnotations(params: seq<Param>, key: string)
    ensures ParamValues(ParamFields(params)) == Shown(params)
    ensures key != "param" ==> LastValue(ParamFields(params), key).None?
  {
    if params != [] {
      var front := params[..|params| - 1];
      ParamAnnotations(front, key);
      var all := ParamFields(params);
      assert all[..|all| - 1] == ParamFields(front);
      assert Shown(params) == Shown(front) + [ShowParam(params[|params| - 1])];
    }
  }

  function ShownInputs(params: Option<seq<Param>>): seq<string> {
    match params
    case None => []
    case Some(list) => if list == [] then ["none"] else Shown(list)
  }

  lemma InputAnnotations(params: Option<seq<Param>>, key: string)
    ensures ParamValues(InputFields(params)) == ShownInputs(params)
    ensures key != "param" ==> LastValue(InputFields(params), key).None?
  {
    if params.Some? {
      ParamAnnotations(params.value, key);
    }
    OneField(Field("param", "none"), key);
  }

  lemma RecipeAnnotations(r: Recipe, key: string)
    ensures key != "param" ==> LastValue(RecipeFields(r), key) == Printed(r, key)
    ensures ParamValues(RecipeFields(r)) == ShownInputs(r.params)
  {
    var a, b, c, d := Heading(r), HintFields(r.hints), InputFields(r.params), OutputFields(r);
    HeadingFields(r, key);
    HintAnnotations(r.hints, key);
    InputAnnotations(r.params, key);
    OutputAnnotations(r, key);
    LastOfJoin(a, b, key);
    LastOfJoin(a + b, c, key);
    LastOfJoin(a + b + c, d, key);
    ParamsOfJoin(a, b);
    ParamsOfJoin(a + b, c);
    ParamsOfJoin(a + b + c, d);
  }

  lemma {:induction false} ShownAreParsed(params: seq<Param>)
    requires forall p | p in params :: IsParam(p)
    ensures Parsable(Shown(params)) == params
  {
    hide IsParam, ShowParam, ParseParam;
    if params != [] {
      assert forall p | p in params[1..] :: p in params;
      ShownAreParsed(params[1..]);
      ShownIsParsed(params[0]);
      assert Shown(params)[1..] == Shown(params[1..]);
      assert Parsable(Shown(params)) == [params[0]] + Parsable(Shown(params[1..]));
    }
  }

  lemma ShownAreValues(params: seq<Param>)
    requires forall p | p in params :: IsParam(p)
    ensures forall v | v in Shown(params) :: IsValue(v) && v != "none" && ParseParam(v).Parsed?
  {
    forall v | v in Shown(params) ensures IsValue(v) && v != "none" && ParseParam(v).Parsed? {
      var i :| 0 <= i < |params| && v == ShowParam(params[i]);
      ShownIsParsed(params[i]);
      ShownIsValue(params[i]);
    }
  }

  lemma PrintedHintIsRead(hint: Option<bool>)
    ensures (match PrintedHint(hint) case None => None case Some(raw) => ParseBool(raw)) == hint
  {
    assert "true" in ["1", "t", "T", "TRUE", "true", "True"];
    assert "false" in ["0", "f", "F", "FALSE", "false", "False"];
    assert "false" !in ["1", "t", "T", "TRUE", "true", "True"];
  }

  lemma PrintedTexts(r: Recipe)
    ensures var block := RecipeFields(r);
            && ValueOf(block, "name") == r.name && ValueOf(block, "description") == r.description
            && ValueOf(block, "risk") == r.risk && ValueOf(block, "output") == r.output
            && ValueOf(block, "output-type") == r.outputType
  {
    RecipeAnnotations(r, "name");
    RecipeAnnotations(r, "description");
    RecipeAnnotations(r, "risk");
    RecipeAnnotations(r, "output");
    RecipeAnnotations(r, "output-type");
  }

  lemma PrintedHints(r: Recipe)
    ensures var block := RecipeFields(r);
            ToolHints(HintOf(block, "read-only"), HintOf(block, "destructive"),
                      HintOf(block, "idempotent"), HintOf(block, "open-world")) == r.hints
  {
    RecipeAnnotations(r, "read-only");
    RecipeAnnotations(r, "destructive");
    RecipeAnnotations(r, "idempotent");
    RecipeAnnotations(r, "open-world");
    PrintedHintIsRead(r.hints.readOnly);
    PrintedHintIsRead(r.hints.destructive);
    PrintedHintIsRead(r.hints.idempotent);
    PrintedHintIsRead(r.hints.openWorld);
  }

  lemma PrintedParams(r: Recipe)
    requires r.params.Some? && forall p | p in r.params.value :: IsParam(p)
    ensures var vals := ParamValues(RecipeFields(r));
            && vals != [] && AcceptableParams(vals)
            && (if "none" in vals then [] else Parsable(vals)) == r.params.value
  {
    RecipeAnnotations(r, "param");
    var vals, params := ParamValues(RecipeFields(r)), r.params.value;
    ShownAreParsed(params);
    ShownAreValues(params);
    if params == [] {
      assert vals[0] == "none";
    } else {
      assert vals == Shown(params) && |vals| == |params|;
    }
  }

  /** The printed annotations describe the recipe. */
  lemma PrintedIsDescribed(opts: Options, r: Recipe)
    requires WellFormed(opts, r) && r.sourceFile == ""
    ensures Described(r.id, RecipeFields(r)) == r
  {
    PrintedTexts(r);
    PrintedHints(r);
    PrintedParams(r);
  }

  lemma HintIsReadable(opts: Options, r: Recipe, key: string)
    requires r.params.Some? && key in HINT_KEYS && (opts.strict ==> AllHints(r.hints))
    ensures match LastValue(RecipeFields(r), key)
            case None => !opts.strict
            case Some(raw) => ParseBool(raw).Some?
  {
    HintKeys(key);
    RecipeAnnotations(r, key);
    PrintedHintIsRead(r.hints.readOnly);
    PrintedHintIsRead(r.hints.destructive);
    PrintedHintIsRead(r.hints.idempotent);
    PrintedHintIsRead(r.hints.openWorld);
  }

  /** ... and break no clause of the validation. */
  lemma PrintedIsAcceptable(opts: Options, r: Recipe)
    requires WellFormed(opts, r)
    ensures Acceptable(opts, r.id, RecipeFields(r))
  {
    PrintedTexts(r);
    PrintedParams(r);
    forall k | k in HINT_KEYS
      ensures match LastValue(RecipeFields(r), k) case None => !opts.strict case Some(raw) => ParseBool(raw).Some?
    {
      HintIsReadable(opts, r, k);
    }
  }

  // ---- The round trip ----

  lemma KeysOfRecipe()
    ensures IsKey("name") && IsKey("description") && IsKey("risk")
    ensures IsKey("output") && IsKey("output-type") && IsKey("param")
  {
  }

  lemma KeysOfHints()
    ensures IsKey("read-only") && IsKey("destructive") && IsKey("idempotent") && IsKey("open-world")
  {
  }

  lemma InputsAreFields(params: seq<Param>)
    requires forall p | p in params :: IsParam(p)
    ensures forall f | f in InputFields(Some(params)) :: IsField(f)
  {
    KeysOfRecipe();
    forall f | f in InputFields(Some(params)) ensures IsField(f) {
      if params != [] {
        var i :| 0 <= i < |params| && ParamFields(params)[i] == f;
        assert params[i] in params;
        ShownIsValue(params[i]);
      }
    }
  }

  lemma HintsAreFields(h: ToolHints)
    ensures forall f | f in HintFields(h) :: IsField(f)
  {
    KeysOfHints();
    assert IsValue("true") && IsValue("false");
  }

  lemma BlockOfRecipe(opts: Options, r: Recipe)
    requires WellFormed(opts, r)
    ensures IsBlock(RecipeFields(r)) && RecipeFields(r) != []
  {
    hide IsField;
    HeadingIsBlock(opts, r);
    InputsAreFields(r.params.value);
    HintsAreFields(r.hints);
    assert |RecipeFields(r)| >= |Heading(r)|;
  }

  lemma HeadingIsBlock(opts: Options, r: Recipe)
    requires WellFormed(opts, r)
    ensures IsBlock(Heading(r)) && IsBlock(OutputFields(r))
  {
    KeysOfRecipe();
    assert IsValue(r.risk);
  }

  /** What the state holds after the printed annotations of a recipe. */
  lemma PrintedState(opts: Options, r: Recipe)
    requires WellFormed(opts, r) && r.sourceFile == ""
    ensures var st := StateOf(RecipeFields(r));
            && Emits(st, Target(r.id)) && BuildRecipe(r.id, st) == r
            && Violations(opts, r.id, st) == []
  {
    var block := RecipeFields(r);
    BlockOfRecipe(opts, r);
    PrintedIsDescribed(opts, r);
    BuiltIsDescribed(r.id, block);
    SomethingPending(block);
    PrintedIsAcceptable(opts, r);
    ViolationsAreComplete(opts, r.id, block);
  }

  lemma RecipeIsRead(opts: Options, r: Recipe, rest: seq<string>)
    requires IsLine(opts.Delim()) && WellFormed(opts, r) && r.sourceFile == ""
    ensures Parse(opts, INITIAL, RecipeLines(opts.Delim(), r) + rest) ==
            ParseResult([r], []).Join(Parse(opts, INITIAL, rest))
  {
    hide Classify, WellFormed, AnnotationLines, Parse, After, StateOf, RecipeFields;
    var block := RecipeFields(r);
    var above := AnnotationLines(opts.Delim(), block);
    BlockOfRecipe(opts, r);
    BlockIsRead(opts, block);
    TargetIsRead(opts, r, rest);
    ParseSplits(opts, INITIAL, above, [r.id + ":", ""] + rest);
    JoinNothing(Parse(opts, StateOf(block), [r.id + ":", ""] + rest));
    assert RecipeLines(opts.Delim(), r) + rest == above + ([r.id + ":", ""] + rest);
  }

  lemma TargetIsRead(opts: Options, r: Recipe, rest: seq<string>)
    requires IsLine(opts.Delim()) && WellFormed(opts, r) && r.sourceFile == ""
    ensures Parse(opts, StateOf(RecipeFields(r)), [r.id + ":", ""] + rest) ==
            ParseResult([r], []).Join(Parse(opts, INITIAL, rest))
  {
    PrintedState(opts, r);
    TargetLineIsRead(r.id, opts.Delim());
    BlankLines("", opts.Delim());
    ReadTarget(opts, StateOf(RecipeFields(r)), r, r.id + ":", rest);
  }

  lemma JoinNothing(p: ParseResult)
    ensures NOTHING.Join(p) == p && p.Join(NOTHING) == p
  {
  }

  lemma ReadTarget(opts: Options, st: State, r: Recipe, target: string, rest: seq<string>)
    requires Classify(target, opts.Delim()) == Target(r.id) && Classify("", opts.Delim()) == Blank
    requires Emits(st, Target(r.id)) && BuildRecipe(r.id, st) == r && Violations(opts, r.id, st) == []
    ensures Parse(opts, st, [target, ""] + rest) == ParseResult([r], []).Join(Parse(opts, INITIAL, rest))
  {
    var lines := [target, ""] + rest;
    assert lines[0] == target && lines[1..] == [""] + rest;
    assert ([""] + rest)[1..] == rest;
    JoinNothing(Parse(opts, INITIAL, rest));
    assert Emit(opts, st, Target(r.id)) == ParseResult([r], []);
  }

  /** Printing well-formed recipes and parsing the lines gives back the recipes and no error. */
  lemma {:induction false} RecipesAreRead(opts: Options, recipes: seq<Recipe>)
    requires IsLine(opts.Delim())
    requires forall r | r in recipes :: WellFormed(opts, r) && r.sourceFile == ""
    ensures Parse(opts, INITIAL, MakefileLines(opts.Delim(), recipes)) == ParseResult(recipes, [])
  {
    hide Classify, WellFormed, RecipeLines;
    if recipes != [] {
      RecipesAreRead(opts, recipes[1..]);
      RecipeIsRead(opts, recipes[0], MakefileLines(opts.Delim(), recipes[1..]));
      assert recipes == [recipes[0]] + recipes[1..];
    }
  }

  // ---- The round trip on texts ----

  lemma AnnotationLineIsWritable(delim: string, f: Field)
    requires delim != "" && IsLine(delim) && IsField(f)
    ensures IsWritable(AnnotationLine(delim, f.key, f.value))
  {
    var s := AnnotationLine(delim, f.key, f.value);
    AnnotationLineIsRead(delim, f.key, f.value);
    assert s[|s| - 1] == if f.value == "" then ' ' else f.value[|f.value| - 1];
    assert IsSpace('\r');
  }

  lemma RecipeLinesAreWritable(opts: Options, r: Recipe)
    requires IsLine(opts.Delim()) && WellFormed(opts, r)
    ensures forall line | line in RecipeLines(opts.Delim(), r) :: IsWritable(line)
  {
    var block := RecipeFields(r);
    BlockOfRecipe(opts, r);
    TargetLineIsRead(r.id, opts.Delim());
    forall line | line in AnnotationLines(opts.Delim(), block) ensures IsWritable(line) {
      var i :| 0 <= i < |block| && line == AnnotationLine(opts.Delim(), block[i].key, block[i].value);
      assert IsField(block[i]);
      AnnotationLineIsWritable(opts.Delim(), block[i]);
    }
  }

  lemma {:induction false} LinesAreWritable(opts: Options, recipes: seq<Recipe>)
    requires IsLine(opts.Delim()) && forall r | r in recipes :: WellFormed(opts, r)
    ensures forall line | line in MakefileLines(opts.Delim(), recipes) :: IsWritable(line)
  {
    if recipes != [] {
      LinesAreWritable(opts, recipes[1..]);
      assert recipes[0] in recipes;
      RecipeLinesAreWritable(opts, recipes[0]);
    }
  }

  /** For every list of well-formed recipes and every delimiter of one line, the printed Makefile
      parses to exactly those recipes, without errors, in strict mode too. */
  lemma PrintThenParse(opts: Options, recipes: seq<Recipe>)
    requires IsLine(opts.Delim())
    requires forall r | r in recipes :: WellFormed(opts, r) && r.sourceFile == ""
    ensures ParseText(opts, PrintMakefile(opts.Delim(), recipes)) == ParseResult(recipes, [])
  {
    LinesAreWritable(opts, recipes);
    ScanWritten(MakefileLines(opts.Delim(), recipes));
    RecipesAreRead(opts, recipes);
  }

  lemma ParsedAreUntagged(opts: Options, lines: seq<string>)
    ensures forall r | r in Parse(opts, INITIAL, lines).recipes :: r.sourceFile == ""
  {
    ParsesUntagged(opts, INITIAL, lines);
    var p := Parse(opts, INITIAL, lines);
    assert p.recipes == TagRecipes("", p.recipes);
  }

  /** The well-formed recipes are exactly those that valid Makefiles declare. */
  lemma WellFormedIsTheImage(opts: Options, recipes: seq<Recipe>)
    requires IsLine(opts.Delim())
    ensures (forall r | r in recipes :: WellFormed(opts, r) && r.sourceFile == "") <==>
            exists text :: ParseText(opts, text) == ParseResult(recipes, [])
  {
    if forall r | r in recipes :: WellFormed(opts, r) && r.sourceFile == "" {
      PrintThenParse(opts, recipes);
    }
    if text :| ParseText(opts, text) == ParseResult(recipes, []) {
      ScannedAreLines(text);
      ValidParsesAreWellFormed(opts, ScanLines(text));
      ParsedAreUntagged(opts, ScanLines(text));
    }
  }

  lemma {:induction false} NoDelimiter(s: string, delim: string, j: nat)
    requires IsLine(s) && !IsLine(delim) && j <= |s|
    ensures ScanDelimiter(s, delim, j).None?
    decreases |s| - j
  {
    var i :| 0 <= i < |delim| && delim[i] == '\n';
    assert j + |delim| <= |s| ==> s[j..j + |delim|][i] == s[j + i];
    if j < |s| {
      NoDelimiter(s, delim, j + 1);
    }
  }

  /** A delimiter that spans lines never matches: nothing is declared. */
  lemma NothingDeclared(opts: Options, lines: seq<string>)
    requires !IsLine(opts.Delim()) && forall k | 0 <= k < |lines| :: IsLine(lines[k])
    ensures Parse(opts, INITIAL, lines) == NOTHING
  {
    forall k | 0 <= k < |lines| ensures !Classify(lines[k], opts.Delim()).Annotated? {
      ScanIsExtract(lines[k], opts.Delim());
      if Index(lines[k], "#", 0).Some? {
        NoDelimiter(lines[k], opts.Delim(), Index(lines[k], "#", 0).value + 1);
      }
    }
    NothingWithoutAnnotations(opts, lines);
  }

  lemma {:induction false} NothingWithoutAnnotations(opts: Options, lines: seq<string>)
    requires forall k | 0 <= k < |lines| :: !Classify(lines[k], opts.Delim()).Annotated?
    ensures Parse(opts, INITIAL, lines) == NOTHING
    decreases |lines|
  {
    if lines != [] {
      NothingWithoutAnnotations(opts, lines[1..]);
      var kind := Classify(lines[0], opts.Delim());
      assert !kind.Annotated? && Next(INITIAL, kind) == INITIAL && Emit(opts, INITIAL, kind) == NOTHING;
    }
  }

  /** Canonical form: whatever a Makefile looks like, if its parse is valid then printing the
      recipes and parsing them again yields the same parse. */
  lemma ParseThenPrintThenParse(opts: Options, text: string)
    requires ParseText(opts, text).Valid()
    ensures ParseText(opts, PrintMakefile(opts.Delim(), ParseText(opts, text).recipes)) == ParseText(opts, text)
  {
    var lines := ScanLines(text);
    ScannedAreLines(text);
    if IsLine(opts.Delim()) {
      ValidParsesAreWellFormed(opts, lines);
      ParsedAreUntagged(opts, lines);
      PrintThenParse(opts, ParseText(opts, text).recipes);
    } else {
      NothingDeclared(opts, lines);
    }
  }
}
