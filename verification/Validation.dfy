/** Validation is complete and sound, and what survives it is well formed. */
module Validation {
  import opened Text
  import opened Regex
  import opened Annotation
  import opened Schema
  import opened Parser
  import opened LookBack

  // ---- What annotation and target lines deliver ----

  predicate IsKey(key: string) {
    && key != "" && In(key[0], KeyHead)
    && forall i | 0 <= i < |key| :: In(key[i], KeyTail)
  }

  /** A value that an annotation line can carry. */
  predicate IsValue(value: string) {
    IsLine(value) && Trimmed(value)
  }

  lemma TrimmedRest(s: string, b: nat)
    requires IsLine(s) && b <= |s|
    ensures IsValue(Trim(s[b..]))
  {
    TrimIsTrimmed(s[b..]);
    assert forall c | c in s[b..] :: c in s;
    forall c | c in Trim(s[b..]) ensures c in s[b..] {
      TrimKeeps(s[b..], c);
    }
  }

  lemma ScannedField(s: string, j: nat)
    requires IsLine(s) && j <= |s| && ScanField(s, j).Some?
    ensures IsKey(ScanField(s, j).value.key) && IsValue(ScanField(s, j).value.value)
  {
    var a := RunEnd(Space, s, j);
    var b := RunEnd(KeyTail, s, a + 1);
    TrimmedRest(s, b + 1);
    forall i | a <= i < b ensures In(s[i], KeyTail) {
    }
  }

  lemma {:induction false} ScannedAnnotation(s: string, delim: string, j: nat)
    requires IsLine(s) && j <= |s| && ScanDelimiter(s, delim, j).Some?
    ensures var f := ScanDelimiter(s, delim, j).value; IsKey(f.key) && IsValue(f.value)
    decreases |s| - j
  {
    if OccursAt(s, delim, j) && ScanField(s, j + |delim|).Some? {
      ScannedField(s, j + |delim|);
    } else {
      ScannedAnnotation(s, delim, j + 1);
    }
  }

  /** The key and the value of every annotation line. */
  lemma AnnotationIsWellFormed(line: string, delim: string)
    requires IsLine(line) && Classify(line, delim).Annotated?
    ensures var f := Classify(line, delim).field; IsKey(f.key) && IsValue(f.value)
  {
    ScanIsExtract(line, delim);
    ScannedAnnotation(line, delim, Index(line, "#", 0).value + 1);
  }

  /** The target names that the parser accepts as recipe IDs, before the test for a dot. */
  predicate IsTargetName(name: string) {
    && name != "" && Trimmed(name)
    && forall i | 0 <= i < |name| :: In(name[i], TargetChar)
  }

  lemma TrimOfHead(u: string)
    requires u != "" && !IsSpace(u[0])
    ensures Trim(u) != "" && Trim(u) <= u
  {
    TrimRightIsPrefix(u);
    assert TrimLeft(u) == u;
    var rest := u[|TrimRight(u)|..];
    assert rest == u || Trim(u) != "";
  }

  lemma TargetNameIsWellFormed(line: string, delim: string)
    requires Classify(line, delim).Target?
    ensures IsTargetName(Classify(line, delim).name)
    ensures ':' !in Classify(line, delim).name
  {
    var t := Trim(line);
    TrimIsTrimmed(line);
    var c := TargetSplit(t);
    MatchTargetAt(t, c);
    HeadIsTargetName(t, c);
  }

  lemma HeadIsTargetName(t: string, c: nat)
    requires Trimmed(t) && SplitsTarget(t, c)
    ensures IsTargetName(Trim(t[..c])) && ':' !in Trim(t[..c])
  {
    var u := t[..c];
    assert u[0] == t[0];
    TrimOfHead(u);
    TrimIsTrimmed(u);
    forall i | 0 <= i < |Trim(u)| ensures In(Trim(u)[i], TargetChar) && Trim(u)[i] != ':' {
      assert Trim(u)[i] == t[i];
    }
  }

  // ---- Completeness and soundness ----

  /** What the documentation asks of the annotations above a target. */
  predicate Acceptable(opts: Options, id: string, block: seq<Field>) {
    && id != ""
    && ValueOf(block, "name") != "" && ValueOf(block, "description") != ""
    && IsRisk(ValueOf(block, "risk"))
    && ValueOf(block, "output") != ""
    && ValueOf(block, "output-type") != "" && opts.isMedia(ValueOf(block, "output-type"))
    && AcceptableParams(ParamValues(block))
    && forall k | k in HINT_KEYS ::
         match LastValue(block, k)
         case None => !opts.strict
         case Some(raw) => ParseBool(raw).Some?
  }

  /** Either "none" and nothing else, or at least one declaration and all of them well formed. */
  predicate AcceptableParams(vals: seq<string>) {
    && vals != []
    && ((forall v | v in vals :: v == "none")
        || (forall v | v in vals :: v != "none" && ParseParam(v).Parsed?))
  }

  lemma {:induction false} NoneUnparsable(raw: seq<string>)
    ensures Unparsable(raw) == [] <==> forall v | v in raw :: ParseParam(v).Parsed?
  {
    if raw != [] {
      NoneUnparsable(raw[1..]);
      assert raw == [raw[0]] + raw[1..];
    }
  }

  lemma {:induction false} NamedMembers(vals: seq<string>)
    ensures forall v :: v in Named(vals) <==> v in vals && v != "none"
  {
    if vals != [] {
      var front := vals[..|vals| - 1];
      NamedMembers(front);
      assert vals == front + [vals[|vals| - 1]];
    }
  }

  lemma ParamsAccepted(block: seq<Field>)
    ensures var st := StateOf(block);
            ParamsOf(st).Some? && ParamViolations(st) == [] <==> AcceptableParams(ParamValues(block))
  {
    var vals := ParamValues(block);
    var st := StateOf(block);
    NamedMembers(vals);
    NoneUnparsable(st.raw);
    if "none" in vals {
      if st.raw == [] {
        assert forall v | v in vals :: v == "none";
      } else {
        assert st.raw[0] in st.raw;
      }
    } else if vals != [] {
      assert vals[0] in vals;
    }
  }

  lemma HintsAccepted(block: seq<Field>, key: string)
    requires key != "param"
    ensures BoolViolations(MetaOf(block), key) == [] <==>
            (LastValue(block, key).Some? ==> ParseBool(LastValue(block, key).value).Some?)
  {
  }

  lemma {:induction false} NoneMissing(meta: map<string, string>, keys: seq<string>)
    ensures MissingHints(meta, keys) == [] <==> forall k | k in keys :: k in meta
  {
    if keys != [] {
      NoneMissing(meta, keys[1..]);
      assert keys == [keys[0]] + keys[1..];
    }
  }

  lemma HintKeys(k: string)
    ensures k in HINT_KEYS <==> k == "read-only" || k == "destructive" || k == "idempotent" || k == "open-world"
  {
    assert HINT_KEYS[0] == "read-only" && HINT_KEYS[1] == "destructive";
    assert HINT_KEYS[2] == "idempotent" && HINT_KEYS[3] == "open-world";
  }

  lemma HintClauses(opts: Options, block: seq<Field>)
    ensures var meta := MetaOf(block);
            HintViolations(meta) + StrictViolations(meta, opts.strict) == [] <==>
            forall k | k in HINT_KEYS ::
              match LastValue(block, k)
              case None => !opts.strict
              case Some(raw) => ParseBool(raw).Some?
  {
    var meta := MetaOf(block);
    NoneMissing(meta, HINT_KEYS);
    forall k | k in HINT_KEYS
      ensures k in meta <==> LastValue(block, k).Some?
      ensures BoolViolations(meta, k) == [] <==>
              (LastValue(block, k).Some? ==> ParseBool(LastValue(block, k).value).Some?)
    {
      HintKeys(k);
      HintsAccepted(block, k);
    }
    HintKeys("read-only");
    HintKeys("destructive");
    HintKeys("idempotent");
    HintKeys("open-world");
    assert HintViolations(meta) == [] <==> forall k | k in HINT_KEYS :: BoolViolations(meta, k) == [] by {
      forall k | k in HINT_KEYS ensures HintViolations(meta) == [] ==> BoolViolations(meta, k) == [] {
        HintKeys(k);
      }
    }
  }

  /** A recipe has no violation exactly when the annotations above it meet every clause. */
  lemma ViolationsAreComplete(opts: Options, id: string, block: seq<Field>)
    ensures Violations(opts, id, StateOf(block)) == [] <==> Acceptable(opts, id, block)
  {
    var st := StateOf(block);
    var r := BuildRecipe(id, st);
    BuiltIsDescribed(id, block);
    ParamsAccepted(block);
    HintClauses(opts, block);
    var p, h, s, v := ParamViolations(st), HintViolations(st.meta),
                      StrictViolations(st.meta, opts.strict), Validate(r, opts.isMedia);
    EmptyJoin(p, h, s, v);
  }

  lemma EmptyJoin<T>(a: seq<T>, b: seq<T>, c: seq<T>, d: seq<T>)
    ensures a + b + c + d == [] <==> a == [] && b + c == [] && d == []
  {
    assert |a + b + c + d| == |a| + |b| + |c| + |d|;
  }

  /** Line i produces a recipe. */
  predicate Contributes(opts: Options, lines: seq<string>, i: nat)
    requires i < |lines|
  {
    var kind := Classify(lines[i], opts.Delim());
    kind.Target? && !HasPrefix(kind.name, ".") && BlockAbove(opts, lines, i) != []
  }

  predicate LineIsAcceptable(opts: Options, lines: seq<string>, i: nat)
    requires i < |lines|
  {
    Contributes(opts, lines, i) ==>
      Acceptable(opts, Classify(lines[i], opts.Delim()).name, BlockAbove(opts, lines, i))
  }

  lemma ContributionErrors(opts: Options, lines: seq<string>, i: nat)
    requires i < |lines|
    ensures Contribution(opts, lines, i).errors == [] <==> LineIsAcceptable(opts, lines, i)
  {
    if Contributes(opts, lines, i) {
      ViolationsAreComplete(opts, Classify(lines[i], opts.Delim()).name, BlockAbove(opts, lines, i));
    }
  }

  lemma {:induction false} ValidJoin(parts: seq<ParseResult>)
    ensures JoinAll(parts).Valid() <==> forall k | 0 <= k < |parts| :: parts[k].errors == []
  {
    if parts != [] {
      ValidJoin(parts[1..]);
      assert JoinAll(parts).errors == parts[0].errors + JoinAll(parts[1..]).errors;
      assert forall k | 1 <= k < |parts| :: parts[k] == parts[1..][k - 1];
    }
  }

  lemma AcceptableLinesAreValid(opts: Options, lines: seq<string>)
    requires forall i | 0 <= i < |lines| :: LineIsAcceptable(opts, lines, i)
    ensures BlockParse(opts, lines).Valid()
  {
    var parts := Contributions(opts, lines);
    forall i | 0 <= i < |parts| ensures parts[i].errors == [] {
      assert LineIsAcceptable(opts, lines, i);
      ContributionErrors(opts, lines, i);
    }
    ValidJoin(parts);
  }

  lemma ValidLinesAreAcceptable(opts: Options, lines: seq<string>, i: nat)
    requires i < |lines| && BlockParse(opts, lines).Valid()
    ensures LineIsAcceptable(opts, lines, i)
  {
    ValidJoin(Contributions(opts, lines));
    assert Contributions(opts, lines)[i].errors == [];
    ContributionErrors(opts, lines, i);
  }

  /** ParseResult.Valid reports success exactly when every emitted recipe meets every clause. */
  lemma ValidIsComplete(opts: Options, lines: seq<string>)
    ensures Parse(opts, INITIAL, lines).Valid() <==>
            forall i | 0 <= i < |lines| :: LineIsAcceptable(opts, lines, i)
  {
    ParseIsLookBack(opts, lines);
    if BlockParse(opts, lines).Valid() {
      forall i | 0 <= i < |lines| ensures LineIsAcceptable(opts, lines, i) {
        ValidLinesAreAcceptable(opts, lines, i);
      }
    } else if forall i | 0 <= i < |lines| :: LineIsAcceptable(opts, lines, i) {
      AcceptableLinesAreValid(opts, lines);
    }
  }

  lemma {:induction false} EveryParamCounts(raw: seq<string>)
    ensures |Parsable(raw)| + |Unparsable(raw)| == |raw|
  {
    if raw != [] {
      EveryParamCounts(raw[1..]);
    }
  }

  /** With named params only, every @param line gives a parsed param or an error. */
  lemma NamedParamsAreAccountedFor(id: string, block: seq<Field>)
    requires ParamValues(block) != [] && "none" !in ParamValues(block)
    ensures Described(id, block).params.Some?
    ensures |Described(id, block).params.value| + |ParamViolations(StateOf(block))| == |ParamValues(block)|
  {
    NamedOfNamed(ParamValues(block));
    EveryParamCounts(ParamValues(block));
  }

  // ---- Well-formed recipes ----

  predicate IsParam(p: Param) {
    && IsParamName(p.name) && IsParamType(p.ptype)
    && IsValue(p.description) && p.description != ""
  }

  /** The recipes that a Makefile can declare without a violation. */
  predicate WellFormed(opts: Options, r: Recipe) {
    && IsTargetName(r.id) && !HasPrefix(r.id, ".")
    && IsValue(r.name) && r.name != ""
    && IsValue(r.description) && r.description != ""
    && IsRisk(r.risk)
    && r.params.Some? && (forall p | p in r.params.value :: IsParam(p))
    && IsValue(r.output) && r.output != ""
    && IsValue(r.outputType) && r.outputType != "" && opts.isMedia(r.outputType)
    && (opts.strict ==> AllHints(r.hints))
  }

  predicate AllHints(h: ToolHints) {
    h.readOnly.Some? && h.destructive.Some? && h.idempotent.Some? && h.openWorld.Some?
  }

  predicate BlockOfValues(block: seq<Field>) {
    forall i | 0 <= i < |block| :: IsValue(block[i].value)
  }

  lemma {:induction false} BlockHoldsValues(opts: Options, lines: seq<string>, i: nat)
    requires i <= |lines| && forall k | 0 <= k < |lines| :: IsLine(lines[k])
    ensures BlockOfValues(BlockAbove(opts, lines, i))
  {
    if i > 0 {
      BlockHoldsValues(opts, lines, i - 1);
      if Classify(lines[i - 1], opts.Delim()).Annotated? {
        AnnotationIsWellFormed(lines[i - 1], opts.Delim());
      }
    }
  }

  lemma {:induction false} LastIsValue(block: seq<Field>, key: string)
    requires BlockOfValues(block)
    ensures IsValue(ValueOf(block, key))
  {
    if block != [] {
      LastIsValue(block[..|block| - 1], key);
    }
  }

  lemma {:induction false} ParamsAreValues(block: seq<Field>)
    requires BlockOfValues(block)
    ensures forall v | v in ParamValues(block) :: IsValue(v)
  {
    if block != [] {
      ParamsAreValues(block[..|block| - 1]);
    }
  }

  /** A parsed param of a trimmed value has a trimmed description that is not empty. */
  lemma ParsedIsParam(val: string)
    requires IsValue(val) && ParseParam(val).Parsed?
    ensures IsParam(ParseParam(val).param)
  {
    hide IsParamName, IsParamType, Fields;
    var bar := Index(val, " | ", 0).value;
    assert val[bar..bar + 3][2] == val[bar + 2] == ' ';
    TrimmedRest(val, bar + 3);
    RestIsNotBlank(val[bar + 3..], val);
  }

  lemma RestIsNotBlank(rest: string, val: string)
    requires val != "" && |rest| <= |val| && rest == val[|val| - |rest|..] && Trimmed(val)
    requires |rest| < |val| && IsSpace(val[|val| - |rest| - 1])
    ensures Trim(rest) != ""
  {
    assert rest != [] && rest[|rest| - 1] == val[|val| - 1];
    TrimLeftIsSuffix(rest);
    assert !AllSpace(rest);
    var l := TrimLeft(rest);
    assert l != [] && l[|l| - 1] == rest[|rest| - 1];
  }

  lemma {:induction false} ParsablesAreParams(raw: seq<string>)
    requires forall v | v in raw :: IsValue(v)
    ensures forall p | p in Parsable(raw) :: IsParam(p)
  {
    if raw != [] {
      ParsablesAreParams(raw[1..]);
      if ParseParam(raw[0]).Parsed? {
        ParsedIsParam(raw[0]);
      }
    }
  }

  lemma DescribedIsWellFormed(opts: Options, id: string, block: seq<Field>)
    requires IsTargetName(id) && !HasPrefix(id, ".")
    requires BlockOfValues(block) && Acceptable(opts, id, block)
    ensures WellFormed(opts, Described(id, block))
  {
    LastIsValue(block, "name");
    LastIsValue(block, "description");
    LastIsValue(block, "output");
    LastIsValue(block, "output-type");
    ParamsAreValues(block);
    ParsablesAreParams(ParamValues(block));
    HintKeys("read-only");
    HintKeys("destructive");
    HintKeys("idempotent");
    HintKeys("open-world");
  }

  lemma {:induction false} RecipesComeFromParts(parts: seq<ParseResult>, r: Recipe) returns (k: nat)
    requires r in JoinAll(parts).recipes
    ensures k < |parts| && r in parts[k].recipes
  {
    if r in parts[0].recipes {
      k := 0;
    } else {
      k := RecipesComeFromParts(parts[1..], r);
      k := k + 1;
    }
  }

  lemma ContributedAreWellFormed(opts: Options, lines: seq<string>, i: nat)
    requires i < |lines| && forall k | 0 <= k < |lines| :: IsLine(lines[k])
    ensures LineIsAcceptable(opts, lines, i) ==>
              forall r | r in Contribution(opts, lines, i).recipes :: WellFormed(opts, r)
  {
    if LineIsAcceptable(opts, lines, i) && Contributes(opts, lines, i) {
      BlockHoldsValues(opts, lines, i);
      TargetNameIsWellFormed(lines[i], opts.Delim());
      DescribedIsWellFormed(opts, Classify(lines[i], opts.Delim()).name, BlockAbove(opts, lines, i));
    }
  }

  /** Every recipe of a valid parse is well formed. */
  lemma ValidParsesAreWellFormed(opts: Options, lines: seq<string>)
    requires forall k | 0 <= k < |lines| :: IsLine(lines[k])
    requires Parse(opts, INITIAL, lines).Valid()
    ensures forall r | r in Parse(opts, INITIAL, lines).recipes :: WellFormed(opts, r)
  {
    ValidIsComplete(opts, lines);
    ParseIsLookBack(opts, lines);
    forall r | r in Parse(opts, INITIAL, lines).recipes ensures WellFormed(opts, r) {
      var k := RecipesComeFromParts(Contributions(opts, lines), r);
      assert LineIsAcceptable(opts, lines, k);
      ContributedAreWellFormed(opts, lines, k);
    }
  }

  predicate IsRecipeID(id: string) {
    IsTargetName(id) && ':' !in id && !HasPrefix(id, ".")
  }

  /** Every emitted recipe, valid or not, has an ID without a colon that does not start with a dot. */
  lemma EveryIDIsATargetName(opts: Options, lines: seq<string>)
    ensures forall r | r in Parse(opts, INITIAL, lines).recipes :: IsRecipeID(r.id)
  {
    ParseIsLookBack(opts, lines);
    forall r | r in Parse(opts, INITIAL, lines).recipes ensures IsRecipeID(r.id) {
      var k := RecipesComeFromParts(Contributions(opts, lines), r);
      TargetNameIsWellFormed(lines[k], opts.Delim());
    }
  }
}
