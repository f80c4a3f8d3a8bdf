/** Exactly which params are parsed, and exactly which violations are reported. */
module Errors {
  import opened Text
  import opened Schema
  import opened Annotation
  import opened Parser
  import opened LookBack
  import opened Validation

  // ---- Words ----

  /** s is a word between white space and a rest that starts with white space. */
  predicate FirstWordOf(s: string, lead: string, word: string, rest: string) {
    && s == lead + word + rest && AllSpace(lead) && word != "" && NoSpace(word)
    && (rest != "" ==> IsSpace(rest[0]))
  }

  lemma {:induction false} WordEndStops(s: string, i: nat)
    requires i <= |s|
    ensures var e := WordEnd(s, i);
            (forall k | i <= k < e :: !IsSpace(s[k])) && (e < |s| ==> IsSpace(s[e]))
    decreases |s| - i
  {
    hide IsSpace;
    if i < |s| && !IsSpace(s[i]) {
      WordEndStops(s, i + 1);
    }
  }

  lemma FieldsTakeOne(s: string) returns (lead: string, word: string, rest: string)
    requires Fields(s) != []
    ensures FirstWordOf(s, lead, word, rest) && Fields(s) == [word] + Fields(rest)
  {
    hide IsSpace, TrimLeft, WordEnd;
    var t := TrimLeft(s);
    TrimLeftIsSuffix(s);
    FirstWord(s);
    WordEndStops(t, 0);
    var e := WordEnd(t, 0);
    lead, word, rest := s[..|s| - |t|], t[..e], t[e..];
    assert s == lead + t && t == word + rest;
  }

  lemma NoFieldsInSpace(s: string)
    ensures Fields(s) == [] <==> AllSpace(s)
  {
    hide IsSpace;
    TrimLeftIsSuffix(s);
    if AllSpace(s) {
      AllSpaceTrimsAway(s);
    }
  }

  lemma WordIsTaken(s: string, lead: string, word: string, rest: string)
    requires FirstWordOf(s, lead, word, rest)
    ensures Fields(s) == [word] + Fields(rest)
  {
    hide IsSpace, Fields;
    assert s == lead + (word + rest);
    FieldsSkip(lead, word + rest);
    FieldsStep(word, rest);
  }

  /** The text is two words in white space. */
  ghost predicate TwoWords(s: string, name: string, ptype: string) {
    exists lead, rest, gap, tail ::
      FirstWordOf(s, lead, name, rest) && FirstWordOf(rest, gap, ptype, tail) && AllSpace(tail)
  }

  /** What strings.Fields makes two words of. */
  lemma FieldsExactly(s: string, name: string, ptype: string)
    ensures Fields(s) == [name, ptype] <==> TwoWords(s, name, ptype)
  {
    hide Fields, FirstWordOf, AllSpace;
    if Fields(s) == [name, ptype] {
      var lead, word, rest := FieldsTakeOne(s);
      assert Fields(s)[0] == word && Fields(s)[1..] == Fields(rest) == [ptype];
      var gap, word', tail := FieldsTakeOne(rest);
      assert Fields(rest)[0] == word' && Fields(rest)[1..] == Fields(tail) == [];
      NoFieldsInSpace(tail);
    }
    if TwoWords(s, name, ptype) {
      var lead, rest, gap, tail :|
        FirstWordOf(s, lead, name, rest) && FirstWordOf(rest, gap, ptype, tail) && AllSpace(tail);
      WordIsTaken(s, lead, name, rest);
      WordIsTaken(rest, gap, ptype, tail);
      NoFieldsInSpace(tail);
      assert [name] + ([ptype] + []) == [name, ptype];
    }
  }

  // ---- parseParam ----

  /** The first " | " of the text is at bar. */
  predicate BarAt(val: string, bar: nat) {
    OccursAt(val, " | ", bar) && forall k | 0 <= k < bar :: !OccursAt(val, " | ", k)
  }

  /** A value has the wrong format exactly when it holds no separator, and the wrong fields exactly when
      the text before its first separator is not two words. */
  lemma ParseParamSplits(val: string)
    ensures (forall k | 0 <= k <= |val| :: !OccursAt(val, " | ", k)) <==>
            ParseParam(val) == Rejected(ParamFormat(val))
    ensures forall bar: nat | BarAt(val, bar) ::
              ParseParam(val) == Rejected(ParamFields(val)) <==> forall n, t :: !TwoWords(val[..bar], n, t)
  {
    hide Fields, Trim, TwoWords, IsParamName;
    forall bar: nat | BarAt(val, bar)
      ensures Index(val, " | ", 0) == Some(bar)
      ensures ParseParam(val) == Rejected(ParamFields(val)) <==> forall n, t :: !TwoWords(val[..bar], n, t)
    {
      TwoFields(val[..bar]);
    }
  }

  /** The two words decide: the name first, then the type; the rest, trimmed, is the description. */
  lemma ParseParamDecides(val: string, bar: nat, name: string, ptype: string)
    requires BarAt(val, bar) && TwoWords(val[..bar], name, ptype)
    ensures ParseParam(val) ==
            if !IsParamName(name) then Rejected(ParamName(name))
            else if ptype != "string" && ptype != "int" && ptype != "bool" then Rejected(ParamKind(name, ptype))
            else Parsed(Param(name, ptype, Trim(val[bar + 3..])))
  {
    hide Fields, Trim, TwoWords, IsParamName;
    assert Index(val, " | ", 0) == Some(bar);
    FieldsExactly(val[..bar], name, ptype);
  }

  lemma TwoFields(s: string)
    ensures |Fields(s)| == 2 <==> exists n, t :: TwoWords(s, n, t)
  {
    hide Fields, TwoWords;
    if |Fields(s)| == 2 {
      var words := Fields(s);
      assert words == [words[0], words[1]];
      FieldsExactly(s, words[0], words[1]);
    }
    forall n, t | TwoWords(s, n, t) ensures |Fields(s)| == 2 {
      FieldsExactly(s, n, t);
    }
  }

  // ---- strconv.ParseBool ----

  /** The word or its first letter, in lower or upper case, or the word with a capital. */
  predicate Spells(raw: string, lower: string, upper: string)
    requires lower != "" && upper != ""
  {
    || raw == lower || raw == upper || raw == lower[..1] || raw == upper[..1] || raw == upper[..1] + lower[1..]
  }

  /** Exactly which values of a hint are booleans, and which one each is. */
  lemma BoolsExactly(raw: string)
    ensures ParseBool(raw) == Some(true) <==> raw == "1" || Spells(raw, "true", "TRUE")
    ensures ParseBool(raw) == Some(false) <==> raw == "0" || Spells(raw, "false", "FALSE")
  {
    assert "TRUE"[..1] == "T" && "true"[..1] == "t" && "T" + "true"[1..] == "True";
    assert "FALSE"[..1] == "F" && "false"[..1] == "f" && "F" + "false"[1..] == "False";
    if raw in ["0", "f", "F", "FALSE", "false", "False"] {
      DifferentStarts(raw);
    }
  }

  lemma DifferentStarts(raw: string)
    requires raw in ["0", "f", "F", "FALSE", "false", "False"]
    ensures raw !in ["1", "t", "T", "TRUE", "true", "True"]
  {
    assert raw[0] in "0fF";
  }

  // ---- Which violations are reported ----

  /** The annotations above the target commit the violation. */
  predicate Violates(opts: Options, id: string, block: seq<Field>, v: Violation) {
    var vals := ParamValues(block);
    if v.MissingID? then id == ""
    else if v.MissingName? then ValueOf(block, "name") == ""
    else if v.MissingDescription? then ValueOf(block, "description") == ""
    else if v.MissingParams? then vals == []
    else if v.MissingOutput? then ValueOf(block, "output") == ""
    else if v.MissingOutputType? then ValueOf(block, "output-type") == ""
    else if v.BadOutputType? then v.value == ValueOf(block, "output-type") != "" && !opts.isMedia(v.value)
    else if v.BadRisk? then ValueOf(block, "risk") !in ["low", "medium", "high"]
    else if v.MixedParams? then "none" in vals && exists w :: w in vals && w != "none"
    else if v.BadBool? then v.key in HINT_KEYS && LastValue(block, v.key) == Some(v.raw) && ParseBool(v.raw).None?
    else if v.MissingHint? then opts.strict && v.key in HINT_KEYS && LastValue(block, v.key).None?
    else "none" !in vals && exists w :: w in vals && ParseParam(w) == Rejected(v)
  }

  predicate ParamError(v: Violation) {
    v.ParamFormat? || v.ParamFields? || v.ParamName? || v.ParamKind?
  }

  lemma {:induction false} UnparsableExactly(raw: seq<string>, v: Violation)
    ensures v in Unparsable(raw) <==> exists w :: w in raw && ParseParam(w) == Rejected(v)
  {
    hide ParseParam;
    if raw != [] {
      UnparsableExactly(raw[1..], v);
      assert raw == [raw[0]] + raw[1..];
    }
  }

  lemma ParamViolationsExactly(opts: Options, id: string, block: seq<Field>, v: Violation)
    ensures v in ParamViolations(StateOf(block)) <==>
            (v.MixedParams? || ParamError(v)) && Violates(opts, id, block, v)
  {
    hide ParseParam, ParseBool, LastValue, ParamValues, Unparsable, MetaOf, Named;
    var vals, raw := ParamValues(block), Named(ParamValues(block));
    NamedMembers(vals);
    UnparsableExactly(raw, v);
    HasMember(raw);
    RejectsAreParamErrors();
    NoneNamed();
    if "none" !in vals {
      NamedOfNamed(vals);
    }
  }

  lemma NoneNamed()
    ensures Named([]) == []
  {
  }

  lemma HasMember(raw: seq<string>)
    ensures raw != [] <==> exists w :: w in raw
  {
    assert raw != [] ==> raw[0] in raw;
  }

  lemma RejectsAreParamErrors()
    ensures forall w | ParseParam(w).Rejected? :: ParamError(ParseParam(w).err)
  {
  }

  lemma {:induction false} MissingExactly(meta: map<string, string>, keys: seq<string>, v: Violation)
    ensures v in MissingHints(meta, keys) <==> v.MissingHint? && v.key in keys && v.key !in meta
  {
    if keys != [] {
      MissingExactly(meta, keys[1..], v);
      assert keys == [keys[0]] + keys[1..];
    }
  }

  lemma BadHint(block: seq<Field>, key: string, v: Violation)
    requires key != "param"
    ensures v in BoolViolations(MetaOf(block), key) <==>
            v.BadBool? && v.key == key && LastValue(block, key) == Some(v.raw) && ParseBool(v.raw).None?
  {
    hide ParseBool;
  }

  lemma HintViolationsExactly(opts: Options, block: seq<Field>, v: Violation)
    ensures v in HintViolations(MetaOf(block)) + StrictViolations(MetaOf(block), opts.strict) <==>
            (v.BadBool? || v.MissingHint?) && Violates(opts, "", block, v)
  {
    hide ParseBool, BoolViolations, MetaOf, LastValue;
    BadHint(block, "read-only", v);
    BadHint(block, "destructive", v);
    BadHint(block, "idempotent", v);
    BadHint(block, "open-world", v);
    MissingExactly(MetaOf(block), HINT_KEYS, v);
    if v.BadBool? || v.MissingHint? {
      HintKeys(v.key);
      KeyInMeta(block, v.key);
    }
  }

  lemma KeyInMeta(block: seq<Field>, key: string)
    ensures key != "param" ==> (key in MetaOf(block) <==> LastValue(block, key).Some?)
  {
  }

  lemma FieldViolationsExactly(opts: Options, id: string, block: seq<Field>, v: Violation)
    ensures v in Validate(Described(id, block), opts.isMedia) <==>
            !v.MixedParams? && !ParamError(v) && !v.BadBool? && !v.MissingHint? && Violates(opts, id, block, v)
  {
    hide LastValue, ParamValues, ParseParam;
  }

  /** A violation is reported exactly when the annotations above the target commit it. */
  lemma ViolationsExactly(opts: Options, id: string, block: seq<Field>, v: Violation)
    ensures v in Violations(opts, id, StateOf(block)) <==> Violates(opts, id, block, v)
  {
    hide Validate, HintViolations, StrictViolations, ParamViolations, ParseParam, LastValue, ParamValues, MetaOf;
    BuiltIsDescribed(id, block);
    ParamViolationsExactly(opts, id, block, v);
    HintViolationsExactly(opts, block, v);
    FieldViolationsExactly(opts, id, block, v);
  }

  // ---- In which order ----

  /** Params, then hints that are no booleans, then missing hints, then the fields of the recipe. */
  function Position(v: Violation): nat {
    if v.BadBool? then 1 + KeyPosition(v.key)
    else if v.MissingHint? then 5 + KeyPosition(v.key)
    else if v.MissingID? then 9
    else if v.MissingName? then 10
    else if v.MissingDescription? then 11
    else if v.MissingParams? then 12
    else if v.MissingOutput? then 13
    else if v.MissingOutputType? || v.BadOutputType? then 14
    else if v.BadRisk? then 15
    else 0
  }

  function KeyPosition(key: string): nat {
    if key == "read-only" then 0 else if key == "destructive" then 1 else if key == "idempotent" then 2 else 3
  }

  /** The positions rise within the bounds; only errors of params share one. */
  predicate InOrder(vs: seq<Violation>, low: nat, high: nat) {
    && (forall n | 0 <= n < |vs| :: low <= Position(vs[n]) < high)
    && forall m, n | 0 <= m < n < |vs| ::
         Position(vs[m]) < Position(vs[n]) || Position(vs[m]) == Position(vs[n]) == 0
  }

  lemma OrderJoins(a: seq<Violation>, b: seq<Violation>, low: nat, middle: nat, high: nat)
    requires low <= middle <= high && InOrder(a, low, middle) && InOrder(b, middle, high)
    ensures InOrder(a + b, low, high)
  {
    hide Position;
  }

  lemma HintsInOrder(meta: map<string, string>)
    ensures InOrder(HintViolations(meta), 1, 5)
  {
    hide ParseBool, InOrder, BoolViolations;
    forall key | key in HINT_KEYS
      ensures InOrder(BoolViolations(meta, key), 1 + KeyPosition(key), 2 + KeyPosition(key))
    {
      BoolInOrder(meta, key);
    }
    var r, d := BoolViolations(meta, "read-only"), BoolViolations(meta, "destructive");
    var i, o := BoolViolations(meta, "idempotent"), BoolViolations(meta, "open-world");
    OrderJoins(r, d, 1, 2, 3);
    OrderJoins(r + d, i, 1, 3, 4);
    OrderJoins(r + d + i, o, 1, 4, 5);
  }

  lemma BoolInOrder(meta: map<string, string>, key: string)
    ensures InOrder(BoolViolations(meta, key), 1 + KeyPosition(key), 2 + KeyPosition(key))
  {
    hide ParseBool;
  }

  function IfMissing(meta: map<string, string>, key: string): seq<Violation> {
    if key in meta then [] else [MissingHint(key)]
  }

  lemma StrictInOrder(meta: map<string, string>, strict: bool)
    ensures InOrder(StrictViolations(meta, strict), 5, 9)
  {
    hide InOrder, IfMissing;
    MissingInOrder(meta, "read-only");
    MissingInOrder(meta, "destructive");
    MissingInOrder(meta, "idempotent");
    MissingInOrder(meta, "open-world");
    var r, d := IfMissing(meta, "read-only"), IfMissing(meta, "destructive");
    var i, o := IfMissing(meta, "idempotent"), IfMissing(meta, "open-world");
    OrderJoins(r, d, 5, 6, 7);
    OrderJoins(r + d, i, 5, 7, 8);
    OrderJoins(r + d + i, o, 5, 8, 9);
    FourMissing(meta);
    NothingInOrder(5, 9);
  }

  lemma NothingInOrder(low: nat, high: nat)
    ensures InOrder([], low, high)
  {
  }

  lemma MissingInOrder(meta: map<string, string>, key: string)
    ensures InOrder(IfMissing(meta, key), 5 + KeyPosition(key), 6 + KeyPosition(key))
  {
  }

  lemma FourMissing(meta: map<string, string>)
    ensures MissingHints(meta, HINT_KEYS) ==
            IfMissing(meta, "read-only") + IfMissing(meta, "destructive")
            + IfMissing(meta, "idempotent") + IfMissing(meta, "open-world")
  {
    hide MissingHints, IfMissing;
    MissingJoins(meta, "read-only", ["destructive", "idempotent", "open-world"]);
    MissingJoins(meta, "destructive", ["idempotent", "open-world"]);
    MissingJoins(meta, "idempotent", ["open-world"]);
    MissingJoins(meta, "open-world", []);
    assert HINT_KEYS == ["read-only"] + ["destructive", "idempotent", "open-world"];
    assert ["destructive", "idempotent", "open-world"] == ["destructive"] + ["idempotent", "open-world"];
    assert ["idempotent", "open-world"] == ["idempotent"] + ["open-world"];
    assert ["open-world"] == ["open-world"] + [];
    NothingRequired(meta);
  }

  lemma MissingJoins(meta: map<string, string>, key: string, keys: seq<string>)
    ensures MissingHints(meta, [key] + keys) == IfMissing(meta, key) + MissingHints(meta, keys)
  {
    assert ([key] + keys)[1..] == keys;
  }

  lemma FieldsInOrder(r: Recipe, isMedia: string -> bool)
    ensures InOrder(Validate(r, isMedia), 9, 16)
  {
    hide InOrder, When;
    AtPosition(r.id == "", MissingID);
    AtPosition(r.name == "", MissingName);
    AtPosition(r.description == "", MissingDescription);
    AtPosition(r.params.None?, MissingParams);
    AtPosition(r.output == "", MissingOutput);
    AtPosition(!isMedia(r.outputType), BadOutputType(r.outputType));
    AtPosition(true, MissingOutputType);
    AtPosition(!IsRisk(r.risk), BadRisk);
    var i, n := When(r.id == "", MissingID), When(r.name == "", MissingName);
    var d, p := When(r.description == "", MissingDescription), When(r.params.None?, MissingParams);
    var o := When(r.output == "", MissingOutput);
    var t := if r.outputType == "" then [MissingOutputType]
             else When(!isMedia(r.outputType), BadOutputType(r.outputType));
    OrderJoins(i, n, 9, 10, 11);
    OrderJoins(i + n, d, 9, 11, 12);
    OrderJoins(i + n + d, p, 9, 12, 13);
    OrderJoins(i + n + d + p, o, 9, 13, 14);
    OrderJoins(i + n + d + p + o, t, 9, 14, 15);
    OrderJoins(i + n + d + p + o + t, When(!IsRisk(r.risk), BadRisk), 9, 15, 16);
  }

  lemma AtPosition(condition: bool, v: Violation)
    ensures InOrder(When(condition, v), Position(v), Position(v) + 1)
    ensures When(true, v) == [v]
  {
  }

  lemma ParamsInOrder(st: State)
    ensures InOrder(ParamViolations(st), 0, 1)
  {
    hide ParseParam;
    RejectsAreParamErrors();
    var vs := Unparsable(st.raw);
    forall n | 0 <= n < |vs| ensures Position(vs[n]) == 0 {
      UnparsableExactly(st.raw, vs[n]);
    }
  }

  /** The violations come in this order, and none twice except the errors of params. */
  lemma ViolationsInOrder(opts: Options, id: string, st: State)
    ensures InOrder(Violations(opts, id, st), 0, 16)
  {
    hide InOrder, ParamViolations, HintViolations, StrictViolations, Validate, BuildRecipe;
    ParamsInOrder(st);
    HintsInOrder(st.meta);
    StrictInOrder(st.meta, opts.strict);
    FieldsInOrder(BuildRecipe(id, st), opts.isMedia);
    OrderJoins(ParamViolations(st), HintViolations(st.meta), 0, 1, 5);
    OrderJoins(ParamViolations(st) + HintViolations(st.meta), StrictViolations(st.meta, opts.strict), 0, 5, 9);
    OrderJoins(ParamViolations(st) + HintViolations(st.meta) + StrictViolations(st.meta, opts.strict),
               Validate(BuildRecipe(id, st), opts.isMedia), 0, 9, 16);
  }
}
