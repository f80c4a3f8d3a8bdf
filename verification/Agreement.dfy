/** The advertised schema and the runner agree, and argument vectors decode. */
module Agreement {
  import opened Text
  import opened Annotation
  import opened Schema
  import opened Tools
  import opened Parser
  import opened Runner

  // ---- Schema and runner ----

  /** Validation of a type keyword: an integer is any number with a zero fractional part (JSON
      Schema Validation, draft 2020-12, section 6.1.1). */
  predicate HasType(v: Json, jsonType: string) {
    || (jsonType == "string" && v.Textual?)
    || (jsonType == "boolean" && v.Boolean?)
    || (jsonType == "integer" && v.Numeric? && v.n == v.n.Floor as real)
  }

  /** The arguments use advertised names only, and each value has the advertised type. */
  predicate Conforms(properties: map<string, Property>, args: Arguments) {
    forall k | k in args :: k in properties && HasType(args[k], properties[k].jsonType)
  }

  predicate TypesAreKnown(params: seq<Param>) {
    forall i | 0 <= i < |params| :: IsParamType(params[i].ptype)
  }

  /** A name is never declared with two types. */
  predicate Consistent(params: seq<Param>) {
    forall i, j | 0 <= i < |params| && 0 <= j < |params| && params[i].name == params[j].name ::
      params[i].ptype == params[j].ptype
  }

  lemma StringifyChecksType(p: Param, v: Json)
    requires IsParamType(p.ptype)
    ensures Stringify(p, v).Ok? <==> HasType(v, SchemaType(p.ptype))
  {
    if v.Numeric? {
      TruncateIsFloor(v.n);
    }
  }

  lemma TruncateIsFloor(x: real)
    ensures x == Truncate(x) as real <==> x == x.Floor as real
  {
    if x < 0.0 {
      var y := -x;
      assert y == y.Floor as real ==> x.Floor == -(y.Floor);
      assert x == x.Floor as real ==> y.Floor == -(x.Floor);
    }
  }

  /** Every declaration of a provided name accepts the value. */
  predicate AllFit(params: seq<Param>, args: Arguments) {
    forall i | 0 <= i < |params| && params[i].name in args ::
      HasType(args[params[i].name], SchemaType(params[i].ptype))
  }

  lemma {:induction false} EntriesCheckTypes(params: seq<Param>, args: Arguments)
    requires TypesAreKnown(params)
    ensures Entries(params, args).Ok? <==> AllFit(params, args)
  {
    if params != [] {
      var front, last := params[..|params| - 1], params[|params| - 1];
      assert TypesAreKnown(front) by {
        assert forall i | 0 <= i < |front| :: front[i] == params[i];
      }
      EntriesCheckTypes(front, args);
      assert AllFit(params, args) <==>
             AllFit(front, args) && (last.name in args ==> HasType(args[last.name], SchemaType(last.ptype))) by {
        assert forall i | 0 <= i < |front| :: front[i] == params[i];
        assert forall i | 0 <= i < |params| :: i < |front| || params[i] == last;
      }
      if last.name in args {
        StringifyChecksType(last, args[last.name]);
      }
    }
  }

  /** The properties of the names that are declared with one type only. */
  function Usable(params: seq<Param>): map<string, Property> {
    var properties := Properties(params);
    map k | k in properties && OneType(params, k) :: properties[k]
  }

  predicate OneType(params: seq<Param>, name: string) {
    forall i, j | 0 <= i < |params| && 0 <= j < |params| && params[i].name == params[j].name == name ::
      params[i].ptype == params[j].ptype
  }

  /** What the runner accepts, for all params: the usable names, with their advertised types. */
  lemma AcceptsExactly(params: seq<Param>, args: Arguments)
    requires TypesAreKnown(params)
    ensures Accepts(params, args) <==> Conforms(Usable(params), args)
  {
    hide HasType, Properties, Entries;
    EntriesCheckTypes(params, args);
    if Accepts(params, args) {
      forall k | k in args ensures k in Usable(params) && HasType(args[k], Usable(params)[k].jsonType) {
        AcceptedIsUsable(params, args, k);
      }
    }
    if Conforms(Usable(params), args) {
      forall k | k in args ensures Declared(params, k) {
        PropertiesAreDeclared(params, k);
      }
      forall i | 0 <= i < |params| && params[i].name in args
        ensures HasType(args[params[i].name], SchemaType(params[i].ptype))
      {
        var l := LastDeclaration(params, i);
        PropertyOfLast(params, l);
      }
    }
  }

  lemma AcceptedIsUsable(params: seq<Param>, args: Arguments, k: string)
    requires TypesAreKnown(params) && AllDeclared(params, args) && AllFit(params, args) && k in args
    ensures k in Usable(params) && HasType(args[k], Usable(params)[k].jsonType)
  {
    hide Properties;
    var i :| 0 <= i < |params| && params[i].name == k;
    var l := LastDeclaration(params, i);
    PropertyOfLast(params, l);
    assert OneType(params, k);
  }

  /** The same names, and the same type for each. */
  predicate SameTypes(p: map<string, Property>, q: map<string, Property>) {
    p.Keys == q.Keys && forall k | k in p :: p[k].jsonType == q[k].jsonType
  }

  predicate KnownTypes(p: map<string, Property>) {
    forall k | k in p :: p[k].jsonType == "string" || p[k].jsonType == "integer" || p[k].jsonType == "boolean"
  }

  function SampleOf(jsonType: string): Json {
    if jsonType == "integer" then Numeric(0.0) else if jsonType == "boolean" then Boolean(true) else Textual("")
  }

  lemma TypeOfSample(p: map<string, Property>, q: map<string, Property>, k: string)
    requires KnownTypes(p) && k in p && KnownTypes(q)
    requires var args := map[k := SampleOf(p[k].jsonType)]; Conforms(p, args) ==> Conforms(q, args)
    ensures k in q && p[k].jsonType == q[k].jsonType
  {
    var args := map[k := SampleOf(p[k].jsonType)];
    assert k in args && Conforms(p, args);
  }

  /** Two schemas allow the same arguments exactly when their names and types are the same. */
  lemma SchemasAgreeExactly(p: map<string, Property>, q: map<string, Property>)
    requires KnownTypes(p) && KnownTypes(q)
    ensures (forall args :: Conforms(p, args) <==> Conforms(q, args)) <==> SameTypes(p, q)
  {
    if forall args :: Conforms(p, args) <==> Conforms(q, args) {
      forall k | k in p ensures k in q && p[k].jsonType == q[k].jsonType {
        TypeOfSample(p, q, k);
      }
      forall k | k in q ensures k in p {
        TypeOfSample(q, p, k);
      }
    }
  }

  lemma {:induction false} PropertiesHaveKnownTypes(params: seq<Param>)
    ensures KnownTypes(Properties(params))
  {
    if params != [] {
      PropertiesHaveKnownTypes(params[..|params| - 1]);
    }
  }

  /** A schema, whether advertised for these params or not, and the runner agree on all arguments exactly
      when the schema has the usable names with their types. */
  lemma RunnerAgreesExactly(p: map<string, Property>, params: seq<Param>)
    requires TypesAreKnown(params) && KnownTypes(p)
    ensures (forall args :: Conforms(p, args) <==> Accepts(params, args)) <==> SameTypes(p, Usable(params))
  {
    hide Conforms, Accepts, KnownTypes;
    forall args ensures Accepts(params, args) <==> Conforms(Usable(params), args) {
      AcceptsExactly(params, args);
    }
    PropertiesHaveKnownTypes(params);
    assert KnownTypes(Usable(params)) by {
      UsableIsKnown(params);
    }
    SchemasAgreeExactly(p, Usable(params));
  }

  lemma UsableIsKnown(params: seq<Param>)
    requires KnownTypes(Properties(params))
    ensures KnownTypes(Usable(params))
  {
  }

  /** Whatever the runner accepts conforms to the advertised schema. */
  lemma AcceptedConforms(params: seq<Param>, args: Arguments)
    requires TypesAreKnown(params) && Accepts(params, args)
    ensures Conforms(Properties(params), args)
  {
    AcceptsExactly(params, args);
  }

  lemma ConformingIsAccepted(params: seq<Param>, args: Arguments)
    requires TypesAreKnown(params) && Consistent(params) && Conforms(Properties(params), args)
    ensures Accepts(params, args)
  {
    hide HasType;
    AcceptsExactly(params, args);
    assert forall k | k in args :: k in Properties(params) && OneType(params, k);
  }

  lemma ConsistentExactly(params: seq<Param>)
    ensures Consistent(params) <==> SameTypes(Properties(params), Usable(params))
  {
    hide Properties;
    if !Consistent(params) {
      var i, j :| && 0 <= i < |params| && 0 <= j < |params| && params[i].name == params[j].name
                  && params[i].ptype != params[j].ptype;
      PropertiesAreDeclared(params, params[i].name);
      assert params[i].name in Properties(params) && params[i].name !in Usable(params);
    } else {
      assert forall k :: OneType(params, k);
    }
  }

  /** Two translations of the same params: for every list of params, the runner accepts exactly the
      arguments that conform to the advertised schema if and only if no name is declared with two
      types. */
  lemma SchemaAgreesExactly(params: seq<Param>)
    requires TypesAreKnown(params)
    ensures (forall args :: Conforms(Properties(params), args) <==> Accepts(params, args)) <==> Consistent(params)
  {
    PropertiesHaveKnownTypes(params);
    RunnerAgreesExactly(Properties(params), params);
    ConsistentExactly(params);
  }

  lemma StringifyTells(p: Param, v: Json)
    requires IsParamType(p.ptype) && Stringify(p, v).Err?
    ensures Stringify(p, v).error == WrongType(p.name, SchemaType(p.ptype))
  {
  }

  /** The i-th param is the first, in declaration order, whose provided value has not its type. */
  predicate FirstMisfit(params: seq<Param>, args: Arguments, i: nat)
    requires i < |params|
  {
    && params[i].name in args && !HasType(args[params[i].name], SchemaType(params[i].ptype))
    && AllFit(params[..i], args)
  }

  /** The error of a refused value names the first such param and the type that is advertised for it. */
  lemma {:induction false} ErrorIsOfFirstMisfit(params: seq<Param>, args: Arguments, i: nat)
    requires TypesAreKnown(params) && i < |params| && FirstMisfit(params, args, i)
    ensures Entries(params, args) == Err(WrongType(params[i].name, SchemaType(params[i].ptype)))
  {
    hide HasType, Stringify;
    var front := params[..i + 1];
    assert front[..i] == params[..i] && front[i] == params[i];
    EntriesCheckTypes(params[..i], args);
    StringifyChecksType(params[i], args[params[i].name]);
    StringifyTells(params[i], args[params[i].name]);
    ErrorsStay(params, i + 1, args);
  }

  // ---- Decoding one entry ----

  /** [A-Z][A-Z0-9_]* */
  predicate IsVariable(name: string) {
    && name != "" && IsUpper(name[0])
    && forall i | 0 <= i < |name| :: IsUpper(name[i]) || IsDigit(name[i]) || name[i] == '_'
  }

  lemma VarNameIsVariable(name: string)
    requires IsParamName(name)
    ensures IsVariable(VarName(name))
  {
  }

  /** The same character up to letter case, and up to "-" against "_". */
  predicate Alike(c: char, d: char) {
    || c == d
    || ('a' <= c <= 'z' && 'A' <= d <= 'Z' && c as int - 'a' as int == d as int - 'A' as int)
    || ('A' <= c <= 'Z' && 'a' <= d <= 'z' && c as int - 'A' as int == d as int - 'a' as int)
    || (c == '-' && d == '_') || (c == '_' && d == '-')
  }

  predicate SpelledAlike(a: string, b: string) {
    |a| == |b| && forall i | 0 <= i < |a| :: Alike(a[i], b[i])
  }

  /** Which variable a param sets: a name that is a variable already sets itself, and two names set the same
      variable exactly when they are spelled alike. */
  lemma VariablesExactly(a: string, b: string)
    requires IsParamName(a) && IsParamName(b)
    ensures IsVariable(a) ==> VarName(a) == a
    ensures VarName(a) == VarName(b) <==> SpelledAlike(a, b)
    ensures IsVariable(VarName(a)) && SpelledAlike(a, VarName(a))
  {
    VarNameIsVariable(a);
    forall i | 0 <= i < |a| && i < |b| ensures UpperChar(a[i]) == UpperChar(b[i]) <==> Alike(a[i], b[i]) {
    }
    if VarName(a) == VarName(b) {
      assert |VarName(a)| == |a| && |VarName(b)| == |b|;
      forall i | 0 <= i < |a| ensures Alike(a[i], b[i]) {
        assert VarName(a)[i] == UpperChar(a[i]) && VarName(b)[i] == UpperChar(b[i]);
      }
    }
  }

  lemma {:induction false} FirstEquals(s: string, i: nat, e: nat)
    requires i <= e < |s| && s[e] == '=' && forall k | i <= k < e :: s[k] != '='
    ensures Index(s, "=", i) == Some(e)
    decreases e - i
  {
    OneCharOccurs(s, '=', i);
    if i < e {
      FirstEquals(s, i + 1, e);
    }
  }

  /** Splitting an entry at its first "=" gives back the variable and the exact text, whatever
      characters the text holds. */
  lemma EntryDecodes(name: string, text: string)
    requires IsParamName(name)
    ensures var entry, n := VarName(name) + "=" + text, |VarName(name)|;
            && Index(entry, "=", 0) == Some(n)
            && entry[..n] == VarName(name) && entry[n + 1..] == text && IsVariable(entry[..n])
  {
    VarNameIsVariable(name);
    var entry, n := VarName(name) + "=" + text, |VarName(name)|;
    assert entry[..n] == VarName(name) && entry[n] == '=' && entry[n + 1..] == text;
    forall k | 0 <= k < n ensures entry[k] != '=' {
      assert entry[k] == VarName(name)[k];
    }
    FirstEquals(entry, 0, n);
  }

  /** The text of a value determines the value. */
  lemma TextDecodes(p: Param, v: Json, w: Json)
    requires IsParamType(p.ptype) && Stringify(p, v).Ok? && Stringify(p, v) == Stringify(p, w)
    ensures v == w
  {
    if p.ptype == "int" {
      DecimalDecodes(Truncate(v.n));
      DecimalDecodes(Truncate(w.n));
    } else if p.ptype == "bool" {
      assert "true"[0] != "false"[0];
    }
  }

  /** Texts of two values coincide only if the types are the same or one of them is string. */
  lemma TextsOfIntAndBool(p: Param, q: Param, v: Json, w: Json)
    requires p.ptype == "int" && q.ptype == "bool" && Stringify(p, v).Ok? && Stringify(q, w).Ok?
    ensures Stringify(p, v) != Stringify(q, w)
  {
    DecimalDecodes(Truncate(v.n));
    assert !IsDigit("true"[0]) && !IsDigit("false"[0]);
  }

  /** The declared params that are provided, in declaration order. */
  function Provided(params: seq<Param>, args: Arguments): seq<Param> {
    if params == [] then []
    else
      var last := params[|params| - 1];
      Provided(params[..|params| - 1], args) + (if last.name in args then [last] else [])
  }

  /** The text reads as the value. */
  predicate ReadsAs(ptype: string, text: string, v: Json) {
    match v
    case Textual(s) => ptype == "string" && text == s
    case Numeric(n) => ptype == "int" && n == ParseDecimal(text) as real
    case Boolean(b) => ptype == "bool" && text == if b then "true" else "false"
    case _ => false
  }

  /** An entry splits at its first "=" into the variable of the param and the text of its value. */
  predicate DecodesTo(entry: string, p: Param, v: Json) {
    match Index(entry, "=", 0)
    case None => false
    case Some(n) =>
      && n <= |entry| - 1
      && IsVariable(entry[..n]) && entry[..n] == VarName(p.name)
      && ReadsAs(p.ptype, entry[n + 1..], v)
  }

  lemma EntryReads(p: Param, v: Json)
    requires IsParamName(p.name) && Stringify(p, v).Ok?
    ensures DecodesTo(VarName(p.name) + "=" + Stringify(p, v).value, p, v)
  {
    EntryDecodes(p.name, Stringify(p, v).value);
    if p.ptype == "int" {
      DecimalDecodes(Truncate(v.n));
    }
  }

  /** How many of the first n params are provided. */
  function Rank(params: seq<Param>, args: Arguments, n: nat): nat
    requires n <= |params|
  {
    if n == 0 then 0 else Rank(params, args, n - 1) + (if params[n - 1].name in args then 1 else 0)
  }

  lemma {:induction false} RankOfFront(params: seq<Param>, last: Param, args: Arguments, n: nat)
    requires n <= |params|
    ensures Rank(params + [last], args, n) == Rank(params, args, n)
  {
    if n > 0 {
      RankOfFront(params, last, args, n - 1);
    }
  }

  /** The entry of a provided param stands at its place among the provided ones, in declaration order, and
      decodes to its variable and the exact value; there are no other entries. */
  lemma {:induction false} EntriesDecodeInOrder(params: seq<Param>, args: Arguments)
    requires NamesAreKnown(params) && Entries(params, args).Ok?
    ensures |Entries(params, args).value| == Rank(params, args, |params|)
    ensures forall i | 0 <= i < |params| && params[i].name in args ::
              && Rank(params, args, i) < |Entries(params, args).value|
              && DecodesTo(Entries(params, args).value[Rank(params, args, i)], params[i], args[params[i].name])
  {
    hide Stringify, DecodesTo, IsParamName, VarName;
    if params != [] {
      var front, last := params[..|params| - 1], params[|params| - 1];
      assert params == front + [last] && forall k | 0 <= k < |front| :: front[k] == params[k];
      EntriesDecodeInOrder(front, args);
      forall n | 0 <= n <= |front| ensures Rank(params, args, n) == Rank(front, args, n) {
        RankOfFront(front, last, args, n);
      }
      if last.name in args {
        EntryReads(last, args[last.name]);
      }
    }
  }

  /** There is one entry for every provided param, in declaration order, and each decodes to the
      param's variable and the exact value. */
  lemma {:induction false} EntriesDecode(params: seq<Param>, args: Arguments)
    requires NamesAreKnown(params) && Entries(params, args).Ok?
    ensures var entries, provided := Entries(params, args).value, Provided(params, args);
            && |entries| == |provided|
            && forall k | 0 <= k < |entries| ::
                 provided[k].name in args && DecodesTo(entries[k], provided[k], args[provided[k].name])
  {
    if params != [] {
      var front, last := params[..|params| - 1], params[|params| - 1];
      assert forall k | 0 <= k < |front| :: front[k] == params[k];
      EntriesDecode(front, args);
      if last.name in args {
        EntryReads(last, args[last.name]);
      }
    }
  }

  // ---- Decoding the whole vector ----

  /** Two params whose entries could be taken for one another: one variable for two names, and not
      one of them int and the other bool. */
  predicate Clash(p: Param, q: Param) {
    && p.name != q.name && VarName(p.name) == VarName(q.name)
    && !(p.ptype == "int" && q.ptype == "bool") && !(p.ptype == "bool" && q.ptype == "int")
  }

  predicate NoClash(params: seq<Param>) {
    forall i, j | 0 <= i < |params| && 0 <= j < |params| :: !Clash(params[i], params[j])
  }

  predicate NamesAreKnown(params: seq<Param>) {
    forall i | 0 <= i < |params| :: IsParamName(params[i].name)
  }

  /** The last entry comes from a provided param and has its variable and its text. */
  lemma {:induction false} LastEntry(params: seq<Param>, args: Arguments) returns (i: nat)
    requires Entries(params, args).Ok? && Entries(params, args).value != []
    ensures i < |params| && params[i].name in args && Stringify(params[i], args[params[i].name]).Ok?
    ensures var entries := Entries(params, args).value;
            entries[|entries| - 1] ==
            VarName(params[i].name) + "=" + Stringify(params[i], args[params[i].name]).value
  {
    var front, last := params[..|params| - 1], params[|params| - 1];
    if last.name in args {
      i := |params| - 1;
    } else {
      i := LastEntry(front, args);
      assert front[i] == params[i];
    }
  }

  lemma SameEntrySameParts(name: string, text: string, name': string, text': string)
    requires IsParamName(name) && IsParamName(name')
    requires VarName(name) + "=" + text == VarName(name') + "=" + text'
    ensures VarName(name) == VarName(name') && text == text'
  {
    EntryDecodes(name, text);
    EntryDecodes(name', text');
  }

  /** An entry that only one of two argument maps provides would need a clash. */
  lemma OneSidedEntry(params: seq<Param>, a: Arguments, b: Arguments)
    requires params != [] && NamesAreKnown(params) && TypesAreKnown(params) && NoClash(params)
    requires params[|params| - 1].name in a && params[|params| - 1].name !in b
    requires Entries(params, a).Ok? && Entries(params, b).Ok?
    ensures Entries(params, a) != Entries(params, b)
  {
    var n := |params| - 1;
    if Entries(params, a) == Entries(params, b) {
      var i := LastEntry(params, b);
      var p, q := params[n], params[i];
      assert Entries(params[..n], a).Ok? && Stringify(p, a[p.name]).Ok?;
      SameEntrySameParts(p.name, Stringify(p, a[p.name]).value, q.name, Stringify(q, b[q.name]).value);
      assert !Clash(p, q);
      if p.ptype == "int" {
        TextsOfIntAndBool(p, q, a[p.name], b[q.name]);
      } else {
        TextsOfIntAndBool(q, p, b[q.name], a[p.name]);
      }
    }
  }

  lemma {:induction false} EntriesDetermine(params: seq<Param>, a: Arguments, b: Arguments, i: nat)
    requires NamesAreKnown(params) && TypesAreKnown(params) && NoClash(params) && i < |params|
    requires Entries(params, a).Ok? && Entries(params, a) == Entries(params, b)
    ensures params[i].name in a <==> params[i].name in b
    ensures params[i].name in a ==> a[params[i].name] == b[params[i].name]
  {
    var front, last := params[..|params| - 1], params[|params| - 1];
    if last.name in a && last.name !in b {
      OneSidedEntry(params, a, b);
    } else if last.name in b && last.name !in a {
      OneSidedEntry(params, b, a);
    } else {
      assert forall k | 0 <= k < |front| :: front[k] == params[k];
      var ea, eb := Entries(params, a).value, Entries(params, b).value;
      var fa, fb := Entries(front, a).value, Entries(front, b).value;
      if last.name in a {
        assert fa == ea[..|ea| - 1] && fb == eb[..|eb| - 1];
        assert ea[|ea| - 1] == eb[|eb| - 1];
        var text, text' := Stringify(last, a[last.name]).value, Stringify(last, b[last.name]).value;
        SameEntrySameParts(last.name, text, last.name, text');
        TextDecodes(last, a[last.name], b[last.name]);
      }
      if i < |front| {
        EntriesDetermine(front, a, b, i);
      }
    }
  }

  /** Both are accepted, with the same vector. */
  predicate SameVector(params: seq<Param>, a: Arguments, b: Arguments) {
    Accepts(params, a) && Accepts(params, b) && Entries(params, a) == Entries(params, b)
  }

  /** Different accepted arguments give different vectors. */
  lemma NoClashIsInjective(params: seq<Param>, a: Arguments, b: Arguments)
    requires NamesAreKnown(params) && TypesAreKnown(params) && NoClash(params)
    requires SameVector(params, a, b)
    ensures a == b
  {
    forall k | k in a || k in b ensures k in a && k in b && a[k] == b[k] {
      var i :| 0 <= i < |params| && params[i].name == k;
      EntriesDetermine(params, a, b, i);
    }
  }

  predicate DistinctNames(params: seq<Param>) {
    forall i, j | 0 <= i < j < |params| :: params[i].name != params[j].name
  }

  lemma {:induction false} NoEntries(params: seq<Param>, args: Arguments)
    requires forall i | 0 <= i < |params| :: params[i].name !in args
    ensures Entries(params, args) == Ok([])
  {
    if params != [] {
      NoEntries(params[..|params| - 1], args);
    }
  }

  lemma {:induction false} OnlyEntry(params: seq<Param>, i: nat, v: Json)
    requires i < |params| && DistinctNames(params) && Stringify(params[i], v).Ok?
    ensures Entries(params, map[params[i].name := v]) ==
            Ok([VarName(params[i].name) + "=" + Stringify(params[i], v).value])
    ensures Accepts(params, map[params[i].name := v])
  {
    var args := map[params[i].name := v];
    var front := params[..|params| - 1];
    if i < |front| {
      assert front[i] == params[i] && params[|front|].name != params[i].name;
      OnlyEntry(front, i, v);
    } else {
      assert forall k | 0 <= k < |front| :: front[k].name == params[k].name != params[i].name;
      NoEntries(front, args);
      assert forall s: string :: [] + [s] == [s];
    }
  }

  /** A value of a type whose text is the given one. */
  function WithText(ptype: string, other: string): Json {
    if ptype == "int" then Numeric(1.0)
    else if ptype == "bool" then Boolean(true)
    else Textual(if other == "int" then "1" else "true")
  }

  lemma ClashHasCommonText(p: Param, q: Param)
    requires IsParamType(p.ptype) && IsParamType(q.ptype) && Clash(p, q)
    ensures var v, w := WithText(p.ptype, q.ptype), WithText(q.ptype, p.ptype);
            Stringify(p, v).Ok? && Stringify(q, w).Ok? && Stringify(p, v).value == Stringify(q, w).value
  {
    assert Truncate(1.0) == 1 && DecimalNat(1) == "1";
  }

  lemma ClashIsAmbiguous(params: seq<Param>) returns (a: Arguments, b: Arguments)
    requires TypesAreKnown(params) && DistinctNames(params) && !NoClash(params)
    ensures SameVector(params, a, b) && a != b
  {
    var i, j :| 0 <= i < |params| && 0 <= j < |params| && Clash(params[i], params[j]);
    var p, q := params[i], params[j];
    ClashHasCommonText(p, q);
    a := map[p.name := WithText(p.ptype, q.ptype)];
    b := map[q.name := WithText(q.ptype, p.ptype)];
    OnlyEntry(params, i, WithText(p.ptype, q.ptype));
    OnlyEntry(params, j, WithText(q.ptype, p.ptype));
    assert p.name in a && p.name !in b;
  }

  /** Exactly when the arguments can be read back from the vector: for params with distinct names,
      if and only if no two of them clash. */
  lemma VectorDecodesExactly(params: seq<Param>)
    requires NamesAreKnown(params) && TypesAreKnown(params) && DistinctNames(params)
    ensures (forall a, b | SameVector(params, a, b) :: a == b)
            <==> NoClash(params)
  {
    if NoClash(params) {
      forall a, b | SameVector(params, a, b) ensures a == b {
        NoClashIsInjective(params, a, b);
      }
    } else {
      var a, b := ClashIsAmbiguous(params);
    }
  }

  // ---- Params that repeat a name ----

  /** "true" for the text of a boolean, "1" for any other text. */
  function SampleText(text: string): string {
    if text == "true" || text == "false" then "true" else "1"
  }

  function SampleValue(v: Json): Json {
    match v
    case Textual(s) => Textual(SampleText(s))
    case Numeric(_) => Numeric(1.0)
    case Boolean(_) => Boolean(true)
    case _ => v
  }

  predicate IsSample(v: Json) {
    v == Numeric(1.0) || v == Boolean(true) || v == Textual("1") || v == Textual("true")
  }

  function Sampled(args: Arguments): Arguments {
    map k | k in args :: SampleValue(args[k])
  }

  predicate AllSamples(args: Arguments) {
    forall k | k in args :: IsSample(args[k])
  }

  lemma StringifySample(p: Param, v: Json)
    requires IsParamType(p.ptype) && Stringify(p, v).Ok?
    ensures IsSample(SampleValue(v)) && Stringify(p, SampleValue(v)) == Ok(SampleText(Stringify(p, v).value))
  {
    if p.ptype == "int" {
      DecimalDecodes(Truncate(v.n));
      assert !IsDigit("true"[0]) && !IsDigit("false"[0]);
      assert Truncate(1.0) == 1 && DecimalNat(1) == "1";
    }
  }

  /** The entry with the same variable and the sample of its text. */
  function SampleEntry(entry: string): string {
    match Index(entry, "=", 0)
    case None => entry
    case Some(n) => if n < |entry| then entry[..n] + "=" + SampleText(entry[n + 1..]) else entry
  }

  function SampleEntries(entries: seq<string>): seq<string> {
    seq(|entries|, i requires 0 <= i < |entries| => SampleEntry(entries[i]))
  }

  lemma EntrySamples(p: Param, v: Json)
    requires IsParamName(p.name) && IsParamType(p.ptype) && Stringify(p, v).Ok?
    ensures Stringify(p, SampleValue(v)).Ok?
    ensures VarName(p.name) + "=" + Stringify(p, SampleValue(v)).value ==
            SampleEntry(VarName(p.name) + "=" + Stringify(p, v).value)
  {
    hide Stringify, SampleValue, SampleText, VarName;
    StringifySample(p, v);
    EntryDecodes(p.name, Stringify(p, v).value);
  }

  /** One more declaration adds the entry of its name, if that is provided. */
  lemma OneMoreEntry(front: seq<Param>, last: Param, args: Arguments)
    requires Entries(front + [last], args).Ok?
    ensures Entries(front, args).Ok? && (last.name in args ==> Stringify(last, args[last.name]).Ok?)
    ensures Entries(front + [last], args).value ==
            Entries(front, args).value
            + (if last.name in args then [VarName(last.name) + "=" + Stringify(last, args[last.name]).value] else [])
  {
    hide Stringify;
    assert (front + [last])[..|front|] == front;
  }

  lemma MoreEntriesAre(front: seq<Param>, last: Param, args: Arguments)
    requires Entries(front, args).Ok? && (last.name in args ==> Stringify(last, args[last.name]).Ok?)
    ensures Entries(front + [last], args).Ok?
  {
    hide Stringify;
    assert (front + [last])[..|front|] == front;
  }

  lemma {:induction false} EntriesSample(params: seq<Param>, args: Arguments)
    requires NamesAreKnown(params) && TypesAreKnown(params) && Entries(params, args).Ok?
    ensures Entries(params, Sampled(args)) == Ok(SampleEntries(Entries(params, args).value))
    ensures forall i | 0 <= i < |params| && params[i].name in args :: IsSample(Sampled(args)[params[i].name])
  {
    hide Stringify, SampleValue, SampleEntry, IsSample, IsParamName, IsParamType, Entries, SampleEntries;
    if params == [] {
      NoEntries(params, args);
      NoEntries(params, Sampled(args));
      NothingSampled();
    } else {
      var front, last := params[..|params| - 1], params[|params| - 1];
      assert forall k | 0 <= k < |front| :: front[k] == params[k];
      assert params == front + [last];
      OneMoreEntry(front, last, args);
      EntriesSample(front, args);
      if last.name in args {
        EntrySamples(last, args[last.name]);
        StringifySample(last, args[last.name]);
        SampleOneMore(Entries(front, args).value, VarName(last.name) + "=" + Stringify(last, args[last.name]).value);
      }
      MoreEntriesAre(front, last, Sampled(args));
      OneMoreEntry(front, last, Sampled(args));
      assert forall e: seq<string> :: e + [] == e;
    }
  }

  lemma NothingSampled()
    ensures SampleEntries([]) == []
  {
  }

  lemma SampleOneMore(entries: seq<string>, entry: string)
    ensures SampleEntries(entries + [entry]) == SampleEntries(entries) + [SampleEntry(entry)]
  {
  }

  lemma SampledIsAccepted(params: seq<Param>, args: Arguments)
    requires NamesAreKnown(params) && TypesAreKnown(params) && Accepts(params, args)
    ensures Accepts(params, Sampled(args)) && AllSamples(Sampled(args))
    ensures Entries(params, Sampled(args)) == Ok(SampleEntries(Entries(params, args).value))
  {
    hide Entries, SampleValue, IsSample;
    EntriesSample(params, args);
    forall k | k in args ensures Declared(params, k) && IsSample(Sampled(args)[k]) {
      var i :| 0 <= i < |params| && params[i].name == k;
    }
  }

  /** Accepted arguments with the same keys and the same entries are the same. */
  lemma {:induction false} SameKeysDetermine(params: seq<Param>, a: Arguments, b: Arguments, i: nat)
    requires NamesAreKnown(params) && TypesAreKnown(params) && a.Keys == b.Keys && i < |params|
    requires Entries(params, a).Ok? && Entries(params, a) == Entries(params, b) && params[i].name in a
    ensures a[params[i].name] == b[params[i].name]
  {
    hide Stringify, IsParamName, IsParamType;
    var front, last := params[..|params| - 1], params[|params| - 1];
    assert forall k | 0 <= k < |front| :: front[k] == params[k];
    if last.name in a {
      var ea, eb := Entries(params, a).value, Entries(params, b).value;
      assert Entries(front, a).value == ea[..|ea| - 1] && Entries(front, b).value == eb[..|eb| - 1];
      assert ea[|ea| - 1] == eb[|eb| - 1];
      var text, text' := Stringify(last, a[last.name]).value, Stringify(last, b[last.name]).value;
      SameEntrySameParts(last.name, text, last.name, text');
      TextDecodes(last, a[last.name], b[last.name]);
    }
    if i < |front| {
      SameKeysDetermine(front, a, b, i);
    }
  }

  lemma SameKeysAreEqual(params: seq<Param>, a: Arguments, b: Arguments)
    requires NamesAreKnown(params) && TypesAreKnown(params) && a.Keys == b.Keys
    requires SameVector(params, a, b)
    ensures a == b
  {
    hide Entries;
    forall k | k in a ensures a[k] == b[k] {
      var i :| 0 <= i < |params| && params[i].name == k;
      SameKeysDetermine(params, a, b, i);
    }
  }

  /** For all params, with repeated names too: the arguments can be read back from the vector if and only
      if they can for the values 1, true, "1" and "true" alone, which leaves finitely many cases. */
  lemma VectorDecodesOnSamples(params: seq<Param>)
    requires NamesAreKnown(params) && TypesAreKnown(params)
    ensures (forall a, b | SameVector(params, a, b) :: a == b)
            <==> (forall a, b | AllSamples(a) && AllSamples(b) && SameVector(params, a, b) :: a == b)
  {
    hide Accepts, Entries, AllSamples;
    if forall a, b | AllSamples(a) && AllSamples(b) && SameVector(params, a, b) :: a == b {
      forall a, b | SameVector(params, a, b) ensures a == b {
        SampledIsAccepted(params, a);
        SampledIsAccepted(params, b);
        assert Sampled(a) == Sampled(b);
        assert a.Keys == Sampled(a).Keys && b.Keys == Sampled(b).Keys;
        SameKeysAreEqual(params, a, b);
      }
    }
  }

  /** With a repeated name a clash need not be ambiguous: the number of entries can tell. */
  lemma RepetitionCanTell() returns (params: seq<Param>)
    ensures NamesAreKnown(params) && TypesAreKnown(params) && !NoClash(params)
    ensures forall a, b | SameVector(params, a, b) :: a == b
  {
    var x, y := Param("a-b", "string", "d"), Param("a_b", "string", "d");
    params := [x, x, y];
    assert VarName("a-b") == VarName("a_b") by {
      assert VarName("a-b") == ['A', '_', 'B'];
    }
    assert Clash(params[0], params[2]) by {
      assert "a-b"[1] != "a_b"[1];
    }
    forall a, b | SameVector(params, a, b) ensures a == b {
      CountThree(x, y, a);
      CountThree(x, y, b);
      assert a.Keys == b.Keys by {
        OnlyTwoKeys(x, y, a);
        OnlyTwoKeys(x, y, b);
      }
      SameKeysAreEqual(params, a, b);
    }
  }

  lemma CountThree(x: Param, y: Param, args: Arguments)
    requires Entries([x, x, y], args).Ok?
    ensures |Entries([x, x, y], args).value| == (if x.name in args then 2 else 0) + (if y.name in args then 1 else 0)
  {
    hide Stringify, Entries, VarName;
    assert [x, x, y] == [x, x] + [y] && [x, x] == [x] + [x] && [x] == [] + [x];
    OneMoreEntry([x, x], y, args);
    OneMoreEntry([x], x, args);
    OneMoreEntry([], x, args);
    NoEntries([], args);
  }

  lemma OnlyTwoKeys(x: Param, y: Param, args: Arguments)
    requires AllDeclared([x, x, y], args)
    ensures forall k | k in args :: k == x.name || k == y.name
  {
  }
}
