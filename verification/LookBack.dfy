/** What the one-pass parser computes, said by looking back from each target line. */
module LookBack {
  import opened Text
  import opened Annotation
  import opened Schema
  import opened Parser

  predicate InRun(kind: Kind) {
    kind.Annotated? || kind.Comment?
  }

  /** The annotations of the lines directly above line i, up to the first line that is neither an
      annotation nor a comment. */
  function BlockAbove(opts: Options, lines: seq<string>, i: nat): seq<Field>
    requires i <= |lines|
  {
    if i == 0 then []
    else
      match Classify(lines[i - 1], opts.Delim())
      case Annotated(f) => BlockAbove(opts, lines, i - 1) + [f]
      case Comment => BlockAbove(opts, lines, i - 1)
      case _ => []
  }

  /** The value of the last annotation with the key. */
  function LastValue(block: seq<Field>, key: string): Option<string> {
    if block == [] then None
    else if block[|block| - 1].key == key then Some(block[|block| - 1].value)
    else LastValue(block[..|block| - 1], key)
  }

  /** The values of the @param annotations, in order. */
  function ParamValues(block: seq<Field>): seq<string> {
    if block == [] then []
    else
      var f := block[|block| - 1];
      ParamValues(block[..|block| - 1]) + (if f.key == "param" then [f.value] else [])
  }

  function ValueOf(block: seq<Field>, key: string): string {
    var last := LastValue(block, key);
    if last.Some? then last.value else ""
  }

  function HintOf(block: seq<Field>, key: string): Option<bool> {
    var last := LastValue(block, key);
    if last.Some? then ParseBool(last.value) else None
  }

  /** The recipe that a block of annotations describes. */
  function Described(id: string, block: seq<Field>): Recipe {
    var vals := ParamValues(block);
    Recipe("", id, ValueOf(block, "name"), ValueOf(block, "description"), ValueOf(block, "risk"),
           if vals == [] then None else if "none" in vals then Some([]) else Some(Parsable(vals)),
           ValueOf(block, "output"), ValueOf(block, "output-type"),
           ToolHints(HintOf(block, "read-only"), HintOf(block, "destructive"),
                     HintOf(block, "idempotent"), HintOf(block, "open-world")))
  }

  // ---- The machine's state is the block above ----

  function Named(vals: seq<string>): seq<string> {
    if vals == [] then []
    else Named(vals[..|vals| - 1]) + (if vals[|vals| - 1] == "none" then [] else [vals[|vals| - 1]])
  }

  /** The map that a block of annotations leaves in pendingMeta. */
  function MetaOf(block: seq<Field>): (meta: map<string, string>)
    ensures forall k :: k in meta <==> k != "param" && LastValue(block, k).Some?
    ensures forall k | k in meta :: LastValue(block, k) == Some(meta[k])
  {
    if block == [] then map[]
    else
      var f := block[|block| - 1];
      var meta := MetaOf(block[..|block| - 1]);
      if f.key == "param" then meta else meta[f.key := f.value]
  }

  function StateOf(block: seq<Field>): State {
    var vals := ParamValues(block);
    State(MetaOf(block), Named(vals), vals != [], "none" in vals, block != [])
  }

  lemma MetaExtends(block: seq<Field>, f: Field)
    ensures MetaOf(block + [f]) == if f.key == "param" then MetaOf(block) else MetaOf(block)[f.key := f.value]
  {
    assert (block + [f])[..|block|] == block;
  }

  lemma ParamsExtend(block: seq<Field>, f: Field)
    ensures ParamValues(block + [f]) == ParamValues(block) + (if f.key == "param" then [f.value] else [])
  {
    assert (block + [f])[..|block|] == block;
  }

  lemma NamedExtends(vals: seq<string>, v: string)
    ensures Named(vals + [v]) == Named(vals) + (if v == "none" then [] else [v])
  {
    assert (vals + [v])[..|vals|] == vals;
  }

  lemma AnnotateExtends(block: seq<Field>, f: Field)
    ensures Annotate(StateOf(block), f) == StateOf(block + [f])
  {
    hide MetaOf, ParamValues, Named;
    MetaExtends(block, f);
    ParamsExtend(block, f);
    NamedExtends(ParamValues(block), f.value);
    assert ParamValues(block) + [] == ParamValues(block);
    assert Named(ParamValues(block)) + [] == Named(ParamValues(block));
  }

  lemma {:induction false} AfterSplits(opts: Options, st: State, a: seq<string>, b: seq<string>)
    ensures After(opts, st, a + b) == After(opts, After(opts, st, a), b)
    decreases |a|
  {
    if a == [] {
      assert a + b == b;
    } else {
      assert (a + b)[0] == a[0] && (a + b)[1..] == a[1..] + b;
      AfterSplits(opts, Next(st, Classify(a[0], opts.Delim())), a[1..], b);
    }
  }

  lemma AfterOne(opts: Options, st: State, line: string)
    ensures After(opts, st, [line]) == Next(st, Classify(line, opts.Delim()))
  {
    assert [line][1..] == [];
  }

  /** In every reachable state the pending annotations are those of the block above. */
  lemma {:induction false} StateIsBlockAbove(opts: Options, lines: seq<string>, i: nat)
    requires i <= |lines|
    ensures After(opts, INITIAL, lines[..i]) == StateOf(BlockAbove(opts, lines, i))
  {
    hide Classify;
    if i > 0 {
      StateIsBlockAbove(opts, lines, i - 1);
      assert lines[..i] == lines[..i - 1] + [lines[i - 1]];
      AfterSplits(opts, INITIAL, lines[..i - 1], [lines[i - 1]]);
      var st := StateOf(BlockAbove(opts, lines, i - 1));
      AfterOne(opts, st, lines[i - 1]);
      match Classify(lines[i - 1], opts.Delim())
      case Annotated(f) => AnnotateExtends(BlockAbove(opts, lines, i - 1), f);
      case _ =>
    }
  }

  lemma {:induction false} NamedOfNamed(vals: seq<string>)
    requires "none" !in vals
    ensures Named(vals) == vals
  {
    if vals != [] {
      var front, last := vals[..|vals| - 1], vals[|vals| - 1];
      NamedOfNamed(front);
      assert vals == front + [last] && last in vals;
    }
  }

  lemma BuiltIsDescribed(id: string, block: seq<Field>)
    ensures BuildRecipe(id, StateOf(block)) == Described(id, block)
  {
    BuiltParams(block);
    BuiltText(block, "name");
    BuiltText(block, "description");
    BuiltText(block, "risk");
    BuiltText(block, "output");
    BuiltText(block, "output-type");
    BuiltHints(block);
  }

  lemma BuiltParams(block: seq<Field>)
    ensures var vals := ParamValues(block);
            ParamsOf(StateOf(block)) ==
            if vals == [] then None else if "none" in vals then Some([]) else Some(Parsable(vals))
  {
    var vals := ParamValues(block);
    if "none" !in vals {
      NamedOfNamed(vals);
    }
  }

  lemma BuiltText(block: seq<Field>, key: string)
    requires key != "param"
    ensures Get(MetaOf(block), key) == ValueOf(block, key)
  {
  }

  lemma BuiltHints(block: seq<Field>)
    ensures HintsOf(MetaOf(block)) == ToolHints(HintOf(block, "read-only"), HintOf(block, "destructive"),
                                                HintOf(block, "idempotent"), HintOf(block, "open-world"))
  {
    BuiltHint(block, "read-only");
    BuiltHint(block, "destructive");
    BuiltHint(block, "idempotent");
    BuiltHint(block, "open-world");
  }

  lemma BuiltHint(block: seq<Field>, key: string)
    requires key != "param"
    ensures OptionalBool(MetaOf(block), key) == HintOf(block, key)
  {
  }

  lemma SomethingPending(block: seq<Field>)
    requires block != []
    ensures var st := StateOf(block); st.meta != map[] || st.paramsSeen
  {
    var f := block[|block| - 1];
    if f.key != "param" {
      assert LastValue(block, f.key).Some? && f.key in MetaOf(block);
    }
  }

  // ---- The look-back specification ----

  /** What line i contributes: a recipe when it is a target line, its name does not start with ".",
      and the block above it holds an annotation. */
  function Contribution(opts: Options, lines: seq<string>, i: nat): ParseResult
    requires i < |lines|
  {
    var block := BlockAbove(opts, lines, i);
    match Classify(lines[i], opts.Delim())
    case Target(id) =>
      if block != [] && !HasPrefix(id, ".") then
        ParseResult([Described(id, block)], Attach(id, Violations(opts, id, StateOf(block))))
      else NOTHING
    case _ => NOTHING
  }

  function Contributions(opts: Options, lines: seq<string>): seq<ParseResult> {
    seq(|lines|, i requires 0 <= i < |lines| => Contribution(opts, lines, i))
  }

  function JoinAll(parts: seq<ParseResult>): ParseResult {
    if parts == [] then NOTHING else parts[0].Join(JoinAll(parts[1..]))
  }

  /** What all the lines contribute, in order. */
  function BlockParse(opts: Options, lines: seq<string>): ParseResult {
    JoinAll(Contributions(opts, lines))
  }

  lemma EmitIsContribution(opts: Options, lines: seq<string>, i: nat)
    requires i < |lines|
    ensures Emit(opts, StateOf(BlockAbove(opts, lines, i)), Classify(lines[i], opts.Delim())) ==
            Contribution(opts, lines, i)
  {
    var block := BlockAbove(opts, lines, i);
    match Classify(lines[i], opts.Delim())
    case Target(id) =>
      BuiltIsDescribed(id, block);
      if block != [] {
        SomethingPending(block);
      }
    case _ =>
  }

  lemma {:induction false} ParseFromIsLookBack(opts: Options, lines: seq<string>, i: nat)
    requires i <= |lines|
    ensures Parse(opts, After(opts, INITIAL, lines[..i]), lines[i..]) == JoinAll(Contributions(opts, lines)[i..])
    decreases |lines| - i
  {
    hide Classify, Contribution, BlockAbove, Emit, Next, StateOf;
    if i < |lines| {
      ParseFromIsLookBack(opts, lines, i + 1);
      StateIsBlockAbove(opts, lines, i);
      EmitIsContribution(opts, lines, i);
      var st := After(opts, INITIAL, lines[..i]);
      assert lines[i..][0] == lines[i] && lines[i..][1..] == lines[i + 1..];
      var parts := Contributions(opts, lines);
      assert parts[i..][0] == parts[i] && parts[i..][1..] == parts[i + 1..];
      assert lines[..i + 1] == lines[..i] + [lines[i]];
      AfterSplits(opts, INITIAL, lines[..i], [lines[i]]);
      AfterOne(opts, st, lines[i]);
    }
  }

  /** The one-pass state machine refines the look-back specification. */
  lemma ParseIsLookBack(opts: Options, lines: seq<string>)
    ensures Parse(opts, INITIAL, lines) == BlockParse(opts, lines)
  {
    ParseFromIsLookBack(opts, lines, 0);
    assert lines[..0] == [] && lines[0..] == lines;
    assert Contributions(opts, lines)[0..] == Contributions(opts, lines);
  }

  // ---- The block above is the maximal run ----

  /** The annotations among some lines, in order. */
  function FieldsIn(opts: Options, lines: seq<string>): seq<Field> {
    if lines == [] then []
    else
      var kind := Classify(lines[|lines| - 1], opts.Delim());
      FieldsIn(opts, lines[..|lines| - 1]) + (if kind.Annotated? then [kind.field] else [])
  }

  /** j..i is the maximal run of annotation and comment lines that ends above line i. */
  predicate MaximalRun(opts: Options, lines: seq<string>, j: nat, i: nat)
    requires i <= |lines|
  {
    && j <= i
    && (forall k | j <= k < i :: InRun(Classify(lines[k], opts.Delim())))
    && (j > 0 ==> !InRun(Classify(lines[j - 1], opts.Delim())))
  }

  lemma FieldsOfMore(opts: Options, lines: seq<string>, line: string)
    ensures var kind := Classify(line, opts.Delim());
            FieldsIn(opts, lines + [line]) ==
            if kind.Annotated? then FieldsIn(opts, lines) + [kind.field] else FieldsIn(opts, lines)
  {
    assert (lines + [line])[..|lines|] == lines;
  }

  lemma {:induction false} BlockIsMaximalRun(opts: Options, lines: seq<string>, j: nat, i: nat)
    requires i <= |lines| && MaximalRun(opts, lines, j, i)
    ensures BlockAbove(opts, lines, i) == FieldsIn(opts, lines[j..i])
    decreases i
  {
    hide Classify;
    if j < i {
      BlockIsMaximalRun(opts, lines, j, i - 1);
      FieldsOfMore(opts, lines[j..i - 1], lines[i - 1]);
      assert lines[j..i] == lines[j..i - 1] + [lines[i - 1]];
      assert InRun(Classify(lines[i - 1], opts.Delim()));
    }
  }

  /** The last value of a key: an annotation with the key, and none with the key after it. */
  lemma {:induction false} LastValueIsLast(block: seq<Field>, key: string)
    ensures LastValue(block, key).None? <==> forall k | 0 <= k < |block| :: block[k].key != key
    ensures LastValue(block, key).Some? ==>
              exists k :: && 0 <= k < |block| && block[k] == Field(key, LastValue(block, key).value)
                          && forall l | k < l < |block| :: block[l].key != key
  {
    if block != [] {
      var front := block[..|block| - 1];
      LastValueIsLast(front, key);
      if block[|block| - 1].key != key && LastValue(front, key).Some? {
        var k :| && 0 <= k < |front| && front[k] == Field(key, LastValue(front, key).value)
                 && forall l | k < l < |front| :: front[l].key != key;
        assert block[k] == front[k];
        forall l | k < l < |block| ensures block[l].key != key {
          if l < |front| {
            assert block[l] == front[l];
          }
        }
      } else if block[|block| - 1].key != key {
        forall k | 0 <= k < |block| ensures block[k].key != key {
          if k < |front| {
            assert block[k] == front[k];
          }
        }
      }
    }
  }
}
