/** Parsing is compositional: blank lines separate, comments vanish, files concatenate. */
module Composition {
  import opened Text
  import opened Regex
  import opened Annotation
  import opened Schema
  import opened Parser
  import opened LookBack

  lemma {:induction false} ParseSplits(opts: Options, st: State, a: seq<string>, b: seq<string>)
    ensures Parse(opts, st, a + b) == Parse(opts, st, a).Join(Parse(opts, After(opts, st, a), b))
    decreases |a|
  {
    if a == [] {
      assert a + b == b;
    } else {
      assert (a + b)[0] == a[0] && (a + b)[1..] == a[1..] + b;
      var kind := Classify(a[0], opts.Delim());
      ParseSplits(opts, Next(st, kind), a[1..], b);
      JoinIsAssociative(Emit(opts, st, kind), Parse(opts, Next(st, kind), a[1..]),
                        Parse(opts, After(opts, st, a), b));
    }
  }

  /** A line of white space is blank, whatever the delimiter. */
  lemma BlankLines(line: string, delim: string)
    requires IsLine(line) && AllSpace(line)
    ensures Classify(line, delim) == Blank
  {
    AllSpaceTrimsAway(line);
    assert Trim(line) == [];
    ScanIsExtract(line, delim);
    assert Index(line, "#", 0).None? by {
      forall k | 0 <= k <= |line| ensures !OccursAt(line, "#", k) {
        OneCharOccurs(line, '#', k);
      }
    }
    assert MatchTarget([]).None?;
  }

  /** After a blank line nothing is pending, whatever came before. */
  lemma NothingPendingAfterBlank(opts: Options, lines: seq<string>, blank: string)
    requires Classify(blank, opts.Delim()) == Blank
    ensures After(opts, INITIAL, lines + [blank]) == INITIAL
  {
    var all := lines + [blank];
    StateIsBlockAbove(opts, all, |all|);
    assert all[..|all|] == all && all[|all| - 1] == blank;
    assert StateOf([]) == INITIAL;
  }

  /** The parse of two texts with a blank line between them is the parse of the one followed by
      the parse of the other. */
  lemma BlankSeparates(opts: Options, a: seq<string>, blank: string, b: seq<string>)
    requires IsLine(blank) && AllSpace(blank)
    ensures Parse(opts, INITIAL, a + [blank] + b) ==
            Parse(opts, INITIAL, a).Join(Parse(opts, INITIAL, b))
  {
    BlankLines(blank, opts.Delim());
    NothingPendingAfterBlank(opts, a, blank);
    ParseSplits(opts, INITIAL, a + [blank], b);
    ParseSplits(opts, INITIAL, a, [blank]);
    var st := After(opts, INITIAL, a);
    assert [blank][1..] == [];
    assert Parse(opts, st, [blank]) == NOTHING.Join(NOTHING) == NOTHING;
    assert Parse(opts, INITIAL, a).Join(NOTHING) == Parse(opts, INITIAL, a);
  }

  /** The lines without the plain comments. */
  function Essential(opts: Options, lines: seq<string>): seq<string> {
    if lines == [] then []
    else (if Classify(lines[0], opts.Delim()).Comment? then [] else [lines[0]]) + Essential(opts, lines[1..])
  }

  lemma {:induction false} CommentsVanish(opts: Options, st: State, lines: seq<string>)
    ensures Parse(opts, st, lines) == Parse(opts, st, Essential(opts, lines))
    decreases |lines|
  {
    hide Extract, MatchTarget;
    if lines != [] {
      var kind := Classify(lines[0], opts.Delim());
      var rest := Essential(opts, lines[1..]);
      CommentsVanish(opts, Next(st, kind), lines[1..]);
      if kind.Comment? {
        var r := Parse(opts, st, rest);
        assert Essential(opts, lines) == rest;
        assert NOTHING.Join(r) == r;
      } else {
        assert ([lines[0]] + rest)[1..] == rest;
      }
    }
  }

  /** Inserting or deleting plain comment lines anywhere changes nothing. */
  lemma CommentsDoNotMatter(opts: Options, a: seq<string>, b: seq<string>)
    requires Essential(opts, a) == Essential(opts, b)
    ensures Parse(opts, INITIAL, a) == Parse(opts, INITIAL, b)
  {
    CommentsVanish(opts, INITIAL, a);
    CommentsVanish(opts, INITIAL, b);
  }

  /** Without a delimiter the parse is that with "@". */
  lemma {:induction false} DefaultDelimiter(opts: Options, st: State, lines: seq<string>)
    ensures Parse(opts.(delimiter := ""), st, lines) == Parse(opts.(delimiter := "@"), st, lines)
    decreases |lines|
  {
    hide Classify, Next;
    if lines != [] {
      DefaultDelimiter(opts, Next(st, Classify(lines[0], "@")), lines[1..]);
    }
  }

  // ---- What a line does, by its characters ----

  /** The line is no annotation. */
  predicate Unannotated(opts: Options, line: string) {
    IsLine(line) && Scan(line, opts.Delim()).None?
  }

  lemma LineKinds(opts: Options, line: string)
    requires Unannotated(opts, line)
    ensures HasPrefix(Trim(line), "#") ==> Classify(line, opts.Delim()) == Comment
    ensures forall c: nat | SplitsTarget(Trim(line), c) ::
              Classify(line, opts.Delim()) == Target(Trim(Trim(line)[..c]))
    ensures !HasPrefix(Trim(line), "#") && Trim(line) != "" && (forall c: nat :: !SplitsTarget(Trim(line), c)) ==>
              Classify(line, opts.Delim()) == Other
  {
    hide Scan, Extract, MatchTarget, Trim;
    ScanIsExtract(line, opts.Delim());
    TargetLines(Trim(line));
    assert forall c: nat | SplitsTarget(Trim(line), c) :: In(Trim(line)[0], TargetChar);
  }

  /** A line that starts with "#" and annotates nothing can stand anywhere, also inside a block, without
      making a difference. */
  lemma CommentLinesVanish(opts: Options, a: seq<string>, line: string, b: seq<string>)
    requires Unannotated(opts, line) && HasPrefix(Trim(line), "#")
    ensures Parse(opts, INITIAL, a + [line] + b) == Parse(opts, INITIAL, a + b)
  {
    hide Classify, Unannotated, Emit;
    LineKinds(opts, line);
    assert a + [line] + b == a + ([line] + b);
    ParseSplits(opts, INITIAL, a, [line] + b);
    ParseSplits(opts, INITIAL, a, b);
    ReadOne(opts, After(opts, INITIAL, a), line, b);
    NothingIsEmitted(opts, After(opts, INITIAL, a), Comment);
  }

  lemma ReadOne(opts: Options, st: State, line: string, b: seq<string>)
    ensures var kind := Classify(line, opts.Delim());
            Parse(opts, st, [line] + b) == Emit(opts, st, kind).Join(Parse(opts, Next(st, kind), b))
  {
    assert ([line] + b)[1..] == b;
  }

  lemma NothingIsEmitted(opts: Options, st: State, kind: Kind)
    requires !kind.Target? || HasPrefix(kind.name, ".")
    ensures forall p: ParseResult :: Emit(opts, st, kind).Join(p) == p
    ensures forall p: ParseResult :: p.Join(Emit(opts, st, kind)) == p
  {
  }

  /** Any other line, such as an assignment or a recipe command, ends the block above it, and emits
      nothing. */
  lemma OtherLinesSeparate(opts: Options, a: seq<string>, line: string, b: seq<string>)
    requires Unannotated(opts, line) && !HasPrefix(Trim(line), "#") && Trim(line) != ""
    requires forall c: nat :: !SplitsTarget(Trim(line), c)
    ensures Parse(opts, INITIAL, a + [line] + b) == Parse(opts, INITIAL, a).Join(Parse(opts, INITIAL, b))
  {
    hide Classify, Unannotated, Emit, SplitsTarget;
    LineKinds(opts, line);
    assert a + [line] + b == a + ([line] + b);
    ParseSplits(opts, INITIAL, a, [line] + b);
    ReadOne(opts, After(opts, INITIAL, a), line, b);
    NothingIsEmitted(opts, After(opts, INITIAL, a), Other);
  }

  /** A target line uses up the block above it: what follows starts anew. A special target emits
      nothing. */
  lemma TargetLinesSeparate(opts: Options, a: seq<string>, line: string, b: seq<string>, c: nat)
    requires Unannotated(opts, line) && SplitsTarget(Trim(line), c)
    ensures Parse(opts, INITIAL, a + [line] + b) == Parse(opts, INITIAL, a + [line]).Join(Parse(opts, INITIAL, b))
    ensures HasPrefix(Trim(line), ".") ==> Parse(opts, INITIAL, a + [line]) == Parse(opts, INITIAL, a)
  {
    hide Classify, Unannotated, Emit;
    LineKinds(opts, line);
    ParseSplits(opts, INITIAL, a + [line], b);
    AfterSplits(opts, INITIAL, a, [line]);
    AfterOne(opts, After(opts, INITIAL, a), line);
    if HasPrefix(Trim(line), ".") {
      DotStays(Trim(line), c);
      ParseSplits(opts, INITIAL, a, [line]);
      assert [line] + [] == [line];
      ReadOne(opts, After(opts, INITIAL, a), line, []);
      NothingIsEmitted(opts, After(opts, INITIAL, a), Classify(line, opts.Delim()));
      var p := Parse(opts, INITIAL, a);
      assert p.Join(NOTHING) == p;
    }
  }

  lemma DotStays(s: string, c: nat)
    requires SplitsTarget(s, c) && HasPrefix(s, ".")
    ensures HasPrefix(Trim(s[..c]), ".")
  {
    var u := s[..c];
    assert s[0] == '.' == u[0];
    TrimRightIsPrefix(u);
    assert TrimLeft(u) == u;
    var rest := u[|TrimRight(u)|..];
    assert rest == u || TrimRight(u) != "";
  }

  // ---- Several files ----

  /** A Makefile as it is read: its path, and its lines unless it cannot be opened or scanned. */
  datatype File = File(path: string, lines: Option<seq<string>>)

  function TagRecipes(path: string, recipes: seq<Recipe>): seq<Recipe> {
    seq(|recipes|, i requires 0 <= i < |recipes| => recipes[i].(sourceFile := path))
  }

  function TagErrors(path: string, errors: seq<ValidationError>): seq<ValidationError> {
    seq(|errors|, i requires 0 <= i < |errors| => errors[i].(sourceFile := path))
  }

  function Tag(path: string, r: ParseResult): ParseResult {
    ParseResult(TagRecipes(path, r.recipes), TagErrors(path, r.errors))
  }

  predicate Readable(files: seq<File>) {
    forall i | 0 <= i < |files| :: files[i].lines.Some?
  }

  /** The merged results of readable files, in order. */
  function Merged(opts: Options, files: seq<File>): ParseResult
    requires Readable(files)
  {
    if files == [] then NOTHING
    else
      var last := files[|files| - 1];
      Merged(opts, files[..|files| - 1]).Join(Tag(last.path, Parse(opts, INITIAL, last.lines.value)))
  }

  /** ParseMakefiles: the merged results, or an error when some file cannot be read. */
  function ParseFiles(opts: Options, files: seq<File>): Option<ParseResult> {
    if Readable(files) then Some(Merged(opts, files)) else None
  }

  method ParseMakefiles(files: seq<File>, opts: Options) returns (r: Option<ParseResult>)
    ensures r == ParseFiles(opts, files)
  {
    var merged := ParseResult([], []);
    var i := 0;
    while i < |files|
      invariant 0 <= i <= |files|
      invariant Readable(files[..i]) && merged == Merged(opts, files[..i])
    {
      if files[i].lines.None? {
        return None;
      }
      assert files[..i + 1][..i] == files[..i];
      var result := ParseMakefile(files[i].lines.value, opts);
      var tagged := Tag(files[i].path, result);
      merged := ParseResult(merged.recipes + tagged.recipes, merged.errors + tagged.errors);
      i := i + 1;
    }
    assert files[..i] == files;
    r := Some(merged);
  }

  /** The lines of all files, each file followed by a blank line. */
  function AllLines(files: seq<File>): seq<string>
    requires Readable(files)
  {
    if files == [] then []
    else AllLines(files[..|files| - 1]) + files[|files| - 1].lines.value + [""]
  }

  lemma UntagJoin(path: string, a: ParseResult, b: ParseResult)
    ensures Tag("", a.Join(Tag(path, b))) == Tag("", a).Join(Tag("", b))
  {
  }

  lemma {:induction false} ParsesUntagged(opts: Options, st: State, lines: seq<string>)
    ensures Tag("", Parse(opts, st, lines)) == Parse(opts, st, lines)
    decreases |lines|
  {
    if lines != [] {
      var kind := Classify(lines[0], opts.Delim());
      ParsesUntagged(opts, Next(st, kind), lines[1..]);
      var head, rest := Emit(opts, st, kind), Parse(opts, Next(st, kind), lines[1..]);
      EmitsUntagged(opts, st, kind);
      TagJoins(head, rest);
    }
  }

  lemma EmitsUntagged(opts: Options, st: State, kind: Kind)
    ensures Tag("", Emit(opts, st, kind)) == Emit(opts, st, kind)
  {
  }

  lemma TagJoins(a: ParseResult, b: ParseResult)
    ensures Tag("", a.Join(b)) == Tag("", a).Join(Tag("", b))
  {
  }

  /** Apart from the source tags, parsing the files one by one and merging is one parse of all
      their lines with blank lines between the files. */
  lemma {:induction false} FilesAreOneText(opts: Options, files: seq<File>)
    requires Readable(files)
    ensures Tag("", Merged(opts, files)) == Parse(opts, INITIAL, AllLines(files))
  {
    if files != [] {
      var front, last := files[..|files| - 1], files[|files| - 1];
      FilesAreOneText(opts, front);
      var own := Parse(opts, INITIAL, last.lines.value);
      UntagJoin(last.path, Merged(opts, front), own);
      ParsesUntagged(opts, INITIAL, last.lines.value);
      AppendFile(opts, front, last.lines.value);
    }
  }

  lemma AppendFile(opts: Options, front: seq<File>, lines: seq<string>)
    requires Readable(front)
    ensures Parse(opts, INITIAL, AllLines(front) + lines + [""]) ==
            Parse(opts, INITIAL, AllLines(front)).Join(Parse(opts, INITIAL, lines))
  {
    hide Classify, Emit, Next;
    var above := AllLines(front);
    assert above + lines + [""] + [] == above + lines + [""];
    BlankSeparates(opts, above + lines, "", []);
    var both := Parse(opts, INITIAL, above + lines);
    assert both.Join(NOTHING) == both;
    if front == [] {
      assert above + lines == lines;
      assert NOTHING.Join(Parse(opts, INITIAL, lines)) == Parse(opts, INITIAL, lines);
    } else {
      var init := AllLines(front[..|front| - 1]) + front[|front| - 1].lines.value;
      assert above == init + [""] && init + [""] + [] == above;
      BlankSeparates(opts, init, "", lines);
      BlankSeparates(opts, init, "", []);
      var p := Parse(opts, INITIAL, init);
      assert p.Join(NOTHING) == p;
    }
  }
}
