/** Where recipes and errors come from: each file, and each target line in it, in order. */
module Provenance {
  import opened Schema
  import opened Parser
  import opened LookBack
  import opened Composition
  import opened Validation
  import opened Errors

  /** Line `line` of file `file`. */
  datatype Place = Place(file: nat, line: nat)

  // ---- One file ----

  /** The lines from i on that produce a recipe. */
  function LinesFrom(opts: Options, lines: seq<string>, i: nat): seq<nat>
    requires i <= |lines|
    decreases |lines| - i
  {
    if i == |lines| then []
    else (if Contributes(opts, lines, i) then [i] else []) + LinesFrom(opts, lines, i + 1)
  }

  lemma {:induction false} LinesExactly(opts: Options, lines: seq<string>, i: nat)
    requires i <= |lines|
    ensures forall l :: l in LinesFrom(opts, lines, i) <==> i <= l < |lines| && Contributes(opts, lines, l)
    ensures forall m, n | 0 <= m < n < |LinesFrom(opts, lines, i)| ::
              LinesFrom(opts, lines, i)[m] < LinesFrom(opts, lines, i)[n]
    decreases |lines| - i
  {
    hide Contributes;
    if i < |lines| {
      LinesExactly(opts, lines, i + 1);
      var rest := LinesFrom(opts, lines, i + 1);
      assert forall n | 0 <= n < |rest| :: rest[n] in rest;
    }
  }

  /** The recipe of a target line: its ID is the target, and the block above it describes the rest. */
  function RecipeOf(opts: Options, lines: seq<string>, i: nat): Recipe
    requires i < |lines| && Contributes(opts, lines, i)
  {
    Described(Classify(lines[i], opts.Delim()).name, BlockAbove(opts, lines, i))
  }

  predicate RecipesOf(opts: Options, lines: seq<string>, places: seq<nat>, recipes: seq<Recipe>) {
    && |recipes| == |places|
    && forall n | 0 <= n < |places| ::
         && places[n] < |lines| && Contributes(opts, lines, places[n])
         && recipes[n] == RecipeOf(opts, lines, places[n])
  }

  lemma {:induction false} RecipesFollowLines(opts: Options, lines: seq<string>, i: nat)
    requires i <= |lines|
    ensures RecipesOf(opts, lines, LinesFrom(opts, lines, i), JoinAll(Contributions(opts, lines)[i..]).recipes)
    decreases |lines| - i
  {
    hide Contributes, Contribution, RecipeOf, JoinAll, Contributions;
    if i < |lines| {
      RecipesFollowLines(opts, lines, i + 1);
      JoinedFrom(opts, lines, i);
      ContributesOne(opts, lines, i);
    } else {
      NothingJoined(opts, lines);
    }
  }

  lemma JoinedFrom(opts: Options, lines: seq<string>, i: nat)
    requires i < |lines|
    ensures JoinAll(Contributions(opts, lines)[i..]).recipes ==
            Contribution(opts, lines, i).recipes + JoinAll(Contributions(opts, lines)[i + 1..]).recipes
  {
    hide Contribution;
    var parts := Contributions(opts, lines);
    assert parts[i..][0] == parts[i] && parts[i..][1..] == parts[i + 1..];
  }

  lemma NothingJoined(opts: Options, lines: seq<string>)
    ensures JoinAll(Contributions(opts, lines)[|lines|..]).recipes == []
  {
    hide Contribution;
  }

  lemma ContributesOne(opts: Options, lines: seq<string>, i: nat)
    requires i < |lines|
    ensures Contribution(opts, lines, i).recipes ==
            if Contributes(opts, lines, i) then [RecipeOf(opts, lines, i)] else []
  {
    hide Described;
  }

  // ---- Several files ----

  function InFile(file: nat, lines: seq<nat>): seq<Place> {
    seq(|lines|, i requires 0 <= i < |lines| => Place(file, lines[i]))
  }

  /** All places that produce a recipe, file by file and line by line. */
  function Places(opts: Options, files: seq<File>): seq<Place>
    requires Readable(files)
  {
    if files == [] then []
    else
      var n := |files| - 1;
      Places(opts, files[..n]) + InFile(n, LinesFrom(opts, files[n].lines.value, 0))
  }

  predicate IsPlace(opts: Options, files: seq<File>, p: Place)
    requires Readable(files)
  {
    && p.file < |files| && p.line < |files[p.file].lines.value|
    && Contributes(opts, files[p.file].lines.value, p.line)
  }

  predicate Before(p: Place, q: Place) {
    p.file < q.file || (p.file == q.file && p.line < q.line)
  }

  /** Every place that produces a recipe is listed once, in order. */
  lemma {:induction false} PlacesExactly(opts: Options, files: seq<File>)
    requires Readable(files)
    ensures forall p :: p in Places(opts, files) <==> IsPlace(opts, files, p)
    ensures forall m, n | 0 <= m < n < |Places(opts, files)| ::
              Before(Places(opts, files)[m], Places(opts, files)[n])
  {
    hide Contributes, LinesFrom;
    if files != [] {
      var n := |files| - 1;
      var front, lines := files[..n], files[n].lines.value;
      PlacesExactly(opts, front);
      LinesExactly(opts, lines, 0);
      var above, more := Places(opts, front), InFile(n, LinesFrom(opts, lines, 0));
      forall m | 0 <= m < |above| ensures above[m].file < n {
        assert above[m] in above;
      }
      forall p ensures p in more <==> p.file == n && p.line in LinesFrom(opts, lines, 0) {
        if p.file == n && p.line in LinesFrom(opts, lines, 0) {
          var i :| 0 <= i < |more| && LinesFrom(opts, lines, 0)[i] == p.line;
          assert more[i] == p;
        }
      }
      forall p ensures p in Places(opts, files) <==> IsPlace(opts, files, p) {
        assert p.file < n ==> front[p.file] == files[p.file];
      }
    }
  }

  /** The recipe of a place, with the path of its file. */
  function RecipeAt(opts: Options, files: seq<File>, p: Place): Recipe
    requires Readable(files) && IsPlace(opts, files, p)
  {
    RecipeOf(opts, files[p.file].lines.value, p.line).(sourceFile := files[p.file].path)
  }

  predicate RecipesAt(opts: Options, files: seq<File>, places: seq<Place>, recipes: seq<Recipe>)
    requires Readable(files)
  {
    && |recipes| == |places|
    && forall n | 0 <= n < |places| ::
         IsPlace(opts, files, places[n]) && recipes[n] == RecipeAt(opts, files, places[n])
  }

  /** The recipes of several files are those of their places, in order. */
  lemma {:induction false} RecipesHavePlaces(opts: Options, files: seq<File>)
    requires Readable(files)
    ensures RecipesAt(opts, files, Places(opts, files), Merged(opts, files).recipes)
  {
    hide Contributes, LinesFrom, RecipeOf, RecipesAt, RecipesOf, Parse, JoinAll, Contributions;
    if files != [] {
      var n := |files| - 1;
      var front, lines := files[..n], files[n].lines.value;
      RecipesHavePlaces(opts, front);
      ParseIsLookBack(opts, lines);
      RecipesFollowLines(opts, lines, 0);
      assert Contributions(opts, lines)[0..] == Contributions(opts, lines);
      var more := InFile(n, LinesFrom(opts, lines, 0));
      RecipesAtLast(opts, files, LinesFrom(opts, lines, 0), Parse(opts, INITIAL, lines));
      RecipesAtJoin(opts, files, Places(opts, front), Merged(opts, front).recipes, more,
                    Tag(files[n].path, Parse(opts, INITIAL, lines)).recipes);
    } else {
      NothingPlaced(opts, files);
    }
  }

  lemma NothingPlaced(opts: Options, files: seq<File>)
    requires Readable(files)
    ensures RecipesAt(opts, files, [], [])
  {
  }

  /** The places of the files before the last stay as they are. */
  lemma RecipesAtJoin(opts: Options, files: seq<File>, a: seq<Place>, ra: seq<Recipe>, b: seq<Place>, rb: seq<Recipe>)
    requires files != [] && Readable(files)
    requires RecipesAt(opts, files[..|files| - 1], a, ra) && RecipesAt(opts, files, b, rb)
    ensures RecipesAt(opts, files, a + b, ra + rb)
  {
    hide Contributes, RecipeOf;
    var front := files[..|files| - 1];
    forall m | 0 <= m < |a| ensures IsPlace(opts, files, a[m]) && ra[m] == RecipeAt(opts, files, a[m]) {
      assert IsPlace(opts, front, a[m]) && files[a[m].file] == front[a[m].file];
    }
  }

  lemma RecipesAtLast(opts: Options, files: seq<File>, places: seq<nat>, p: ParseResult)
    requires files != [] && Readable(files)
    requires RecipesOf(opts, files[|files| - 1].lines.value, places, p.recipes)
    ensures var n := |files| - 1; RecipesAt(opts, files, InFile(n, places), Tag(files[n].path, p).recipes)
  {
    hide Contributes, RecipeOf;
  }

  // ---- Errors ----

  /** The block above the target line of this name commits the violation. */
  ghost predicate Commits(opts: Options, lines: seq<string>, i: nat, id: string, v: Violation)
    requires i < |lines|
  {
    && Contributes(opts, lines, i) && id == Classify(lines[i], opts.Delim()).name
    && Violates(opts, id, BlockAbove(opts, lines, i), v)
  }

  /** The error is for a violation at this place, under the target's name and the path of the file. */
  ghost predicate Reports(opts: Options, files: seq<File>, p: Place, e: ValidationError)
    requires Readable(files)
  {
    && p.file < |files| && p.line < |files[p.file].lines.value|
    && Commits(opts, files[p.file].lines.value, p.line, e.recipeID, e.err)
    && e.sourceFile == files[p.file].path
  }

  lemma AttachedExactly(id: string, violations: seq<Violation>, e: ValidationError)
    ensures e in Attach(id, violations) <==> e.recipeID == id && e.sourceFile == "" && e.err in violations
  {
    if e.recipeID == id && e.sourceFile == "" && e.err in violations {
      var i :| 0 <= i < |violations| && violations[i] == e.err;
      assert Attach(id, violations)[i] == e;
    }
  }

  lemma LineErrors(opts: Options, lines: seq<string>, i: nat, e: ValidationError)
    requires i < |lines|
    ensures e in Contribution(opts, lines, i).errors <==>
            e.sourceFile == "" && Commits(opts, lines, i, e.recipeID, e.err)
  {
    hide Violates, Violations, Described, StateOf;
    if Contributes(opts, lines, i) {
      var id, block := Classify(lines[i], opts.Delim()).name, BlockAbove(opts, lines, i);
      AttachedExactly(id, Violations(opts, id, StateOf(block)), e);
      ViolationsExactly(opts, id, block, e.err);
    }
  }

  lemma {:induction false} JoinedErrors(parts: seq<ParseResult>, e: ValidationError)
    ensures e in JoinAll(parts).errors <==> exists k :: 0 <= k < |parts| && e in parts[k].errors
  {
    if parts != [] {
      JoinedErrors(parts[1..], e);
      assert forall k | 1 <= k < |parts| :: parts[k] == parts[1..][k - 1];
      assert parts == [parts[0]] + parts[1..];
    }
  }

  lemma FileErrors(opts: Options, lines: seq<string>, e: ValidationError)
    ensures e in Parse(opts, INITIAL, lines).errors <==>
            e.sourceFile == "" && exists i :: 0 <= i < |lines| && Commits(opts, lines, i, e.recipeID, e.err)
  {
    hide Commits, Contribution, Parse;
    ParseIsLookBack(opts, lines);
    var parts := Contributions(opts, lines);
    JoinedErrors(parts, e);
    forall i | 0 <= i < |lines|
      ensures e in parts[i].errors <==> e.sourceFile == "" && Commits(opts, lines, i, e.recipeID, e.err)
    {
      LineErrors(opts, lines, i, e);
    }
  }

  lemma TaggedErrors(path: string, errors: seq<ValidationError>, e: ValidationError)
    requires forall f | f in errors :: f.sourceFile == ""
    ensures e in TagErrors(path, errors) <==> e.sourceFile == path && e.(sourceFile := "") in errors
  {
    if e.sourceFile == path && e.(sourceFile := "") in errors {
      var i :| 0 <= i < |errors| && errors[i] == e.(sourceFile := "");
      assert TagErrors(path, errors)[i] == e;
    }
    if e in TagErrors(path, errors) {
      var i :| 0 <= i < |errors| && TagErrors(path, errors)[i] == e;
      assert errors[i] in errors;
    }
  }

  lemma LastFileErrors(opts: Options, file: File, e: ValidationError)
    requires file.lines.Some?
    ensures e in TagErrors(file.path, Parse(opts, INITIAL, file.lines.value).errors) <==>
            e.sourceFile == file.path
            && exists i :: 0 <= i < |file.lines.value| && Commits(opts, file.lines.value, i, e.recipeID, e.err)
  {
    hide Commits, Parse, TagErrors;
    var errors := Parse(opts, INITIAL, file.lines.value).errors;
    forall f | f in errors ensures f.sourceFile == "" {
      FileErrors(opts, file.lines.value, f);
    }
    TaggedErrors(file.path, errors, e);
    FileErrors(opts, file.lines.value, e.(sourceFile := ""));
  }

  /** An error is in the result exactly when some block commits its violation, and then it carries the
      target's name and the file's path. */
  lemma {:induction false} ErrorsHavePlaces(opts: Options, files: seq<File>, e: ValidationError)
    requires Readable(files)
    ensures e in Merged(opts, files).errors <==> exists p :: Reports(opts, files, p, e)
  {
    hide Commits, Parse, TagErrors;
    if files != [] {
      var front, last := files[..|files| - 1], files[|files| - 1];
      ErrorsHavePlaces(opts, front, e);
      LastFileErrors(opts, last, e);
      if p :| Reports(opts, front, p, e) {
        assert front[p.file] == files[p.file] && Reports(opts, files, p, e);
      }
      if i: nat :| && i < |last.lines.value| && e.sourceFile == last.path
                   && Commits(opts, last.lines.value, i, e.recipeID, e.err)
      {
        assert Reports(opts, files, Place(|front|, i), e);
      }
      if p :| Reports(opts, files, p, e) {
        if p.file < |front| {
          assert front[p.file] == files[p.file] && Reports(opts, front, p, e);
        }
      }
    }
  }
}
