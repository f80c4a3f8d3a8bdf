/** internal/covercheck/covercheck.go: coverage totals, in exact arithmetic. The profile is read into one
    object of counters for each file, and the totals of these objects give the weighted coverage, whatever
    the order of the lines and of the files; it is a weighted mean of the ratios that are reported for the
    single files. */
module Coverage {
  import opened Text

  /** A profile line: a block of statements of a file with its execution count, or a line that the
      parser skips. */
  datatype Line = Skipped | Block(file: string, stmts: nat, count: nat)

  class FileEntry {
    var covered: int
    var total: int

    constructor ()
      ensures covered == total == 0
    {
      covered, total := 0, 0;
    }
  }

  // ---- Sums over lines ----

  /** The statements of the blocks of some files: all of them, or the executed ones. */
  function Sum(lines: seq<Line>, files: set<string>, executed: bool): nat {
    if lines == [] then 0
    else
      var last := lines[|lines| - 1];
      Sum(lines[..|lines| - 1], files, executed)
      + (if last.Block? && last.file in files && (!executed || last.count > 0) then last.stmts else 0)
  }

  function Total(lines: seq<Line>, file: string): nat { Sum(lines, {file}, false) }

  function Covered(lines: seq<Line>, file: string): nat { Sum(lines, {file}, true) }

  function Files(lines: seq<Line>): set<string> {
    set l | l in lines && l.Block? :: l.file
  }

  lemma {:induction false} SumSplits(lines: seq<Line>, files: set<string>, file: string, executed: bool)
    requires file !in files
    ensures Sum(lines, files + {file}, executed) == Sum(lines, files, executed) + Sum(lines, {file}, executed)
  {
    if lines != [] {
      SumSplits(lines[..|lines| - 1], files, file, executed);
    }
  }

  lemma {:induction false} ExecutedIsLess(lines: seq<Line>, files: set<string>)
    ensures Sum(lines, files, true) <= Sum(lines, files, false)
  {
    if lines != [] {
      ExecutedIsLess(lines[..|lines| - 1], files);
    }
  }

  lemma {:induction false} EmptySum(lines: seq<Line>, executed: bool)
    ensures Sum(lines, {}, executed) == 0
  {
    if lines != [] {
      EmptySum(lines[..|lines| - 1], executed);
    }
  }

  // ---- parseProfile ----

  /** One object for every file of a set, with the counts of the lines. */
  ghost predicate HoldsFor(entries: map<string, FileEntry>, lines: seq<Line>, files: set<string>)
    reads set f | f in entries :: entries[f]
  {
    && entries.Keys == files
    && (forall f, g | f in entries && g in entries && f != g :: entries[f] != entries[g])
    && (forall f | f in entries :: entries[f].total == Total(lines, f) && entries[f].covered == Covered(lines, f))
  }

  /** The entries of a profile: one object for every file with a block. */
  ghost predicate Holds(entries: map<string, FileEntry>, lines: seq<Line>)
    reads set f | f in entries :: entries[f]
  {
    HoldsFor(entries, lines, Files(lines))
  }

  lemma {:induction false} UnseenFileIsZero(lines: seq<Line>, file: string, executed: bool)
    requires file !in Files(lines)
    ensures Sum(lines, {file}, executed) == 0
  {
    if lines != [] {
      var front, last := lines[..|lines| - 1], lines[|lines| - 1];
      assert last in lines;
      assert forall l | l in front :: l in lines;
      UnseenFileIsZero(front, file, executed);
    }
  }

  lemma FilesOfMore(lines: seq<Line>, line: Line)
    ensures Files(lines + [line]) == if line.Block? then Files(lines) + {line.file} else Files(lines)
  {
    assert forall l :: l in lines + [line] <==> l in lines || l == line;
  }

  lemma SumOfMore(lines: seq<Line>, line: Line, file: string, executed: bool)
    ensures Sum(lines + [line], {file}, executed) ==
            Sum(lines, {file}, executed)
            + (if line.Block? && line.file == file && (!executed || line.count > 0) then line.stmts else 0)
  {
    assert (lines + [line])[..|lines|] == lines;
  }

  /** The entry of a block's file, made when there is none yet. */
  method EntryFor(entries: map<string, FileEntry>, file: string, ghost lines: seq<Line>)
    returns (more: map<string, FileEntry>)
    requires Holds(entries, lines)
    ensures HoldsFor(more, lines, Files(lines) + {file})
    ensures forall f | f in more :: (f in entries && more[f] == entries[f]) || fresh(more[f])
  {
    more := entries;
    if file !in entries {
      UnseenFileIsZero(lines, file, true);
      UnseenFileIsZero(lines, file, false);
      var e := new FileEntry();
      more := entries[file := e];
    }
  }

  /** The counts of one more block. */
  method Count(e: FileEntry, stmts: nat, count: nat)
    modifies e
    ensures e.total == old(e.total) + stmts
    ensures e.covered == old(e.covered) + (if count > 0 then stmts else 0)
  {
    e.total := e.total + stmts;
    if count > 0 {
      e.covered := e.covered + stmts;
    }
  }

  lemma NothingCounted()
    ensures Files([]) == {}
  {
  }

  /** parseProfile, over lines that are already split. */
  method ParseProfile(lines: seq<Line>) returns (entries: map<string, FileEntry>)
    ensures Holds(entries, lines)
    ensures forall f | f in entries :: fresh(entries[f])
  {
    hide Sum, Files;
    entries := map[];
    NothingCounted();
    var i := 0;
    while i < |lines|
      invariant 0 <= i <= |lines|
      invariant forall f | f in entries :: fresh(entries[f])
      invariant Holds(entries, lines[..i])
    {
      var line := lines[i];
      ghost var read := lines[..i];
      assert lines[..i + 1] == read + [line];
      FilesOfMore(read, line);
      forall f ensures Total(read + [line], f) ==
                       Total(read, f) + (if line.Block? && line.file == f then line.stmts else 0)
      {
        SumOfMore(read, line, f, false);
      }
      forall f ensures Covered(read + [line], f) ==
                       Covered(read, f) + (if line.Block? && line.file == f && line.count > 0 then line.stmts else 0)
      {
        SumOfMore(read, line, f, true);
      }
      if line.Block? {
        entries := EntryFor(entries, line.file, read);
        Count(entries[line.file], line.stmts, line.count);
      }
      i := i + 1;
    }
    assert lines[..i] == lines;
  }

  /** statementCoverage: the entries are visited in any order; None stands for -1. */
  method StatementCoverage(entries: map<string, FileEntry>, ghost lines: seq<Line>) returns (r: Option<real>)
    requires Holds(entries, lines)
    ensures r == Overall(lines)
  {
    var covered, total := 0, 0;
    var left := entries.Keys;
    EmptySum(lines, true);
    EmptySum(lines, false);
    assert entries.Keys - left == {};
    while left != {}
      invariant left <= entries.Keys
      invariant covered == Sum(lines, entries.Keys - left, true)
      invariant total == Sum(lines, entries.Keys - left, false)
    {
      var f :| f in left;
      SumSplits(lines, entries.Keys - left, f, true);
      SumSplits(lines, entries.Keys - left, f, false);
      assert entries.Keys - (left - {f}) == entries.Keys - left + {f};
      covered := covered + entries[f].covered;
      total := total + entries[f].total;
      left := left - {f};
    }
    assert entries.Keys - {} == Files(lines);
    if total == 0 {
      return None;
    }
    r := Some(covered as real / total as real);
  }

  /** Weighted coverage over all well-formed lines. */
  function Overall(lines: seq<Line>): Option<real> {
    var total := Sum(lines, Files(lines), false);
    if total == 0 then None else Some(Sum(lines, Files(lines), true) as real / total as real)
  }

  /** The ratio that printPerFile reports. */
  function PerFile(lines: seq<Line>, file: string): real {
    if Total(lines, file) > 0 then Covered(lines, file) as real / Total(lines, file) as real else 0.0
  }

  /** A block with statements that was executed, or was not. */
  predicate HasRun(l: Line) { l.Block? && l.stmts > 0 && l.count > 0 }

  predicate IsIdle(l: Line) { l.Block? && l.stmts > 0 && l.count == 0 }

  predicate NoneIdle(lines: seq<Line>, files: set<string>) {
    forall l | l in lines :: !(IsIdle(l) && l.file in files)
  }

  predicate NoneHasRun(lines: seq<Line>, files: set<string>) {
    forall l | l in lines :: !(HasRun(l) && l.file in files)
  }

  lemma {:induction false} SumExtremes(lines: seq<Line>, files: set<string>)
    ensures Sum(lines, files, true) == Sum(lines, files, false) <==> NoneIdle(lines, files)
    ensures Sum(lines, files, true) == 0 <==> NoneHasRun(lines, files)
    ensures Sum(lines, files, false) == 0 <==> NoneIdle(lines, files) && NoneHasRun(lines, files)
  {
    if lines != [] {
      var front, last := lines[..|lines| - 1], lines[|lines| - 1];
      assert lines == front + [last];
      assert NoneIdle(lines, files) <==> NoneIdle(front, files) && !(IsIdle(last) && last.file in files);
      assert NoneHasRun(lines, files) <==> NoneHasRun(front, files) && !(HasRun(last) && last.file in files);
      SumExtremes(front, files);
      ExecutedIsLess(front, files);
    }
  }

  /** There is no overall coverage exactly when no block has statements; it is full exactly when every
      block with statements was executed, and zero exactly when none was. The ratio of one file is full
      when it also has a statement. */
  lemma CoverageExtremes(lines: seq<Line>, file: string)
    ensures Overall(lines).None? <==> forall l | l in lines :: !IsIdle(l) && !HasRun(l)
    ensures Overall(lines).Some? ==>
              && (Overall(lines).value == 1.0 <==> forall l | l in lines :: !IsIdle(l))
              && (Overall(lines).value == 0.0 <==> forall l | l in lines :: !HasRun(l))
    ensures PerFile(lines, file) == 1.0 <==> NoneIdle(lines, {file}) && !NoneHasRun(lines, {file})
    ensures PerFile(lines, file) == 0.0 <==> NoneHasRun(lines, {file})
  {
    hide Sum, HasRun, IsIdle;
    SumExtremes(lines, Files(lines));
    SumExtremes(lines, {file});
    AllFiles(lines);
    ExecutedIsLess(lines, {file});
    var covered, total := Sum(lines, Files(lines), true), Sum(lines, Files(lines), false);
    if total > 0 {
      Ratio(covered, total);
    }
    if Total(lines, file) > 0 {
      Ratio(Covered(lines, file), Total(lines, file));
    }
  }

  lemma AllFiles(lines: seq<Line>)
    ensures NoneIdle(lines, Files(lines)) <==> forall l | l in lines :: !IsIdle(l)
    ensures NoneHasRun(lines, Files(lines)) <==> forall l | l in lines :: !HasRun(l)
  {
  }

  lemma Ratio(c: nat, t: nat)
    requires t > 0
    ensures c as real / t as real == 1.0 <==> c == t
    ensures c as real / t as real == 0.0 <==> c == 0
  {
    assert c as real / t as real * t as real == c as real;
  }

  // ---- Order of the lines ----

  lemma {:induction false} SumOfJoin(a: seq<Line>, b: seq<Line>, files: set<string>, executed: bool)
    ensures Sum(a + b, files, executed) == Sum(a, files, executed) + Sum(b, files, executed)
    decreases |b|
  {
    if b == [] {
      assert a + b == a;
    } else {
      var front := b[..|b| - 1];
      assert (a + b)[..|a + b| - 1] == a + front;
      SumOfJoin(a, front, files, executed);
    }
  }

  lemma RemoveAt(b: seq<Line>, k: nat, files: set<string>, executed: bool)
    requires k < |b|
    ensures multiset(b[..k] + b[k + 1..]) == multiset(b) - multiset{b[k]}
    ensures Sum(b, files, executed) == Sum(b[..k] + b[k + 1..], files, executed) + Sum([b[k]], files, executed)
  {
    var left, right := b[..k], b[k + 1..];
    assert b == left + [b[k]] + right;
    SumOfJoin(left + [b[k]], right, files, executed);
    SumOfJoin(left, [b[k]], files, executed);
    SumOfJoin(left, right, files, executed);
  }

  lemma {:induction false} OrderDoesNotMatter(a: seq<Line>, b: seq<Line>, files: set<string>, executed: bool)
    requires multiset(a) == multiset(b)
    ensures Sum(a, files, executed) == Sum(b, files, executed)
    decreases |a|
  {
    if a == [] {
      assert |multiset(b)| == 0;
    } else {
      var n := |a| - 1;
      assert a[n] in multiset(b);
      var k :| 0 <= k < |b| && b[k] == a[n];
      RemoveAt(a, n, files, executed);
      RemoveAt(b, k, files, executed);
      OrderDoesNotMatter(a[..n] + a[n + 1..], b[..k] + b[k + 1..], files, executed);
    }
  }

  /** Reordering the lines changes no per-file ratio and not the overall coverage. */
  lemma CoverageIgnoresOrder(a: seq<Line>, b: seq<Line>, file: string)
    requires multiset(a) == multiset(b)
    ensures PerFile(a, file) == PerFile(b, file) && Overall(a) == Overall(b)
  {
    forall l ensures l in a <==> l in b {
      assert l in a <==> l in multiset(a);
      assert l in b <==> l in multiset(b);
    }
    assert Files(a) == Files(b);
    OrderDoesNotMatter(a, b, {file}, true);
    OrderDoesNotMatter(a, b, {file}, false);
    OrderDoesNotMatter(a, b, Files(a), true);
    OrderDoesNotMatter(a, b, Files(a), false);
  }

  // ---- The overall coverage is a weighted mean ----

  /** q * n, by repeated addition. */
  function Times(q: real, n: nat): real {
    if n == 0 then 0.0 else Times(q, n - 1) + q
  }

  lemma {:induction false} TimesAdds(q: real, a: nat, b: nat)
    ensures Times(q, a + b) == Times(q, a) + Times(q, b)
  {
    if b > 0 {
      TimesAdds(q, a, b - 1);
    }
  }

  lemma {:induction false} TimesIsProduct(q: real, n: nat)
    ensures Times(q, n) == q * n as real
  {
    if n > 0 {
      TimesIsProduct(q, n - 1);
    }
  }

  lemma CompareRatio(c: nat, t: nat, q: real)
    requires t > 0
    ensures c as real / t as real >= q <==> c as real >= Times(q, t)
    ensures c as real / t as real <= q <==> c as real <= Times(q, t)
  {
    TimesIsProduct(q, t);
    var x, y := c as real / t as real, t as real;
    assert x * y == c as real;
    Monotone(x, q, y);
    Monotone(q, x, y);
  }

  lemma Monotone(a: real, b: real, y: real)
    requires y > 0.0
    ensures a <= b <==> a * y <= b * y
  {
    if a <= b {
      assert (b - a) * y >= 0.0;
    } else {
      assert (a - b) * y > 0.0;
    }
  }

  /** At or above q in the sum over some files. */
  predicate Above(lines: seq<Line>, files: set<string>, q: real) {
    Sum(lines, files, true) as real >= Times(q, Sum(lines, files, false))
  }

  predicate Below(lines: seq<Line>, files: set<string>, q: real) {
    Sum(lines, files, true) as real <= Times(q, Sum(lines, files, false))
  }

  lemma AddFile(lines: seq<Line>, files: set<string>, f: string, q: real)
    requires f in files
    ensures Sum(lines, files, true) == Sum(lines, files - {f}, true) + Covered(lines, f)
    ensures Sum(lines, files, false) == Sum(lines, files - {f}, false) + Total(lines, f)
    ensures Times(q, Sum(lines, files, false)) == Times(q, Sum(lines, files - {f}, false)) + Times(q, Total(lines, f))
  {
    SumSplits(lines, files - {f}, f, true);
    SumSplits(lines, files - {f}, f, false);
    assert files - {f} + {f} == files;
    TimesAdds(q, Sum(lines, files - {f}, false), Total(lines, f));
  }

  lemma {:induction false} SumsAreAbove(lines: seq<Line>, files: set<string>, q: real)
    requires forall f | f in files :: Above(lines, {f}, q)
    ensures Above(lines, files, q)
    decreases files
  {
    if files == {} {
      EmptySum(lines, true);
      EmptySum(lines, false);
    } else {
      var f :| f in files;
      SumsAreAbove(lines, files - {f}, q);
      AddFile(lines, files, f, q);
      assert Above(lines, {f}, q);
    }
  }

  lemma {:induction false} SumsAreBelow(lines: seq<Line>, files: set<string>, q: real)
    requires forall f | f in files :: Below(lines, {f}, q)
    ensures Below(lines, files, q)
    decreases files
  {
    if files == {} {
      EmptySum(lines, true);
      EmptySum(lines, false);
    } else {
      var f :| f in files;
      SumsAreBelow(lines, files - {f}, q);
      AddFile(lines, files, f, q);
      assert Below(lines, {f}, q);
    }
  }

  lemma CompareFile(lines: seq<Line>, f: string, q: real)
    ensures Total(lines, f) > 0 ==> (PerFile(lines, f) >= q <==> Above(lines, {f}, q))
    ensures Total(lines, f) > 0 ==> (PerFile(lines, f) <= q <==> Below(lines, {f}, q))
    ensures Total(lines, f) == 0 ==> Above(lines, {f}, q) && Below(lines, {f}, q)
  {
    ExecutedIsLess(lines, {f});
    if Total(lines, f) > 0 {
      CompareRatio(Covered(lines, f), Total(lines, f), q);
    }
  }

  lemma CompareOverall(lines: seq<Line>, q: real)
    requires Overall(lines).Some?
    ensures Overall(lines).value >= q <==> Above(lines, Files(lines), q)
    ensures Overall(lines).value <= q <==> Below(lines, Files(lines), q)
  {
    CompareRatio(Sum(lines, Files(lines), true), Sum(lines, Files(lines), false), q);
  }

  /** The overall coverage meets every threshold that all files with statements meet, and exceeds no
      value that none of them exceeds. */
  lemma OverallIsBetween(lines: seq<Line>, low: real, high: real)
    requires Overall(lines).Some?
    requires forall f | f in Files(lines) && Total(lines, f) > 0 :: low <= PerFile(lines, f) <= high
    ensures low <= Overall(lines).value <= high
  {
    forall f | f in Files(lines) ensures Above(lines, {f}, low) && Below(lines, {f}, high) {
      CompareFile(lines, f, low);
      CompareFile(lines, f, high);
    }
    SumsAreAbove(lines, Files(lines), low);
    SumsAreBelow(lines, Files(lines), high);
    CompareOverall(lines, low);
    CompareOverall(lines, high);
  }

  /** Some files with statements are at or below the overall coverage, some at or above it. */
  lemma OverallIsAMean(lines: seq<Line>) returns (f: string, g: string)
    requires Overall(lines).Some?
    ensures f in Files(lines) && g in Files(lines) && Total(lines, f) > 0 && Total(lines, g) > 0
    ensures PerFile(lines, f) <= Overall(lines).value <= PerFile(lines, g)
    ensures 0.0 <= Overall(lines).value <= 1.0
  {
    var q, files := Overall(lines).value, Files(lines);
    CompareOverall(lines, q);
    f := Extreme(lines, files, q, true);
    g := Extreme(lines, files, q, false);
    CompareFile(lines, f, q);
    CompareFile(lines, g, q);
    ExecutedIsLess(lines, files);
    CompareOverall(lines, 0.0);
    CompareOverall(lines, 1.0);
    TimesIsProduct(0.0, Sum(lines, files, false));
    TimesIsProduct(1.0, Sum(lines, files, false));
  }

  /** A file with statements on the given side of q, when the sum over the files is on that side. */
  lemma {:induction false} Extreme(lines: seq<Line>, files: set<string>, q: real, below: bool) returns (f: string)
    requires Sum(lines, files, false) > 0
    requires if below then Below(lines, files, q) else Above(lines, files, q)
    ensures f in files && Total(lines, f) > 0
    ensures if below then Below(lines, {f}, q) else Above(lines, {f}, q)
    decreases files
  {
    EmptySum(lines, false);
    EmptySum(lines, true);
    assert files != {};
    f :| f in files;
    AddFile(lines, files, f, q);
    ExecutedIsLess(lines, {f});
    ExecutedIsLess(lines, files - {f});
    if Total(lines, f) == 0 || !(if below then Below(lines, {f}, q) else Above(lines, {f}, q)) {
      f := Extreme(lines, files - {f}, q, below);
    }
  }
}
