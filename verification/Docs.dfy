/** cmd/gen-metrics-doc/main.go: the parts of the generator that compute. Newlines are normalised: runs of
    three or more become two, and exactly one ends the text, which is decided by the shape of the text
    alone. The keys found for a metric's fields are merged without duplicates, in the order in which they
    are found, and sorted at the end, so that the list does not depend on the order of functions, of their
    fields, or of the files. */
module Docs {

  // ---- normalizeNewlines ----

  /** Length of the run of newlines that starts the text. */
  function Leading(s: string): (n: nat)
    ensures n <= |s| && (n < |s| ==> s[n] != '\n')
    ensures forall i | 0 <= i < n :: s[i] == '\n'
  {
    if s != [] && s[0] == '\n' then 1 + Leading(s[1..]) else 0
  }

  /** Replacing every match of \n{3,}: leftmost, and as long as possible. */
  function Collapse(s: string): string {
    if s == [] then []
    else if Leading(s) >= 3 then "\n\n" + Collapse(s[Leading(s)..])
    else [s[0]] + Collapse(s[1..])
  }

  function TrimNewlines(s: string): string {
    if s != [] && s[|s| - 1] == '\n' then TrimNewlines(s[..|s| - 1]) else s
  }

  /** normalizeNewlines */
  function Normalize(s: string): string {
    TrimNewlines(Collapse(s)) + "\n"
  }

  /** At most one blank line in a row, and exactly one newline at the end. */
  predicate Normal(s: string) {
    && s != [] && s[|s| - 1] == '\n'
    && (|s| > 1 ==> s[|s| - 2] != '\n')
    && forall i | 0 <= i < |s| - 2 :: !(s[i] == s[i + 1] == s[i + 2] == '\n')
  }

  function Cap(n: nat): nat {
    if n > 2 then 2 else n
  }

  function Newlines(n: nat): string {
    seq(n, i => '\n')
  }

  datatype Glyph = Glyph(gap: nat, c: char)

  /** Each visible character in order, with the newlines before it counted up to two; `gap`
      newlines were read already. */
  function Shape(s: string, gap: nat): seq<Glyph> {
    if s == [] then []
    else if s[0] == '\n' then Shape(s[1..], gap + 1)
    else [Glyph(Cap(gap), s[0])] + Shape(s[1..], 0)
  }

  function Render(shape: seq<Glyph>): string {
    if shape == [] then [] else Newlines(shape[0].gap) + [shape[0].c] + Render(shape[1..])
  }

  predicate IsShape(shape: seq<Glyph>) {
    forall g | g in shape :: g.gap <= 2 && g.c != '\n'
  }

  lemma {:induction false} TrimKeepsPrefix(a: string, c: char, b: string)
    requires c != '\n'
    ensures TrimNewlines(a + [c] + b) == a + [c] + TrimNewlines(b)
  {
    var s := a + [c] + b;
    if b != [] && b[|b| - 1] == '\n' {
      assert s[..|s| - 1] == a + [c] + b[..|b| - 1];
      TrimKeepsPrefix(a, c, b[..|b| - 1]);
    }
  }

  lemma {:induction false} NewlinesTrimAway(n: nat)
    ensures TrimNewlines(Newlines(n)) == []
  {
    if n > 0 {
      assert Newlines(n)[..n - 1] == Newlines(n - 1);
      NewlinesTrimAway(n - 1);
    }
  }

  lemma {:induction false} LeadingOfRun(n: nat, s: string)
    requires s != [] ==> s[0] != '\n'
    ensures Leading(Newlines(n) + s) == n
  {
    var t := Newlines(n) + s;
    var m := Leading(t);
    assert m < |t| ==> t[m] != '\n';
    assert n < |t| ==> t[n] == s[0];
  }

  lemma {:induction false} CollapseCapsRuns(n: nat, s: string)
    requires s != [] ==> s[0] != '\n'
    ensures Collapse(Newlines(n) + s) == Newlines(Cap(n)) + Collapse(s)
  {
    var t := Newlines(n) + s;
    LeadingOfRun(n, s);
    if n == 0 {
      assert t == s;
    } else if n >= 3 {
      assert t[n..] == s && Newlines(2) == "\n\n";
    } else {
      assert t[1..] == Newlines(n - 1) + s;
      CollapseCapsRuns(n - 1, s);
      assert Newlines(n) == ['\n'] + Newlines(n - 1);
    }
  }

  lemma {:induction false} ShapeCountsRuns(n: nat, s: string, gap: nat)
    ensures Shape(Newlines(n) + s, gap) == Shape(s, gap + n)
  {
    var t := Newlines(n) + s;
    if n == 0 {
      assert t == s;
    } else {
      assert t[1..] == Newlines(n - 1) + s;
      ShapeCountsRuns(n - 1, s, gap + 1);
    }
  }

  lemma {:induction false} CollapseRenders(s: string)
    ensures TrimNewlines(Collapse(s)) == Render(Shape(s, 0))
    decreases |s|
  {
    hide Collapse, TrimNewlines, Shape;
    var n := Leading(s);
    var rest := s[n..];
    assert s == Newlines(n) + rest;
    if rest == [] {
      assert s == Newlines(n);
      OnlyNewlines(n);
    } else {
      CollapseRenders(rest[1..]);
      FirstGlyph(n, rest);
      assert ([Glyph(Cap(n), rest[0])] + Shape(rest[1..], 0))[1..] == Shape(rest[1..], 0);
    }
  }

  lemma OnlyNewlines(n: nat)
    ensures TrimNewlines(Collapse(Newlines(n))) == [] && Shape(Newlines(n), 0) == []
  {
    CollapseCapsRuns(n, []);
    ShapeCountsRuns(n, [], 0);
    NewlinesTrimAway(Cap(n));
    assert Newlines(n) + [] == Newlines(n) && Newlines(Cap(n)) + [] == Newlines(Cap(n));
  }

  lemma FirstGlyph(n: nat, s: string)
    requires s != [] && s[0] != '\n'
    ensures TrimNewlines(Collapse(Newlines(n) + s)) == Newlines(Cap(n)) + [s[0]] + TrimNewlines(Collapse(s[1..]))
    ensures Shape(Newlines(n) + s, 0) == [Glyph(Cap(n), s[0])] + Shape(s[1..], 0)
  {
    hide Leading, TrimNewlines, Collapse, Cap;
    ShapeCountsRuns(n, s, 0);
    CollapseCapsRuns(n, s);
    VisibleStays(s);
    KeepsPrefix(Newlines(Cap(n)), s[0], Collapse(s[1..]));
  }

  lemma KeepsPrefix(a: string, c: char, b: string)
    requires c != '\n'
    ensures TrimNewlines(a + ([c] + b)) == a + [c] + TrimNewlines(b)
  {
    hide TrimNewlines;
    assert a + ([c] + b) == a + [c] + b;
    TrimKeepsPrefix(a, c, b);
  }

  lemma VisibleStays(s: string)
    requires s != [] && s[0] != '\n'
    ensures Collapse(s) == [s[0]] + Collapse(s[1..])
  {
  }

  lemma {:induction false} ShapesAreCapped(s: string, gap: nat)
    ensures IsShape(Shape(s, gap))
  {
    if s != [] {
      ShapesAreCapped(s[1..], if s[0] == '\n' then gap + 1 else 0);
    }
  }

  lemma {:induction false} RenderKeepsShape(shape: seq<Glyph>)
    requires IsShape(shape)
    ensures Shape(Render(shape) + "\n", 0) == shape
  {
    if shape == [] {
      assert Render(shape) + "\n" == "\n" && "\n"[1..] == [];
    } else {
      var g, rest := shape[0], Render(shape[1..]) + "\n";
      assert Render(shape) + "\n" == Newlines(g.gap) + ([g.c] + rest);
      ShapeCountsRuns(g.gap, [g.c] + rest, 0);
      assert ([g.c] + rest)[1..] == rest;
      assert g in shape && (forall h | h in shape[1..] :: h in shape);
      RenderKeepsShape(shape[1..]);
    }
  }

  lemma NormalExtends(n: nat, c: char, s: string)
    requires n <= 2 && c != '\n' && Normal(s)
    ensures Normal(Newlines(n) + [c] + s)
  {
    var t := Newlines(n) + [c] + s;
    assert t[n] == c && t[n + 1..] == s;
    forall i | 0 <= i < |t| - 2
      ensures !(t[i] == t[i + 1] == t[i + 2] == '\n')
    {
      if i > n {
        assert t[i] == s[i - n - 1] && t[i + 1] == s[i - n] && t[i + 2] == s[i - n + 1];
      }
    }
  }

  lemma {:induction false} RenderIsNormal(shape: seq<Glyph>)
    requires IsShape(shape)
    ensures Normal(Render(shape) + "\n")
  {
    if shape == [] {
      assert Render(shape) + "\n" == "\n";
    } else {
      var g := shape[0];
      assert g in shape && (forall h | h in shape[1..] :: h in shape);
      RenderIsNormal(shape[1..]);
      NormalExtends(g.gap, g.c, Render(shape[1..]) + "\n");
      assert Render(shape) + "\n" == Newlines(g.gap) + [g.c] + (Render(shape[1..]) + "\n");
    }
  }

  /** The result is normal, and keeps every visible character and every gap up to a blank line. */
  lemma NormalizeIsNormal(s: string)
    ensures Normal(Normalize(s)) && Shape(Normalize(s), 0) == Shape(s, 0)
  {
    CollapseRenders(s);
    ShapesAreCapped(s, 0);
    RenderIsNormal(Shape(s, 0));
    RenderKeepsShape(Shape(s, 0));
  }

  /** A normal form proper: texts get the same result exactly when they have the same shape. */
  lemma NormalizeDecidesShape(s: string, t: string)
    ensures Normalize(s) == Normalize(t) <==> Shape(s, 0) == Shape(t, 0)
  {
    CollapseRenders(s);
    CollapseRenders(t);
    NormalizeIsNormal(s);
    NormalizeIsNormal(t);
  }

  lemma {:induction false} NoRunToCollapse(s: string)
    requires forall i | 0 <= i < |s| - 2 :: !(s[i] == s[i + 1] == s[i + 2] == '\n')
    ensures Collapse(s) == s
  {
    if s != [] {
      var n := Leading(s);
      forall i | 0 <= i < |s[1..]| - 2
        ensures !(s[1..][i] == s[1..][i + 1] == s[1..][i + 2] == '\n')
      {
        assert s[1..][i] == s[i + 1] && s[1..][i + 1] == s[i + 2] && s[1..][i + 2] == s[i + 3];
      }
      NoRunToCollapse(s[1..]);
    }
  }

  lemma NormalStays(s: string)
    requires Normal(s)
    ensures Normalize(s) == s
  {
    hide Collapse;
    var body := s[..|s| - 1];
    NoRunToCollapse(s);
    TrimsOne(body);
    assert s == body + "\n";
  }

  lemma TrimsOne(body: string)
    requires body != [] ==> body[|body| - 1] != '\n'
    ensures TrimNewlines(body + "\n") == body
  {
    assert (body + "\n")[..|body|] == body;
  }

  /** Normalising changes exactly the texts that are not normal; so doing it twice adds nothing. */
  lemma NormalizeFixesNormal(s: string)
    ensures Normalize(s) == s <==> Normal(s)
    ensures Normalize(Normalize(s)) == Normalize(s)
  {
    hide Normalize, Normal;
    NormalizeIsNormal(s);
    NormalStays(Normalize(s));
    if Normal(s) {
      NormalStays(s);
    }
  }

  // ---- mergeKeys ----

  predicate NoDuplicates(keys: seq<string>) {
    forall i, j | 0 <= i < j < |keys| :: keys[i] != keys[j]
  }

  function Merged(existing: seq<string>, keys: seq<string>): seq<string>
    decreases |keys|
  {
    if keys == [] then existing
    else Merged(if keys[0] in existing then existing else existing + [keys[0]], keys[1..])
  }

  /** mergeKeys */
  method MergeKeys(existing: seq<string>, newKeys: seq<string>) returns (result: seq<string>)
    ensures result == Merged(existing, newKeys)
  {
    var seen: set<string> := {};
    var i := 0;
    while i < |existing|
      invariant 0 <= i <= |existing|
      invariant seen == set k | k in existing[..i]
    {
      assert existing[..i + 1] == existing[..i] + [existing[i]];
      seen := seen + {existing[i]};
      i := i + 1;
    }
    assert existing[..i] == existing;
    result := existing;
    i := 0;
    while i < |newKeys|
      invariant 0 <= i <= |newKeys|
      invariant forall k :: k in seen <==> k in result
      invariant Merged(existing, newKeys) == Merged(result, newKeys[i..])
    {
      assert newKeys[i..][1..] == newKeys[i + 1..];
      var k := newKeys[i];
      if k !in seen {
        seen := seen + {k};
        result := result + [k];
      }
      i := i + 1;
    }
    assert newKeys[i..] == [];
  }

  /** An ordered union: the old keys stay as they are in front, each missing key is added once. */
  lemma {:induction false} MergedIsUnion(existing: seq<string>, keys: seq<string>)
    ensures existing <= Merged(existing, keys)
    ensures forall k :: k in Merged(existing, keys) <==> k in existing || k in keys
    ensures NoDuplicates(existing) ==> NoDuplicates(Merged(existing, keys))
    decreases |keys|
  {
    if keys != [] {
      var next := if keys[0] in existing then existing else existing + [keys[0]];
      MergedIsUnion(next, keys[1..]);
      assert keys == [keys[0]] + keys[1..];
    }
  }

  lemma {:induction false} MergedSplits(existing: seq<string>, a: seq<string>, b: seq<string>)
    ensures Merged(existing, a + b) == Merged(Merged(existing, a), b)
    decreases |a|
  {
    if a == [] {
      assert a + b == b;
    } else {
      assert (a + b)[1..] == a[1..] + b && (a + b)[0] == a[0];
      MergedSplits(if a[0] in existing then existing else existing + [a[0]], a[1..], b);
    }
  }

  /** Grouping the keys differently gives the same list. */
  lemma {:induction false} MergedIsAssociative(a: seq<string>, b: seq<string>, c: seq<string>)
    ensures Merged(a, Merged(b, c)) == Merged(Merged(a, b), c)
    decreases |c|
  {
    if c != [] {
      var k := c[0];
      var next := if k in b then b else b + [k];
      MergedIsAssociative(a, next, c[1..]);
      MergedIsUnion(a, b);
      MergedSplits(a, b, [k]);
      assert [k][1..] == [];
    }
  }

  // ---- The label lists of buildTemplateData ----

  /** fieldToLabels[field] after all functions: Go's missing key reads as the empty list. */
  function LabelsOf(found: seq<map<string, seq<string>>>, field: string): seq<string> {
    if found == [] then []
    else
      var before, last := LabelsOf(found[..|found| - 1], field), found[|found| - 1];
      if field in last then Merged(before, last[field]) else before
  }

  function Lookup(m: map<string, seq<string>>, field: string): seq<string> {
    if field in m then m[field] else []
  }

  /** The loops over the functions of both files; the fields of one function come in any order. */
  method CollectLabels(found: seq<map<string, seq<string>>>) returns (labels: map<string, seq<string>>)
    ensures forall field :: Lookup(labels, field) == LabelsOf(found, field)
  {
    labels := map[];
    var i := 0;
    while i < |found|
      invariant 0 <= i <= |found|
      invariant forall field :: Lookup(labels, field) == LabelsOf(found[..i], field)
    {
      var left := found[i].Keys;
      assert found[..i + 1][..i] == found[..i];
      while left != {}
        invariant left <= found[i].Keys
        invariant forall field ::
            Lookup(labels, field) == LabelsOf(if field in left then found[..i] else found[..i + 1], field)
      {
        var field :| field in left;
        var merged := MergeKeys(Lookup(labels, field), found[i][field]);
        labels := labels[field := merged];
        left := left - {field};
      }
      i := i + 1;
    }
    assert found[..i] == found;
  }

  predicate FoundFor(found: seq<map<string, seq<string>>>, field: string, k: string) {
    exists i :: 0 <= i < |found| && field in found[i] && k in found[i][field]
  }

  lemma {:induction false} LabelsAreTheKeysFound(found: seq<map<string, seq<string>>>, field: string)
    ensures NoDuplicates(LabelsOf(found, field))
    ensures forall k :: k in LabelsOf(found, field) <==> FoundFor(found, field, k)
  {
    if found != [] {
      var most, last := found[..|found| - 1], found[|found| - 1];
      LabelsAreTheKeysFound(most, field);
      if field in last {
        MergedIsUnion(LabelsOf(most, field), last[field]);
      }
      forall k
        ensures FoundFor(found, field, k) <==> FoundFor(most, field, k) || (field in last && k in last[field])
      {
        assert forall i | 0 <= i < |most| :: most[i] == found[i];
      }
    }
  }

  // ---- sort.Strings ----

  predicate Less(a: string, b: string) {
    b != [] && (a == [] || a[0] < b[0] || (a[0] == b[0] && Less(a[1..], b[1..])))
  }

  lemma {:induction false} LessIsStrict(a: string, b: string)
    ensures !(Less(a, b) && Less(b, a)) && (a != b ==> Less(a, b) || Less(b, a))
  {
    if a != [] && b != [] && a[0] == b[0] {
      LessIsStrict(a[1..], b[1..]);
      assert a == [a[0]] + a[1..] && b == [b[0]] + b[1..];
    }
  }

  /** The usual order of strings: a is a proper prefix of b, or they first differ where a is smaller. */
  predicate DiffersAt(a: string, b: string, n: nat) {
    n <= |a| && n < |b| && a[..n] == b[..n] && (n == |a| || a[n] < b[n])
  }

  lemma {:induction false} LessExactly(a: string, b: string)
    ensures Less(a, b) <==> exists n: nat :: DiffersAt(a, b, n)
  {
    if a == [] || b == [] || a[0] != b[0] {
      assert Less(a, b) ==> DiffersAt(a, b, 0);
      assert forall n: nat | DiffersAt(a, b, n) && n > 0 :: a[..n][0] == b[..n][0];
    } else {
      LessExactly(a[1..], b[1..]);
      if n: nat :| DiffersAt(a[1..], b[1..], n) {
        assert a[..n + 1] == [a[0]] + a[1..][..n] && b[..n + 1] == [b[0]] + b[1..][..n];
        assert DiffersAt(a, b, n + 1);
      }
      if n: nat :| DiffersAt(a, b, n) {
        assert n > 0 && a[1..][..n - 1] == a[..n][1..] && b[1..][..n - 1] == b[..n][1..];
        assert DiffersAt(a[1..], b[1..], n - 1);
      }
    }
  }

  predicate Increasing(keys: seq<string>) {
    forall i, j | 0 <= i < j < |keys| :: Less(keys[i], keys[j])
  }

  /** What sort.Strings promises: the same strings, none before a smaller one. */
  predicate IsSortOf(sorted: seq<string>, keys: seq<string>) {
    && multiset(sorted) == multiset(keys)
    && forall i, j | 0 <= i < j < |sorted| :: !Less(sorted[j], sorted[i])
  }

  lemma HeadIsNew(keys: seq<string>)
    requires keys != []
    ensures NoDuplicates(keys) <==> NoDuplicates(keys[1..]) && keys[0] !in keys[1..]
  {
    var rest := keys[1..];
    if NoDuplicates(keys) {
      assert forall i | 0 <= i < |rest| :: rest[i] == keys[i + 1];
    } else {
      var i, j :| 0 <= i < j < |keys| && keys[i] == keys[j];
      assert rest[j - 1] == keys[j];
      assert i > 0 ==> rest[i - 1] == keys[i];
    }
  }

  lemma {:induction false} NoDuplicatesCounts(keys: seq<string>)
    ensures NoDuplicates(keys) <==> forall k :: multiset(keys)[k] <= 1
  {
    if keys != [] {
      var k, rest := keys[0], keys[1..];
      NoDuplicatesCounts(rest);
      HeadIsNew(keys);
      assert keys == [k] + rest;
      assert multiset(keys) == multiset{k} + multiset(rest);
      if k !in rest && NoDuplicates(rest) {
        assert forall x :: multiset(keys)[x] == if x == k then 1 else multiset(rest)[x];
      } else if k in rest {
        assert multiset(keys)[k] == 1 + multiset(rest)[k] && multiset(rest)[k] > 0;
      } else {
        var x :| multiset(rest)[x] > 1;
        assert multiset(keys)[x] > 1;
      }
    }
  }

  lemma SortIncreases(sorted: seq<string>, keys: seq<string>)
    requires IsSortOf(sorted, keys) && NoDuplicates(keys)
    ensures Increasing(sorted) && forall k :: k in sorted <==> k in keys
  {
    NoDuplicatesCounts(keys);
    NoDuplicatesCounts(sorted);
    forall i, j | 0 <= i < j < |sorted|
      ensures Less(sorted[i], sorted[j])
    {
      LessIsStrict(sorted[i], sorted[j]);
    }
    forall k
      ensures k in sorted <==> k in keys
    {
      assert k in multiset(sorted) <==> k in multiset(keys);
    }
  }

  lemma HeadIsMember(p: seq<string>)
    ensures p != [] ==> p[0] in p
  {
  }

  lemma {:induction false} IncreasingIsUnique(p: seq<string>, q: seq<string>)
    requires Increasing(p) && Increasing(q)
    requires forall k :: k in p <==> k in q
    ensures p == q
  {
    HeadIsMember(q);
    if p != [] {
      assert p[0] in p && p[0] in q;
      assert q[0] in q && q[0] in p;
      var i :| 0 <= i < |p| && p[i] == q[0];
      var j :| 0 <= j < |q| && q[j] == p[0];
      LessIsStrict(p[0], q[0]);
      forall k
        ensures k in p[1..] <==> k in q[1..]
      {
        TailHasTheRest(p, k);
        TailHasTheRest(q, k);
      }
      IncreasingIsUnique(p[1..], q[1..]);
    }
  }

  lemma TailHasTheRest(p: seq<string>, k: string)
    requires Increasing(p) && p != []
    ensures k in p[1..] <==> k in p && k != p[0]
  {
    LessIsStrict(p[0], p[0]);
    assert p == [p[0]] + p[1..];
  }

  /** A metric's label list is a function of the keys found for its field alone: it is the strictly
      increasing list of them, whatever functions they were found in, and in whatever order. */
  lemma LabelListIsCanonical(found: seq<map<string, seq<string>>>, field: string, labels: seq<string>)
    requires IsSortOf(labels, LabelsOf(found, field))
    ensures Increasing(labels) && forall k :: k in labels <==> FoundFor(found, field, k)
    ensures forall other: seq<string> ::
        Increasing(other) && (forall k :: k in other <==> FoundFor(found, field, k)) ==> other == labels
  {
    LabelsAreTheKeysFound(found, field);
    SortIncreases(labels, LabelsOf(found, field));
    forall other: seq<string> | Increasing(other) && (forall k :: k in other <==> FoundFor(found, field, k))
      ensures other == labels
    {
      IncreasingIsUnique(other, labels);
    }
  }
}
