/** Line classification of pkg/parser/parser.go: the annotation expression, the target expression,
    and the plain scanners they amount to. */
module Annotation {
  import opened Text
  import opened Regex

  /** A line as bufio.ScanLines delivers it. */
  predicate IsLine(s: string) {
    '\n' !in s
  }

  // #.*?<delim>\s+([a-zA-Z][a-zA-Z0-9-]*):\s*(.*) in its parts, the last one first.

  function ValuePattern(): Pattern {
    Step(Repeat(Space, false), Save(Step(Repeat(Dot, false), Save(Accept))))
  }

  function KeyPattern(): Pattern {
    Step(Repeat(KeyTail, false), Save(Step(Literal(":"), ValuePattern())))
  }

  function KeyStartPattern(): Pattern {
    Save(Step(One(KeyHead), KeyPattern()))
  }

  function FieldPattern(): Pattern {
    Step(One(Space), Step(Repeat(Space, false), KeyStartPattern()))
  }

  function DelimiterPattern(delim: string): Pattern {
    Step(Repeat(Dot, true), Step(Literal(delim), FieldPattern()))
  }

  function AnnotationPattern(delim: string): Pattern {
    Step(Literal("#"), DelimiterPattern(delim))
  }

  datatype Field = Field(key: string, value: string)

  /** The four boundaries of the two groups, in order. */
  predicate TwoGroups(slots: Slots, n: nat) {
    && slots.Slot? && slots.more.Slot? && slots.more.more.Slot? && slots.more.more.more.Slot?
    && slots.at <= slots.more.at <= n
    && slots.more.more.at <= slots.more.more.more.at <= n
  }

  /** m[1] and strings.TrimSpace(m[2]) */
  function Submatches(s: string, slots: Slots): Field
    requires TwoGroups(slots, |s|)
  {
    var b := slots.more;
    var v := b.more;
    Field(s[slots.at..b.at], Trim(s[v.at..v.more.at]))
  }

  lemma OrderedFour(slots: Slots, i: nat, n: nat)
    requires Ordered(slots, i, 4, n)
    ensures TwoGroups(slots, n)
  {
    assert Ordered(slots.more, slots.at, 3, n);
    assert Ordered(slots.more.more, slots.more.at, 2, n);
    assert Ordered(slots.more.more.more, slots.more.more.at, 1, n);
  }

  lemma AnnotationSlots(delim: string, s: string, i: nat, slots: Slots)
    requires i <= |s| && Fits(AnnotationPattern(delim), s, i, slots)
    ensures TwoGroups(slots, |s|)
  {
    assert Saves(ValuePattern()) == 2;
    assert Saves(KeyPattern()) == 3;
    assert Saves(KeyStartPattern()) == 4;
    assert Saves(FieldPattern()) == 4;
    assert Saves(Step(Literal(delim), FieldPattern())) == 4;
    assert Saves(DelimiterPattern(delim)) == 4;
    FitsInOrder(AnnotationPattern(delim), s, i, slots);
    OrderedFour(slots, i, |s|);
  }

  /** extractAnnotation */
  function Extract(line: string, delim: string): Option<Field> {
    var p := AnnotationPattern(delim);
    match Find(p, line, 0)
    case None => None
    case Some((start, slots)) =>
      FindIsLeftmostFit(p, line, 0);
      AnnotationSlots(delim, line, start, slots);
      Some(Submatches(line, slots))
  }

  // ---- The scanner ----

  /** Reads white space, a key and a colon from position j. */
  function ScanField(s: string, j: nat): Option<Field>
    requires j <= |s|
  {
    var a := RunEnd(Space, s, j);
    if a == j || a == |s| || !In(s[a], KeyHead) then None
    else
      var b := RunEnd(KeyTail, s, a + 1);
      if b == |s| || s[b] != ':' then None
      else Some(Field(s[a..b], Trim(s[b + 1..])))
  }

  /** The first delimiter at or after j that a field follows. */
  function ScanDelimiter(s: string, delim: string, j: nat): Option<Field>
    requires j <= |s|
    decreases |s| - j
  {
    if OccursAt(s, delim, j) && ScanField(s, j + |delim|).Some? then ScanField(s, j + |delim|)
    else if j < |s| then ScanDelimiter(s, delim, j + 1)
    else None
  }

  function Scan(s: string, delim: string): Option<Field> {
    match Index(s, "#", 0)
    case None => None
    case Some(h) => ScanDelimiter(s, delim, h + 1)
  }

  // ---- The scanner is the expression ----

  lemma OneCharOccurs(s: string, c: char, i: nat)
    requires i <= |s|
    ensures OccursAt(s, [c], i) <==> i < |s| && s[i] == c
  {
    if i < |s| {
      assert s[i..i + 1] == [s[i]];
    }
  }

  /** \s*(.*) always matches to the end of the line. */
  lemma MatchValue(s: string, i: nat)
    requires IsLine(s) && i <= |s|
    ensures Match(ValuePattern(), s, i) == Some(Slot(RunEnd(Space, s, i), Slot(|s|, NoSlot)))
  {
    var e := RunEnd(Space, s, i);
    RunEndIs(Dot, s, e, |s|);
    var end := Save(Accept);
    assert Match(Accept, s, |s|) == Some(NoSlot);
    assert Match(end, s, |s|) == Some(Slot(|s|, NoSlot));
    GreedyTakesRun(Dot, end, s, e);
    var value := Save(Step(Repeat(Dot, false), end));
    assert Match(value, s, e) == Some(Slot(e, Slot(|s|, NoSlot)));
    GreedyTakesRun(Space, value, s, i);
  }

  /** The rest of the expression after the key's first letter. */
  lemma MatchKey(s: string, i: nat)
    requires IsLine(s) && i <= |s|
    ensures var b := RunEnd(KeyTail, s, i);
            Match(KeyPattern(), s, i) ==
            if b < |s| && s[b] == ':'
            then Some(Slot(b, Slot(RunEnd(Space, s, b + 1), Slot(|s|, NoSlot))))
            else None
  {
    var b := RunEnd(KeyTail, s, i);
    var colon := Step(Literal(":"), ValuePattern());
    forall k | i <= k <= b
      ensures Match(Save(colon), s, k).Some? <==> k < |s| && s[k] == ':'
    {
      OneCharOccurs(s, ':', k);
      if k < |s| {
        MatchValue(s, k + 1);
      }
    }
    forall k | i <= k < b ensures Match(Save(colon), s, k).None? {
      assert In(s[k], KeyTail);
    }
    OneCharOccurs(s, ':', b);
    if b < |s| {
      MatchValue(s, b + 1);
    }
    GreedyTakesRun(KeyTail, Save(colon), s, i);
  }

  /** The group boundaries of a key that starts at a. */
  function KeySlots(s: string, a: nat): Option<Slots>
    requires a <= |s|
  {
    if a == |s| || !In(s[a], KeyHead) then None
    else
      var b := RunEnd(KeyTail, s, a + 1);
      if b == |s| || s[b] != ':' then None
      else Some(Slot(a, Slot(b, Slot(RunEnd(Space, s, b + 1), Slot(|s|, NoSlot)))))
  }

  lemma MatchKeyStart(s: string, a: nat)
    requires IsLine(s) && a <= |s|
    ensures Match(KeyStartPattern(), s, a) == KeySlots(s, a)
  {
    if a < |s| && In(s[a], KeyHead) {
      MatchKey(s, a + 1);
      assert Match(Step(One(KeyHead), KeyPattern()), s, a) == Match(KeyPattern(), s, a + 1);
    }
  }

  /** The whole expression after the delimiter. */
  lemma MatchField(s: string, j: nat)
    requires IsLine(s) && j <= |s|
    ensures Match(FieldPattern(), s, j) ==
            if j < RunEnd(Space, s, j) then KeySlots(s, RunEnd(Space, s, j)) else None
  {
    if j < |s| && In(s[j], Space) {
      var a := RunEnd(Space, s, j);
      assert a == RunEnd(Space, s, j + 1);
      forall k | j + 1 <= k <= a ensures Match(KeyStartPattern(), s, k) == KeySlots(s, k) {
        MatchKeyStart(s, k);
      }
      forall k | j + 1 <= k < a ensures Match(KeyStartPattern(), s, k).None? {
        assert In(s[k], Space);
      }
      GreedyTakesRun(Space, KeyStartPattern(), s, j + 1);
    }
  }

  lemma SpacesTrimAway(s: string, b: nat, v: nat)
    requires b <= v <= |s| && forall k | b <= k < v :: In(s[k], Space)
    ensures Trim(s[v..]) == Trim(s[b..])
  {
    var spaces, rest := s[b..v], s[v..];
    assert s[b..] == spaces + rest;
    forall k | 0 <= k < |spaces| ensures IsSpace(spaces[k]) {
      assert spaces[k] == s[b + k] && In(s[b + k], Space);
    }
    TrimSkips(spaces, rest);
  }

  lemma SubmatchesOf(s: string, a: nat, b: nat, v: nat)
    requires a <= b < |s| && v == RunEnd(Space, s, b + 1)
    ensures var slots := Slot(a, Slot(b, Slot(v, Slot(|s|, NoSlot))));
            TwoGroups(slots, |s|) && Submatches(s, slots) == Field(s[a..b], Trim(s[b + 1..]))
  {
    SpacesTrimAway(s, b + 1, v);
    assert s[v..|s|] == s[v..];
  }

  lemma KeySubmatches(s: string, a: nat, slots: Slots)
    requires a <= |s| && KeySlots(s, a) == Some(slots)
    ensures TwoGroups(slots, |s|)
    ensures Submatches(s, slots) == Field(s[a..slots.more.at], Trim(s[slots.more.at + 1..]))
  {
    hide Trim;
    var b := RunEnd(KeyTail, s, a + 1);
    SubmatchesOf(s, a, b, RunEnd(Space, s, b + 1));
  }

  lemma FieldSubmatches(s: string, j: nat)
    requires IsLine(s) && j <= |s|
    ensures var m := Match(FieldPattern(), s, j);
            && (m.Some? <==> ScanField(s, j).Some?)
            && (m.Some? ==> TwoGroups(m.value, |s|) && ScanField(s, j).value == Submatches(s, m.value))
  {
    var m := Match(FieldPattern(), s, j);
    var a := RunEnd(Space, s, j);
    assert m == if j < a then KeySlots(s, a) else None by {
      MatchField(s, j);
    }
    if j < a && KeySlots(s, a).Some? {
      KeySubmatches(s, a, m.value);
    }
  }

  /** From the end of the "#": the lazy part stops at the first delimiter with a field after it. */
  lemma {:induction false} MatchDelimiter(s: string, delim: string, j: nat)
    requires IsLine(s) && j <= |s|
    ensures var m := Match(DelimiterPattern(delim), s, j);
            && (m.Some? <==> ScanDelimiter(s, delim, j).Some?)
            && (m.Some? ==>
                  && TwoGroups(m.value, |s|)
                  && ScanDelimiter(s, delim, j) == Some(Submatches(s, m.value)))
    decreases |s| - j
  {
    hide ScanField, Submatches, FieldPattern;
    if OccursAt(s, delim, j) {
      FieldSubmatches(s, j + |delim|);
    }
    assert Match(Step(Literal(delim), FieldPattern()), s, j) ==
           if OccursAt(s, delim, j) then Match(FieldPattern(), s, j + |delim|) else None;
    if j < |s| {
      MatchDelimiter(s, delim, j + 1);
    }
  }

  lemma {:induction false} LaterStartScansLess(s: string, delim: string, i: nat, j: nat)
    requires i <= j <= |s| && ScanDelimiter(s, delim, i).None?
    ensures ScanDelimiter(s, delim, j).None?
    decreases j - i
  {
    if i < j {
      LaterStartScansLess(s, delim, i + 1, j);
    }
  }

  lemma {:induction false} NoMatchBeforeHash(s: string, delim: string, i: nat, h: nat)
    requires i <= h <= |s| && forall k | i <= k < h :: !OccursAt(s, "#", k)
    ensures Find(AnnotationPattern(delim), s, i) == Find(AnnotationPattern(delim), s, h)
    decreases h - i
  {
    if i < h {
      NoMatchBeforeHash(s, delim, i + 1, h);
    }
  }

  lemma {:induction false} NoMatchAfter(s: string, delim: string, h: nat, i: nat)
    requires IsLine(s) && h < |s| && h <= i <= |s| && ScanDelimiter(s, delim, h + 1).None?
    ensures Find(AnnotationPattern(delim), s, i).None?
    decreases |s| - i
  {
    OneCharOccurs(s, '#', i);
    if i < |s| {
      LaterStartScansLess(s, delim, h + 1, i + 1);
      MatchDelimiter(s, delim, i + 1);
      NoMatchAfter(s, delim, h, i + 1);
    }
  }

  /** The scanner accepts the lines that the expression accepts, with the same key and value. The
      match starts at the first "#" of the line, and uses the first delimiter occurrence after it
      that white space, a key and a colon follow. */
  lemma ScanIsExtract(s: string, delim: string)
    requires IsLine(s)
    ensures Extract(s, delim) == Scan(s, delim)
    ensures Extract(s, delim).Some? ==>
              var start := Find(AnnotationPattern(delim), s, 0).value.0;
              start < |s| && s[start] == '#' && '#' !in s[..start]
  {
    match Index(s, "#", 0)
    case None =>
      NoMatchBeforeHash(s, delim, 0, |s|);
    case Some(h) =>
      NoMatchBeforeHash(s, delim, 0, h);
      MatchDelimiter(s, delim, h + 1);
      forall k | 0 <= k < h ensures s[..h][k] != '#' {
        OneCharOccurs(s, '#', k);
      }
      OneCharOccurs(s, '#', h);
      if Match(AnnotationPattern(delim), s, h).None? {
        NoMatchAfter(s, delim, h, h);
      }
  }

  /** However the expression is made to fit, the text after the chosen delimiter occurrence splits into
      key and value in one way only: the bounds of the key are the scanner's, and so is the value of
      every fit that captures the line to its end. */
  lemma FieldSplitIsUnique(s: string, j: nat, slots: Slots)
    requires j <= |s| && Fits(FieldPattern(), s, j, slots)
    ensures TwoGroups(slots, |s|) && ScanField(s, j).Some?
    ensures var a := RunEnd(Space, s, j); slots.at == a && slots.more.at == RunEnd(KeyTail, s, a + 1)
    ensures Submatches(s, slots).key == ScanField(s, j).value.key
    ensures slots.more.more.more.at == |s| ==> Submatches(s, slots) == ScanField(s, j).value
  {
    hide Trim;
    var spaces := Step(Repeat(Space, false), KeyStartPattern());
    var i: nat :| Spans(One(Space), s, j, i) && Fits(spaces, s, i, slots);
    var a: nat :| Spans(Repeat(Space, false), s, i, a) && Fits(KeyStartPattern(), s, a, slots);
    KeySplitIsUnique(s, a, slots);
    RunEndIs(Space, s, j, a);
    var b, v := slots.more.at, slots.more.more.at;
    SpacesTrimAway(s, b + 1, v);
    assert s[v..|s|] == s[v..];
  }

  lemma KeySplitIsUnique(s: string, a: nat, slots: Slots)
    requires a <= |s| && Fits(KeyStartPattern(), s, a, slots)
    ensures TwoGroups(slots, |s|) && slots.at == a < |s| && In(s[a], KeyHead)
    ensures var b := slots.more.at;
            && b == RunEnd(KeyTail, s, a + 1) && b < |s| && s[b] == ':' && b < slots.more.more.at
            && forall k | b < k < slots.more.more.at :: In(s[k], Space)
  {
    var head := Step(One(KeyHead), KeyPattern());
    assert Fits(head, s, a, slots.more);
    var k: nat :| Spans(One(KeyHead), s, a, k) && Fits(KeyPattern(), s, k, slots.more);
    var colon := Step(Literal(":"), ValuePattern());
    var b: nat :| Spans(Repeat(KeyTail, false), s, k, b) && Fits(Save(colon), s, b, slots.more);
    assert Fits(colon, s, b, slots.more.more);
    var e: nat :| Spans(Literal(":"), s, b, e) && Fits(ValuePattern(), s, e, slots.more.more);
    assert s[b..e][0] == s[b];
    RunEndIs(KeyTail, s, k, b);
    ValueFits(s, e, slots.more.more);
  }

  lemma ValueFits(s: string, e: nat, slots: Slots)
    requires e <= |s| && Fits(ValuePattern(), s, e, slots)
    ensures slots.Slot? && slots.more.Slot? && e <= slots.at <= slots.more.at <= |s|
    ensures forall k | e <= k < slots.at :: In(s[k], Space)
  {
    var dots := Step(Repeat(Dot, false), Save(Accept));
    var v: nat :| Spans(Repeat(Space, false), s, e, v) && Fits(Save(dots), s, v, slots);
    assert Fits(dots, s, v, slots.more);
    var w: nat :| Spans(Repeat(Dot, false), s, v, w) && Fits(Save(Accept), s, w, slots.more);
  }

  // ---- Annotations by their characters ----

  /** White space from j to a, a key from a to b, and a colon. */
  predicate FieldAt(s: string, j: nat, a: nat, b: nat) {
    && j < a < b < |s| && s[b] == ':' && IsLetter(s[a])
    && (forall k | j <= k < a :: In(s[k], Space))
    && (forall k | a <= k < b :: IsLetter(s[k]) || IsDigit(s[k]) || s[k] == '-')
  }

  ghost predicate HasField(s: string, j: nat) {
    exists a: nat, b: nat :: FieldAt(s, j, a, b)
  }

  lemma FieldExactly(s: string, j: nat)
    requires j <= |s|
    ensures ScanField(s, j).Some? <==> HasField(s, j)
    ensures forall a: nat, b: nat | FieldAt(s, j, a, b) :: ScanField(s, j) == Some(Field(s[a..b], Trim(s[b + 1..])))
  {
    hide Trim;
    forall a: nat, b: nat | FieldAt(s, j, a, b) ensures ScanField(s, j) == Some(Field(s[a..b], Trim(s[b + 1..]))) {
      RunEndIs(Space, s, j, a);
      RunEndIs(KeyTail, s, a + 1, b);
    }
    if ScanField(s, j).Some? {
      var a := RunEnd(Space, s, j);
      assert FieldAt(s, j, a, RunEnd(KeyTail, s, a + 1));
    }
  }

  /** The first "#" is at h, the delimiter at j is the first one after it that a field follows, and the
      key of this field goes from a to b. */
  ghost predicate AnnotatedAt(s: string, delim: string, h: nat, j: nat, a: nat, b: nat) {
    && h < j && OccursAt(s, delim, j) && FieldAt(s, j + |delim|, a, b)
    && s[h] == '#' && (forall k | 0 <= k < h :: s[k] != '#')
    && (forall k | h < k < j :: !(OccursAt(s, delim, k) && HasField(s, k + |delim|)))
  }

  lemma {:induction false} ScanDelimiterAt(s: string, delim: string, i: nat, j: nat)
    requires i <= j && OccursAt(s, delim, j) && HasField(s, j + |delim|)
    requires forall k | i <= k < j :: !(OccursAt(s, delim, k) && HasField(s, k + |delim|))
    ensures ScanDelimiter(s, delim, i) == ScanField(s, j + |delim|)
    decreases j - i
  {
    hide ScanField, HasField;
    if OccursAt(s, delim, i) {
      FieldExactly(s, i + |delim|);
    }
    if i < j {
      ScanDelimiterAt(s, delim, i + 1, j);
    }
  }

  lemma {:induction false} ScanDelimiterFinds(s: string, delim: string, i: nat) returns (j: nat)
    requires i <= |s| && ScanDelimiter(s, delim, i).Some?
    ensures i <= j && OccursAt(s, delim, j) && HasField(s, j + |delim|)
    ensures forall k | i <= k < j :: !(OccursAt(s, delim, k) && HasField(s, k + |delim|))
    decreases |s| - i
  {
    hide ScanField, HasField;
    if OccursAt(s, delim, i) {
      FieldExactly(s, i + |delim|);
    }
    if OccursAt(s, delim, i) && ScanField(s, i + |delim|).Some? {
      j := i;
    } else {
      j := ScanDelimiterFinds(s, delim, i + 1);
    }
  }

  /** What a line annotates, by its characters alone. */
  lemma AnnotationExactly(s: string, delim: string)
    requires IsLine(s)
    ensures Extract(s, delim).Some? <==> exists h: nat, j: nat, a: nat, b: nat :: AnnotatedAt(s, delim, h, j, a, b)
    ensures forall h: nat, j: nat, a: nat, b: nat | AnnotatedAt(s, delim, h, j, a, b) ::
              Extract(s, delim) == Some(Field(s[a..b], Trim(s[b + 1..])))
  {
    hide Extract, ScanField, ScanDelimiter, Trim, HasField;
    ScanIsExtract(s, delim);
    forall k | 0 <= k <= |s| ensures OccursAt(s, "#", k) <==> k < |s| && s[k] == '#' {
      OneCharOccurs(s, '#', k);
    }
    forall h: nat, j: nat, a: nat, b: nat | AnnotatedAt(s, delim, h, j, a, b)
      ensures Extract(s, delim) == Some(Field(s[a..b], Trim(s[b + 1..])))
    {
      assert Index(s, "#", 0) == Some(h);
      FieldExactly(s, j + |delim|);
      assert HasField(s, j + |delim|) by {
        HasFieldAt(s, j + |delim|, a, b);
      }
      ScanDelimiterAt(s, delim, h + 1, j);
    }
    if Scan(s, delim).Some? {
      var h := Index(s, "#", 0).value;
      var j := ScanDelimiterFinds(s, delim, h + 1);
      var a, b := FieldOf(s, j + |delim|);
      assert AnnotatedAt(s, delim, h, j, a, b);
    }
  }

  lemma HasFieldAt(s: string, j: nat, a: nat, b: nat)
    requires FieldAt(s, j, a, b)
    ensures HasField(s, j)
  {
  }

  lemma FieldOf(s: string, j: nat) returns (a: nat, b: nat)
    requires HasField(s, j)
    ensures FieldAt(s, j, a, b)
  {
    a, b :| FieldAt(s, j, a, b);
  }

  // ---- Targets ----

  /** ^([-a-zA-Z0-9_./ ]+):(?:[^=]|$) */
  function TargetPattern(): Pattern {
    Save(Step(One(TargetChar),
              Step(Repeat(TargetChar, false), Save(Step(Literal(":"), Step(OneOrEnd(NotEquals), Accept))))))
  }

  function NamePattern(): Pattern {
    Step(Repeat(TargetChar, false), Save(ColonPattern()))
  }

  function ColonPattern(): Pattern {
    Step(Literal(":"), Step(OneOrEnd(NotEquals), Accept))
  }

  lemma TargetSlots(s: string)
    requires Match(TargetPattern(), s, 0).Some?
    ensures Ordered(Match(TargetPattern(), s, 0).value, 0, 2, |s|)
  {
    MatchIsSound(TargetPattern(), s, 0);
    assert Saves(NamePattern()) == 1;
    FitsInOrder(TargetPattern(), s, 0, Match(TargetPattern(), s, 0).value);
  }

  /** matchTargetLine: the anchored expression, and the trimmed name. */
  function MatchTarget(trimmed: string): Option<string> {
    match Match(TargetPattern(), trimmed, 0)
    case None => None
    case Some(slots) =>
      TargetSlots(trimmed);
      var Slot(a, Slot(b, _)) := slots;
      Some(Trim(trimmed[a..b]))
  }

  /** A name before the first colon, and no "=" right after the colon. */
  predicate SplitsTarget(s: string, c: nat) {
    && 0 < c < |s| && s[c] == ':'
    && (forall k | 0 <= k < c :: In(s[k], TargetChar))
    && (c + 1 < |s| ==> s[c + 1] != '=')
  }

  lemma MatchTargetAt(s: string, c: nat)
    requires SplitsTarget(s, c)
    ensures MatchTarget(s) == Some(Trim(s[..c]))
  {
    RunEndIs(TargetChar, s, 1, c);
    OneCharOccurs(s, ':', c);
    var after := Step(OneOrEnd(NotEquals), Accept);
    var e := if c + 1 < |s| then c + 2 else c + 1;
    assert Match(Accept, s, e) == Some(NoSlot);
    assert Match(after, s, c + 1) == Match(Accept, s, e);
    assert Match(ColonPattern(), s, c) == Match(after, s, c + 1);
    GreedyTakesRun(TargetChar, Save(ColonPattern()), s, 1);
    assert Match(TargetPattern(), s, 0) == Some(Slot(0, Slot(c, NoSlot)));
    assert s[0..c] == s[..c];
  }

  lemma TargetSplit(s: string) returns (c: nat)
    requires MatchTarget(s).Some?
    ensures SplitsTarget(s, c)
  {
    var slots := Match(TargetPattern(), s, 0).value;
    MatchIsSound(TargetPattern(), s, 0);
    var head := Step(One(TargetChar), NamePattern());
    assert Fits(head, s, 0, slots.more);
    var i: nat :| Spans(One(TargetChar), s, 0, i) && Fits(NamePattern(), s, i, slots.more);
    c :| Spans(Repeat(TargetChar, false), s, i, c) && Fits(Save(ColonPattern()), s, c, slots.more);
    assert Fits(ColonPattern(), s, c, slots.more.more);
    var after := Step(OneOrEnd(NotEquals), Accept);
    var e: nat :| Spans(Literal(":"), s, c, e) && Fits(after, s, e, slots.more.more);
    var f: nat :| Spans(OneOrEnd(NotEquals), s, e, f) && Fits(Accept, s, f, slots.more.more);
    assert s[c..e][0] == s[c];
  }

  /** A line is a target line exactly when a target name is what stands before its first colon,
      and no "=" follows the colon. */
  lemma TargetLines(s: string)
    ensures MatchTarget(s).Some? <==> exists c: nat :: SplitsTarget(s, c)
    ensures forall c: nat | SplitsTarget(s, c) :: MatchTarget(s) == Some(Trim(s[..c]))
  {
    forall c: nat | SplitsTarget(s, c) ensures MatchTarget(s) == Some(Trim(s[..c])) {
      MatchTargetAt(s, c);
    }
    if MatchTarget(s).Some? {
      var c := TargetSplit(s);
      assert SplitsTarget(s, c);
    }
  }
}
