/** The regular expressions of the parser, with the leftmost-first semantics of Go's `regexp`
    package: the leftmost start wins, and among the matches from one start, the one a backtracking
    matcher finds first. */
module Regex {
  import opened Text

  datatype Class = Dot | Space | KeyHead | KeyTail | TargetChar | NotEquals

  /** `Repeat(c, true)` is c*?, `Repeat(c, false)` is c*; `OneOrEnd(c)` is (?:c|$). */
  datatype Item =
    | Literal(text: string)
    | One(cls: Class)
    | OneOrEnd(cls: Class)
    | Repeat(cls: Class, lazy: bool)

  /** A sequence of items; `Save` marks where a group starts or ends. */
  datatype Pattern = Accept | Save(rest: Pattern) | Step(item: Item, rest: Pattern)

  /** The positions of the `Save` marks of a match, in order. */
  datatype Slots = NoSlot | Slot(at: nat, more: Slots)

  predicate In(c: char, cls: Class) {
    match cls
    case Dot => c != '\n'
    case Space => c == ' ' || c == '\t' || c == '\n' || c == '\r' || c as int == 0x0c
    case KeyHead => IsLetter(c)
    case KeyTail => IsLetter(c) || IsDigit(c) || c == '-'
    case TargetChar =>
      IsLetter(c) || IsDigit(c) || c == '-' || c == '_' || c == '.' || c == '/' || c == ' '
    case NotEquals => c != '='
  }

  function Record(i: nat, slots: Option<Slots>): Option<Slots> {
    if slots.Some? then Some(Slot(i, slots.value)) else None
  }

  /** Backtracking match of p at position i. */
  function Match(p: Pattern, s: string, i: nat): Option<Slots>
    requires i <= |s|
    decreases p, |s| - i
  {
    match p
    case Accept => Some(NoSlot)
    case Save(rest) => Record(i, Match(rest, s, i))
    case Step(Literal(t), rest) =>
      if OccursAt(s, t, i) then Match(rest, s, i + |t|) else None
    case Step(One(c), rest) =>
      if i < |s| && In(s[i], c) then Match(rest, s, i + 1) else None
    case Step(OneOrEnd(c), rest) =>
      if i < |s| && In(s[i], c) then Match(rest, s, i + 1)
      else if i == |s| then Match(rest, s, i)
      else None
    case Step(Repeat(c, lazy), rest) =>
      var stop := Match(rest, s, i);
      var more := if i < |s| && In(s[i], c) then Match(p, s, i + 1) else None;
      if lazy then (if stop.Some? then stop else more)
      else (if more.Some? then more else stop)
  }

  /** FindStringSubmatch: the leftmost start at or after i, and its slots. */
  function Find(p: Pattern, s: string, i: nat): Option<(nat, Slots)>
    requires i <= |s|
    decreases |s| - i
  {
    var m := Match(p, s, i);
    if m.Some? then Some((i, m.value))
    else if i < |s| then Find(p, s, i + 1)
    else None
  }

  // ---- The declarative meaning ----

  /** The item matches exactly the text s[i..e]. */
  predicate Spans(item: Item, s: string, i: nat, e: nat) {
    && i <= e <= |s|
    && match item
       case Literal(t) => s[i..e] == t
       case One(c) => e == i + 1 && In(s[i], c)
       case OneOrEnd(c) => (e == i + 1 && In(s[i], c)) || e == i == |s|
       case Repeat(c, _) => forall k | i <= k < e :: In(s[k], c)
  }

  /** The items of p match one after the other from position i, with these group boundaries. */
  ghost predicate Fits(p: Pattern, s: string, i: nat, slots: Slots) {
    match p
    case Accept => slots.NoSlot?
    case Save(rest) => slots.Slot? && slots.at == i && Fits(rest, s, i, slots.more)
    case Step(item, rest) =>
      exists e: nat :: Spans(item, s, i, e) && Fits(rest, s, e, slots)
  }

  lemma {:induction false} MatchIsSound(p: Pattern, s: string, i: nat)
    requires i <= |s| && Match(p, s, i).Some?
    ensures Fits(p, s, i, Match(p, s, i).value)
    decreases p, |s| - i
  {
    match p
    case Accept =>
    case Save(rest) =>
      MatchIsSound(rest, s, i);
    case Step(Literal(t), rest) =>
      MatchIsSound(rest, s, i + |t|);
      assert Spans(p.item, s, i, i + |t|);
    case Step(One(c), rest) =>
      MatchIsSound(rest, s, i + 1);
      assert Spans(p.item, s, i, i + 1);
    case Step(OneOrEnd(c), rest) =>
      var e := if i < |s| then i + 1 else i;
      MatchIsSound(rest, s, e);
      assert Spans(p.item, s, i, e);
    case Step(Repeat(c, lazy), rest) =>
      var m := Match(p, s, i);
      if m == Match(rest, s, i) {
        MatchIsSound(rest, s, i);
        assert Spans(p.item, s, i, i);
      } else {
        MatchIsSound(p, s, i + 1);
        var e: nat :| Spans(p.item, s, i + 1, e) && Fits(rest, s, e, m.value);
        assert Spans(p.item, s, i, e);
      }
  }

  lemma {:induction false} MatchIsComplete(p: Pattern, s: string, i: nat, slots: Slots)
    requires i <= |s| && Fits(p, s, i, slots)
    ensures Match(p, s, i).Some?
    decreases p, |s| - i
  {
    match p
    case Accept =>
    case Save(rest) =>
      MatchIsComplete(rest, s, i, slots.more);
    case Step(item, rest) =>
      var e: nat :| Spans(item, s, i, e) && Fits(rest, s, e, slots);
      if item.Repeat? && i < e {
        assert Spans(item, s, i + 1, e);
        MatchIsComplete(p, s, i + 1, slots);
      } else {
        MatchIsComplete(rest, s, e, slots);
      }
  }

  /** The pattern fits at position k in some way. */
  ghost predicate FitsAt(p: Pattern, s: string, k: nat) {
    exists slots :: Fits(p, s, k, slots)
  }

  lemma MatchIffFits(p: Pattern, s: string, i: nat)
    requires i <= |s|
    ensures Match(p, s, i).Some? <==> FitsAt(p, s, i)
    ensures Match(p, s, i).Some? ==> Fits(p, s, i, Match(p, s, i).value)
  {
    if Match(p, s, i).Some? {
      MatchIsSound(p, s, i);
    }
    if FitsAt(p, s, i) {
      var slots :| Fits(p, s, i, slots);
      MatchIsComplete(p, s, i, slots);
    }
  }

  /** The search succeeds exactly when the pattern fits somewhere, and then returns a fit at the
      leftmost position that has one. */
  lemma {:induction false} FindIsLeftmostFit(p: Pattern, s: string, i: nat)
    requires i <= |s|
    ensures Find(p, s, i).Some? <==> exists k :: i <= k <= |s| && FitsAt(p, s, k)
    ensures Find(p, s, i).Some? ==>
              var (k, slots) := Find(p, s, i).value;
              && i <= k <= |s| && Fits(p, s, k, slots)
              && forall k' | i <= k' < k :: !FitsAt(p, s, k')
    decreases |s| - i
  {
    MatchIffFits(p, s, i);
    if Match(p, s, i).None? && i < |s| {
      FindIsLeftmostFit(p, s, i + 1);
    }
  }

  // ---- Group boundaries ----

  function Saves(p: Pattern): nat {
    match p
    case Accept => 0
    case Save(rest) => 1 + Saves(rest)
    case Step(_, rest) => Saves(rest)
  }

  /** n positions, in order, between i and n. */
  predicate Ordered(slots: Slots, i: nat, count: nat, end: nat) {
    match slots
    case NoSlot => count == 0
    case Slot(at, more) => count > 0 && i <= at <= end && Ordered(more, at, count - 1, end)
  }

  lemma {:induction false} OrderedFromLess(slots: Slots, i: nat, j: nat, count: nat, end: nat)
    requires i <= j && Ordered(slots, j, count, end)
    ensures Ordered(slots, i, count, end)
  {
  }

  /** The group boundaries of a match are in order and inside the text, one for each mark. */
  lemma {:induction false} FitsInOrder(p: Pattern, s: string, i: nat, slots: Slots)
    requires i <= |s| && Fits(p, s, i, slots)
    ensures Ordered(slots, i, Saves(p), |s|)
    decreases p
  {
    match p
    case Accept =>
    case Save(rest) =>
      FitsInOrder(rest, s, i, slots.more);
    case Step(item, rest) =>
      var e: nat :| Spans(item, s, i, e) && Fits(rest, s, e, slots);
      FitsInOrder(rest, s, e, slots);
      OrderedFromLess(slots, i, e, Saves(rest), |s|);
  }

  // ---- Greedy repetition ----

  /** The end of the longest run of characters of the class that starts at i. */
  function RunEnd(cls: Class, s: string, i: nat): (e: nat)
    requires i <= |s|
    ensures i <= e <= |s| && forall k | i <= k < e :: In(s[k], cls)
    ensures e < |s| ==> !In(s[e], cls)
    decreases |s| - i
  {
    if i < |s| && In(s[i], cls) then RunEnd(cls, s, i + 1) else i
  }

  lemma {:induction false} RunEndIs(cls: Class, s: string, i: nat, e: nat)
    requires i <= e <= |s| && (forall k | i <= k < e :: In(s[k], cls))
    requires e < |s| ==> !In(s[e], cls)
    ensures RunEnd(cls, s, i) == e
    decreases e - i
  {
    if i < e {
      RunEndIs(cls, s, i + 1, e);
    }
  }

  /** A greedy repetition takes the whole run, if the rest matches after it or matches nowhere
      inside it. */
  lemma {:induction false} GreedyTakesRun(c: Class, rest: Pattern, s: string, i: nat)
    requires i <= |s|
    requires var e := RunEnd(c, s, i);
             Match(rest, s, e).Some? || forall k | i <= k < e :: Match(rest, s, k).None?
    ensures Match(Step(Repeat(c, false), rest), s, i) == Match(rest, s, RunEnd(c, s, i))
    decreases |s| - i
  {
    if i < |s| && In(s[i], c) {
      if Match(rest, s, RunEnd(c, s, i)).None? {
        assert Match(rest, s, i).None?;
      }
      GreedyTakesRun(c, rest, s, i + 1);
    }
  }
}
