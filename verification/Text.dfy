/** Strings as sequences of characters: the parts of Go's `strings` package that the repository relies
    on, which are TrimSpace, Fields, HasPrefix, Index and SplitN with one separator, with the lemmas about
    white space, words and occurrences that the scanners and printers need. White space is that of
    `unicode.IsSpace`. */
module Text {

  datatype Option<+T> = None | Some(value: T)

  /** The white space of `unicode.IsSpace`, used by `strings.TrimSpace` and `strings.Fields`. */
  predicate IsSpace(c: char) {
    var n := c as int;
    || 0x09 <= n <= 0x0d || n == 0x20 || n == 0x85 || n == 0xa0 || n == 0x1680
    || 0x2000 <= n <= 0x200a || n == 0x2028 || n == 0x2029 || n == 0x202f || n == 0x205f
    || n == 0x3000
  }

  predicate IsLower(c: char) { 'a' <= c <= 'z' }

  predicate IsUpper(c: char) { 'A' <= c <= 'Z' }

  predicate IsDigit(c: char) { '0' <= c <= '9' }

  predicate IsLetter(c: char) { IsLower(c) || IsUpper(c) }

  /** Nothing left for `TrimSpace` to remove. */
  predicate Trimmed(s: string) {
    s != [] ==> !IsSpace(s[0]) && !IsSpace(s[|s| - 1])
  }

  predicate NoSpace(s: string) {
    forall i | 0 <= i < |s| :: !IsSpace(s[i])
  }

  predicate AllSpace(s: string) {
    forall i | 0 <= i < |s| :: IsSpace(s[i])
  }

  function TrimLeft(s: string): (r: string)
    ensures |r| <= |s|
  {
    if s != [] && IsSpace(s[0]) then TrimLeft(s[1..]) else s
  }

  function TrimRight(s: string): (r: string)
    ensures |r| <= |s|
  {
    if s != [] && IsSpace(s[|s| - 1]) then TrimRight(s[..|s| - 1]) else s
  }

  /** strings.TrimSpace */
  function Trim(s: string): string {
    TrimRight(TrimLeft(s))
  }

  lemma {:induction false} TrimLeftIsSuffix(s: string)
    ensures var r := TrimLeft(s);
            && r == s[|s| - |r|..] && AllSpace(s[..|s| - |r|])
            && (r != [] ==> !IsSpace(r[0]))
  {
    if s != [] && IsSpace(s[0]) {
      var r := TrimLeft(s[1..]);
      TrimLeftIsSuffix(s[1..]);
      assert s[..|s| - |r|] == [s[0]] + s[1..][..|s[1..]| - |r|];
    }
  }

  lemma {:induction false} TrimRightIsPrefix(s: string)
    ensures var r := TrimRight(s);
            && r == s[..|r|] && AllSpace(s[|r|..])
            && (r != [] ==> !IsSpace(r[|r| - 1]))
  {
    if s != [] && IsSpace(s[|s| - 1]) {
      var r := TrimRight(s[..|s| - 1]);
      TrimRightIsPrefix(s[..|s| - 1]);
      assert s[|r|..] == s[..|s| - 1][|r|..] + [s[|s| - 1]];
    }
  }

  lemma TrimIsTrimmed(s: string)
    ensures Trimmed(Trim(s))
    ensures Trimmed(s) ==> Trim(s) == s
  {
    TrimLeftIsSuffix(s);
    TrimRightIsPrefix(TrimLeft(s));
  }

  lemma {:induction false} TrimLeftSkips(a: string, s: string)
    requires AllSpace(a)
    ensures TrimLeft(a + s) == TrimLeft(s)
  {
    if a == [] {
      assert a + s == s;
    } else {
      assert (a + s)[1..] == a[1..] + s && (a + s)[0] == a[0];
      TrimLeftSkips(a[1..], s);
    }
  }

  lemma {:induction false} TrimRightSkips(s: string, b: string)
    requires AllSpace(b)
    ensures TrimRight(s + b) == TrimRight(s)
  {
    if b == [] {
      assert s + b == s;
    } else {
      assert (s + b)[..|s + b| - 1] == s + b[..|b| - 1] && (s + b)[|s + b| - 1] == b[|b| - 1];
      TrimRightSkips(s, b[..|b| - 1]);
    }
  }

  lemma {:induction false} AllSpaceTrimsAway(s: string)
    requires AllSpace(s)
    ensures TrimLeft(s) == []
  {
    if s != [] {
      AllSpaceTrimsAway(s[1..]);
    }
  }

  /** Leading white space in front of a text does not change what `Trim` returns. */
  lemma TrimSkips(a: string, s: string)
    requires AllSpace(a)
    ensures Trim(a + s) == Trim(s)
  {
    TrimLeftSkips(a, s);
  }

  /** Every character that `Trim` keeps was there before. */
  lemma TrimKeeps(s: string, c: char)
    requires c in Trim(s)
    ensures c in s
  {
    TrimLeftIsSuffix(s);
    TrimRightIsPrefix(TrimLeft(s));
    assert c in TrimLeft(s);
  }

  /** The least position at or after i whose character is white space, or the end. */
  function WordEnd(s: string, i: nat): (e: nat)
    requires i <= |s|
    ensures i <= e <= |s| && (i < |s| && !IsSpace(s[i]) ==> i < e)
    decreases |s| - i
  {
    if i < |s| && !IsSpace(s[i]) then WordEnd(s, i + 1) else i
  }

  lemma FirstWord(s: string)
    requires TrimLeft(s) != []
    ensures 0 < WordEnd(TrimLeft(s), 0)
  {
    hide WordEnd;
    TrimLeftIsSuffix(s);
  }

  /** strings.Fields */
  function Fields(s: string): (words: seq<string>)
    decreases |s|
  {
    var t := TrimLeft(s);
    if t == [] then []
    else
      var e := WordEnd(t, 0);
      FirstWord(s);
      [t[..e]] + Fields(t[e..])
  }

  lemma {:induction false} WordEndAt(s: string, i: nat, e: nat)
    requires i <= e <= |s| && NoSpace(s[i..e]) && (e < |s| ==> IsSpace(s[e]))
    ensures WordEnd(s, i) == e
    decreases e - i
  {
    if i < e {
      assert s[i] == s[i..e][0] && s[i + 1..e] == s[i..e][1..];
      WordEndAt(s, i + 1, e);
    }
  }

  lemma FieldsStep(w: string, rest: string)
    requires w != [] && NoSpace(w) && (rest != [] ==> IsSpace(rest[0]))
    ensures Fields(w + rest) == [w] + Fields(rest)
  {
    var s := w + rest;
    assert s[0] == w[0] && s[0..|w|] == w;
    WordEndAt(s, 0, |w|);
    assert s[..|w|] == w && s[|w|..] == rest;
  }

  lemma FieldsSkip(a: string, s: string)
    requires AllSpace(a)
    ensures Fields(a + s) == Fields(s)
  {
    TrimLeftSkips(a, s);
  }

  lemma FieldsOfOne(b: string)
    requires b != [] && NoSpace(b)
    ensures Fields(b) == [b]
  {
    FieldsStep(b, []);
    assert b + [] == b;
  }

  lemma FieldsOfTwo(a: string, sep: string, b: string)
    requires a != [] && b != [] && NoSpace(a) && NoSpace(b) && sep != [] && AllSpace(sep)
    ensures Fields(a + (sep + b)) == [a, b]
  {
    var rest := sep + b;
    assert IsSpace(rest[0]) by {
      assert rest[0] == sep[0];
    }
    FieldsStep(a, rest);
    FieldsSkip(sep, b);
    FieldsOfOne(b);
  }

  predicate OccursAt(s: string, t: string, i: nat) {
    i + |t| <= |s| && s[i..i + |t|] == t
  }

  /** The least position at or after i where t occurs in s. */
  function Index(s: string, t: string, i: nat): (r: Option<nat>)
    requires i <= |s|
    ensures r.Some? ==> i <= r.value && OccursAt(s, t, r.value)
    ensures r.Some? ==> forall k | i <= k < r.value :: !OccursAt(s, t, k)
    ensures r.None? ==> forall k | i <= k <= |s| :: !OccursAt(s, t, k)
    decreases |s| - i
  {
    if OccursAt(s, t, i) then Some(i)
    else if i < |s| then Index(s, t, i + 1)
    else None
  }

  predicate HasPrefix(s: string, t: string) {
    t <= s
  }
}
