/** How make reads its argument vector (GNU Make Manual, chapter 9, "How to Run make"): an element that
    starts with "-" is a switch, one that holds "=" sets a variable (section 9.5, "Overriding
    Variables"), any other is a goal (section 9.2, "Arguments to Specify the Goals"). */
module MakeLine {

  datatype Reading = Switch | Operand | Variable | Goal

  function Plain(e: string): Reading {
    if '=' in e then Variable else Goal
  }

  function PlainAll(argv: seq<string>): seq<Reading> {
    seq(|argv|, i requires 0 <= i < |argv| => Plain(argv[i]))
  }

  /** The readings of the elements; `takes` are the switches that take the next element as operand, and
      after "--" there are no more switches. */
  function Readings(takes: set<string>, argv: seq<string>): seq<Reading>
    decreases |argv|
  {
    if argv == [] then []
    else if argv[0] == "--" then [Switch] + PlainAll(argv[1..])
    else if argv[0] != "" && argv[0][0] == '-' then
      if argv[0] in takes && |argv| > 1 then [Switch, Operand] + Readings(takes, argv[2..])
      else [Switch] + Readings(takes, argv[1..])
    else [Plain(argv[0])] + Readings(takes, argv[1..])
  }

  /** What make is told to build, in order. Without a goal it builds the default goal of the Makefile. */
  function Goals(takes: set<string>, argv: seq<string>): seq<string> {
    GoalsOf(argv, Readings(takes, argv))
  }

  function GoalsOf(argv: seq<string>, readings: seq<Reading>): seq<string>
    decreases |argv|
  {
    if argv == [] || readings == [] then []
    else (if readings[0] == Goal then [argv[0]] else []) + GoalsOf(argv[1..], readings[1..])
  }

  /** A setting that cannot be taken for a switch. */
  predicate IsSetting(e: string) {
    e != "" && e[0] != '-' && '=' in e
  }

  predicate AllVariables(readings: seq<Reading>) {
    forall i | 0 <= i < |readings| :: readings[i] == Variable
  }

  lemma {:induction false} SettingsAreVariables(takes: set<string>, entries: seq<string>)
    requires forall i | 0 <= i < |entries| :: IsSetting(entries[i])
    ensures |Readings(takes, entries)| == |PlainAll(entries)| == |entries|
    ensures AllVariables(Readings(takes, entries)) && AllVariables(PlainAll(entries))
  {
    if entries != [] {
      assert IsSetting(entries[0]);
      SettingsAreVariables(takes, entries[1..]);
    }
  }

  lemma {:induction false} VariablesAreNoGoals(entries: seq<string>, readings: seq<Reading>)
    requires forall i | 0 <= i < |readings| :: readings[i] != Goal
    ensures GoalsOf(entries, readings) == []
    decreases |entries|
  {
    if entries != [] && readings != [] {
      VariablesAreNoGoals(entries[1..], readings[1..]);
    }
  }

  const FLAG := "--no-print-directory"

  /** The readings of the vector that the server builds: the second element is a goal exactly when the
      target does not start with "-", and then it is the only goal and all others are variables; if it
      does, make is given no goal, and the first variable may be lost to the switch. */
  lemma VectorReadings(takes: set<string>, id: string, entries: seq<string>)
    requires FLAG !in takes && id != "" && '=' !in id
    requires forall i | 0 <= i < |entries| :: IsSetting(entries[i])
    ensures var argv := [FLAG, id] + entries;
            var readings := Readings(takes, argv);
            && |readings| == |argv| && readings[0] == Switch
            && (readings[1] == Goal && AllVariables(readings[2..]) <==> id[0] != '-')
            && (forall k | 3 <= k < |readings| :: readings[k] == Variable)
            && Goals(takes, argv) == if id[0] != '-' then [id] else []
  {
    var argv := [FLAG, id] + entries;
    assert argv[1..] == [id] + entries && ([id] + entries)[1..] == entries;
    SettingsAreVariables(takes, entries);
    ReadingsAfterFlag(takes, id, entries);
    var rest := Readings(takes, [id] + entries);
    var readings := Readings(takes, argv);
    assert readings == [Switch] + rest;
    assert readings[2..] == rest[1..];
    GoalsAfterFlag(id, entries, rest);
    assert readings[1..] == rest;
  }

  lemma ReadingsAfterFlag(takes: set<string>, id: string, entries: seq<string>)
    requires id != "" && '=' !in id
    requires forall i | 0 <= i < |entries| :: IsSetting(entries[i])
    ensures var rest := Readings(takes, [id] + entries);
            && |rest| == 1 + |entries|
            && (if id[0] != '-' then rest[0] == Goal && AllVariables(rest[1..]) else rest[0] == Switch)
            && forall k | 1 <= k < |rest| :: rest[k] == Variable || (k == 1 && rest[k] == Operand)
  {
    var argv := [id] + entries;
    assert argv[1..] == entries;
    SettingsAreVariables(takes, entries);
    if entries != [] {
      assert argv[2..] == entries[1..];
      SettingsAreVariables(takes, entries[1..]);
    }
  }

  lemma GoalsAfterFlag(id: string, entries: seq<string>, rest: seq<Reading>)
    requires |rest| == 1 + |entries| && forall k | 1 <= k < |rest| :: rest[k] != Goal
    ensures GoalsOf([id] + entries, rest) == if rest[0] == Goal then [id] else []
  {
    assert ([id] + entries)[1..] == entries;
    VariablesAreNoGoals(entries, rest[1..]);
  }
}
