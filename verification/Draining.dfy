/** Wake-ups are not lost, and the pending paths drain: from the last time that the timer was set on,
    whatever came before, as long as no step is one of the two exceptional ones. */
module Draining {
  import opened Text
  import opened Protocol
  import opened Debounce
  import opened Wakeup

  // ---- Wake-ups ----

  /** A step that neither meets a full buffer nor reads the clock past a deadline that it has just
      found in the future. */
  predicate Prompt(a: Action) {
    !a.Requeue? && (a.Wait? ==> a.wait > 0)
  }

  predicate AllPrompt(tr: Trace) {
    forall i | 0 <= i < |tr| :: Prompt(tr[i])
  }

  /** Some pending path is due by the given time. */
  ghost predicate DueBy(s: State, t: Time) {
    exists p :: p in s.pending && s.pending[p] <= t
  }

  /** A running timer is not early for every path, and a timer that has run is late for some path. */
  ghost predicate Timely(s: State) {
    DueBy(s, if s.timer.Armed? then s.timer.at else s.clock)
  }

  /** The next settle time of a flush is that of a path it has visited and left pending. */
  ghost predicate NextIsBacked(s: State)
    requires s.lock.Flushing?
  {
    s.lock.next > 0 ==>
      exists p :: p in s.pending && p !in s.lock.todo && s.pending[p] <= s.clock + s.lock.next
  }

  /** What a prompt flush has seen of the paths it has visited and left pending. */
  ghost predicate FlushKnows(s: State)
    requires s.lock.Flushing?
  {
    && (forall p | p in s.pending && p !in s.lock.todo :: s.lock.next > 0)
    && s.lock.next >= 0 && NextIsBacked(s)
  }

  ghost predicate Awake(s: State) {
    match s.lock
    case Free => s.pending != map[] ==> (s.timer.Armed? || s.fired > 0) && Timely(s)
    case Enqueuing => s.pending != map[]
    case Flushing(_, _, _) => FlushKnows(s)
  }

  lemma StepKeepsBacking(s: State, a: Action)
    requires Invariant(s) && Enabled(s, a) && s.lock.Flushing? && NextIsBacked(s)
    ensures Apply(s, a).lock.Flushing? ==> NextIsBacked(Apply(s, a))
    ensures a.End? && s.lock.next > 0 ==> Awake(Apply(s, a))
  {
    var t := Apply(s, a);
    if s.lock.next > 0 {
      var p :| p in s.pending && p !in s.lock.todo && s.pending[p] <= s.clock + s.lock.next;
      assert p in t.pending && t.pending[p] == s.pending[p];
    }
    if a.Wait? {
      assert a.path in t.pending && a.path !in t.lock.todo;
    }
  }

  /** In every interleaving a positive next settle time leads to the deadline of a pending path. */
  lemma {:induction false} FlushIsBacked(requested: int, clock: Time, tr: Trace)
    requires Run(Start(requested, clock), tr).Some? && Run(Start(requested, clock), tr).value.lock.Flushing?
    ensures NextIsBacked(Run(Start(requested, clock), tr).value)
  {
    if tr != [] {
      var front, a := tr[..|tr| - 1], tr[|tr| - 1];
      var s := Run(Start(requested, clock), front).value;
      InvariantHolds(requested, clock, front);
      if s.lock.Flushing? {
        FlushIsBacked(requested, clock, front);
        StepKeepsBacking(s, a);
      }
    }
  }

  lemma StepKeepsAwake(s: State, a: Action)
    requires Invariant(s) && Enabled(s, a) && Prompt(a) && !Apply(s, a).done && Awake(s)
    ensures Awake(Apply(s, a))
  {
    var t := Apply(s, a);
    if s.lock.Flushing? {
      StepKeepsBacking(s, a);
      if a.End? && s.pending != map[] {
        var q :| q in s.pending;
        assert q !in s.lock.todo;
      }
    } else if a.Mark? {
      assert a.path in t.pending;
    } else if a.Arm? {
      ArmWakes(s);
    } else if s.pending != map[] && s.lock.Free? {
      var p :| p in s.pending && s.pending[p] <= if s.timer.Armed? then s.timer.at else s.clock;
      assert p in t.pending && t.pending[p] == s.pending[p];
    }
  }

  lemma ArmWakes(s: State)
    requires Invariant(s) && Enabled(s, Arm)
    ensures Awake(Apply(s, Arm))
  {
    var t := Apply(s, Arm);
    if s.pending != map[] {
      var p :| p in s.pending;
      assert p in t.pending && t.pending[p] <= t.timer.at;
    }
  }

  /** The first j steps, if there are any, end by setting the timer: an enqueue, or a flush whose
      waits reset it. The steps after them are prompt. */
  predicate PromptSince(tr: Trace, j: nat) {
    && j <= |tr| && AllPrompt(tr[j..])
    && (j > 0 && !tr[j - 1].Arm? ==> tr[j - 1].End? && WaitsAhead(Waits(tr[..j - 1])))
  }

  /** Setting the timer wakes the watcher up, whatever came before. */
  lemma SettingWakes(requested: int, clock: Time, tr: Trace, a: Action)
    requires Run(Start(requested, clock), tr + [a]).Some?
    requires a.Arm? || (a.End? && WaitsAhead(Waits(tr)))
    ensures Awake(Run(Start(requested, clock), tr + [a]).value)
  {
    hide Run, WaitsAhead, Waits, Invariant;
    var start := Start(requested, clock);
    RunOne(start, tr, a);
    InvariantHolds(requested, clock, tr);
    if a.Arm? {
      ArmWakes(Run(start, tr).value);
    } else {
      NextIsFolded(start, tr);
      FoldedSign(Waits(tr));
      FlushIsBacked(requested, clock, tr);
      StepKeepsBacking(Run(start, tr).value, a);
    }
  }

  lemma {:induction false} StaysAwake(s: State, tr: Trace)
    requires Invariant(s) && Awake(s) && AllPrompt(tr)
    requires Run(s, tr).Some? && !Run(s, tr).value.done
    ensures Invariant(Run(s, tr).value) && Awake(Run(s, tr).value)
  {
    hide Awake, Invariant, Prompt;
    if tr != [] {
      var front, a := tr[..|tr| - 1], tr[|tr| - 1];
      assert Prompt(a);
      StaysAwake(s, front);
      StepKeepsInvariant(Run(s, front).value, a);
      StepKeepsAwake(Run(s, front).value, a);
    }
  }

  /** The state after j steps that end by setting the timer. */
  lemma AwakeAt(requested: int, clock: Time, tr: Trace, j: nat)
    requires Run(Start(requested, clock), tr).Some? && PromptSince(tr, j)
    ensures Run(Start(requested, clock), tr[..j]).Some?
    ensures Awake(Run(Start(requested, clock), tr[..j]).value)
  {
    hide Run, WaitsAhead, Waits;
    RunPrefix(Start(requested, clock), tr, j);
    if j > 0 {
      assert tr[..j] == tr[..j - 1] + [tr[j - 1]];
      SettingWakes(requested, clock, tr[..j - 1], tr[j - 1]);
    } else {
      NothingIsAwake(requested, clock);
      assert tr[..j] == [];
    }
  }

  lemma NothingIsAwake(requested: int, clock: Time)
    ensures Run(Start(requested, clock), []) == Some(Start(requested, clock)) && Awake(Start(requested, clock))
  {
  }

  lemma PromptRunsAreAwake(requested: int, clock: Time, tr: Trace, j: nat)
    requires Run(Start(requested, clock), tr).Some? && PromptSince(tr, j)
    requires !Run(Start(requested, clock), tr).value.done
    ensures Awake(Run(Start(requested, clock), tr).value)
  {
    hide Run, Awake, Invariant;
    AwakeAt(requested, clock, tr, j);
    InvariantHolds(requested, clock, tr[..j]);
    assert tr == tr[..j] + tr[j..];
    RunSplits(Start(requested, clock), tr[..j], tr[j..]);
    StaysAwake(Run(Start(requested, clock), tr[..j]).value, tr[j..]);
  }

  /** No lost wake-up: before Close, and as long as the steps since the timer was last set are prompt,
      whenever mu is free and a path is pending, the timer is running or a fired flush waits for the
      lock; a running timer is due no earlier than the smallest pending deadline, and if none is
      running that deadline has come. */
  lemma NoWakeUpIsLost(requested: int, clock: Time, tr: Trace, j: nat)
    requires Run(Start(requested, clock), tr).Some? && PromptSince(tr, j)
    ensures var s := Run(Start(requested, clock), tr).value;
            !s.done && s.lock.Free? && s.pending != map[] ==>
              && (s.timer.Armed? || s.fired > 0)
              && exists p :: p in s.pending && s.pending[p] <= if s.timer.Armed? then s.timer.at else s.clock
  {
    if !Run(Start(requested, clock), tr).value.done {
      PromptRunsAreAwake(requested, clock, tr, j);
    }
  }

  // ---- Draining ----

  lemma RemoveOne(m: map<Path, Time>, p: Path)
    requires p in m
    ensures |m - {p}| == |m| - 1
  {
    assert (m - {p}).Keys == m.Keys - {p};
    assert |m.Keys| == |m|;
  }

  /** What is left to do: every flush that has been fired or will be, and two for every path. */
  function Work(s: State): nat {
    s.fired + (if s.timer.Armed? then 1 else 0) + 2 * |s.pending|
  }

  /** One flush less, when some path is due already. */
  ghost function Slack(s: State): nat {
    if DueBy(s, s.clock) then 1 else 0
  }

  /** A path that the current flush will visit and find ready. */
  ghost predicate ReadyAhead(s: State)
    requires s.lock.Flushing?
  {
    exists p :: p in s.lock.todo && p in s.pending && s.pending[p] <= s.lock.now
  }

  /** After k flushes the work has come down to n - k: a flush sends an event, or finds nothing ready
      and leaves a timer behind that is not early. */
  ghost predicate Shrinking(s: State, n: int, k: nat) {
    s.pending == map[] ||
    match s.lock
    case Free => k + Work(s) <= n + Slack(s)
    case Enqueuing => false
    case Flushing(_, _, _) =>
      || (ReadyAhead(s) && k + Work(s) <= n)
      || k + Work(s) + 2 <= n
      || (Timely(s) && k + Work(s) + 1 <= n)
  }

  lemma DueStays(s: State, a: Action, t: Time)
    requires Enabled(s, a) && !a.Mark? && !a.Send? && !a.Requeue? && DueBy(s, t)
    ensures DueBy(Apply(s, a), t)
  {
    var p :| p in s.pending && s.pending[p] <= t;
    assert p in Apply(s, a).pending && Apply(s, a).pending[p] <= t;
  }

  lemma LaterIsDue(s: State, t: Time, u: Time)
    requires DueBy(s, t) && t <= u
    ensures DueBy(s, u)
  {
    var p :| p in s.pending && s.pending[p] <= t;
    assert p in s.pending && s.pending[p] <= u;
  }

  lemma TimelyStays(s: State, a: Action)
    requires Enabled(s, a) && !a.Mark? && !a.Arm? && !a.Send? && !a.Requeue? && !a.End? && Timely(s)
    ensures Timely(Apply(s, a))
  {
    hide DueBy;
    var t := Apply(s, a);
    var was := if s.timer.Armed? then s.timer.at else s.clock;
    DueStays(s, a, was);
    LaterIsDue(t, was, if t.timer.Armed? then t.timer.at else t.clock);
  }

  lemma FreeStepShrinks(s: State, a: Action, n: int, k: nat)
    requires Invariant(s) && Enabled(s, a) && !a.Mark? && !Apply(s, a).done
    requires s.lock.Free? && s.pending != map[] && Awake(s) && Shrinking(s, n, k)
    ensures Shrinking(Apply(s, a), n, k)
  {
    hide DueBy;
    var t := Apply(s, a);
    if a.Begin? {
      if DueBy(s, s.clock) {
        BeginsReady(s);
      } else {
        TimelyStays(s, a);
      }
    } else {
      if DueBy(s, s.clock) {
        DueStays(s, a, s.clock);
        LaterIsDue(t, s.clock, t.clock);
      }
    }
  }

  lemma BeginsReady(s: State)
    requires Enabled(s, Begin) && DueBy(s, s.clock)
    ensures ReadyAhead(Apply(s, Begin))
  {
    var p :| p in s.pending && s.pending[p] <= s.clock;
    assert p in Apply(s, Begin).lock.todo;
  }

  lemma FlushStepShrinks(s: State, a: Action, n: int, k: nat)
    requires Invariant(s) && Enabled(s, a) && Prompt(a) && !a.End? && !Apply(s, a).done
    requires s.lock.Flushing? && s.pending != map[] && Shrinking(s, n, k)
    ensures Shrinking(Apply(s, a), n, k)
  {
    hide DueBy, Timely;
    var t := Apply(s, a);
    if a.Send? {
      RemoveOne(s.pending, a.path);
    } else {
      if ReadyAhead(s) {
        var p :| p in s.lock.todo && p in s.pending && s.pending[p] <= s.lock.now;
        assert p in t.lock.todo;
      }
      if Timely(s) {
        TimelyStays(s, a);
      }
    }
  }

  lemma EndShrinks(s: State, n: int, k: nat)
    requires Invariant(s) && Enabled(s, End) && FlushKnows(s)
    requires s.pending != map[] && Shrinking(s, n, k)
    ensures Shrinking(Apply(s, End), n, k + 1)
  {
    hide DueBy;
    var t := Apply(s, End);
    if Timely(s) && !s.timer.Armed? {
      DueStays(s, End, s.clock);
    }
  }

  lemma StepShrinks(s: State, a: Action, n: int, k: nat)
    requires Invariant(s) && Enabled(s, a) && Prompt(a) && !a.Mark? && !Apply(s, a).done
    requires Awake(s) && Shrinking(s, n, k)
    ensures Shrinking(Apply(s, a), n, if a.End? then k + 1 else k)
  {
    if s.pending != map[] {
      if s.lock.Free? {
        FreeStepShrinks(s, a, n, k);
      } else if a.End? {
        EndShrinks(s, n, k);
      } else {
        FlushStepShrinks(s, a, n, k);
      }
    } else {
      assert Apply(s, a).pending == map[];
    }
  }

  lemma {:induction false} RunShrinks(s: State, tr: Trace, n: int)
    requires Invariant(s) && Awake(s) && Shrinking(s, n, 0) && AllPrompt(tr) && NoMarks(tr)
    requires Run(s, tr).Some? && !Run(s, tr).value.done
    ensures Invariant(Run(s, tr).value) && Awake(Run(s, tr).value) && Shrinking(Run(s, tr).value, n, Ends(tr))
  {
    hide Awake, Shrinking, Invariant, Prompt;
    if tr != [] {
      var front, a := tr[..|tr| - 1], tr[|tr| - 1];
      assert Prompt(a) && !a.Mark?;
      RunShrinks(s, front, n);
      StepKeepsInvariant(Run(s, front).value, a);
      StepKeepsAwake(Run(s, front).value, a);
      StepShrinks(Run(s, front).value, a, n, Ends(front));
    }
  }

  lemma ShrunkIsEmpty(s: State, t: State, k: nat)
    requires Awake(t) && Shrinking(t, Work(s) - Slack(s), k) && k >= s.fired + 2 * |s.pending|
    ensures t.pending == map[]
  {
    assert |t.pending| == 0 ==> t.pending == map[];
  }

  /** The parts of a run in which the timer was set at step j, and whose last steps are `after`. */
  lemma PromptParts(requested: int, clock: Time, before: Trace, after: Trace, j: nat)
    requires Run(Start(requested, clock), before + after).Some?
    requires j <= |before| && PromptSince(before + after, j)
    requires !Run(Start(requested, clock), before + after).value.done
    ensures Run(Start(requested, clock), before).Some? && AllPrompt(after)
    ensures var s := Run(Start(requested, clock), before).value;
            && !s.done && Invariant(s) && Awake(s)
            && Run(s, after) == Run(Start(requested, clock), before + after)
  {
    hide Awake, Invariant, WaitsAhead, Waits;
    var tr := before + after;
    RunSplits(Start(requested, clock), before, after);
    InvariantHolds(requested, clock, before);
    var s := Run(Start(requested, clock), before).value;
    if s.done {
      DoneStays(s, after);
    }
    assert forall i | 0 <= i < |after| :: after[i] == tr[j..][|before| - j + i];
    assert PromptSince(before, j) by {
      assert forall i | 0 <= i < |before| - j :: before[j..][i] == tr[j..][i];
      assert j > 0 ==> tr[..j - 1] == before[..j - 1] && tr[j - 1] == before[j - 1];
    }
    PromptRunsAreAwake(requested, clock, before, j);
  }

  /** Once enqueues stop, whatever came before and whatever is in flight: after as many flushes as
      have been fired, and two for every pending path, nothing is pending. */
  lemma PendingDrains(requested: int, clock: Time, before: Trace, after: Trace, j: nat)
    requires Run(Start(requested, clock), before + after).Some? && NoMarks(after)
    requires j <= |before| && PromptSince(before + after, j)
    requires Run(Start(requested, clock), before).Some? && Run(Start(requested, clock), before).value.lock.Free?
    requires !Run(Start(requested, clock), before + after).value.done
    ensures var s := Run(Start(requested, clock), before).value;
            Ends(after) >= s.fired + 2 * |s.pending| ==>
              Run(Start(requested, clock), before + after).value.pending == map[]
  {
    hide Run, Awake, Invariant, PromptSince;
    PromptParts(requested, clock, before, after, j);
    var s := Run(Start(requested, clock), before).value;
    RunShrinks(s, after, Work(s) - Slack(s));
    if Ends(after) >= s.fired + 2 * |s.pending| {
      ShrunkIsEmpty(s, Run(s, after).value, Ends(after));
    }
  }

  /** The same from the last enqueue on: only the steps after it have to be prompt. */
  lemma DrainsAfterLastEnqueue(requested: int, clock: Time, before: Trace, after: Trace)
    requires Run(Start(requested, clock), before + [Arm] + after).Some? && AllPrompt(after) && NoMarks(after)
    requires Run(Start(requested, clock), before + [Arm]).Some?
    requires !Run(Start(requested, clock), before + [Arm] + after).value.done
    ensures var s := Run(Start(requested, clock), before + [Arm]).value;
            Ends(after) >= s.fired + 2 * |s.pending| ==>
              Run(Start(requested, clock), before + [Arm] + after).value.pending == map[]
  {
    hide Run, Invariant;
    RunOne(Start(requested, clock), before, Arm);
    assert (before + [Arm] + after)[|before + [Arm]|..] == after;
    PendingDrains(requested, clock, before + [Arm], after, |before + [Arm]|);
  }

  // ---- With no flush in flight ----

  /** From a state with `n` pending paths and no flush in flight, after `k` flushes. */
  ghost predicate Draining(s: State, n: nat, k: nat) {
    s.pending == map[] ||
    match s.lock
    case Free => |s.pending| + k <= n && (if s.timer.Armed? then s.fired == 0 else s.fired == 1)
    case Enqueuing => false
    case Flushing(_, _, _) =>
      && !s.timer.Armed? && s.fired == 0
      && (|s.pending| + k + 1 <= n || (|s.pending| + k <= n && ReadyAhead(s)))
  }

  lemma StepDrains(s: State, a: Action, n: nat, k: nat)
    requires Invariant(s) && Enabled(s, a) && Prompt(a) && !a.Mark? && !Apply(s, a).done
    requires Awake(s) && Draining(s, n, k)
    ensures Draining(Apply(s, a), n, if a.End? then k + 1 else k)
  {
    hide NextIsBacked;
    var t := Apply(s, a);
    if s.pending != map[] && s.lock.Flushing? {
      if a.Send? {
        RemoveOne(s.pending, a.path);
      } else if a.End? {
        var q :| q in s.pending;
        assert q !in s.lock.todo;
      } else if ReadyAhead(s) {
        var p :| p in s.lock.todo && p in s.pending && s.pending[p] <= s.lock.now;
        assert p in t.lock.todo;
      }
    } else if s.pending != map[] && a.Begin? {
      BeginsReady(s);
    }
  }

  lemma {:induction false} RunDrains(s: State, tr: Trace, n: nat)
    requires Invariant(s) && Awake(s) && Draining(s, n, 0) && AllPrompt(tr) && NoMarks(tr)
    requires Run(s, tr).Some? && !Run(s, tr).value.done
    ensures Invariant(Run(s, tr).value) && Awake(Run(s, tr).value) && Draining(Run(s, tr).value, n, Ends(tr))
  {
    hide Awake, Draining, Invariant, Prompt;
    if tr != [] {
      var front, a := tr[..|tr| - 1], tr[|tr| - 1];
      assert Prompt(a) && !a.Mark?;
      RunDrains(s, front, n);
      StepKeepsInvariant(Run(s, front).value, a);
      StepKeepsAwake(Run(s, front).value, a);
      StepDrains(Run(s, front).value, a, n, Ends(front));
    }
  }

  /** If moreover no flush is in flight when enqueues stop, every flush sends at least one event. */
  lemma EveryFlushSends(requested: int, clock: Time, before: Trace, after: Trace, j: nat)
    requires Run(Start(requested, clock), before + after).Some? && NoMarks(after)
    requires j <= |before| && PromptSince(before + after, j)
    requires Run(Start(requested, clock), before).Some? && Run(Start(requested, clock), before).value.lock.Free?
    requires !Run(Start(requested, clock), before + after).value.done
    ensures var s := Run(Start(requested, clock), before).value;
            var t := Run(Start(requested, clock), before + after).value;
            s.fired == 0 ==> t.pending == map[] || |t.pending| + Ends(after) <= |s.pending|
  {
    hide Run, Invariant, PromptSince;
    PromptParts(requested, clock, before, after, j);
    var s := Run(Start(requested, clock), before).value;
    if s.fired == 0 {
      RunDrains(s, after, |s.pending|);
    }
  }
}
