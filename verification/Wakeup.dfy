/** Exactly when a flush wakes the watcher up again, and how a wake-up is lost. */
module Wakeup {
  import opened Text
  import opened Protocol
  import opened Debounce

  // ---- Exactly when a flush resets the timer ----

  /** Every wait is taken before its deadline, and the last one strictly before. */
  predicate WaitsAhead(waits: seq<int>) {
    && waits != [] && waits[|waits| - 1] > 0
    && forall i | 0 <= i < |waits| :: waits[i] >= 0
  }

  lemma {:induction false} FoldedSign(waits: seq<int>)
    ensures (exists i :: 0 <= i < |waits| && waits[i] < 0) <==> Folded(waits) < 0
    ensures Folded(waits) > 0 <==> WaitsAhead(waits)
  {
    if waits != [] {
      var front, last := waits[..|waits| - 1], waits[|waits| - 1];
      FoldedSign(front);
      if Folded(front) < 0 {
        var i :| 0 <= i < |front| && front[i] < 0;
        assert waits[i] < 0;
      } else {
        assert forall i | 0 <= i < |front| :: waits[i] == front[i] >= 0;
        assert waits[|waits| - 1] == last;
      }
    }
  }

  /** When all waits are positive, nextSettle is the smallest of them. */
  lemma {:induction false} FoldedIsLeast(waits: seq<int>)
    requires waits != [] && forall i | 0 <= i < |waits| :: waits[i] > 0
    ensures Folded(waits) in waits && forall i | 0 <= i < |waits| :: Folded(waits) <= waits[i]
  {
    var front := waits[..|waits| - 1];
    assert waits == front + [waits[|waits| - 1]];
    if front != [] {
      FoldedIsLeast(front);
      assert Folded(front) in front;
    } else {
      assert Folded(front) == 0;
    }
  }

  lemma StepFolds(s: State, tr: Trace, a: Action)
    requires Enabled(s, a) && Apply(s, a).lock.Flushing?
    requires s.lock.Flushing? ==> s.lock.next == Folded(Waits(tr))
    ensures Apply(s, a).lock.next == Folded(Waits(tr + [a]))
  {
    assert (tr + [a])[..|tr|] == tr;
    var waits := Waits(tr);
    if a.Wait? {
      assert (waits + [a.wait])[..|waits|] == waits;
    } else {
      assert waits + [] == waits;
    }
  }

  /** nextSettle is what the waits of the current flush fold to. */
  lemma {:induction false} NextIsFolded(s: State, tr: Trace)
    requires !s.lock.Flushing? && Run(s, tr).Some? && Run(s, tr).value.lock.Flushing?
    ensures Run(s, tr).value.lock.next == Folded(Waits(tr))
  {
    if tr != [] {
      var front, a := tr[..|tr| - 1], tr[|tr| - 1];
      if Run(s, front).value.lock.Flushing? {
        NextIsFolded(s, front);
      }
      StepFolds(Run(s, front).value, front, a);
      assert front + [a] == tr;
    }
  }

  // ---- What a flush leaves pending ----

  /** Since it began, the current flush has met a full buffer, or has visited a path that is not ready. */
  predicate Requeued(tr: Trace) {
    tr != [] && !tr[|tr| - 1].Begin? && (tr[|tr| - 1].Requeue? || Requeued(tr[..|tr| - 1]))
  }

  predicate LeavesSome(tr: Trace) {
    Requeued(tr) || Waits(tr) != []
  }

  /** A path that the current flush will not send. */
  ghost predicate Kept(s: State)
    requires s.lock.Flushing?
  {
    exists p :: p in s.pending && (p !in s.lock.todo || s.pending[p] > s.lock.now)
  }

  /** What a flush has done so far, and what is left of the paths it found. */
  ghost predicate Accounts(s: State, tr: Trace)
    requires s.lock.Flushing?
  {
    if LeavesSome(tr) then Kept(s) else s.pending.Keys == s.lock.todo
  }

  lemma StepKeepsKept(s: State, a: Action)
    requires Invariant(s) && Enabled(s, a) && s.lock.Flushing? && Apply(s, a).lock.Flushing?
    requires Kept(s) || a.Requeue? || a.Wait?
    ensures Kept(Apply(s, a))
  {
    var t := Apply(s, a);
    if Kept(s) {
      var p :| p in s.pending && (p !in s.lock.todo || s.pending[p] > s.lock.now);
      assert p in t.pending && (p !in t.lock.todo || t.pending[p] > t.lock.now);
    } else {
      assert a.path in t.pending && (a.path !in t.lock.todo || t.pending[a.path] > t.lock.now);
    }
  }

  lemma LeavesOne(tr: Trace, a: Action)
    ensures LeavesSome(tr + [a]) <==> !a.Begin? && (a.Requeue? || a.Wait? || LeavesSome(tr))
  {
    assert (tr + [a])[..|tr|] == tr;
  }

  lemma {:induction false} FlushAccounts(requested: int, clock: Time, tr: Trace)
    requires Run(Start(requested, clock), tr).Some? && Run(Start(requested, clock), tr).value.lock.Flushing?
    ensures Accounts(Run(Start(requested, clock), tr).value, tr)
  {
    hide LeavesSome, Kept;
    if tr != [] {
      var front, a := tr[..|tr| - 1], tr[|tr| - 1];
      var s := Run(Start(requested, clock), front).value;
      InvariantHolds(requested, clock, front);
      assert front + [a] == tr;
      LeavesOne(front, a);
      if s.lock.Flushing? {
        FlushAccounts(requested, clock, front);
        if LeavesSome(tr) {
          StepKeepsKept(s, a);
        }
      }
    }
  }

  /** A flush leaves a path pending exactly when it has met a full buffer or a path that is not ready. */
  lemma FlushLeavesExactly(requested: int, clock: Time, tr: Trace)
    requires Run(Start(requested, clock), tr + [End]).Some?
    ensures Run(Start(requested, clock), tr + [End]).value.pending != map[] <==> LeavesSome(tr)
  {
    hide LeavesSome, Run;
    RunOne(Start(requested, clock), tr, End);
    FlushAccounts(requested, clock, tr);
    var s := Run(Start(requested, clock), tr).value;
    if LeavesSome(tr) {
      var p :| p in s.pending;
    } else {
      assert s.pending.Keys == {};
    }
  }

  // ---- Exactly when the watcher stalls ----

  /** No wait and a full buffer, or waits that do not reset the timer. */
  predicate Forgets(tr: Trace) {
    if Waits(tr) == [] then Requeued(tr) else !WaitsAhead(Waits(tr))
  }

  /** A path is pending and nothing will ever look at it again by itself. */
  predicate Stalled(s: State) {
    !s.done && s.lock.Free? && s.pending != map[] && !s.timer.Armed? && s.fired == 0
  }

  /** A flush that ends with no timer running and no other flush in flight leaves the watcher stalled
      exactly when it has met a full buffer and waited for no path, or has waited for paths and read
      the clock after the deadline of one of them, or not before that of the last. */
  lemma FlushStallsExactly(requested: int, clock: Time, tr: Trace)
    requires Run(Start(requested, clock), tr + [End]).Some?
    requires var s := Run(Start(requested, clock), tr).value; !s.done && !s.timer.Armed? && s.fired == 0
    ensures var t := Run(Start(requested, clock), tr + [End]).value;
            Stalled(t) <==> Forgets(tr)
  {
    hide Run, WaitsAhead, Waits, Requeued;
    RunOne(Start(requested, clock), tr, End);
    NextIsFolded(Start(requested, clock), tr);
    FoldedSign(Waits(tr));
    FlushLeavesExactly(requested, clock, tr);
    NoWaitsAhead();
  }

  lemma NoWaitsAhead()
    ensures !WaitsAhead([])
  {
  }

  /** A stalled watcher stays stalled, and sends nothing, until the next enqueue. */
  lemma {:induction false} StalledStays(s: State, tr: Trace)
    requires Stalled(s) && Run(s, tr).Some? && forall i | 0 <= i < |tr| :: !tr[i].Mark?
    ensures var t := Run(s, tr).value;
            && t.pending == s.pending && t.lock.Free? && !t.timer.Armed? && t.fired == 0
            && Sent(tr) == []
  {
    hide Enabled, Apply;
    if tr != [] {
      StalledStays(s, tr[..|tr| - 1]);
      assert !tr[|tr| - 1].Mark?;
      StalledStep(Run(s, tr[..|tr| - 1]).value, tr[|tr| - 1]);
    }
  }

  /** Nothing runs, and nothing is about to run. */
  predicate Quiet(s: State) {
    s.lock.Free? && !s.timer.Armed? && s.fired == 0
  }

  lemma StalledStep(s: State, a: Action)
    requires Quiet(s) && Enabled(s, a) && !a.Mark?
    ensures Quiet(Apply(s, a)) && Apply(s, a).pending == s.pending && !a.Send?
  {
  }

  /** Step k of the trace ends a flush that forgets its paths with no timer running and no other flush
      in flight, and no enqueue comes after it. */
  predicate LosesWakeUp(start: State, tr: Trace, k: nat)
    requires k <= |tr|
  {
    && k > 0 && tr[k - 1].End? && NoMarks(tr[k..])
    && var s := Run(start, tr[..k - 1]);
    && s.Some? && !s.value.timer.Armed? && s.value.fired == 0 && Forgets(tr[..k - 1])
  }

  predicate NoMarks(tr: Trace) {
    forall i | 0 <= i < |tr| :: !tr[i].Mark?
  }

  lemma OnlyEndStalls(s: State, a: Action)
    requires Invariant(s) && Enabled(s, a) && !Stalled(s) && Stalled(Apply(s, a))
    ensures a.End? && !s.timer.Armed? && s.fired == 0 && !s.done
  {
  }

  lemma {:induction false} StalledHasCause(requested: int, clock: Time, tr: Trace) returns (k: nat)
    requires Run(Start(requested, clock), tr).Some? && Stalled(Run(Start(requested, clock), tr).value)
    ensures k <= |tr| && LosesWakeUp(Start(requested, clock), tr, k)
  {
    hide Forgets;
    var start := Start(requested, clock);
    var front, a := tr[..|tr| - 1], tr[|tr| - 1];
    assert front + [a] == tr;
    if Stalled(Run(start, front).value) {
      k := StalledHasCause(requested, clock, front);
      assert tr[..k - 1] == front[..k - 1] && tr[k..] == front[k..] + [a];
    } else {
      StallBegins(requested, clock, front, a);
      k := |tr|;
      assert tr[k..] == [];
    }
  }

  lemma StallBegins(requested: int, clock: Time, tr: Trace, a: Action)
    requires Run(Start(requested, clock), tr + [a]).Some? && Run(Start(requested, clock), tr).Some?
    requires Stalled(Run(Start(requested, clock), tr + [a]).value) && !Stalled(Run(Start(requested, clock), tr).value)
    ensures a.End? && Forgets(tr)
    ensures var s := Run(Start(requested, clock), tr).value; !s.timer.Armed? && s.fired == 0
  {
    hide Forgets;
    RunOne(Start(requested, clock), tr, a);
    InvariantHolds(requested, clock, tr);
    OnlyEndStalls(Run(Start(requested, clock), tr).value, a);
    FlushStallsExactly(requested, clock, tr);
  }

  lemma CauseStalls(requested: int, clock: Time, tr: Trace, k: nat)
    requires Run(Start(requested, clock), tr).Some? && !Run(Start(requested, clock), tr).value.done
    requires k <= |tr| && LosesWakeUp(Start(requested, clock), tr, k)
    ensures Stalled(Run(Start(requested, clock), tr).value)
  {
    hide Run, Forgets;
    var start, front, rest := Start(requested, clock), tr[..k - 1], tr[k..];
    assert tr == front + [End] + rest;
    RunSplits(start, front + [End], rest);
    RunOne(start, front, End);
    var t := Run(start, front + [End]).value;
    if t.done {
      DoneStays(t, rest);
    }
    FlushStallsExactly(requested, clock, front);
    StalledStays(t, rest);
  }

  /** Exactly when a wake-up is lost: the watcher is stalled if and only if it is not closed and
      some flush lost the wake-up, with no enqueue since. */
  lemma StalledExactly(requested: int, clock: Time, tr: Trace)
    requires Run(Start(requested, clock), tr).Some?
    ensures Stalled(Run(Start(requested, clock), tr).value) <==>
            && !Run(Start(requested, clock), tr).value.done
            && exists k :: 0 <= k <= |tr| && LosesWakeUp(Start(requested, clock), tr, k)
  {
    if Stalled(Run(Start(requested, clock), tr).value) {
      var k := StalledHasCause(requested, clock, tr);
    } else if !Run(Start(requested, clock), tr).value.done {
      forall k | 0 <= k <= |tr| && LosesWakeUp(Start(requested, clock), tr, k) ensures false {
        CauseStalls(requested, clock, tr, k);
      }
    }
  }

  lemma {:induction false} DoneStays(s: State, tr: Trace)
    requires Run(s, tr).Some? && s.done
    ensures Run(s, tr).value.done
  {
    if tr != [] {
      DoneStays(s, tr[..|tr| - 1]);
    }
  }

  // ---- Times ----

  /** The times of every run, in numbers: an enqueue makes its path due after the settle time, 200 ms if
      none is requested, and arms the timer for it; a wait is what is left until the deadline; and the end
      of a flush arms the timer for the folded waits, or leaves it alone. */
  lemma TimesAreExact(requested: int, clock: Time, tr: Trace, a: Action)
    requires Run(Start(requested, clock), tr + [a]).Some? && Run(Start(requested, clock), tr).Some?
    ensures var s, t := Run(Start(requested, clock), tr).value, Run(Start(requested, clock), tr + [a]).value;
            var settle := if requested <= 0 then 200_000_000 else requested;
            && (a.Mark? ==> t.pending == s.pending[a.path := s.clock + settle])
            && (a.Arm? ==> t.timer == Armed(s.clock + settle))
            && (a.Requeue? ==> Visits(s, a.path) && t.pending == s.pending[a.path := s.lock.now + settle])
            && (a.Wait? ==> Visits(s, a.path) && a.wait == s.pending[a.path] - s.clock)
            && (a.End? ==> t.timer == if WaitsAhead(Waits(tr)) then Armed(s.clock + Folded(Waits(tr))) else s.timer)
  {
    hide Run, WaitsAhead, Waits, Folded;
    RunOne(Start(requested, clock), tr, a);
    SettleIsFixed(Start(requested, clock), tr);
    if a.End? {
      NextIsFolded(Start(requested, clock), tr);
      FoldedSign(Waits(tr));
    }
  }

  // ---- Two ways to lose a wake-up ----

  /** One more step of a run. */
  lemma Then(s: State, tr: Trace, mid: State, a: Action) returns (tr': Trace, t: State)
    requires Run(s, tr) == Some(mid) && Enabled(mid, a)
    ensures tr' == tr + [a] && t == Apply(mid, a) && Run(s, tr') == Some(t)
    ensures Received(tr') == Received(tr) + (if a.Receive? then [a.path] else [])
  {
    hide Enabled, Apply;
    RunOne(s, tr, a);
    tr', t := tr + [a], Apply(mid, a);
    assert tr'[..|tr|] == tr;
  }

  /** Nothing is pending, running or in flight, and the buffer holds n events. */
  predicate Resting(s: State, n: nat) {
    && s.settle == 10 && s.pending == map[] && !s.timer.Armed? && s.fired == 0 && s.lock.Free?
    && |s.events| == n && !s.done && !s.closed
  }

  predicate NoWaits(tr: Trace) {
    forall i | 0 <= i < |tr| :: !tr[i].Wait?
  }

  predicate NoRequeues(tr: Trace) {
    forall i | 0 <= i < |tr| :: !tr[i].Requeue?
  }

  /** One enqueue of the path, and the start of the flush that its deadline brings. */
  lemma OpenRound(start: State, tr: Trace, s: State, n: nat, path: Path) returns (tr': Trace, t: State)
    requires Run(start, tr) == Some(s) && Resting(s, n) && NoWaits(tr)
    ensures Run(start, tr') == Some(t) && NoWaits(tr')
    ensures tr + [Mark(path, s.clock)] <= tr' && Received(tr') == Received(tr)
    ensures Visits(t, path) && t.pending[path] == t.lock.now == t.clock
    ensures t == s.(pending := map[path := t.clock], clock := t.clock, timer := Idle,
                    lock := Flushing(t.clock, 0, {path}))
  {
    hide Run, Received;
    tr', t := Then(start, tr, s, Mark(path, s.clock));
    tr', t := Then(start, tr', t, Arm);
    tr', t := Then(start, tr', t, Tick(s.clock + 10));
    assert t.pending == map[path := s.clock + 10];
    tr', t := Then(start, tr', t, Fire);
    tr', t := Then(start, tr', t, Begin);
    assert t.pending.Keys == {path};
  }

  lemma FillOne(start: State, tr: Trace, s: State, n: nat, path: Path) returns (tr': Trace, t: State)
    requires Run(start, tr) == Some(s) && Resting(s, n) && n < CAPACITY && NoWaits(tr)
    ensures Run(start, tr') == Some(t) && Resting(t, n + 1) && NoWaits(tr')
    ensures tr + [Mark(path, s.clock)] <= tr' && Received(tr') == Received(tr) && t.events == s.events + [path]
  {
    hide Run, Received;
    tr', t := OpenRound(start, tr, s, n, path);
    tr', t := Then(start, tr', t, Send(path, t.clock));
    assert t.pending == map[] && t.lock.todo == {};
    tr', t := Then(start, tr', t, End);
  }

  lemma {:induction false} Fill(start: State, n: nat) returns (tr: Trace, s: State)
    requires Resting(start, 0) && n <= CAPACITY
    ensures Run(start, tr) == Some(s) && Resting(s, n) && NoWaits(tr) && Received(tr) == []
  {
    if n == 0 {
      tr, s := [], start;
    } else {
      tr, s := Fill(start, n - 1);
      tr, s := FillOne(start, tr, s, n - 1, "a");
    }
  }

  /** A consumer that takes nothing: sixteen events fill the buffer, the next one finds it full, its path
      is put back, and no retry is scheduled. */
  lemma FullBufferStalls() returns (tr: Trace)
    ensures Run(Start(10, 0), tr).Some? && Stalled(Run(Start(10, 0), tr).value)
    ensures NoWaits(tr) && Received(tr) == [] && |Run(Start(10, 0), tr).value.events| == 16
  {
    var start, s := Start(10, 0), Start(10, 0);
    tr, s := Fill(start, CAPACITY);
    tr, s := OpenRound(start, tr, s, CAPACITY, "a");
    tr, s := Then(start, tr, s, Requeue("a", false));
    assert "a" in s.pending && s.lock.todo == {};
    tr, s := Then(start, tr, s, End);
  }

  /** An old flush shortens the timer to the nearest deadline; the next flush reads the clock for
      "c" when its deadline has just come, computes a wait of zero, and does not reset the timer.
      No buffer is ever full. */
  lemma LateClockStalls() returns (tr: Trace)
    ensures Run(Start(10, 0), tr).Some? && Stalled(Run(Start(10, 0), tr).value)
    ensures NoRequeues(tr)
  {
    var start, s := Start(10, 0), Start(10, 0);
    tr, s := ThreePaths(start);
    tr, s := OldFlush(start, tr, s);
    tr, s := Then(start, tr, s, Tick(20));
    tr, s := Then(start, tr, s, Fire);
    tr, s := LateFlush(start, tr, s);
  }

  lemma ThreePaths(start: State) returns (tr: Trace, s: State)
    requires start == Start(10, 0)
    ensures Run(start, tr) == Some(s) && NoRequeues(tr)
    ensures s == start.(pending := map["a" := 10, "b" := 20, "c" := 25], clock := 15, timer := Armed(25), fired := 1)
  {
    assert Run(start, []) == Some(start);
    hide Run, Received;
    tr, s := Then(start, [], start, Mark("a", 0));
    tr, s := Then(start, tr, s, Arm);
    tr, s := Then(start, tr, s, Tick(10));
    tr, s := Then(start, tr, s, Fire);
    assert s == start.(pending := map["a" := 10], clock := 10, timer := Idle, fired := 1);
    tr, s := Then(start, tr, s, Mark("b", 10));
    tr, s := Then(start, tr, s, Arm);
    tr, s := Then(start, tr, s, Tick(15));
    assert s.pending == map["a" := 10, "b" := 20];
    tr, s := Then(start, tr, s, Mark("c", 15));
    tr, s := Then(start, tr, s, Arm);
  }

  lemma OldFlush(start: State, tr: Trace, s: State) returns (tr': Trace, t: State)
    requires Run(start, tr) == Some(s) && NoRequeues(tr)
    requires s.pending == map["a" := 10, "b" := 20, "c" := 25] && s.clock == 15 && s.lock.Free?
    requires s.fired == 1 && !s.done && !s.closed && s.events == []
    ensures Run(start, tr') == Some(t) && NoRequeues(tr')
    ensures t == s.(pending := map["b" := 20, "c" := 25], timer := Armed(20), fired := 0, events := ["a"])
  {
    hide Run, Received;
    tr', t := Then(start, tr, s, Begin);
    assert t.lock.todo == {"a", "b", "c"};
    tr', t := Then(start, tr', t, Send("a", 15));
    assert t.lock.todo == {"b", "c"} && t.pending == map["b" := 20, "c" := 25];
    tr', t := Then(start, tr', t, Wait("b", 5));
    assert t.lock.todo == {"c"};
    tr', t := Then(start, tr', t, Wait("c", 10));
    assert t.lock.todo == {};
    tr', t := Then(start, tr', t, End);
  }

  lemma LateFlush(start: State, tr: Trace, s: State) returns (tr': Trace, t: State)
    requires Run(start, tr) == Some(s) && NoRequeues(tr)
    requires s.pending == map["b" := 20, "c" := 25] && s.clock == 20 && s.lock.Free? && !s.timer.Armed?
    requires s.fired == 1 && !s.done && !s.closed && s.events == ["a"]
    ensures Run(start, tr') == Some(t) && Stalled(t) && NoRequeues(tr')
  {
    hide Run, Received;
    tr', t := Then(start, tr, s, Begin);
    assert t.lock.todo == {"b", "c"};
    tr', t := Then(start, tr', t, Send("b", 20));
    assert t.lock.todo == {"c"} && t.pending == map["c" := 25];
    tr', t := Then(start, tr', t, Tick(25));
    tr', t := Then(start, tr', t, Wait("c", 0));
    assert t.lock.todo == {} && "c" in t.pending;
    tr', t := Then(start, tr', t, End);
  }
}
