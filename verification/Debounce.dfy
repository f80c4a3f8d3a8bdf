/** What every interleaving of the watcher keeps. */
module Debounce {
  import opened Protocol

  // ---- Safety ----

  /** Facts about every reachable state. */
  ghost predicate Invariant(s: State) {
    && s.settle > 0
    && (s.rawClosed ==> s.done) && (s.closed ==> s.done)
    && (s.lock.Flushing? ==> !s.closed && s.lock.now <= s.clock && s.lock.todo <= s.pending.Keys)
    && |s.events| <= CAPACITY
    && (forall p | p in s.pending :: s.pending[p] <= s.clock + s.settle)
    && !s.panicked
  }

  lemma StepKeepsInvariant(s: State, a: Action)
    requires Invariant(s) && Enabled(s, a)
    ensures Invariant(Apply(s, a))
  {
  }

  lemma {:induction false} InvariantHolds(requested: int, clock: Time, tr: Trace)
    requires Run(Start(requested, clock), tr).Some?
    ensures Invariant(Run(Start(requested, clock), tr).value)
  {
    if tr != [] {
      InvariantHolds(requested, clock, tr[..|tr| - 1]);
      StepKeepsInvariant(Run(Start(requested, clock), tr[..|tr| - 1]).value, tr[|tr| - 1]);
    }
  }

  lemma {:induction false} ClosedStays(s: State, tr: Trace, i: nat)
    requires Run(s, tr).Some? && i < |tr| && tr[i].Exit?
    ensures Run(s, tr).value.closed
    decreases |tr|
  {
    if i < |tr| - 1 {
      ClosedStays(s, tr[..|tr| - 1], i);
    }
  }

  /** No send on a closed channel: in every interleaving no event is sent after the loop has closed
      the events channel, and the channel is closed only once. */
  lemma NothingIsSentAfterClose(requested: int, clock: Time, tr: Trace, i: nat, j: nat)
    requires Run(Start(requested, clock), tr).Some? && i < j < |tr| && tr[i].Exit?
    ensures !tr[j].Send? && !tr[j].Requeue? && !tr[j].Exit?
    ensures !Run(Start(requested, clock), tr).value.panicked
  {
    var start := Start(requested, clock);
    InvariantHolds(requested, clock, tr);
    RunPrefix(start, tr, j + 1);
    assert tr[..j + 1][..j] == tr[..j];
    ClosedStays(start, tr[..j], i);
    InvariantHolds(requested, clock, tr[..j]);
  }

  // ---- Nothing is lost, and coalescing is exact ----

  lemma StepKeepsOwed(s: State, tr: Trace, a: Action, p: Path)
    requires Invariant(s) && Enabled(s, a) && (p in s.pending <==> Owed(tr, p))
    ensures p in Apply(s, a).pending <==> Owed(tr + [a], p)
  {
    assert (tr + [a])[..|tr|] == tr;
  }

  /** In every interleaving, and however often the buffer is full: a path is pending exactly when
      it has been enqueued since its last event. */
  lemma {:induction false} PendingIsOwed(requested: int, clock: Time, tr: Trace, p: Path)
    requires Run(Start(requested, clock), tr).Some?
    ensures p in Run(Start(requested, clock), tr).value.pending <==> Owed(tr, p)
  {
    if tr != [] {
      var front := tr[..|tr| - 1];
      PendingIsOwed(requested, clock, front, p);
      InvariantHolds(requested, clock, front);
      StepKeepsOwed(Run(Start(requested, clock), front).value, front, tr[|tr| - 1], p);
      assert front + [tr[|tr| - 1]] == tr;
    }
  }

  lemma {:induction false} OwedHasMark(tr: Trace, p: Path, i: nat) returns (k: nat)
    requires Owed(tr, p) && i <= |tr| && (i > 0 ==> tr[i - 1].Send? && tr[i - 1].path == p)
    ensures i <= k < |tr| && tr[k].Mark? && tr[k].path == p
  {
    var a := tr[|tr| - 1];
    if a.Mark? && a.path == p {
      k := |tr| - 1;
    } else {
      k := OwedHasMark(tr[..|tr| - 1], p, i);
    }
  }

  /** Between two events for a path, and before its first one, the path is enqueued. */
  lemma EventsNeedEnqueues(requested: int, clock: Time, tr: Trace, i: nat, j: nat) returns (k: nat)
    requires Run(Start(requested, clock), tr).Some? && i <= j < |tr| && tr[j].Send?
    requires i > 0 ==> tr[i - 1].Send? && tr[i - 1].path == tr[j].path
    ensures i <= k < j && tr[k].Mark? && tr[k].path == tr[j].path
  {
    RunPrefix(Start(requested, clock), tr, j + 1);
    assert tr[..j + 1][..j] == tr[..j];
    PendingIsOwed(requested, clock, tr[..j], tr[j].path);
    k := OwedHasMark(tr[..j], tr[j].path, i);
  }

  /** The deadline of a pending path is at least `settle` after every enqueue of it so far. */
  lemma {:induction false} DeadlineAfterMarks(requested: int, clock: Time, tr: Trace, i: nat)
    requires Run(Start(requested, clock), tr).Some? && i < |tr| && tr[i].Mark?
    ensures After(Run(Start(requested, clock), tr).value, tr[i].path, tr[i].at)
    decreases |tr|
  {
    hide Enabled, Apply, Invariant;
    var front, a := tr[..|tr| - 1], tr[|tr| - 1];
    var s := Run(Start(requested, clock), front).value;
    InvariantHolds(requested, clock, front);
    if i < |tr| - 1 {
      DeadlineAfterMarks(requested, clock, front, i);
      StepKeepsDeadline(s, a, tr[i].path, tr[i].at);
    } else {
      MarkSetsDeadline(s, a);
    }
  }

  /** A deadline that is `settle` after an enqueue, and that no running flush has overtaken. */
  predicate After(s: State, p: Path, at: Time) {
    && at <= s.clock
    && (p in s.pending ==> at + s.settle <= s.pending[p])
    && (s.lock.Flushing? ==> at <= s.lock.now)
  }

  lemma StepKeepsDeadline(s: State, a: Action, p: Path, at: Time)
    requires Invariant(s) && Enabled(s, a) && After(s, p, at)
    ensures After(Apply(s, a), p, at)
  {
  }

  lemma MarkSetsDeadline(s: State, a: Action)
    requires Invariant(s) && Enabled(s, a) && a.Mark?
    ensures After(Apply(s, a), a.path, a.at)
  {
  }

  lemma {:induction false} SettleIsFixed(s: State, tr: Trace)
    requires Run(s, tr).Some?
    ensures Run(s, tr).value.settle == s.settle
  {
    hide Enabled, Apply;
    if tr != [] {
      SettleIsFixed(s, tr[..|tr| - 1]);
      StepKeepsSettle(Run(s, tr[..|tr| - 1]).value, tr[|tr| - 1]);
    }
  }

  lemma StepKeepsSettle(s: State, a: Action)
    requires Enabled(s, a)
    ensures Apply(s, a).settle == s.settle
  {
  }

  /** An event is sent only when at least the settle time, which is positive, has passed since
      every earlier enqueue of its path. */
  lemma EventsAreSettled(requested: int, clock: Time, tr: Trace, i: nat, j: nat)
    requires Run(Start(requested, clock), tr).Some? && i < j < |tr|
    requires tr[i].Mark? && tr[j].Send? && tr[i].path == tr[j].path
    ensures tr[i].at < tr[j].at && tr[i].at + requested <= tr[j].at
    ensures requested <= 0 ==> tr[i].at + 200_000_000 <= tr[j].at
  {
    hide Apply, Invariant;
    var start := Start(requested, clock);
    RunPrefix(start, tr, j + 1);
    assert tr[..j + 1][..j] == tr[..j];
    InvariantHolds(requested, clock, tr[..j]);
    SettleIsFixed(start, tr[..j]);
    DeadlineAfterMarks(requested, clock, tr[..j], i);
  }

  lemma StepConservesEvents(s: State, tr: Trace, a: Action)
    requires Invariant(s) && Enabled(s, a) && Sent(tr) == Received(tr) + s.events
    ensures Sent(tr + [a]) == Received(tr + [a]) + Apply(s, a).events
  {
    assert (tr + [a])[..|tr|] == tr;
    if a.Receive? {
      assert s.events == [a.path] + s.events[1..];
    }
  }

  /** The channel neither loses, invents nor reorders events, and never holds more than it can. */
  lemma {:induction false} EventsAreConserved(requested: int, clock: Time, tr: Trace)
    requires Run(Start(requested, clock), tr).Some?
    ensures var s := Run(Start(requested, clock), tr).value;
            Sent(tr) == Received(tr) + s.events && |s.events| <= 16
  {
    InvariantHolds(requested, clock, tr);
    if tr != [] {
      var front := tr[..|tr| - 1];
      EventsAreConserved(requested, clock, front);
      InvariantHolds(requested, clock, front);
      StepConservesEvents(Run(Start(requested, clock), front).value, front, tr[|tr| - 1]);
      assert front + [tr[|tr| - 1]] == tr;
    }
  }

  /** The paths enqueued so far, in order. */
  function Marked(tr: Trace): seq<Path> {
    if tr == [] then []
    else
      var a := tr[|tr| - 1];
      Marked(tr[..|tr| - 1]) + (if a.Mark? then [a.path] else [])
  }

  lemma StepBacksEvents(s: State, tr: Trace, a: Action)
    requires Invariant(s) && Enabled(s, a)
    requires multiset(Sent(tr)) + multiset(s.pending.Keys) <= multiset(Marked(tr))
    ensures multiset(Sent(tr + [a])) + multiset(Apply(s, a).pending.Keys) <= multiset(Marked(tr + [a]))
  {
    hide Enabled, Apply, Invariant;
    assert (tr + [a])[..|tr|] == tr;
    StepChangesKeys(s, a);
  }

  lemma StepChangesKeys(s: State, a: Action)
    requires Invariant(s) && Enabled(s, a)
    ensures a.Send? ==> a.path in s.pending
    ensures Apply(s, a).pending.Keys ==
            if a.Mark? then s.pending.Keys + {a.path} else if a.Send? then s.pending.Keys - {a.path} else s.pending.Keys
  {
    var t := Apply(s, a);
    assert a.Mark? || a.Send? || t.pending.Keys == s.pending.Keys;
  }

  /** Every path has had at least as many enqueues as events, counting a pending path as an event to
      come. */
  lemma {:induction false} EventsAreBacked(requested: int, clock: Time, tr: Trace)
    requires Run(Start(requested, clock), tr).Some?
    ensures var s := Run(Start(requested, clock), tr).value;
            multiset(Sent(tr)) + multiset(s.pending.Keys) <= multiset(Marked(tr))
  {
    hide Enabled, Apply, Invariant;
    if tr != [] {
      var front := tr[..|tr| - 1];
      EventsAreBacked(requested, clock, front);
      InvariantHolds(requested, clock, front);
      StepBacksEvents(Run(Start(requested, clock), front).value, front, tr[|tr| - 1]);
      assert front + [tr[|tr| - 1]] == tr;
    }
  }

  // ---- Wake-ups ----

  /** With no proviso at all: right after an enqueue the timer is due at or after every pending
      deadline. */
  lemma ArmCoversAllPending(requested: int, clock: Time, tr: Trace, p: Path)
    requires Run(Start(requested, clock), tr + [Arm]).Some?
    requires p in Run(Start(requested, clock), tr + [Arm]).value.pending
    ensures var s := Run(Start(requested, clock), tr + [Arm]).value;
            s.timer.Armed? && s.pending[p] <= s.timer.at
  {
    RunOne(Start(requested, clock), tr, Arm);
    InvariantHolds(requested, clock, tr);
  }
}
