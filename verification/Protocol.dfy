/** The debouncing watcher of pkg/watcher/watcher.go as a step relation: the event loop, timer
    callbacks that may be in flight, the consumer and Close, interleaved between any two accesses
    to shared state. `mu` is held from `Mark` to `Arm` and from `Begin` to `End`. */
module Protocol {
  import opened Text

  type Path = string
  type Time = int

  /** events: make(chan Event, 16) */
  const CAPACITY := 16

  /** w.timer: nil, stopped or fired, or running until a deadline. */
  datatype Timer = NoTimer | Idle | Armed(at: Time)

  /** Who holds mu. A flush has read the clock, keeps nextSettle, and still has to visit `todo`. */
  datatype Lock = Free | Enqueuing | Flushing(now: Time, next: int, todo: set<Path>)

  datatype State = State(
    settle: int,
    clock: Time,
    pending: map<Path, Time>,
    timer: Timer,
    fired: nat,        // flush callbacks started by the timer that do not hold mu yet
    lock: Lock,
    events: seq<Path>, // the buffer of the events channel
    closed: bool,      // close(w.events) has happened
    done: bool,        // close(w.done) has happened
    rawClosed: bool,   // w.raw.Close() has happened
    panicked: bool     // a send on the closed channel has happened
  )

  datatype Action =
    | Tick(to: Time)                    // time passes
    | Fire                              // the timer expires and starts a flush callback
    | Mark(path: Path, at: Time)        // enqueue takes mu and records the deadline
    | Arm                               // enqueue starts or resets the timer and releases mu
    | Skip                              // flush takes mu, sees done, and releases mu
    | Begin                             // flush takes mu, sees no done, and reads the clock
    | Send(path: Path, at: Time)        // flush deletes a ready path and sends its event
    | Requeue(path: Path, again: bool)  // flush finds the buffer full and puts the path back
    | Wait(path: Path, wait: int)       // flush visits a path that is not ready
    | End                               // flush resets the timer if nextSettle > 0, releases mu
    | Receive(path: Path)               // the consumer takes an event
    | CloseDone                         // Close: close(w.done)
    | CloseRaw                          // Close: w.raw.Close()
    | Exit                              // loop returns: close(w.events) under mu

  predicate Visits(s: State, path: Path) {
    s.lock.Flushing? && path in s.lock.todo && path in s.pending
  }

  /** When a step can happen. `Requeue(p, true)` leaves p to be visited again: the range loop may
      or may not produce a key that is deleted and inserted again. */
  predicate Enabled(s: State, a: Action) {
    match a
    case Tick(to) => s.clock <= to
    case Fire => s.timer.Armed? && s.timer.at <= s.clock
    case Mark(_, at) => s.lock.Free? && !s.closed && at == s.clock
    case Arm => s.lock.Enqueuing?
    case Skip => s.lock.Free? && s.fired > 0 && s.done
    case Begin => s.lock.Free? && s.fired > 0 && !s.done
    case Send(p, at) =>
      && Visits(s, p) && s.pending[p] <= s.lock.now && at == s.clock
      && (|s.events| < CAPACITY || s.closed)
    case Requeue(p, _) =>
      && Visits(s, p) && s.pending[p] <= s.lock.now
      && |s.events| >= CAPACITY && !s.closed
    case Wait(p, wait) =>
      Visits(s, p) && s.lock.now < s.pending[p] && wait == s.pending[p] - s.clock
    case End => s.lock.Flushing? && s.lock.todo == {}
    case Receive(p) => s.events != [] && p == s.events[0]
    case CloseDone => !s.done
    case CloseRaw => s.done && !s.rawClosed
    case Exit => s.lock.Free? && !s.closed && (s.done || s.rawClosed)
  }

  /** nextSettle after one more path that is not ready. */
  function NextSettle(next: int, wait: int): int {
    if next == 0 || wait < next then wait else next
  }

  function Apply(s: State, a: Action): State
    requires Enabled(s, a)
  {
    match a
    case Tick(to) => s.(clock := to)
    case Fire => s.(timer := Idle, fired := s.fired + 1)
    case Mark(p, _) => s.(pending := s.pending[p := s.clock + s.settle], lock := Enqueuing)
    case Arm => s.(timer := Armed(s.clock + s.settle), lock := Free)
    case Skip => s.(fired := s.fired - 1)
    case Begin => s.(fired := s.fired - 1, lock := Flushing(s.clock, 0, s.pending.Keys))
    case Send(p, _) =>
      if s.closed then s.(panicked := true)
      else s.(pending := s.pending - {p}, events := s.events + [p],
              lock := s.lock.(todo := s.lock.todo - {p}))
    case Requeue(p, again) =>
      s.(pending := s.pending[p := s.lock.now + s.settle],
         lock := s.lock.(todo := if again then s.lock.todo else s.lock.todo - {p}))
    case Wait(p, wait) =>
      s.(lock := Flushing(s.lock.now, NextSettle(s.lock.next, wait), s.lock.todo - {p}))
    case End =>
      s.(timer := if s.lock.next > 0 then Armed(s.clock + s.lock.next) else s.timer, lock := Free)
    case Receive(_) => s.(events := s.events[1..])
    case CloseDone => s.(done := true)
    case CloseRaw => s.(rawClosed := true)
    case Exit => s.(closed := true)
  }

  /** New: the default replaces a settle time that is not positive. */
  function Settle(requested: int): (settle: int)
    ensures settle > 0
  {
    if requested <= 0 then 200_000_000 else requested
  }

  function Start(requested: int, clock: Time): State {
    State(Settle(requested), clock, map[], NoTimer, 0, Free, [], false, false, false, false)
  }

  type Trace = seq<Action>

  /** The state after the steps of a trace, if they can happen in that order. */
  function Run(s: State, tr: Trace): Option<State> {
    if tr == [] then Some(s)
    else
      var before := Run(s, tr[..|tr| - 1]);
      var a := tr[|tr| - 1];
      if before.Some? && Enabled(before.value, a) then Some(Apply(before.value, a)) else None
  }

  lemma RunOne(s: State, tr: Trace, a: Action)
    ensures Run(s, tr + [a]) ==
            var before := Run(s, tr);
            if before.Some? && Enabled(before.value, a) then Some(Apply(before.value, a)) else None
  {
    assert (tr + [a])[..|tr|] == tr;
  }

  lemma {:induction false} RunPrefix(s: State, tr: Trace, n: nat)
    requires n <= |tr| && Run(s, tr).Some?
    ensures Run(s, tr[..n]).Some?
    decreases |tr|
  {
    if n < |tr| {
      RunPrefix(s, tr[..|tr| - 1], n);
      assert tr[..|tr| - 1][..n] == tr[..n];
    } else {
      assert tr[..n] == tr;
    }
  }

  lemma {:induction false} RunSplits(s: State, tr: Trace, more: Trace)
    ensures Run(s, tr + more) ==
            var mid := Run(s, tr);
            if mid.Some? then Run(mid.value, more) else None
    decreases |more|
  {
    if more == [] {
      assert tr + more == tr;
    } else {
      var front := more[..|more| - 1];
      assert (tr + more)[..|tr + more| - 1] == tr + front;
      RunSplits(s, tr, front);
    }
  }

  // ---- Histories ----

  /** The path has been enqueued since its last event. */
  predicate Owed(tr: Trace, p: Path) {
    tr != [] &&
    var a := tr[|tr| - 1];
    if a.Mark? && a.path == p then true
    else if a.Send? && a.path == p then false
    else Owed(tr[..|tr| - 1], p)
  }

  /** The events sent so far, in order. */
  function Sent(tr: Trace): seq<Path> {
    if tr == [] then []
    else
      var a := tr[|tr| - 1];
      Sent(tr[..|tr| - 1]) + (if a.Send? then [a.path] else [])
  }

  function Received(tr: Trace): seq<Path> {
    if tr == [] then []
    else
      var a := tr[|tr| - 1];
      Received(tr[..|tr| - 1]) + (if a.Receive? then [a.path] else [])
  }

  /** The waits that the current flush has computed, in the order of its visits. */
  function Waits(tr: Trace): seq<int> {
    if tr == [] || tr[|tr| - 1].Begin? then []
    else
      var a := tr[|tr| - 1];
      Waits(tr[..|tr| - 1]) + (if a.Wait? then [a.wait] else [])
  }

  /** nextSettle after visits with these waits. */
  function Folded(waits: seq<int>): int {
    if waits == [] then 0
    else NextSettle(Folded(waits[..|waits| - 1]), waits[|waits| - 1])
  }

  function Ends(tr: Trace): nat {
    if tr == [] then 0
    else Ends(tr[..|tr| - 1]) + (if tr[|tr| - 1].End? then 1 else 0)
  }
}
