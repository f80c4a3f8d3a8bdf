/** The Watcher object: its methods, and the steps of the protocol that they are. */
module WatcherObject {
  import opened Text
  import opened Protocol
  import opened Debounce

  /** fsnotify.Op */
  datatype Op = Op(create: bool, write: bool, remove: bool, rename: bool, chmod: bool)

  /** shouldHandle */
  predicate ShouldHandle(op: Op) {
    op.write || op.create || op.rename
  }

  /** Steps that other goroutines and the clock can take while mu is held. */
  predicate Outside(a: Action) {
    a.Tick? || a.Fire? || a.Receive? || a.CloseDone? || a.CloseRaw?
  }

  predicate AllOutside(tr: Trace) {
    forall i | 0 <= i < |tr| :: Outside(tr[i])
  }

  /** How a flush that reads the clock at `now` changes the pending paths that it has visited: those
      that are not ready keep their deadline, the ready ones are gone or due again later. */
  predicate Flushed(was: map<Path, Time>, pending: map<Path, Time>, now: Time, settle: int, todo: set<Path>) {
    && todo <= pending.Keys <= was.Keys
    && (forall p | p in was && was[p] > now :: p in pending && pending[p] == was[p])
    && (forall p | p in pending && was[p] <= now ::
          (p in todo && pending[p] == was[p]) || pending[p] == now + settle)
  }

  lemma FlushedStep(first: map<Path, Time>, was: map<Path, Time>, pending: map<Path, Time>, now: Time, settle: int,
                    todo: set<Path>, left: set<Path>, path: Path)
    requires Flushed(first, was, now, settle, todo) && path in todo && settle > 0
    requires left == todo - {path} || left == todo
    requires pending == was
             || (was[path] <= now && pending == was - {path})
             || (was[path] <= now && pending == was[path := now + settle])
    requires was[path] > now || path !in pending ==> left == todo - {path}
    requires was[path] <= now ==> pending != was
    ensures Flushed(first, pending, now, settle, left)
  {
  }

  /** Both closes stay, and a closed raw watcher was closed at some step. */
  lemma {:induction false} ClosesStay(s: State, tr: Trace)
    requires Run(s, tr).Some? && !s.rawClosed
    ensures CloseDone in tr ==> Run(s, tr).value.done
    ensures Run(s, tr).value.rawClosed <==> CloseRaw in tr
  {
    hide Enabled, Apply;
    if tr != [] {
      var front, a := tr[..|tr| - 1], tr[|tr| - 1];
      ClosesStay(s, front);
      StepCloses(Run(s, front).value, a);
      assert tr == front + [a];
    }
  }

  lemma StepCloses(s: State, a: Action)
    requires Enabled(s, a)
    ensures Apply(s, a).done == (s.done || a == CloseDone)
    ensures Apply(s, a).rawClosed == (s.rawClosed || a == CloseRaw)
  {
  }

  /** The paths that a flush still has to visit and will find ready. */
  function Ready(pending: map<Path, Time>, todo: set<Path>, now: Time): set<Path> {
    set p | p in todo && p in pending && pending[p] <= now
  }

  class Watcher {
    const settle: int
    var clock: Time
    var pending: map<Path, Time>
    var timer: Timer
    var fired: nat
    var events: seq<Path>
    var closed: bool
    var done: bool
    var rawClosed: bool
    var lock: Lock             // mu
    ghost const start: State
    ghost var trace: Trace

    ghost function Abs(): State
      reads this
    {
      State(settle, clock, pending, timer, fired, lock, events, closed, done, rawClosed, false)
    }

    /** The object is in the state that its history of steps leads to. */
    ghost predicate Valid()
      reads this
    {
      Run(start, trace) == Some(Abs()) && Invariant(Abs()) && !start.rawClosed
    }

    /** New: a settle time that is not positive is replaced by 200 ms. */
    constructor (requested: int, now: Time)
      ensures Valid() && trace == [] && start == Start(requested, now)
      ensures pending == map[] && events == [] && !closed && !done
    {
      settle := if requested <= 0 then 200_000_000 else requested;
      clock := now;
      pending := map[];
      timer := NoTimer;
      fired := 0;
      events := [];
      closed, done, rawClosed := false, false, false;
      lock := Free;
      start := Start(requested, now);
      trace := [];
    }

    /** Records the step that the object has just taken. */
    ghost method Log(before: State, a: Action)
      requires Run(start, trace) == Some(before) && Invariant(before) && !start.rawClosed
      requires Enabled(before, a) && Apply(before, a) == Abs()
      modifies this`trace
      ensures Valid() && trace == old(trace) + [a]
    {
      StepKeepsInvariant(before, a);
      RunOne(start, trace, a);
      trace := trace + [a];
    }

    /** Anything that can happen concurrently: time passes, the timer fires, the consumer takes an
        event, Close runs. */
    method Disturb()
      requires Valid()
      modifies this
      ensures Valid() && clock >= old(clock)
      ensures pending == old(pending) && lock == old(lock) && closed == old(closed)
      ensures old(trace) <= trace && AllOutside(trace[|old(trace)|..])
    {
      hide Run, Invariant;
      ghost var before := Abs();
      if {
        case true =>
          var to: Time :| to >= clock;
          clock := to;
          Log(before, Tick(to));
        case timer.Armed? && timer.at <= clock =>
          timer, fired := Idle, fired + 1;
          Log(before, Fire);
        case events != [] =>
          ghost var p := events[0];
          events := events[1..];
          Log(before, Receive(p));
        case !done =>
          done := true;
          Log(before, CloseDone);
        case done && !rawClosed =>
          rawClosed := true;
          Log(before, CloseRaw);
      }
    }

    method Interfere()
      requires Valid()
      modifies this
      ensures Valid() && clock >= old(clock)
      ensures pending == old(pending) && lock == old(lock) && closed == old(closed)
      ensures old(trace) <= trace && AllOutside(trace[|old(trace)|..])
    {
      var steps: nat := *;
      while steps > 0
        invariant Valid() && clock >= old(clock)
        invariant pending == old(pending) && lock == old(lock) && closed == old(closed)
        invariant old(trace) <= trace && AllOutside(trace[|old(trace)|..])
      {
        ghost var was := trace;
        Disturb();
        assert trace[|old(trace)|..] == was[|old(trace)|..] + trace[|was|..];
        steps := steps - 1;
      }
    }

    /** enqueue, for the path as filepath.Clean returns it. A new timer and a reset one run alike. */
    method Enqueue(path: Path)
      requires Valid() && lock.Free? && !closed
      modifies this
      ensures Valid() && lock.Free? && closed == old(closed)
      ensures pending == old(pending)[path := old(clock) + settle]
      ensures timer.Armed? && timer.at == clock + settle
      ensures exists between :: AllOutside(between) && trace == old(trace) + [Mark(path, old(clock))] + between + [Arm]
    {
      hide Run, Invariant;
      ghost var before := Abs();
      pending := pending[path := clock + settle];
      lock := Enqueuing;
      Log(before, Mark(path, clock));
      ghost var marked := trace;
      Interfere();
      ghost var between := trace[|marked|..];
      before := Abs();
      lock := Free;
      timer := Armed(clock + settle);
      Log(before, Arm);
      assert trace == old(trace) + [Mark(path, old(clock))] + between + [Arm];
    }

    /** The case of loop that receives a file event. */
    method HandleEvent(op: Op, path: Path)
      requires Valid() && lock.Free? && !closed
      modifies this
      ensures Valid() && lock.Free?
      ensures op.write || op.create || op.rename ==> pending == old(pending)[path := old(clock) + settle]
      ensures !op.write && !op.create && !op.rename ==>
                pending == old(pending) && timer == old(timer) && trace == old(trace)
    {
      if ShouldHandle(op) {
        Enqueue(path);
      }
    }

    /** The turn of the range loop for a path that is ready. */
    method VisitReady(path: Path, now: Time, next: int, todo: set<Path>) returns (left: set<Path>)
      requires Valid() && lock == Flushing(now, next, todo) && path in todo && pending[path] <= now
      modifies this
      ensures Valid() && lock == Flushing(now, next, left) && closed == old(closed)
      ensures (left == todo - {path} && pending == old(pending) - {path}
               && trace == old(trace) + [Send(path, old(clock))])
              || ((left == todo || left == todo - {path}) && pending == old(pending)[path := now + settle]
                  && trace == old(trace) + [Requeue(path, left == todo)])
    {
      ghost var before := Abs();
      left := todo - {path};
      pending := pending - {path};
      if |events| < CAPACITY {
        events := events + [path];
        lock := Flushing(now, next, left);
        Log(before, Send(path, clock));
      } else {
        pending := pending[path := now + settle];
        assert pending == before.pending[path := now + settle];
        var again: bool := *;
        if again {
          left := todo;
        }
        lock := Flushing(now, next, left);
        assert again <==> left == todo;
        Log(before, Requeue(path, again));
      }
    }

    /** The turn of the range loop for a path that is not ready. */
    method VisitWaiting(path: Path, now: Time, nextSettle: int, todo: set<Path>) returns (next: int, left: set<Path>)
      requires Valid() && lock == Flushing(now, nextSettle, todo) && path in todo && pending[path] > now
      modifies this
      ensures Valid() && lock == Flushing(now, next, left) && closed == old(closed) && pending == old(pending)
      ensures left == todo - {path} && next == NextSettle(nextSettle, pending[path] - clock)
      ensures trace == old(trace) + [Wait(path, pending[path] - clock)] && clock == old(clock)
    {
      ghost var before := Abs();
      next, left := nextSettle, todo - {path};
      var wait := pending[path] - clock;
      if nextSettle == 0 || wait < nextSettle {
        next := wait;
      }
      lock := Flushing(now, next, left);
      Log(before, Wait(path, wait));
    }

    /** One turn of the range loop, and whatever happens concurrently after it. */
    method Visit(path: Path, now: Time, nextSettle: int, todo: set<Path>, ghost first: map<Path, Time>)
      returns (next: int, left: set<Path>)
      requires Valid() && lock == Flushing(now, nextSettle, todo) && path in todo
      requires Flushed(first, pending, now, settle, todo)
      modifies this
      ensures Valid() && lock == Flushing(now, next, left) && closed == old(closed) && old(trace) <= trace
      ensures Flushed(first, pending, now, settle, left)
      ensures Ready(pending, left, now) < Ready(old(pending), todo, now)
              || (Ready(pending, left, now) == Ready(old(pending), todo, now) && left < todo)
    {
      ghost var was := pending;
      next, left := nextSettle, todo;
      if pending[path] <= now {
        left := VisitReady(path, now, nextSettle, todo);
        assert path in Ready(was, todo, now) && path !in Ready(pending, left, now);
      } else {
        next, left := VisitWaiting(path, now, nextSettle, todo);
        assert Ready(pending, left, now) == Ready(was, todo, now);
      }
      FlushedStep(first, was, pending, now, settle, todo, left, path);
      Interfere();
    }

    /** The range loop of flush. */
    method VisitAll(now: Time, keys: set<Path>) returns (nextSettle: int)
      requires Valid() && lock == Flushing(now, 0, keys) && keys == pending.Keys
      modifies this
      ensures Valid() && lock == Flushing(now, nextSettle, {}) && closed == old(closed) && old(trace) <= trace
      ensures Flushed(old(pending), pending, now, settle, {})
    {
      nextSettle := 0;
      var todo := keys;
      while todo != {}
        invariant Valid() && lock == Flushing(now, nextSettle, todo) && closed == old(closed) && old(trace) <= trace
        invariant Flushed(old(pending), pending, now, settle, todo)
        decreases Ready(pending, todo, now), todo
      {
        var path :| path in todo;
        nextSettle, todo := Visit(path, now, nextSettle, todo, old(pending));
      }
    }

    /** flush, run by a fired timer. Before Close it leaves the paths that are not ready alone, and
        every ready path is either sent, or put back with a new deadline. */
    method Flush() returns (ghost at: Time)
      requires Valid() && lock.Free? && fired > 0
      modifies this
      ensures Valid() && lock.Free? && closed == old(closed) && old(trace) <= trace
      ensures old(done) ==> pending == old(pending) && trace == old(trace) + [Skip]
      ensures !old(done) ==> at == old(clock) && Flushed(old(pending), pending, at, settle, {})
    {
      hide Run, Invariant;
      ghost var before := Abs();
      fired := fired - 1;
      var now := clock;
      at := now;
      if done {
        Log(before, Skip);
        return;
      }
      lock := Flushing(now, 0, pending.Keys);
      Log(before, Begin);
      Interfere();
      var nextSettle := VisitAll(now, pending.Keys);
      before := Abs();
      if nextSettle > 0 {
        timer := Armed(clock + nextSettle);
      }
      lock := Free;
      Log(before, End);
    }

    /** What the other goroutines can do while this one holds no lock: file events are enqueued, fired
        flushes run, and the loop returns. */
    method Others()
      requires Valid()
      modifies this
      ensures Valid() && old(trace) <= trace
    {
      var steps: nat := *;
      while steps > 0
        invariant Valid() && old(trace) <= trace
      {
        if {
          case true => Interfere();
          case lock.Free? && !closed =>
            var path: Path := *;
            Enqueue(path);
          case lock.Free? && fired > 0 =>
            ghost var at := Flush();
          case lock.Free? && !closed && (done || rawClosed) => CloseEvents();
        }
        steps := steps - 1;
      }
    }

    /** Close, called once. Between its two steps the other goroutines go on. */
    method Close() returns (ghost between: Trace)
      requires Valid() && !done
      modifies this
      ensures Valid() && done && rawClosed
      ensures trace == old(trace) + [CloseDone] + between + (if CloseRaw in between then [] else [CloseRaw])
    {
      hide Run, Invariant;
      ghost var before := Abs();
      ghost var was := trace + [CloseDone];
      NotYetClosed();
      done := true;
      Log(before, CloseDone);
      Others();
      between := trace[|was|..];
      assert trace == was + between;
      ClosesStay(start, trace);
      before := Abs();
      if !rawClosed {
        rawClosed := true;
        Log(before, CloseRaw);
      }
    }

    lemma NotYetClosed()
      requires Valid() && !done
      ensures CloseRaw !in trace && !rawClosed
    {
      ClosesStay(start, trace);
    }

    /** The deferred function of loop. */
    method CloseEvents()
      requires Valid() && lock.Free? && !closed && (done || rawClosed)
      modifies this
      ensures Valid() && closed && trace == old(trace) + [Exit] && pending == old(pending) && events == old(events)
    {
      ghost var before := Abs();
      closed := true;
      Log(before, Exit);
    }
  }
}
