/** Output of a running make: two goroutines copy the chunks of stdout and stderr, each into its
    buffer and then, when the client streams, into a progress notification. */
module Streaming {
  import opened Text

  datatype Source = Stdout | Stderr

  /** What each goroutine has buffered but not yet reported, the buffers, and the messages of the
      progress notifications in the order of the session's channel. */
  datatype State = State(
    stdout: string,
    stderr: string,
    busyOut: seq<string>,
    busyErr: seq<string>,
    messages: seq<string>
  )

  datatype Action = Buffer(source: Source, chunk: string) | Notify(source: Source)

  const EMPTY := State("", "", [], [], [])

  /** io.MultiWriter writes to the buffer first; the next chunk is read after both writes. */
  predicate Enabled(s: State, a: Action) {
    match a
    case Buffer(Stdout, _) => s.busyOut == []
    case Buffer(Stderr, _) => s.busyErr == []
    case Notify(Stdout) => s.busyOut != []
    case Notify(Stderr) => s.busyErr != []
  }

  function Apply(s: State, a: Action): State
    requires Enabled(s, a)
  {
    match a
    case Buffer(Stdout, c) => s.(stdout := s.stdout + c, busyOut := [c])
    case Buffer(Stderr, c) => s.(stderr := s.stderr + c, busyErr := [c])
    case Notify(Stdout) => s.(messages := s.messages + s.busyOut, busyOut := [])
    case Notify(Stderr) => s.(messages := s.messages + s.busyErr, busyErr := [])
  }

  function Run(tr: seq<Action>): Option<State> {
    if tr == [] then Some(EMPTY)
    else
      var before, a := Run(tr[..|tr| - 1]), tr[|tr| - 1];
      if before.Some? && Enabled(before.value, a) then Some(Apply(before.value, a)) else None
  }

  function Joined(chunks: seq<string>): string {
    if chunks == [] then "" else Joined(chunks[..|chunks| - 1]) + chunks[|chunks| - 1]
  }

  /** all is an interleaving of a and b. */
  predicate Shuffle(all: seq<string>, a: seq<string>, b: seq<string>)
    decreases |all|
  {
    if all == [] then a == [] && b == []
    else
      var front, last := all[..|all| - 1], all[|all| - 1];
      || (a != [] && a[|a| - 1] == last && Shuffle(front, a[..|a| - 1], b))
      || (b != [] && b[|b| - 1] == last && Shuffle(front, a, b[..|b| - 1]))
  }

  function Length(chunks: seq<string>): nat {
    if chunks == [] then 0 else Length(chunks[..|chunks| - 1]) + |chunks[|chunks| - 1]|
  }

  lemma JoinedOne(chunks: seq<string>, c: string)
    ensures Joined(chunks + [c]) == Joined(chunks) + c
  {
    assert (chunks + [c])[..|chunks|] == chunks;
  }

  lemma ShuffleOne(all: seq<string>, a: seq<string>, b: seq<string>, c: string)
    requires Shuffle(all, a, b)
    ensures Shuffle(all + [c], a + [c], b) && Shuffle(all + [c], a, b + [c])
  {
    assert (all + [c])[..|all|] == all && (a + [c])[..|a|] == a && (b + [c])[..|b|] == b;
  }

  // ---- What the process wrote, from the trace alone ----

  /** The chunks read from a source so far, in order. */
  function Chunks(tr: seq<Action>, source: Source): seq<string> {
    if tr == [] then []
    else
      var a := tr[|tr| - 1];
      Chunks(tr[..|tr| - 1], source) + (if a.Buffer? && a.source == source then [a.chunk] else [])
  }

  /** How many of them have been reported. */
  function Notified(tr: seq<Action>, source: Source): nat {
    if tr == [] then 0
    else
      var a := tr[|tr| - 1];
      Notified(tr[..|tr| - 1], source) + (if a.Notify? && a.source == source then 1 else 0)
  }

  /** The chunks of a source are those reported and those busy, of which there is at most one. */
  predicate Accounts(tr: seq<Action>, source: Source, busy: seq<string>) {
    && Notified(tr, source) <= |Chunks(tr, source)| && |busy| <= 1
    && busy == Chunks(tr, source)[Notified(tr, source)..]
  }

  predicate Follows(s: State, tr: seq<Action>) {
    && Accounts(tr, Stdout, s.busyOut) && Accounts(tr, Stderr, s.busyErr)
    && Shuffle(s.messages, Chunks(tr, Stdout)[..Notified(tr, Stdout)], Chunks(tr, Stderr)[..Notified(tr, Stderr)])
    && s.stdout == Joined(Chunks(tr, Stdout)) && s.stderr == Joined(Chunks(tr, Stderr))
  }

  lemma OneMore(tr: seq<Action>, a: Action, source: Source)
    ensures Chunks(tr + [a], source) ==
            if a.Buffer? && a.source == source then Chunks(tr, source) + [a.chunk] else Chunks(tr, source)
    ensures Notified(tr + [a], source) == Notified(tr, source) + (if a.Notify? && a.source == source then 1 else 0)
  {
    assert (tr + [a])[..|tr|] == tr;
  }

  lemma ReportOne(chunks: seq<string>, n: nat)
    requires n < |chunks| == n + 1
    ensures chunks[..n + 1] == chunks[..n] + [chunks[n]] && chunks[n..] == [chunks[n]] && chunks[n + 1..] == []
  {
  }

  lemma StepFollows(s: State, a: Action, tr: seq<Action>)
    requires Follows(s, tr) && Enabled(s, a)
    ensures Follows(Apply(s, a), tr + [a])
  {
    hide Chunks, Notified, Shuffle, Joined;
    OneMore(tr, a, Stdout);
    OneMore(tr, a, Stderr);
    var out, err := Chunks(tr, Stdout), Chunks(tr, Stderr);
    var n, m := Notified(tr, Stdout), Notified(tr, Stderr);
    match a
    case Buffer(Stdout, c) =>
      JoinedOne(out, c);
      assert (out + [c])[..n] == out[..n] && (out + [c])[n..] == out[n..] + [c];
    case Buffer(Stderr, c) =>
      JoinedOne(err, c);
      assert (err + [c])[..m] == err[..m] && (err + [c])[m..] == err[m..] + [c];
    case Notify(Stdout) =>
      assert |out[n..]| == |out| - n;
      ReportOne(out, n);
      ShuffleOne(s.messages, out[..n], err[..m], out[n]);
    case Notify(Stderr) =>
      assert |err[m..]| == |err| - m;
      ReportOne(err, m);
      ShuffleOne(s.messages, out[..n], err[..m], err[m]);
  }

  /** At every moment of every interleaving: the buffers hold exactly what the process wrote to each source,
      and the notifications are an interleaving of the same chunks, without at most the last of a source. */
  lemma {:induction false} NotificationsFollowBuffers(tr: seq<Action>)
    requires Run(tr).Some?
    ensures Follows(Run(tr).value, tr)
  {
    hide Follows, Enabled, Apply;
    if tr == [] {
      NothingWritten();
    } else {
      NotificationsFollowBuffers(tr[..|tr| - 1]);
      StepFollows(Run(tr[..|tr| - 1]).value, tr[|tr| - 1], tr[..|tr| - 1]);
      assert tr[..|tr| - 1] + [tr[|tr| - 1]] == tr;
    }
  }

  lemma NothingWritten()
    ensures Follows(EMPTY, [])
  {
  }

  lemma {:induction false} ShuffleKeepsLength(all: seq<string>, a: seq<string>, b: seq<string>)
    requires Shuffle(all, a, b)
    ensures Length(all) == Length(a) + Length(b)
    decreases |all|
  {
    if all != [] {
      var front, last := all[..|all| - 1], all[|all| - 1];
      if a != [] && a[|a| - 1] == last && Shuffle(front, a[..|a| - 1], b) {
        ShuffleKeepsLength(front, a[..|a| - 1], b);
      } else {
        ShuffleKeepsLength(front, a, b[..|b| - 1]);
      }
    }
  }

  lemma {:induction false} LengthOfJoined(chunks: seq<string>)
    ensures |Joined(chunks)| == Length(chunks)
  {
    if chunks != [] {
      LengthOfJoined(chunks[..|chunks| - 1]);
    }
  }

  /** When both goroutines have finished, the returned stdout and stderr are the concatenations of the
      chunks that the process wrote to each, the notifications are an interleaving of the same two chunk
      sequences, and their total length is the recorded byte count. */
  lemma StreamingConserves(tr: seq<Action>, s: State)
    requires Run(tr) == Some(s) && s.busyOut == [] && s.busyErr == []
    ensures s.stdout == Joined(Chunks(tr, Stdout)) && s.stderr == Joined(Chunks(tr, Stderr))
    ensures Shuffle(s.messages, Chunks(tr, Stdout), Chunks(tr, Stderr))
    ensures Length(s.messages) == |s.stdout| + |s.stderr|
  {
    hide Chunks, Notified, Shuffle, Run;
    NotificationsFollowBuffers(tr);
    var out, err := Chunks(tr, Stdout), Chunks(tr, Stderr);
    assert |out[Notified(tr, Stdout)..]| == 0 && |err[Notified(tr, Stderr)..]| == 0;
    assert out[..|out|] == out && err[..|err|] == err;
    ShuffleKeepsLength(s.messages, out, err);
    LengthOfJoined(out);
    LengthOfJoined(err);
  }
}
