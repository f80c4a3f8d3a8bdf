/** What hot reload is for: once the file system is quiet, the live server is the one that a restart
    would give. Exactly when it is, and how it can fail to be. */
module Convergence {
  import opened Text
  import opened Schema
  import opened Composition
  import opened Config
  import opened Tools
  import opened Reload
  import opened Serving
  import Protocol
  import Debounce
  import Wakeup

  // ---- No change is missed ----

  /** The enqueue at step i is followed by an event, unless the path is still owed one. */
  lemma {:induction false} MarkIsSent(tr: Protocol.Trace, i: nat) returns (k: nat)
    requires i < |tr| && tr[i].Mark? && !Protocol.Owed(tr, tr[i].path)
    ensures i < k < |tr| && tr[k].Send? && tr[k].path == tr[i].path
    decreases |tr|
  {
    var n := |tr| - 1;
    if tr[n].Send? && tr[n].path == tr[i].path {
      k := n;
    } else {
      k := MarkIsSent(tr[..n], i);
    }
  }

  lemma {:induction false} SentGrows(tr: Protocol.Trace, k: nat)
    requires k < |tr| && tr[k].Send?
    ensures |Protocol.Sent(tr[..k])| < |Protocol.Sent(tr)|
    ensures Protocol.Sent(tr)[|Protocol.Sent(tr[..k])|] == tr[k].path
    decreases |tr|
  {
    var n := |tr| - 1;
    if k < n {
      SentGrows(tr[..n], k);
      assert tr[..n][..k] == tr[..k];
    }
  }

  /** An event beyond those received in the first k steps was received at a later step. */
  lemma {:induction false} ReceivedAfter(tr: Protocol.Trace, k: nat, m: nat) returns (j: nat)
    requires k <= |tr| && |Protocol.Received(tr[..k])| <= m < |Protocol.Received(tr)|
    ensures k <= j < |tr| && tr[j] == Protocol.Receive(Protocol.Received(tr)[m])
    ensures |Protocol.Received(tr[..j])| == m
    decreases |tr|
  {
    var n := |tr| - 1;
    assert tr[..|tr|] == tr;
    assert k <= n && tr[..n][..k] == tr[..k];
    if m < |Protocol.Received(tr[..n])| {
      j := ReceivedAfter(tr[..n], k, m);
      assert tr[..n][..j] == tr[..j];
    } else {
      j := n;
    }
  }

  predicate QuietWatcher(s: Protocol.State) {
    s.pending == map[] && s.events == []
  }

  /** No change is missed: when nothing is pending and the buffer is empty, every enqueue has been
      followed by an event for its path that the consumer has received. The m-th event received is
      the one. */
  lemma ChangesAreReceived(requested: int, clock: int, tr: Protocol.Trace, i: nat) returns (m: nat)
    requires Protocol.Run(Protocol.Start(requested, clock), tr).Some?
    requires QuietWatcher(Protocol.Run(Protocol.Start(requested, clock), tr).value)
    requires i < |tr| && tr[i].Mark?
    ensures |Protocol.Received(tr[..i])| <= m < |Protocol.Received(tr)|
    ensures Protocol.Received(tr)[m] == tr[i].path
    ensures exists j :: i < j < |tr| && tr[j] == Protocol.Receive(tr[i].path)
  {
    hide Protocol.Run;
    var start := Protocol.Start(requested, clock);
    Debounce.PendingIsOwed(requested, clock, tr, tr[i].path);
    var k := MarkIsSent(tr, i);
    Protocol.RunPrefix(start, tr, k);
    Debounce.EventsAreConserved(requested, clock, tr);
    Debounce.EventsAreConserved(requested, clock, tr[..k]);
    SentGrows(tr, k);
    m := |Protocol.Sent(tr[..k])|;
    var j := ReceivedAfter(tr, k, m);
    ReceivedGrows(tr[..k], i);
    assert tr[..k][..i] == tr[..i];
  }

  lemma {:induction false} ReceivedGrows(tr: Protocol.Trace, i: nat)
    requires i <= |tr|
    ensures |Protocol.Received(tr[..i])| <= |Protocol.Received(tr)|
    decreases |tr|
  {
    var n := |tr| - 1;
    if i <= n {
      ReceivedGrows(tr[..n], i);
      assert tr[..n][..i] == tr[..i];
    } else {
      assert tr[..i] == tr;
    }
  }

  // ---- Reload and restart ----

  /** The checks that only start-up makes: a Makefile is named, the transport is known, the log can be
      written, and the host is willing. */
  predicate Startable(cfg: Config, host: Host) {
    && cfg.makefiles != [] && cfg.transport in ["stdio", "http", "both"] && cfg.logPath !in ["stdin", "stdout"]
    && (cfg.logPath in ["stderr", ""] || host.logOpens) && host.telemetryStarts && host.pathsWatched
  }

  /** A host that lets everything start. */
  const WILLING := Host(true, true, true)

  /** The config on the disk, with all layers. */
  function OnDisk(s: Settings, disk: Disk): Option<Config> {
    LoadConfig(s.configPath, s.cli, disk)
  }

  ghost predicate Loadable(s: Settings, disk: Disk) {
    OnDisk(s, disk).Some? && exists registered :: Produces(s, OnDisk(s, disk).value, disk, registered)
  }

  /** Start-up succeeds exactly on the disks that a reload could load and whose config and host pass the
      checks of start-up, and serves what the disk produces. */
  lemma StartUpExactly(s: Settings, disk: Disk)
    ensures StartUp(s, disk).Some? <==> Loadable(s, disk) && Startable(OnDisk(s, disk).value, disk.host)
    ensures StartUp(s, disk).Some? ==>
              && StartUp(s, disk).value.cfg == OnDisk(s, disk).value
              && Produces(s, OnDisk(s, disk).value, disk, StartUp(s, disk).value.registered)
  {
    if StartUp(s, disk).Some? {
      StartUpProduces(s, disk);
    }
  }

  predicate ForConfig(s: Settings, ev: FileEvent) {
    s.configPath != "" && ev.path == s.configPath
  }

  /** An event for the config file leads to the config on the disk, any other event to none new. */
  lemma NextConfigIs(s: Settings, sys: System, ev: FileEvent)
    ensures NextConfig(s, sys, ev) == if ForConfig(s, ev) then OnDisk(s, ev.disk) else Some(sys.cfg)
  {
    if ForConfig(s, ev) && ev.disk.config.Some? {
      MergeLayers(Merge(DEFAULT, ev.disk.config.value), ZERO, ZERO);
    }
  }

  /** The config and the registry are those of the disk. */
  predicate Current(s: Settings, sys: System, disk: Disk) {
    OnDisk(s, disk) == Some(sys.cfg) && Produces(s, sys.cfg, disk, sys.registered)
  }

  /** Handling an event over a loadable disk makes the system current if the config is the one on
      the disk already, or the event is for the config file; otherwise the config stays. */
  lemma StepConverges(s: Settings, sys: System, ev: FileEvent)
    requires Loadable(s, ev.disk)
    ensures var next := Handle(s, sys, ev);
            if ForConfig(s, ev) || Some(sys.cfg) == OnDisk(s, ev.disk) then Current(s, next, ev.disk)
            else next.cfg == sys.cfg
  {
    hide Produces, LoadConfig, ParseAll, NextConfig;
    NextConfigIs(s, sys, ev);
    HandleIsAllOrNothing(s, sys, ev);
  }

  /** Every event from the n-th on is handled over the same disk. */
  predicate QuietDisk(events: seq<FileEvent>, n: nat, disk: Disk) {
    forall m | n <= m < |events| :: events[m].disk == disk
  }

  predicate ConfigEventSince(s: Settings, events: seq<FileEvent>, n: nat) {
    exists m :: n <= m < |events| && ForConfig(s, events[m])
  }

  lemma {:induction false} RunConverges(s: Settings, sys: System, events: seq<FileEvent>, n: nat, disk: Disk)
    requires n <= |events| && QuietDisk(events, n, disk) && Loadable(s, disk)
    ensures var before, after := Run(s, sys, events[..n]), Run(s, sys, events);
            if n < |events| && (ConfigEventSince(s, events, n) || Some(before.cfg) == OnDisk(s, disk))
            then Current(s, after, disk)
            else after.cfg == before.cfg
    decreases |events|
  {
    hide Loadable, Current, Handle, OnDisk;
    if n == |events| {
      assert events[..n] == events;
    } else {
      var front, ev := events[..|events| - 1], events[|events| - 1];
      assert front[..n] == events[..n];
      RunConverges(s, sys, front, n, disk);
      StepConverges(s, Run(s, sys, front), ev);
      CurrentConfig(s, Run(s, sys, front), disk);
      assert ConfigEventSince(s, events, n) <==> ConfigEventSince(s, front, n) || ForConfig(s, ev) by {
        assert forall m | 0 <= m < |front| :: front[m] == events[m];
      }
    }
  }

  lemma CurrentConfig(s: Settings, sys: System, disk: Disk)
    ensures Current(s, sys, disk) ==> OnDisk(s, disk) == Some(sys.cfg)
  {
  }

  lemma ProducesOne(s: Settings, cfg: Config, disk: Disk, a: Registered, b: Registered)
    requires Produces(s, cfg, disk, a) && Produces(s, cfg, disk, b)
    ensures a == b
  {
  }

  /** Exactly when reloading amounts to restarting. Once the disk has stopped changing and at least
      one more event has been handled, the live config and registry are those of a fresh start if and
      only if the config in force was already the one on the disk, or one of these events was for the
      config file. */
  lemma ReloadIsRestartExactly(s: Settings, first: Disk, events: seq<FileEvent>, n: nat, disk: Disk)
    requires StartUp(s, first).Some? && StartUp(s, disk).Some?
    requires n < |events| && QuietDisk(events, n, disk)
    ensures var live, anew := Run(s, StartUp(s, first).value, events), StartUp(s, disk).value;
            (live.cfg == anew.cfg && live.registered == anew.registered) <==>
            ConfigEventSince(s, events, n) || Run(s, StartUp(s, first).value, events[..n]).cfg == anew.cfg
  {
    hide Startable, OnDisk, Produces, StartUp, Reload.Run;
    StartUpExactly(s, disk);
    RunConverges(s, StartUp(s, first).value, events, n, disk);
    var live, anew := Run(s, StartUp(s, first).value, events), StartUp(s, disk).value;
    if Current(s, live, disk) {
      ProducesOne(s, live.cfg, disk, live.registered, anew.registered);
    }
  }

  /** The config in force is the one that was on the disk at the last successful event for the config
      file, or at start-up. */
  lemma {:induction false} ConfigIsLastGoodConfig(s: Settings, first: Disk, events: seq<FileEvent>) returns (k: nat)
    requires StartUp(s, first).Some?
    ensures var sys := Run(s, StartUp(s, first).value, events);
            && |sys.outcomes| == |events| && k <= |events|
            && OnDisk(s, DiskAt(first, events, k)) == Some(sys.cfg)
            && (k > 0 ==> ForConfig(s, events[k - 1]) && sys.outcomes[k - 1])
            && (forall m | k <= m < |events| :: !(ForConfig(s, events[m]) && sys.outcomes[m]))
  {
    hide OnDisk, Handle, Produces, NextConfig, StartUp;
    if events == [] {
      StartUpProduces(s, first);
      StartUpExactly(s, first);
      k := 0;
    } else {
      var front, ev := events[..|events| - 1], events[|events| - 1];
      k := ConfigIsLastGoodConfig(s, first, front);
      var before := Run(s, StartUp(s, first).value, front);
      HandleIsAllOrNothing(s, before, ev);
      NextConfigIs(s, before, ev);
      var sys := Run(s, StartUp(s, first).value, events);
      if ForConfig(s, ev) && sys.outcomes[|front|] {
        k := |events|;
      } else {
        assert DiskAt(first, events, k) == DiskAt(first, front, k);
      }
    }
  }

  /** A setting is that of the command line if it is set there, otherwise that of the file if it is set
      there, otherwise the default. */
  predicate IsLayered<T(==)>(value: T, unset: T, cli: T, file: T, default: T) {
    value == if cli != unset then cli else if file != unset then file else default
  }

  predicate RunsOn(cfg: Config, cli: Config, file: Config) {
    && IsLayered(cfg.delimiter, "", cli.delimiter, file.delimiter, "@")
    && IsLayered(cfg.makefiles, [], cli.makefiles, file.makefiles, [])
    && IsLayered(cfg.strict, false, cli.strict, file.strict, false)
    && IsLayered(cfg.transport, "", cli.transport, file.transport, "stdio")
    && IsLayered(cfg.listen, "", cli.listen, file.listen, "127.0.0.1:9378")
    && IsLayered(cfg.logPath, "", cli.logPath, file.logPath, "stderr")
    && IsLayered(cfg.debug, false, cli.debug, file.debug, false)
    && IsLayered(cfg.timeouts.low, 0, cli.timeouts.low, file.timeouts.low, TEN_MINUTES)
    && IsLayered(cfg.timeouts.medium, 0, cli.timeouts.medium, file.timeouts.medium, TEN_MINUTES)
    && IsLayered(cfg.timeouts.high, 0, cli.timeouts.high, file.timeouts.high, TEN_MINUTES)
  }

  const TEN_MINUTES := 10 * 60 * 1_000_000_000

  /** The decoded config file; without a path there is none, and nothing is set. */
  function ConfigFile(s: Settings, disk: Disk): Option<Config> {
    if s.configPath == "" then Some(ZERO) else disk.config
  }

  lemma LoadedRunsOn(s: Settings, disk: Disk)
    ensures OnDisk(s, disk).Some? <==> ConfigFile(s, disk).Some?
    ensures OnDisk(s, disk).Some? ==> RunsOn(OnDisk(s, disk).value, s.cli, ConfigFile(s, disk).value)
  {
    hide RunsOn, Merge;
    assert Merge(DEFAULT, ZERO) == DEFAULT by {
      MergeLayers(DEFAULT, DEFAULT, DEFAULT);
    }
    if ConfigFile(s, disk).Some? {
      LayersAreLayered(s.cli, ConfigFile(s, disk).value);
    }
  }

  lemma LayersAreLayered(cli: Config, file: Config)
    ensures RunsOn(Merge(Merge(DEFAULT, file), cli), cli, file)
  {
  }

  /** Setting by setting, in every reachable state: the command line, then the config file as it was at its
      last successful event or at start-up, then the default. */
  lemma SettingsAreLayered(s: Settings, first: Disk, events: seq<FileEvent>) returns (k: nat)
    requires StartUp(s, first).Some?
    ensures var sys := Run(s, StartUp(s, first).value, events);
            && |sys.outcomes| == |events| && k <= |events|
            && (k > 0 ==> ForConfig(s, events[k - 1]) && sys.outcomes[k - 1])
            && (forall m | k <= m < |events| :: !(ForConfig(s, events[m]) && sys.outcomes[m]))
            && ConfigFile(s, DiskAt(first, events, k)).Some?
            && RunsOn(sys.cfg, s.cli, ConfigFile(s, DiskAt(first, events, k)).value)
  {
    hide OnDisk, ConfigFile, StartUp, Reload.Run, RunsOn;
    k := ConfigIsLastGoodConfig(s, first, events);
    LoadedRunsOn(s, DiskAt(first, events, k));
  }

  // ---- From the file system to the live server ----

  /** The watcher and the reload loop together. A file was written and enqueued at step i, after n
      events, and whatever was received after that step was handled over the disk as it is now. Once
      the watcher is quiet, the live server is the one that a restart would give: always when the file
      was the config file, and for a Makefile when the config in force was up to date. */
  lemma QuietMeansRestarted(requested: int, clock: int, tr: Protocol.Trace, i: nat, n: nat,
                            s: Settings, first: Disk, events: seq<FileEvent>, disk: Disk)
    requires Protocol.Run(Protocol.Start(requested, clock), tr).Some?
    requires QuietWatcher(Protocol.Run(Protocol.Start(requested, clock), tr).value)
    requires i < |tr| && tr[i].Mark? && n == |Protocol.Received(tr[..i])| <= |events|
    requires Paths(events) == Protocol.Received(tr) && QuietDisk(events, n, disk)
    requires StartUp(s, first).Some?
    ensures StartUp(s, disk).Some? ==>
            var live, anew := Run(s, StartUp(s, first).value, events), StartUp(s, disk).value;
            (s.configPath != "" && tr[i].path == s.configPath)
            || Run(s, StartUp(s, first).value, events[..n]).cfg == anew.cfg ==>
              live.cfg == anew.cfg && live.registered == anew.registered
  {
    hide Protocol.Run, StartUp, Reload.Run;
    var m := ChangesAreReceived(requested, clock, tr, i);
    assert |Paths(events)| == |events| && Paths(events)[m] == events[m].path;
    if s.configPath != "" && tr[i].path == s.configPath {
      assert ForConfig(s, events[m]);
      assert ConfigEventSince(s, events, n);
    }
    if StartUp(s, disk).Some? {
      ReloadIsRestartExactly(s, first, events, n, disk);
    }
  }

  /** Such quiet runs exist for every path. */
  lemma QuietHappens(path: string) returns (tr: Protocol.Trace)
    ensures Protocol.Run(Protocol.Start(10, 0), tr).Some?
    ensures QuietWatcher(Protocol.Run(Protocol.Start(10, 0), tr).value)
    ensures tr != [] && tr[0] == Protocol.Mark(path, 0) && Protocol.Received(tr) == [path]
  {
    var s := Protocol.Start(10, 0);
    assert Protocol.Run(s, []) == Some(s) && Protocol.Received([]) == [];
    hide Protocol.Run, Protocol.Received;
    var t;
    tr, t := Wakeup.FillOne(s, [], s, 0, path);
    tr, t := Wakeup.Then(s, tr, t, Protocol.Receive(path));
  }

  // ---- Two ways to differ from a restart ----

  /** A config file that sets nothing but the delimiter and the Makefiles. */
  function Layout(delimiter: string, makefiles: seq<string>): Config {
    ZERO.(delimiter := delimiter, makefiles := makefiles)
  }

  const EMPTY := Registered([], map[])

  lemma NothingIsProduced(s: Settings, cfg: Config, disk: Disk)
    requires cfg.makefiles == [] || (cfg.makefiles == ["m"] && "m" in disk.texts && disk.texts["m"] == "")
    ensures Produces(s, cfg, disk, EMPTY)
  {
    var files := ReadFiles(cfg.makefiles, disk);
    if cfg.makefiles != [] {
      assert files == [File("m", Some([]))] && files[..0] == [];
      assert Merged(OptionsOf(s, cfg), files) == NOTHING.Join(Tag("m", NOTHING)) == NOTHING;
    }
    assert RecipeTools([]) == [];
  }

  lemma MissingFileFails(s: Settings, sys: System, ev: FileEvent)
    requires NextConfig(s, sys, ev).Some? && NextConfig(s, sys, ev).value.makefiles == ["m"] && ev.disk.texts == map[]
    ensures Handle(s, sys, ev) == Failed(sys)
  {
    var cfg := NextConfig(s, sys, ev).value;
    assert ReadFiles(cfg.makefiles, ev.disk)[0].lines.None?;
  }

  /** A config change is dropped when the handling of its own event fails, here because the Makefile
      is missing for a moment: a later success for the Makefile keeps the old config in force,
      although a restart would use the new one. */
  lemma ConfigChangeIsDropped(s: Settings) returns (first: Disk, events: seq<FileEvent>)
    requires s.configPath != "" && s.configPath != "m" && s.cli == ZERO
    ensures StartUp(s, first).Some? && |events| == 2 && StartUp(s, events[1].disk).Some?
    ensures var live := Run(s, StartUp(s, first).value, events);
            && live.outcomes == [false, true]
            && live.cfg.delimiter == "@" && StartUp(s, events[1].disk).value.cfg.delimiter == "%"
  {
    hide Startable;
    var texts := map["m" := ""];
    var next := Some(Layout("%", ["m"]));
    first := Disk(Some(Layout("@", ["m"])), texts, {}, WILLING);
    var e0 := FileEvent(s.configPath, Disk(next, map[], {}, WILLING));
    var e1 := FileEvent("m", Disk(next, texts, {}, WILLING));
    events := [e0, e1];
    StartsEmpty(s, first, "@");
    StartsEmpty(s, e1.disk, "%");
    var sys := StartUp(s, first).value;
    NextConfigIs(s, sys, e0);
    MissingFileFails(s, sys, e0);
    NextConfigIs(s, Failed(sys), e1);
    NothingIsProduced(s, sys.cfg, e1.disk);
    HandleIsAllOrNothing(s, Failed(sys), e1);
    RunTwo(s, sys, e0, e1);
  }

  lemma StartsEmpty(s: Settings, disk: Disk, delimiter: string)
    requires s.configPath != "" && s.cli == ZERO && delimiter != ""
    requires disk == Disk(Some(Layout(delimiter, ["m"])), map["m" := ""], {}, WILLING)
    ensures StartUp(s, disk).Some? && StartUp(s, disk).value.outcomes == []
    ensures StartUp(s, disk).value.cfg == DEFAULT.(delimiter := delimiter, makefiles := ["m"])
  {
    var cfg := DEFAULT.(delimiter := delimiter, makefiles := ["m"]);
    assert OnDisk(s, disk) == Some(cfg);
    NothingIsProduced(s, cfg, disk);
    StartUpExactly(s, disk);
  }

  lemma RunTwo(s: Settings, sys: System, e0: FileEvent, e1: FileEvent)
    ensures Run(s, sys, [e0, e1]) == Handle(s, Handle(s, sys, e0), e1)
  {
    assert [e0, e1][..1] == [e0] && [e0][..0] == [];
    assert Run(s, sys, [e0]) == Handle(s, sys, e0);
  }

  /** Reloading makes none of the checks of start-up: a config file that no longer names a Makefile is
      a successful reload that leaves no tool, while a restart is refused on the most willing host. */
  lemma ReloadSkipsChecks(s: Settings, sys: System) returns (ev: FileEvent)
    requires s.configPath != "" && s.cli == ZERO
    ensures Handle(s, sys, ev).outcomes == sys.outcomes + [true] && Handle(s, sys, ev).registered.tools == []
    ensures Loadable(s, ev.disk) && ev.disk.host == WILLING && StartUp(s, ev.disk).None?
  {
    ev := FileEvent(s.configPath, Disk(Some(ZERO), map[], {}, WILLING));
    NextConfigIs(s, sys, ev);
    var cfg := OnDisk(s, ev.disk).value;
    assert cfg == DEFAULT;
    NothingIsProduced(s, cfg, ev.disk);
    StartUpExactly(s, ev.disk);
    HandleIsAllOrNothing(s, sys, ev);
    StepConverges(s, sys, ev);
    ProducesOne(s, cfg, ev.disk, EMPTY, Handle(s, sys, ev).registered);
  }
}
