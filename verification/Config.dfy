/** pkg/config/config.go: layered configuration. */
module Config {

  datatype Timeouts = Timeouts(low: int, medium: int, high: int)

  datatype Config = Config(
    delimiter: string,
    makefiles: seq<string>,
    strict: bool,
    transport: string,
    listen: string,
    logPath: string,
    debug: bool,
    timeouts: Timeouts
  )

  /** Go's zero value. */
  const ZERO := Config("", [], false, "", "", "", false, Timeouts(0, 0, 0))

  /** Default; durations in nanoseconds. */
  const DEFAULT :=
    Config("@", [], false, "stdio", "127.0.0.1:9378", "stderr", false,
           Timeouts(600_000_000_000, 600_000_000_000, 600_000_000_000))

  function Text(base: string, override: string): string {
    if override != "" then override else base
  }

  function Duration(base: int, override: int): int {
    if override != 0 then override else base
  }

  /** What Merge computes: the non-zero fields of the override replace those of the base. */
  function Merge(base: Config, override: Config): Config {
    Config(
      Text(base.delimiter, override.delimiter),
      if |override.makefiles| > 0 then override.makefiles else base.makefiles,
      override.strict || base.strict,
      Text(base.transport, override.transport),
      Text(base.listen, override.listen),
      Text(base.logPath, override.logPath),
      override.debug || base.debug,
      Timeouts(Duration(base.timeouts.low, override.timeouts.low),
               Duration(base.timeouts.medium, override.timeouts.medium),
               Duration(base.timeouts.high, override.timeouts.high))
    )
  }

  method MergeTimeouts(base: Timeouts, override: Timeouts) returns (out: Timeouts)
    ensures out == Timeouts(Duration(base.low, override.low), Duration(base.medium, override.medium),
                            Duration(base.high, override.high))
  {
    out := base;
    if override.low != 0 {
      out := out.(low := override.low);
    }
    if override.medium != 0 {
      out := out.(medium := override.medium);
    }
    if override.high != 0 {
      out := out.(high := override.high);
    }
  }

  /** Merge, which overwrites the fields of a copy one at a time. */
  method MergeFields(base: Config, override: Config) returns (out: Config)
    ensures out == Merge(base, override)
  {
    out := base;
    if override.delimiter != "" {
      out := out.(delimiter := override.delimiter);
    }
    assert out == base.(delimiter := Text(base.delimiter, override.delimiter));
    if |override.makefiles| > 0 {
      out := out.(makefiles := override.makefiles);
    }
    if override.strict {
      out := out.(strict := true);
    }
    ghost var half := Merge(base, override).(transport := base.transport, listen := base.listen,
                                             logPath := base.logPath, debug := base.debug, timeouts := base.timeouts);
    assert out == half;
    if override.transport != "" {
      out := out.(transport := override.transport);
    }
    if override.listen != "" {
      out := out.(listen := override.listen);
    }
    assert out == half.(transport := Text(base.transport, override.transport),
                        listen := Text(base.listen, override.listen));
    if override.logPath != "" {
      out := out.(logPath := override.logPath);
    }
    if override.debug {
      out := out.(debug := true);
    }
    var timeouts := MergeTimeouts(base.timeouts, override.timeouts);
    out := out.(timeouts := timeouts);
  }

  /** Every field that the upper layer sets is the field of the whole. */
  predicate Prevails(layer: Config, whole: Config) {
    && (layer.delimiter != "" ==> whole.delimiter == layer.delimiter)
    && (layer.makefiles != [] ==> whole.makefiles == layer.makefiles)
    && (layer.strict ==> whole.strict)
    && (layer.transport != "" ==> whole.transport == layer.transport)
    && (layer.listen != "" ==> whole.listen == layer.listen)
    && (layer.logPath != "" ==> whole.logPath == layer.logPath)
    && (layer.debug ==> whole.debug)
    && (layer.timeouts.low != 0 ==> whole.timeouts.low == layer.timeouts.low)
    && (layer.timeouts.medium != 0 ==> whole.timeouts.medium == layer.timeouts.medium)
    && (layer.timeouts.high != 0 ==> whole.timeouts.high == layer.timeouts.high)
  }

  /** Every field that the upper layer does not set is the field of the lower layer. */
  predicate FallsThrough(base: Config, layer: Config, whole: Config) {
    && (layer.delimiter == "" ==> whole.delimiter == base.delimiter)
    && (layer.makefiles == [] ==> whole.makefiles == base.makefiles)
    && (!layer.strict ==> whole.strict == base.strict)
    && (layer.transport == "" ==> whole.transport == base.transport)
    && (layer.listen == "" ==> whole.listen == base.listen)
    && (layer.logPath == "" ==> whole.logPath == base.logPath)
    && (!layer.debug ==> whole.debug == base.debug)
    && (layer.timeouts.low == 0 ==> whole.timeouts.low == base.timeouts.low)
    && (layer.timeouts.medium == 0 ==> whole.timeouts.medium == base.timeouts.medium)
    && (layer.timeouts.high == 0 ==> whole.timeouts.high == base.timeouts.high)
  }

  /** Layers can be merged in any grouping, the empty layer changes nothing, and the upper layer
      prevails over what lies under it. */
  lemma MergeLayers(a: Config, b: Config, c: Config)
    ensures Merge(Merge(a, b), c) == Merge(a, Merge(b, c))
    ensures Merge(a, ZERO) == a == Merge(ZERO, a)
    ensures Prevails(b, Merge(a, b)) && FallsThrough(a, b, Merge(a, b))
  {
  }
}
