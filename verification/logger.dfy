/**
 The configuration `initialize_logger` computes before it touches the file
 system or the tracing registry: the `RUST_LOG` value, the filter directives
 (built twice, once per sink) and the flags of the terminal and file layers.
 */
module Logger {
  import opened Levels
  import opened Directives

  /** The verbosity argument, a `u8`. */
  type Verbosity = v: int | 0 <= v < 256

  // Third-party scopes that are switched off at every verbosity.
  const Mio: string := "mio"
  const TokioUtil: string := "tokio_util"
  const Hyper: string := "hyper"
  const Reqwest: string := "reqwest"
  const Want: string := "want"
  const Warp: string := "warp"

  // snarkOS subsystems whose level depends on the verbosity.
  const Gateway: string := "snarkos_node_narwhal::gateway"
  const Narwhal: string := "snarkos_node_narwhal"
  const Router: string := "snarkos_node_router"
  const Tcp: string := "snarkos_node_tcp"

  /** The value `initialize_logger` stores in `RUST_LOG`. */
  function RustLog(verbosity: Verbosity): (env: string)
    ensures ParseLevel(env).Some? && AtMost(Info, ParseLevel(env).value)
  {
    match verbosity
    case 0 => "info"
    case 1 => "debug"
    case _ => "trace"
  }

  /** The default level a filter reads back from `RUST_LOG`: the level the stored text names. */
  function GlobalLevel(verbosity: Verbosity): (l: Level)
    ensures ParseLevel(RustLog(verbosity)) == Some(l)
  {
    match verbosity
    case 0 => Info
    case 1 => Debug
    case _ => Trace
  }

  /** The closure handed to `std::array::from_fn`: one filter, built from the environment and ten directives. */
  function DirectiveClosure(index: nat, verbosity: Verbosity): Filter
  {
    var f := Filter(GlobalLevel(verbosity), []);
    var f := AddDirective(f, Directive(Mio, Off));
    var f := AddDirective(f, Directive(TokioUtil, Off));
    var f := AddDirective(f, Directive(Hyper, Off));
    var f := AddDirective(f, Directive(Reqwest, Off));
    var f := AddDirective(f, Directive(Want, Off));
    var f := AddDirective(f, Directive(Warp, Off));

    var f := if verbosity > 3 then AddDirective(f, Directive(Gateway, Trace))
             else AddDirective(f, Directive(Gateway, Debug));
    var f := if verbosity > 4 then AddDirective(f, Directive(Narwhal, Trace))
             else AddDirective(f, Directive(Narwhal, Debug));
    var f := if verbosity > 5 then AddDirective(f, Directive(Router, Trace))
             else AddDirective(f, Directive(Router, Off));
    if verbosity > 6 then AddDirective(f, Directive(Tcp, Trace))
    else AddDirective(f, Directive(Tcp, Off))
  }

  /** `let [filter, filter2] = std::array::from_fn(..)`: the terminal filter and the file filter. */
  function FilterPair(verbosity: Verbosity): (pair: (Filter, Filter))
    ensures pair.0 == pair.1
  {
    (DirectiveClosure(0, verbosity), DirectiveClosure(1, verbosity))
  }

  /** Where a layer writes: the terminal's `LogWriter`, holding the channel sender or not, or the log file. */
  datatype Writer = LogWriter(hasSender: bool) | LogFile

  /** One `fmt::Layer` with its settings and its filter. */
  datatype Layer = Layer(ansi: bool, writer: Writer, target: bool, filter: Filter)

  /** The two layers registered with the tracing registry. */
  datatype Subscriber = Subscriber(terminal: Layer, file: Layer)

  /** Whether the channel sender is kept: `Some(log_sender)` unless the display is suppressed. */
  function LogSender(nodisplay: bool): bool {
    !nodisplay
  }

  /**
   The subscriber `initialize_logger` registers, given the verbosity, the
   `nodisplay` switch and whether standard output is a terminal.
   */
  function Initialize(verbosity: Verbosity, nodisplay: bool, isTty: bool): (s: Subscriber)
    ensures s.terminal.writer == LogWriter(!nodisplay)
    ensures s.file.writer == LogFile
    ensures s.terminal.ansi <==> !s.terminal.writer.hasSender && isTty
    ensures s.terminal.ansi <==> nodisplay && isTty
    ensures !s.file.ansi
    ensures s.terminal.target <==> verbosity >= 3
    ensures s.file.target == s.terminal.target
    ensures s.terminal.filter == s.file.filter
  {
    var (filter, filter2) := FilterPair(verbosity);
    var sender := LogSender(nodisplay);
    Subscriber(
      Layer(!sender && isTty, LogWriter(sender), verbosity > 2, filter),
      Layer(false, LogFile, verbosity > 2, filter2))
  }
}
