# snarkOS logger configuration, in Dafny

This project models the configuration logic of `initialize_logger` in the
snarkOS command-line node (`cli/src/helpers/logger.rs`). That function takes
a `u8` verbosity, a `nodisplay` switch and a log-file path. It sets up two
tracing layers: one for the terminal and one for the log file. The model
covers the pure decisions it makes along the way:

- the value it stores in `RUST_LOG` (`info`, `debug` or `trace`). The
  filters later read it back as their default level;
- the filter closure that `std::array::from_fn` runs twice. Each run starts
  from the `RUST_LOG` level and adds ten `scope=level` directives: six
  third-party scopes forced `off`, then four snarkOS subsystems. Each
  subsystem is raised to `trace` past a strict `>` threshold;
- the settings of the two layers: whether the terminal writer holds the
  channel sender, whether ANSI colour is on, whether the target is printed,
  and which filter each layer gets.

Modules:

- `Levels` (`levels.dfy`): tracing's level filters, ordered from `Off` to
  `Trace`, with their names, a parser for those names, and an `Option` type.
- `Directives` (`directives.dfy`): directives, filters, `add_directive`, the
  level a filter gives a scope, and the `scope=level` text form with its
  parser.
- `Logger` (`logger.dfy`): the body of `initialize_logger` without its I/O.
- `LoggerProperties` (`logger_properties.dfy`): a reference table of the
  directives at each verbosity, and the properties proved against it for
  every `u8` verbosity.

The doc comment above `initialize_logger` (lines 29-36) does not match the
code. It says the gateway is traced from verbosity 3, narwhal from 4, the
router from 5 and tcp from 6. The code's strict `>` tests trace them from 4,
5, 6 and 7. The model follows the code. `DocCommentOffByOne` shows, for each of the
four subsystems, that the subsystem is not traced at the verbosity the doc
comment names, and is traced one verbosity later.

A filter's level for a scope is looked up by exact scope name: the last
directive naming that scope, or else the `RUST_LOG` level. The tracing
library also applies a directive to nested module paths (`hyper=off`
covers `hyper::client`), and that matching is not modelled; the rows that
speak of "other scopes" or "unnamed scopes" are about exactly named scopes.

Inputs from outside the function are parameters. Whether standard output is
a terminal is the boolean `isTty`. The environment variable is the string
`RustLog(verbosity)`, and the filter's default level is the level that
string names.

## Model

| member | source | states |
|---|---|---|
| Logger.GlobalLevel | cli/src/helpers/logger.rs:38-46 | The `RUST_LOG` text stored for a verbosity parses back as a tracing level, and that level is the filter's default. |
| LoggerProperties.GlobalLevelTable | cli/src/helpers/logger.rs:38-42 | The global level is info exactly at 0, debug exactly at 1 and trace exactly from 2, for every `u8`. |
| Directives.AddDirective | cli/src/helpers/logger.rs:47-75 | No contract of its own: one `.add_directive` call, appending the directive after those already added. Its meaning is stated by `Directives.AddDirectiveOverrides`. |
| Directives.AddDirectiveOverrides | cli/src/helpers/logger.rs:47-52 | After `add_directive` the filter keeps its default. The new directive's scope takes its level. Every other exactly named scope keeps the level it had. |
| Directives.LookupAppend | cli/src/helpers/logger.rs:47-52 | Appending a directive decides its own scope and leaves the lookup of every other scope unchanged. |
| Directives.Lookup | cli/src/helpers/logger.rs:46-76 | A scope has a level exactly when some directive names it. That level is the one set by the last directive for the scope. |
| Directives.LevelFor | cli/src/helpers/logger.rs:45-77 | A scope that no directive names gets the filter's default level. A named scope gets the level of the last directive that names it. |
| Directives.LookupDistinct | cli/src/helpers/logger.rs:46-76 | When no scope repeats, the lookup of each directive's scope yields that directive's level. |
| Directives.LookupMonotone | cli/src/helpers/logger.rs:54-76 | Two lists over the same scopes, the second at least as verbose at each position, give every scope a level at least as verbose. |
| Directives.ParseDirective | cli/src/helpers/logger.rs:47-52 | A directive text that parses has a non-empty scope without `=`. Writing the parsed directive back out gives the original text. |
| Directives.Format | cli/src/helpers/logger.rs:47-75 | No contract of its own: the `scope=level` text each directive is written as. `Directives.FormatParse` states that it parses back. |
| Directives.FormatParse | cli/src/helpers/logger.rs:47-75 | For every valid scope, a directive written as `scope=level` parses back to itself. |
| Levels.ParseLevel | cli/src/helpers/logger.rs:39-41 | A level name is read as the level it names. A text that names no level is rejected. |
| Levels.ParseName | cli/src/helpers/logger.rs:39-41 | Every level's name parses back to that level. |
| Levels.AtMostIsTotalOrder | cli/src/helpers/logger.rs:38-76 | The verbosity order Off < Error < Warn < Info < Debug < Trace is a total order. |
| Logger.RustLog | cli/src/helpers/logger.rs:38-42 | The text stored in `RUST_LOG` always names a tracing level, and that level is never quieter than info. |
| Logger.DirectiveClosure | cli/src/helpers/logger.rs:45-77 | No contract of its own: the closure run by `from_fn`, the `RUST_LOG` filter plus the ten `add_directive` calls in the code's order. `LoggerProperties.ClosureIsTable` states what it builds. |
| LoggerProperties.ClosureIsTable | cli/src/helpers/logger.rs:45-77 | Each closure run builds the reference table: the `RUST_LOG` level, six suppressions, then gateway, narwhal, router and tcp at their rule levels. |
| LoggerProperties.DirectiveShape | cli/src/helpers/logger.rs:46-76 | At every verbosity the directives name the same ten scopes, in the same order, each exactly once. |
| LoggerProperties.SameScopesAtEveryVerbosity | cli/src/helpers/logger.rs:46-76 | The filters for any two verbosities differ only in their levels, never in their scopes. |
| LoggerProperties.SuppressedAlwaysOff | cli/src/helpers/logger.rs:46-52 | `mio`, `tokio_util`, `hyper`, `reqwest`, `want` and `warp` are off at every verbosity. |
| LoggerProperties.SubsystemFollowsRule | cli/src/helpers/logger.rs:54-76 | Each subsystem gets its rule's level: trace past its threshold, its base level otherwise. |
| LoggerProperties.SubsystemLevels | cli/src/helpers/logger.rs:54-76 | The gateway is trace iff v > 3, else debug. Narwhal is trace iff v > 4, else debug. The router is trace iff v > 5, else off. Tcp is trace iff v > 6, else off. |
| LoggerProperties.UnnamedScopeUsesGlobal | cli/src/helpers/logger.rs:38-46 | Under exact-scope lookup, a scope that no directive names takes the global level from `RUST_LOG`. |
| LoggerProperties.Monotone | cli/src/helpers/logger.rs:38-76 | Raising the verbosity never lowers the global level, any directive's level or the level of any scope. |
| LoggerProperties.ScopesValid | cli/src/helpers/logger.rs:47-75 | No scope the logger writes is empty or contains `=`. |
| LoggerProperties.DirectiveTextsParse | cli/src/helpers/logger.rs:47-75 | Every directive text the closure writes parses to the directive it stands for, so none of its `unwrap` calls can fail. |
| Logger.FilterPair | cli/src/helpers/logger.rs:45-77 | The two filters that `from_fn` produces are equal. |
| LoggerProperties.SinksFilterAlike | cli/src/helpers/logger.rs:99-116 | The terminal and file layers get the table's filter, and they give every scope the same level. |
| Logger.LogSender | cli/src/helpers/logger.rs:93-96 | No contract of its own: the sender is kept exactly when the display is not suppressed. `Logger.Initialize` states this for the terminal writer. |
| Logger.Initialize | cli/src/helpers/logger.rs:93-114 | The terminal writer holds a sender iff `!nodisplay`. Terminal ANSI is on iff there is no sender and stdout is a TTY, i.e. iff `nodisplay && isTty`. File ANSI is always off. Both layers print the target iff verbosity > 2. Both get the same filter. |
| LoggerProperties.DocCommentOffByOne | cli/src/helpers/logger.rs:29-36 | For each subsystem, the code does not trace it at the verbosity the doc comment names (3, 4, 5, 6), and does trace it one verbosity later. |

## Left out

- Creating the log directory and opening the file in append mode (lines 79-87): this is file-system I/O, and its failures panic through `expect`.
- The `tokio::mpsc` channel of capacity 1024 and the returned receiver (lines 90, 118): channel plumbing and concurrency. `LogWriter` (line 104) is not part of this model. Its drop-on-full and stdout fallback are therefore not stated; the terminal writer is modelled only by whether it holds the sender.
- Registering the subscriber with `try_init` and ignoring its result (lines 99, 116): this is global registration in a foreign library.
- `std::env::set_var` and `io::stdout().is_tty()` (lines 39-41, 103): the first is the string `RustLog(verbosity)`, the second the boolean `isTty`.
- `welcome_message` and `notification_message` (lines 121-199): these are constant banner strings.
- Directives.AddDirectiveOverrides: "every other scope keeps its level" holds only for exactly named scopes. In the tracing library, adding `snarkos_node_narwhal=trace` also changes nested targets such as `snarkos_node_narwhal::bft`.
- LoggerProperties.UnnamedScopeUsesGlobal: holds only under exact-scope lookup. In the tracing library a nested target such as `hyper::client` or `snarkos_node_router::outbound` takes the level of its enclosing directive (`hyper=off`, `snarkos_node_router=off`), not the `RUST_LOG` level.
- Directives.LevelFor: resolves exactly named scopes only; see the next line.
- Directives.Lookup: matches a directive only against exactly its own scope. The tracing library also applies a directive to nested module paths and prefers the most specific one; that matching is foreign code and is not modelled.
- Directives.ParseDirective: accepts only the `scope=level` form with lower-case level names. The library's grammar also allows spans, fields and upper-case level names, and none of these occur in this file.
- Levels.ParseLevel: reads only the six lower-case names. The library's parser also accepts other spellings and numbers, and the logger never writes those.
