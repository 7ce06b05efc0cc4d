/**
 Level filters of the tracing library, as they appear in the logger's
 directives (`info`, `debug`, `trace`, `off`) and in the `RUST_LOG` value.
 */
module Levels {

  /** The result of a parse or a search that may find nothing. */
  datatype Option<T> = None | Some(value: T)

  /** From most to least restrictive: `Off` lets nothing through, `Trace` everything. */
  datatype Level = Off | Error | Warn | Info | Debug | Trace

  /** Position of a level in the order Off < Error < Warn < Info < Debug < Trace. */
  function Rank(l: Level): nat
  {
    match l
    case Off => 0
    case Error => 1
    case Warn => 2
    case Info => 3
    case Debug => 4
    case Trace => 5
  }

  /** `a` lets through no more than `b` does. */
  predicate AtMost(a: Level, b: Level) {
    Rank(a) <= Rank(b)
  }

  /** `AtMost` is a total order on levels: Rank is one-to-one. */
  lemma AtMostIsTotalOrder()
    ensures forall a :: AtMost(a, a)
    ensures forall a, b :: AtMost(a, b) && AtMost(b, a) ==> a == b
    ensures forall a, b, c :: AtMost(a, b) && AtMost(b, c) ==> AtMost(a, c)
    ensures forall a, b :: AtMost(a, b) || AtMost(b, a)
  {
  }

  /** The lower-case name a level has in a directive or in `RUST_LOG`. */
  function Name(l: Level): string
  {
    match l
    case Off => "off"
    case Error => "error"
    case Warn => "warn"
    case Info => "info"
    case Debug => "debug"
    case Trace => "trace"
  }

  /** Reads a level name; a text that names no level is rejected. */
  function ParseLevel(s: string): (r: Option<Level>)
    ensures r.Some? ==> Name(r.value) == s
    ensures r.None? ==> forall l :: Name(l) != s
  {
    if s == "off" then Some(Off)
    else if s == "error" then Some(Error)
    else if s == "warn" then Some(Warn)
    else if s == "info" then Some(Info)
    else if s == "debug" then Some(Debug)
    else if s == "trace" then Some(Trace)
    else None
  }

  /** Every level's name reads back as that level. */
  lemma ParseName(l: Level)
    ensures ParseLevel(Name(l)) == Some(l)
  {
  }
}
