/**
 What the filters `initialize_logger` builds mean: a reference table of
 the directives at each verbosity, and the properties read off it.
 */
module LoggerProperties {
  import opened Levels
  import opened Directives
  import opened Logger

  /** The third-party scopes switched off, in the order they are added. */
  const SuppressedScopes: seq<string> := [Mio, TokioUtil, Hyper, Reqwest, Want, Warp]

  /** A subsystem override: its scope, its level up to the threshold, and the threshold past which it is traced. */
  datatype Rule = Rule(scope: string, base: Level, threshold: nat)

  /** The subsystem overrides, in the order they are added. */
  const SubsystemRules: seq<Rule> := [
    Rule(Gateway, Debug, 3),
    Rule(Narwhal, Debug, 4),
    Rule(Router, Off, 5),
    Rule(Tcp, Off, 6)
  ]

  /** The level a rule gives its scope at a verbosity. */
  function RuleLevel(rule: Rule, verbosity: Verbosity): Level {
    if verbosity > rule.threshold then Trace else rule.base
  }

  /** The scopes every filter names, in order. */
  const ScopeOrder: seq<string> := SuppressedScopes + [Gateway, Narwhal, Router, Tcp]

  /** The directives the table prescribes: the suppressions, then one override per subsystem rule. */
  function TableDirectives(verbosity: Verbosity): seq<Directive> {
    seq(|SuppressedScopes|, i requires 0 <= i < |SuppressedScopes| => Directive(SuppressedScopes[i], Off)) +
    seq(|SubsystemRules|, i requires 0 <= i < |SubsystemRules| =>
      Directive(SubsystemRules[i].scope, RuleLevel(SubsystemRules[i], verbosity)))
  }

  /** Either filter the closure builds is the table's directive list over the `RUST_LOG` level. */
  lemma ClosureIsTable(index: nat, verbosity: Verbosity)
    ensures DirectiveClosure(index, verbosity) == Filter(GlobalLevel(verbosity), TableDirectives(verbosity))
  {
    var t := TableDirectives(verbosity);
    var g := RuleLevel(SubsystemRules[0], verbosity);
    var n := RuleLevel(SubsystemRules[1], verbosity);
    var r := RuleLevel(SubsystemRules[2], verbosity);
    var c := RuleLevel(SubsystemRules[3], verbosity);
    assert t == [
      Directive(Mio, Off), Directive(TokioUtil, Off), Directive(Hyper, Off),
      Directive(Reqwest, Off), Directive(Want, Off), Directive(Warp, Off),
      Directive(Gateway, g), Directive(Narwhal, n), Directive(Router, r), Directive(Tcp, c)
    ];
  }

  /** At every verbosity the filter names the same ten scopes in the same order, each exactly once. */
  lemma DirectiveShape(index: nat, verbosity: Verbosity)
    ensures Scopes(DirectiveClosure(index, verbosity).directives) == ScopeOrder
    ensures |ScopeOrder| == 10
    ensures Distinct(ScopeOrder)
  {
    ClosureIsTable(index, verbosity);
    var ds := TableDirectives(verbosity);
    assert Scopes(ds) == ScopeOrder;
  }

  /** The filters built at two verbosities differ only in their levels. */
  lemma SameScopesAtEveryVerbosity(v1: Verbosity, v2: Verbosity)
    ensures Scopes(DirectiveClosure(0, v1).directives) == Scopes(DirectiveClosure(0, v2).directives)
  {
    DirectiveShape(0, v1);
    DirectiveShape(0, v2);
  }

  /** The `RUST_LOG` level is info at 0, debug at 1 and trace from 2 on. */
  lemma GlobalLevelTable(verbosity: Verbosity)
    ensures GlobalLevel(verbosity) == Info <==> verbosity == 0
    ensures GlobalLevel(verbosity) == Debug <==> verbosity == 1
    ensures GlobalLevel(verbosity) == Trace <==> verbosity >= 2
  {
  }

  /** Every noisy third-party scope is off, whatever the verbosity. */
  lemma SuppressedAlwaysOff(index: nat, verbosity: Verbosity, scope: string)
    requires scope in SuppressedScopes
    ensures LevelFor(DirectiveClosure(index, verbosity), scope) == Off
  {
    var f := DirectiveClosure(index, verbosity);
    DirectiveShape(index, verbosity);
    ClosureIsTable(index, verbosity);
    var i :| 0 <= i < |SuppressedScopes| && SuppressedScopes[i] == scope;
    assert f.directives[i] == Directive(scope, Off);
    LookupDistinct(f.directives, i);
  }

  /** Each subsystem gets the level its rule prescribes. */
  lemma SubsystemFollowsRule(index: nat, verbosity: Verbosity, k: nat)
    requires k < |SubsystemRules|
    ensures LevelFor(DirectiveClosure(index, verbosity), SubsystemRules[k].scope) == RuleLevel(SubsystemRules[k], verbosity)
  {
    var f := DirectiveClosure(index, verbosity);
    DirectiveShape(index, verbosity);
    ClosureIsTable(index, verbosity);
    var i := |SuppressedScopes| + k;
    assert f.directives[i] == Directive(SubsystemRules[k].scope, RuleLevel(SubsystemRules[k], verbosity));
    LookupDistinct(f.directives, i);
  }

  /**
   The subsystem levels: the gateway and narwhal are traced past 3 and 4 and
   at debug below; the router and transport are traced past 5 and 6 and off below.
   */
  lemma SubsystemLevels(index: nat, verbosity: Verbosity)
    ensures LevelFor(DirectiveClosure(index, verbosity), Gateway) == (if verbosity > 3 then Trace else Debug)
    ensures LevelFor(DirectiveClosure(index, verbosity), Narwhal) == (if verbosity > 4 then Trace else Debug)
    ensures LevelFor(DirectiveClosure(index, verbosity), Router) == (if verbosity > 5 then Trace else Off)
    ensures LevelFor(DirectiveClosure(index, verbosity), Tcp) == (if verbosity > 6 then Trace else Off)
  {
    SubsystemFollowsRule(index, verbosity, 0);
    SubsystemFollowsRule(index, verbosity, 1);
    SubsystemFollowsRule(index, verbosity, 2);
    SubsystemFollowsRule(index, verbosity, 3);
  }

  /** A scope no directive names exactly falls back to the `RUST_LOG` level (exact-scope lookup, see `Lookup`). */
  lemma UnnamedScopeUsesGlobal(index: nat, verbosity: Verbosity, scope: string)
    requires scope !in ScopeOrder
    ensures LevelFor(DirectiveClosure(index, verbosity), scope) == GlobalLevel(verbosity)
  {
    DirectiveShape(index, verbosity);
    ClosureIsTable(index, verbosity);
  }

  /** A higher verbosity never makes the global level or any directive, hence any scope, less verbose. */
  lemma Monotone(v1: Verbosity, v2: Verbosity)
    requires v1 <= v2
    ensures AtMost(GlobalLevel(v1), GlobalLevel(v2))
    ensures forall i :: 0 <= i < |ScopeOrder| ==>
      AtMost(DirectiveClosure(0, v1).directives[i].level, DirectiveClosure(0, v2).directives[i].level)
    ensures forall scope :: AtMost(LevelFor(DirectiveClosure(0, v1), scope), LevelFor(DirectiveClosure(0, v2), scope))
  {
    var f1 := DirectiveClosure(0, v1);
    var f2 := DirectiveClosure(0, v2);
    ClosureIsTable(0, v1);
    ClosureIsTable(0, v2);
    DirectiveShape(0, v1);
    DirectiveShape(0, v2);
    assert forall i :: 0 <= i < |ScopeOrder| ==> AtMost(f1.directives[i].level, f2.directives[i].level);
    forall scope
      ensures AtMost(LevelFor(f1, scope), LevelFor(f2, scope))
    {
      LookupMonotone(f1.directives, f2.directives, scope);
    }
  }

  /** No scope the logger names is empty or contains `=`. */
  lemma ScopesValid()
    ensures forall i :: 0 <= i < |ScopeOrder| ==> ValidScope(ScopeOrder[i])
  {
    assert ValidScope(Mio) && ValidScope(TokioUtil) && ValidScope(Hyper);
    assert ValidScope(Reqwest) && ValidScope(Want) && ValidScope(Warp);
    assert ValidScope(Gateway) && ValidScope(Narwhal);
    assert ValidScope(Router) && ValidScope(Tcp);
  }

  /** Every directive text the closure writes parses back to the directive it stands for, so no `unwrap` fails. */
  lemma DirectiveTextsParse(index: nat, verbosity: Verbosity)
    ensures forall i :: 0 <= i < |DirectiveClosure(index, verbosity).directives| ==>
      var d := DirectiveClosure(index, verbosity).directives[i];
      ValidScope(d.scope) && ParseDirective(Format(d)) == Some(d)
  {
    var ds := DirectiveClosure(index, verbosity).directives;
    DirectiveShape(index, verbosity);
    ScopesValid();
    forall i | 0 <= i < |ds|
      ensures ValidScope(ds[i].scope) && ParseDirective(Format(ds[i])) == Some(ds[i])
    {
      assert ds[i].scope == Scopes(ds)[i] == ScopeOrder[i];
      FormatParse(ds[i]);
    }
  }

  /** Both sinks filter identically: the same default, the same directives, the same level for every scope. */
  lemma SinksFilterAlike(verbosity: Verbosity, nodisplay: bool, isTty: bool)
    ensures var s := Initialize(verbosity, nodisplay, isTty);
      && s.terminal.filter == Filter(GlobalLevel(verbosity), TableDirectives(verbosity))
      && forall scope :: LevelFor(s.terminal.filter, scope) == LevelFor(s.file.filter, scope)
  {
    ClosureIsTable(0, verbosity);
  }

  /**
   The doc comment above `initialize_logger` gives 3, 4, 5 and 6, the rule
   thresholds, as the verbosities at which the gateway, narwhal, the router
   and tcp are traced. The code does not trace a subsystem at its threshold;
   it traces it from one verbosity above.
   */
  lemma DocCommentOffByOne(index: nat, k: nat)
    requires k < |SubsystemRules|
    ensures SubsystemRules[k].threshold + 1 < 256
    ensures LevelFor(DirectiveClosure(index, SubsystemRules[k].threshold), SubsystemRules[k].scope) != Trace
    ensures LevelFor(DirectiveClosure(index, SubsystemRules[k].threshold + 1), SubsystemRules[k].scope) == Trace
  {
    var rule := SubsystemRules[k];
    assert rule.base != Trace && rule.threshold <= 6 by {
      if k == 0 { } else if k == 1 { } else if k == 2 { } else { }
    }
    SubsystemFollowsRule(index, rule.threshold, k);
    SubsystemFollowsRule(index, rule.threshold + 1, k);
  }
}
