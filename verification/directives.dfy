/**
 Filter directives as the logger hands them to the tracing library: a
 default level and an ordered list of (scope, level) pairs, each added by
 `add_directive` from a `scope=level` text.
 */
module Directives {
  import opened Levels

  datatype Directive = Directive(scope: string, level: Level)

  /** A filter: the default level taken from `RUST_LOG`, and the directives added to it, oldest first. */
  datatype Filter = Filter(default: Level, directives: seq<Directive>)

  /** The scopes of `ds`, in order. */
  function Scopes(ds: seq<Directive>): (r: seq<string>)
    ensures |r| == |ds|
    ensures forall i :: 0 <= i < |ds| ==> r[i] == ds[i].scope
  {
    seq(|ds|, i requires 0 <= i < |ds| => ds[i].scope)
  }

  /** Directive `i` is the last one in `ds` for `scope`. */
  predicate LastFor(ds: seq<Directive>, scope: string, i: int) {
    && 0 <= i < |ds|
    && ds[i].scope == scope
    && forall j :: i < j < |ds| ==> ds[j].scope != scope
  }

  /** The level the last directive for `scope` sets, if `ds` has one: a later directive overrides an earlier one. */
  function Lookup(ds: seq<Directive>, scope: string): (r: Option<Level>)
    ensures r.None? <==> scope !in Scopes(ds)
    ensures r.Some? ==> exists i :: LastFor(ds, scope, i) && ds[i].level == r.value
    decreases |ds|
  {
    if |ds| == 0 then None
    else
      var rest := Lookup(ds[1..], scope);
      assert Scopes(ds) == [ds[0].scope] + Scopes(ds[1..]);
      match rest
      case Some(l) =>
        var i :| LastFor(ds[1..], scope, i) && ds[1..][i].level == l;
        assert LastFor(ds, scope, i + 1);
        Some(l)
      case None =>
        if ds[0].scope == scope then
          assert LastFor(ds, scope, 0);
          Some(ds[0].level)
        else None
  }

  /** The level a filter applies to events of exactly `scope`: its last directive for that scope, else the default. */
  function LevelFor(f: Filter, scope: string): (l: Level)
    ensures scope !in Scopes(f.directives) ==> l == f.default
    ensures scope in Scopes(f.directives) ==> exists i :: LastFor(f.directives, scope, i) && f.directives[i].level == l
  {
    match Lookup(f.directives, scope)
    case Some(l) => l
    case None => f.default
  }

  /** Appending a directive makes it decide its own scope and leaves every other scope alone. */
  lemma {:induction false} LookupAppend(ds: seq<Directive>, d: Directive, scope: string)
    ensures Lookup(ds + [d], scope) == if d.scope == scope then Some(d.level) else Lookup(ds, scope)
    decreases |ds|
  {
    if |ds| == 0 {
      assert (ds + [d])[1..] == [];
    } else {
      assert (ds + [d])[1..] == ds[1..] + [d];
      LookupAppend(ds[1..], d, scope);
    }
  }

  /** `add_directive`: the directive joins the filter after those already added. */
  function AddDirective(f: Filter, d: Directive): Filter {
    Filter(f.default, f.directives + [d])
  }

  /** After `add_directive` the new directive is the last word on its scope, and no other exactly named scope changes. */
  lemma AddDirectiveOverrides(f: Filter, d: Directive)
    ensures AddDirective(f, d).default == f.default
    ensures Scopes(AddDirective(f, d).directives) == Scopes(f.directives) + [d.scope]
    ensures LevelFor(AddDirective(f, d), d.scope) == d.level
    ensures forall s :: s != d.scope ==> LevelFor(AddDirective(f, d), s) == LevelFor(f, s)
  {
    LookupAppend(f.directives, d, d.scope);
    forall s | s != d.scope
      ensures LevelFor(AddDirective(f, d), s) == LevelFor(f, s)
    {
      LookupAppend(f.directives, d, s);
    }
  }

  /** No scope occurs twice. */
  predicate Distinct(scopes: seq<string>) {
    forall i, j :: 0 <= i < j < |scopes| ==> scopes[i] != scopes[j]
  }

  /** When every scope occurs once, each directive is the one its scope's lookup finds. */
  lemma LookupDistinct(ds: seq<Directive>, i: int)
    requires Distinct(Scopes(ds))
    requires 0 <= i < |ds|
    ensures Lookup(ds, ds[i].scope) == Some(ds[i].level)
  {
    var scope := ds[i].scope;
    var ss := Scopes(ds);
    assert ss[i] == scope;
    var r := Lookup(ds, scope);
    var k :| LastFor(ds, scope, k) && ds[k].level == r.value;
    assert ss[k] == scope;
    assert k == i;
  }

  /**
   Two directive lists over the same scopes, the second at least as verbose
   at every position, give every scope a lookup at least as verbose.
   */
  lemma {:induction false} LookupMonotone(a: seq<Directive>, b: seq<Directive>, scope: string)
    requires Scopes(a) == Scopes(b)
    requires forall i :: 0 <= i < |a| ==> AtMost(a[i].level, b[i].level)
    ensures Lookup(a, scope).Some? <==> Lookup(b, scope).Some?
    ensures Lookup(a, scope).Some? ==> AtMost(Lookup(a, scope).value, Lookup(b, scope).value)
    decreases |a|
  {
    assert |a| == |Scopes(a)| == |b|;
    if |a| > 0 {
      assert Scopes(a[1..]) == Scopes(a)[1..];
      assert Scopes(b[1..]) == Scopes(b)[1..];
      assert Scopes(a)[0] == Scopes(b)[0];
      LookupMonotone(a[1..], b[1..], scope);
    }
  }

  /** The text a directive is written as: `scope=level`. */
  function Format(d: Directive): string {
    d.scope + "=" + Name(d.level)
  }

  /** A scope that can stand left of the `=` of a directive text. */
  predicate ValidScope(scope: string) {
    |scope| > 0 && '=' !in scope
  }

  /** The position of the first `c` in `s`, if any. */
  function IndexOf(s: string, c: char): (r: Option<nat>)
    ensures r.None? <==> c !in s
    ensures r.Some? ==> r.value < |s| && s[r.value] == c && c !in s[..r.value]
    decreases |s|
  {
    if |s| == 0 then None
    else if s[0] == c then Some(0)
    else
      match IndexOf(s[1..], c)
      case None => None
      case Some(k) =>
        assert s[..k + 1] == [s[0]] + s[1..][..k];
        Some(k + 1)
  }

  /** Reads a `scope=level` text, split at its first `=`; anything else is rejected. */
  function ParseDirective(t: string): (r: Option<Directive>)
    ensures r.Some? ==> ValidScope(r.value.scope) && Format(r.value) == t
  {
    match IndexOf(t, '=')
    case None => None
    case Some(k) =>
      if k == 0 then None
      else
        match ParseLevel(t[k + 1..])
        case None => None
        case Some(l) =>
          assert t == t[..k] + "=" + t[k + 1..];
          Some(Directive(t[..k], l))
  }

  /** Formatting then parsing gives the directive back, for every valid scope. */
  lemma FormatParse(d: Directive)
    requires ValidScope(d.scope)
    ensures ParseDirective(Format(d)) == Some(d)
  {
    var t := Format(d);
    var k := |d.scope|;
    assert t[..k] == d.scope;
    assert t[k] == '=';
    assert t[k + 1..] == Name(d.level);
    ParseName(d.level);
  }
}
