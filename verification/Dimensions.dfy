/** What the conditions of rules and operations decide, dimension by dimension, in the terms of
    the configuration file and of the request. */
module Dimensions {
  import opened Wrappers
  import opened Text
  import opened NamedLists
  import opened ConfigFiles
  import opened Inference
  import opened Provider

  datatype Dimension = ByCaller | ByDownstream | ByOperation | ByMethod | ByHost | ByPath | ByClass

  /** What a condition lists for a dimension. */
  function Listed(c: Condition, d: Dimension): seq<string> {
    match d
    case ByCaller => c.callers
    case ByDownstream => c.downstreams
    case ByOperation => c.operations
    case ByMethod => c.methods
    case ByHost => c.hosts
    case ByPath => c.paths
    case ByClass => c.classes
  }

  /** The field of the scope the dimension is about. */
  function FieldOf(scope: Scope, d: Dimension): string {
    match d
    case ByCaller => scope.caller
    case ByDownstream => scope.downstream
    case ByOperation => scope.operation
    case ByMethod => scope.httpMethod
    case ByHost => scope.host
    case ByPath => scope.path
    case ByClass => scope.requestClass
  }

  predicate GlobAccepts(lib: Library, pattern: string, field: string) {
    lib.glob(Lower(pattern), Lower(field)) == Some(true)
  }

  /** Whether a listed value accepts a field: hosts and paths by glob, classes literally, and
      the rest up to case. */
  predicate Accepts(lib: Library, d: Dimension, value: string, field: string) {
    match d
    case ByHost => value == "*" || GlobAccepts(lib, value, field)
    case ByPath => GlobAccepts(lib, value, field)
    case ByClass => value == field
    case _ => EqualUpToCase(value, field)
  }

  /** Blank values do not count, except that a list of classes always constrains. */
  predicate Counts(d: Dimension, value: string) {
    d.ByClass? || Trim(value) != ""
  }

  ghost predicate Constrained(d: Dimension, values: seq<string>) {
    exists i :: 0 <= i < |values| && Counts(d, values[i])
  }

  ghost predicate Admitted(lib: Library, d: Dimension, values: seq<string>, field: string) {
    exists i :: 0 <= i < |values| && Counts(d, values[i]) && Accepts(lib, d, Trim(values[i]), field)
  }

  ghost predicate Constrains(c: Condition, d: Dimension) {
    Constrained(d, Listed(c, d))
  }

  ghost predicate Admits(lib: Library, c: Condition, d: Dimension, scope: Scope) {
    Admitted(lib, d, Listed(c, d), FieldOf(scope, d))
  }

  // ----- one dimension -----

  /** What compilation makes of a list. */
  function CompiledList(d: Dimension, values: seq<string>): seq<string> {
    if d.ByClass? then Trimmed(values) else Patterns(values)
  }

  /** How a compiled list is matched. */
  predicate Passes(lib: Library, d: Dimension, values: seq<string>, field: string) {
    match d
    case ByHost => MatchesHosts(lib, values, field)
    case ByPath => MatchesPaths(lib, values, field)
    case ByClass => values == [] || field in values
    case ByMethod => MatchesExactly(values, Upper(field))
    case _ => MatchesExactly(values, field)
  }

  lemma FieldAccepted(lib: Library, d: Dimension, value: string, field: string)
    ensures Accepts(lib, d, value, field) <==>
      match d
      case ByHost => MatchesHost(lib, value, field)
      case ByPath => GlobMatches(lib, value, field)
      case ByClass => value == field
      case ByMethod => EqualFold(value, Upper(field))
      case _ => EqualFold(value, field)
  {
    FoldExactly(value, field);
    FoldExactly(value, Upper(field));
    UpperKeepsFold(value, field);
    hide EqualFold, EqualUpToCase, Upper, Lower;
  }

  ghost predicate SomeAccepts(lib: Library, d: Dimension, values: seq<string>, field: string) {
    exists k :: 0 <= k < |values| && Accepts(lib, d, values[k], field)
  }

  lemma PassesWhenAccepted(lib: Library, d: Dimension, values: seq<string>, field: string)
    ensures Passes(lib, d, values, field) <==> values == [] || SomeAccepts(lib, d, values, field)
  {
    forall k | 0 <= k < |values|
      ensures Accepts(lib, d, values[k], field) <==>
        match d
        case ByHost => MatchesHost(lib, values[k], field)
        case ByPath => GlobMatches(lib, values[k], field)
        case ByClass => values[k] == field
        case ByMethod => EqualFold(values[k], Upper(field))
        case _ => EqualFold(values[k], field)
    {
      FieldAccepted(lib, d, values[k], field);
    }
    hide Accepts, MatchesHost, GlobMatches, EqualFold, Upper;
  }

  lemma CompiledMembers(d: Dimension, values: seq<string>, x: string)
    ensures x in CompiledList(d, values) <==>
      exists i :: 0 <= i < |values| && Counts(d, values[i]) && Trim(values[i]) == x
  {
    hide Trim, Patterns;
    if d.ByClass? {
      if x in Trimmed(values) {
        var i :| 0 <= i < |values| && Trimmed(values)[i] == x;
        assert Trim(values[i]) == x;
      }
      if i :| 0 <= i < |values| && Trim(values[i]) == x {
        assert Trimmed(values)[i] == x;
      }
    } else {
      PatternMembers(values);
    }
  }

  lemma CompiledEmpty(d: Dimension, values: seq<string>)
    ensures CompiledList(d, values) == [] <==> !Constrained(d, values)
  {
    var list := CompiledList(d, values);
    hide CompiledList, Counts, Trim;
    if list != [] {
      CompiledMembers(d, values, list[0]);
    }
    if Constrained(d, values) {
      var i :| 0 <= i < |values| && Counts(d, values[i]);
      CompiledMembers(d, values, Trim(values[i]));
    }
  }

  lemma CompiledAdmits(lib: Library, d: Dimension, values: seq<string>, field: string)
    ensures SomeAccepts(lib, d, CompiledList(d, values), field) <==> Admitted(lib, d, values, field)
  {
    var list := CompiledList(d, values);
    hide CompiledList, Counts, Trim, Accepts;
    if SomeAccepts(lib, d, list, field) {
      var k :| 0 <= k < |list| && Accepts(lib, d, list[k], field);
      CompiledMembers(d, values, list[k]);
    }
    if Admitted(lib, d, values, field) {
      var i :| 0 <= i < |values| && Counts(d, values[i]) && Accepts(lib, d, Trim(values[i]), field);
      CompiledMembers(d, values, Trim(values[i]));
      var k :| 0 <= k < |list| && list[k] == Trim(values[i]);
      assert Accepts(lib, d, list[k], field);
    }
  }

  lemma AdmittedConstrains(lib: Library, d: Dimension, values: seq<string>, field: string)
    ensures Admitted(lib, d, values, field) ==> Constrained(d, values)
  {
    hide Accepts, Counts;
  }

  /** The compiled list lets a field pass exactly when the list, if it constrains, admits it. */
  lemma PassesExactly(lib: Library, d: Dimension, values: seq<string>, field: string)
    ensures Passes(lib, d, CompiledList(d, values), field) <==>
      (Constrained(d, values) ==> Admitted(lib, d, values, field))
  {
    PassesWhenAccepted(lib, d, CompiledList(d, values), field);
    CompiledEmpty(d, values);
    CompiledAdmits(lib, d, values, field);
    AdmittedConstrains(lib, d, values, field);
    hide Passes, CompiledList, Constrained, Admitted, SomeAccepts;
  }

  // ----- rules -----

  lemma MatchesByDimension(lib: Library, c: Condition, scope: Scope)
    ensures MatchesScope(lib, Compiled(c), scope) <==>
      forall d :: Passes(lib, d, CompiledList(d, Listed(c, d)), FieldOf(scope, d))
  {
    hide MatchesExactly, MatchesHosts, MatchesPaths, Upper, Patterns, Trimmed;
    if forall d :: Passes(lib, d, CompiledList(d, Listed(c, d)), FieldOf(scope, d)) {
      assert Passes(lib, ByCaller, CompiledList(ByCaller, Listed(c, ByCaller)), FieldOf(scope, ByCaller));
      assert Passes(lib, ByDownstream, CompiledList(ByDownstream, Listed(c, ByDownstream)),
        FieldOf(scope, ByDownstream));
      assert Passes(lib, ByOperation, CompiledList(ByOperation, Listed(c, ByOperation)), FieldOf(scope, ByOperation));
      assert Passes(lib, ByMethod, CompiledList(ByMethod, Listed(c, ByMethod)), FieldOf(scope, ByMethod));
      assert Passes(lib, ByHost, CompiledList(ByHost, Listed(c, ByHost)), FieldOf(scope, ByHost));
      assert Passes(lib, ByPath, CompiledList(ByPath, Listed(c, ByPath)), FieldOf(scope, ByPath));
      assert Passes(lib, ByClass, CompiledList(ByClass, Listed(c, ByClass)), FieldOf(scope, ByClass));
    }
  }

  /** A rule applies exactly when it is enabled and in each dimension that it constrains one
      of the listed values accepts the scope's own field. */
  lemma RuleAppliesExactly(lib: Library, rule: Rule, scope: Scope)
    ensures RuleApplies(lib, rule, scope) <==>
      !rule.disabled && forall d :: Constrains(rule.condition, d) ==> Admits(lib, rule.condition, d, scope)
  {
    hide MatchesScope, Passes, Constrained, Admitted, Compiled, CompiledList, Listed, FieldOf;
    var c := rule.condition;
    MatchesByDimension(lib, c, scope);
    forall d
      ensures Passes(lib, d, CompiledList(d, Listed(c, d)), FieldOf(scope, d)) <==>
        (Constrains(c, d) ==> Admits(lib, c, d, scope))
    {
      PassesExactly(lib, d, Listed(c, d), FieldOf(scope, d));
    }
  }

  /** What a rule leaves open never changes whether it applies. */
  lemma OpenFieldsAreIgnored(lib: Library, rule: Rule, a: Scope, b: Scope)
    requires forall d :: Constrains(rule.condition, d) ==> FieldOf(a, d) == FieldOf(b, d)
    ensures RuleApplies(lib, rule, a) == RuleApplies(lib, rule, b)
  {
    RuleAppliesExactly(lib, rule, a);
    RuleAppliesExactly(lib, rule, b);
    hide RuleApplies, Constrains, FieldOf, Accepts, Trim;
  }

  /** The condition with one dimension left. */
  function Only(c: Condition, d: Dimension): Condition {
    var none := Condition([], [], [], [], [], [], []);
    match d
    case ByCaller => none.(callers := c.callers)
    case ByDownstream => none.(downstreams := c.downstreams)
    case ByOperation => none.(operations := c.operations)
    case ByMethod => none.(methods := c.methods)
    case ByHost => none.(hosts := c.hosts)
    case ByPath => none.(paths := c.paths)
    case ByClass => none.(classes := c.classes)
  }

  lemma OnlyLists(c: Condition, d: Dimension, e: Dimension)
    ensures Listed(Only(c, d), e) == if d == e then Listed(c, e) else []
  {
  }

  lemma NothingListed(d: Dimension)
    ensures !Constrained(d, [])
  {
  }

  /** A rule cut down to one dimension applies exactly when it is enabled and that dimension, if
      constrained, admits the scope. */
  lemma OneDimensionDecides(lib: Library, rule: Rule, d: Dimension, scope: Scope)
    ensures RuleApplies(lib, rule.(condition := Only(rule.condition, d)), scope) <==>
      !rule.disabled && (Constrains(rule.condition, d) ==> Admits(lib, rule.condition, d, scope))
  {
    hide RuleApplies, Only, Constrained, Admitted, FieldOf;
    var alone := rule.(condition := Only(rule.condition, d));
    RuleAppliesExactly(lib, alone, scope);
    forall e
      ensures Constrains(alone.condition, e) <==> d == e && Constrains(rule.condition, e)
    {
      OnlyLists(rule.condition, d, e);
      NothingListed(e);
    }
    OnlyLists(rule.condition, d, d);
    hide Listed;
    assert Admits(lib, alone.condition, d, scope) <==> Admits(lib, rule.condition, d, scope);
  }

  /** A rule that constrains several applies exactly when it would by each of them alone. */
  lemma DimensionsConjoin(lib: Library, rule: Rule, scope: Scope)
    ensures RuleApplies(lib, rule, scope) <==>
      forall d :: RuleApplies(lib, rule.(condition := Only(rule.condition, d)), scope)
  {
    hide RuleApplies, Constrains, Admits, Only;
    RuleAppliesExactly(lib, rule, scope);
    forall d
      ensures RuleApplies(lib, rule.(condition := Only(rule.condition, d)), scope) <==>
        !rule.disabled && (Constrains(rule.condition, d) ==> Admits(lib, rule.condition, d, scope))
    {
      OneDimensionDecides(lib, rule, d, scope);
    }
    assert RuleApplies(lib, rule.(condition := Only(rule.condition, ByCaller)), scope) ==> !rule.disabled;
  }

  // ----- specificity -----

  const ALL: seq<Dimension> := [ByCaller, ByDownstream, ByOperation, ByMethod, ByHost, ByPath, ByClass]

  ghost function ConstrainedIn(c: Condition, dims: seq<Dimension>): set<Dimension> {
    set d | d in dims && Constrains(c, d)
  }

  function Unit(empty: bool): nat {
    if empty then 0 else 1
  }

  function ConstrainedCount(c: Condition, dims: seq<Dimension>): nat {
    if dims == [] then 0
    else ConstrainedCount(c, dims[1..]) + Unit(CompiledList(dims[0], Listed(c, dims[0])) == [])
  }

  lemma ConstrainsListed(c: Condition, d: Dimension)
    ensures Constrains(c, d) <==> Constrained(d, Listed(c, d))
  {
  }

  lemma {:induction false} CountIsSize(c: Condition, dims: seq<Dimension>)
    requires forall i, j :: 0 <= i < j < |dims| ==> dims[i] != dims[j]
    ensures |ConstrainedIn(c, dims)| == ConstrainedCount(c, dims)
  {
    hide Constrains, CompiledList, Listed;
    if dims != [] {
      var d, rest := dims[0], dims[1..];
      CompiledEmpty(d, Listed(c, d));
      CountIsSize(c, rest);
      assert dims == [d] + rest && d !in rest;
      assert Constrains(c, d) <==> Constrained(d, Listed(c, d)) by {
        ConstrainsListed(c, d);
      }
      assert ConstrainedIn(c, dims) == ConstrainedIn(c, rest) + if Constrains(c, d) then {d} else {};
    }
  }

  lemma CountNext(c: Condition, d: Dimension, rest: seq<Dimension>)
    ensures ConstrainedCount(c, [d] + rest) == ConstrainedCount(c, rest) + Unit(CompiledList(d, Listed(c, d)) == [])
  {
    assert ([d] + rest)[1..] == rest;
    hide CompiledList, Listed;
  }

  lemma NoneConstrained(c: Condition)
    ensures ConstrainedCount(c, []) == 0
  {
  }

  lemma SpecificityOfLists(c: Condition)
    ensures Specificity(Compiled(c)) == ConstrainedCount(c, ALL)
  {
    hide Patterns, Trimmed, ConstrainedCount;
    var last := [ByHost, ByPath, ByClass];
    var later := [ByOperation, ByMethod] + last;
    assert ConstrainedCount(c, []) == 0 by {
      NoneConstrained(c);
    }
    assert [ByClass] + [] == [ByClass] && [ByPath] + [ByClass] == [ByPath, ByClass]
      && [ByHost] + [ByPath, ByClass] == last;
    assert [ByMethod] + last == [ByMethod] + last && [ByOperation] + ([ByMethod] + last) == later;
    assert [ByCaller] + ([ByDownstream] + later) == ALL;
    CountNext(c, ByClass, []);
    CountNext(c, ByPath, [ByClass]);
    CountNext(c, ByHost, [ByPath, ByClass]);
    CountNext(c, ByMethod, last);
    CountNext(c, ByOperation, [ByMethod] + last);
    CountNext(c, ByDownstream, later);
    CountNext(c, ByCaller, [ByDownstream] + later);
  }

  lemma InAll(d: Dimension)
    ensures d in ALL
  {
    match d
    case ByCaller => assert ALL[0] == d;
    case ByDownstream => assert ALL[1] == d;
    case ByOperation => assert ALL[2] == d;
    case ByMethod => assert ALL[3] == d;
    case ByHost => assert ALL[4] == d;
    case ByPath => assert ALL[5] == d;
    case ByClass => assert ALL[6] == d;
  }

  /** The specificity of a rule is the number of dimensions it constrains. */
  lemma SpecificityCounts(c: Condition)
    ensures Specificity(Compiled(c)) == |set d: Dimension | Constrains(c, d)|
  {
    hide Constrains, Compiled, ConstrainedCount, Specificity;
    CountIsSize(c, ALL);
    SpecificityOfLists(c);
    forall d: Dimension
      ensures d in ALL
    {
      InAll(d);
    }
    assert (set d: Dimension | Constrains(c, d)) == ConstrainedIn(c, ALL);
  }

  // ----- operations -----

  lemma FoldOfUpper(a: string, field: string)
    ensures EqualFold(Upper(a), field) <==> EqualFold(a, field)
  {
    assert Lower(Upper(a)) == Lower(a);
  }

  /** Matching is up to case, so that upper-casing the methods changes nothing. */
  lemma UpperedMatches(values: seq<string>, field: string)
    ensures MatchesExactly(Uppered(values), field) <==> MatchesExactly(values, field)
  {
    forall i | 0 <= i < |values|
      ensures EqualFold(Uppered(values)[i], field) <==> EqualFold(values[i], field)
    {
      FoldOfUpper(values[i], field);
    }
    hide EqualFold, Upper;
    assert |Uppered(values)| == |values|;
    if i :| 0 <= i < |values| && EqualFold(values[i], field) {
      assert EqualFold(Uppered(values)[i], field);
    }
  }

  /** An operation takes a request exactly when each of its lists that constrains admits the
      method, either form of the host, the path, or the downstream. */
  lemma OperationTakesExactly(lib: Library, o: Operation, httpMethod: string, url: Url, downstream: string)
    ensures OperationMatches(lib, CompileOperation(o), Upper(httpMethod), url, downstream) <==>
      && (Constrained(ByMethod, o.methods) ==> Admitted(lib, ByMethod, o.methods, httpMethod))
      && (Constrained(ByHost, o.hosts) ==>
            Admitted(lib, ByHost, o.hosts, url.hostname) || Admitted(lib, ByHost, o.hosts, url.host))
      && (Constrained(ByPath, o.paths) ==> Admitted(lib, ByPath, o.paths, url.path))
      && (Constrained(ByDownstream, o.downstreams) ==> Admitted(lib, ByDownstream, o.downstreams, downstream))
  {
    PassesExactly(lib, ByMethod, o.methods, httpMethod);
    PassesExactly(lib, ByHost, o.hosts, url.hostname);
    PassesExactly(lib, ByHost, o.hosts, url.host);
    PassesExactly(lib, ByPath, o.paths, url.path);
    PassesExactly(lib, ByDownstream, o.downstreams, downstream);
    UpperedMatches(Patterns(o.methods), Upper(httpMethod));
    hide Constrained, Admitted, MatchesExactly, MatchesHosts, MatchesPaths, Patterns, Upper, Uppered;
  }

  /** Its specificity is the number of its lists that constrain. */
  lemma OperationSpecificityCounts(o: Operation)
    ensures CompileOperation(o).specificity ==
      Unit(!Constrained(ByMethod, o.methods)) + Unit(!Constrained(ByHost, o.hosts))
      + Unit(!Constrained(ByPath, o.paths)) + Unit(!Constrained(ByDownstream, o.downstreams))
  {
    CompiledEmpty(ByMethod, o.methods);
    CompiledEmpty(ByHost, o.hosts);
    CompiledEmpty(ByPath, o.paths);
    CompiledEmpty(ByDownstream, o.downstreams);
    UpperedLength(Patterns(o.methods));
    hide Constrained, Patterns, Uppered;
  }
}
