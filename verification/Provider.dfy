/** The managed configuration provider: what a request resolves to, the provider object, and
    what layering means for the requests it serves. */
module Provider {
  import opened Wrappers
  import opened Text
  import opened Budget
  import opened Policy
  import opened Patches
  import opened NamedLists
  import opened Ranking
  import opened ConfigFiles
  import opened Inference

  datatype Scope = Scope(
    caller: string, downstream: string, operation: string,
    httpMethod: string, host: string, path: string, requestClass: string)

  /** The part of a request the provider looks at; blank fields of the context's scope and a
      blank explicit class mean unset. */
  datatype Query = Query(httpMethod: string, url: Option<Url>, explicitClass: string, contextScope: Option<Scope>)

  // ----- rules -----

  /** match, for a compiled condition. */
  predicate MatchesScope(lib: Library, c: Condition, scope: Scope) {
    && MatchesExactly(c.callers, scope.caller)
    && MatchesExactly(c.downstreams, scope.downstream)
    && MatchesExactly(c.operations, scope.operation)
    && MatchesExactly(c.methods, Upper(scope.httpMethod))
    && MatchesHosts(lib, c.hosts, scope.host)
    && MatchesPaths(lib, c.paths, scope.path)
    && (c.classes == [] || scope.requestClass in c.classes)
  }

  function RuleMatcher(lib: Library, scope: Scope): CompiledRule -> bool {
    (r: CompiledRule) => MatchesScope(lib, r.condition, scope)
  }

  function ClassPolicy(patches: map<string, Patch>, requestClass: string, p: RetryPolicy): RetryPolicy {
    if requestClass in patches then Apply(patches[requestClass], p) else p
  }

  /** resolveRetryPolicy. */
  function PolicyFor(lib: Library, patches: map<string, Patch>, rules: seq<CompiledRule>, scope: Scope,
      base: RetryPolicy): RetryPolicy
  {
    var p := ClassPolicy(patches, scope.requestClass, base);
    var rule := FirstMatch(rules, RuleMatcher(lib, scope));
    if rule.Some? then Apply(rule.value.patch, p) else p
  }

  // ----- scopes -----

  predicate IsReadMethod(httpMethod: string) {
    httpMethod == "GET" || httpMethod == "HEAD" || httpMethod == "OPTIONS" || httpMethod == "TRACE"
  }

  /** resolveRequestClass; no answer without a URL. */
  function ClassOfRequest(lib: Library, internalHosts: seq<string>, q: Query): Option<string> {
    if q.url.None? then None
    else if
      && internalHosts != []
      && (MatchesHosts(lib, internalHosts, q.url.value.hostname) || MatchesHosts(lib, internalHosts, q.url.value.host))
    then Some(if IsReadMethod(q.httpMethod) then INTERNAL_READ else INTERNAL_WRITE)
    else Some(if IsReadMethod(q.httpMethod) then EXTERNAL_READ else EXTERNAL_WRITE)
  }

  /** explicitRequestClassFromContext. */
  function ExplicitClass(q: Query): Option<string> {
    if q.explicitClass != "" then Some(q.explicitClass)
    else if q.contextScope.Some? && q.contextScope.value.requestClass != "" then Some(q.contextScope.value.requestClass)
    else None
  }

  function ClassFor(lib: Library, internalHosts: seq<string>, q: Query): string {
    if ExplicitClass(q).Some? then ExplicitClass(q).value
    else if ClassOfRequest(lib, internalHosts, q).Some? then ClassOfRequest(lib, internalHosts, q).value
    else if IsReadMethod(q.httpMethod) then INTERNAL_READ
    else INTERNAL_WRITE
  }

  /** retryConfigScopeFromRequest. */
  function ScopeFromRequest(q: Query, requestClass: string): Scope {
    var host, path := if q.url.Some? then q.url.value.host else "", if q.url.Some? then q.url.value.path else "";
    var scope := Scope("", "", "", Upper(q.httpMethod), host, path, requestClass);
    if q.contextScope.None? then scope
    else
      var c := q.contextScope.value;
      Scope(c.caller, c.downstream, c.operation,
            if c.httpMethod != "" then Upper(c.httpMethod) else scope.httpMethod,
            OrText(c.host, host), OrText(c.path, path), OrText(c.requestClass, requestClass))
  }

  /** resolveRetryConfigScope: missing values are filled in. */
  function FillScope(lib: Library, downstreams: seq<CompiledDownstream>, operations: seq<CompiledOperation>,
      caller: string, q: Query, scope: Scope): Scope
  {
    var named := scope.(caller := OrText(scope.caller, caller),
                        downstream := OrText(scope.downstream, DownstreamName(lib, downstreams, q.url)));
    named.(operation := OrText(scope.operation, OperationName(lib, operations, q.httpMethod, q.url, named.downstream)))
  }

  const BLANK := Scope("", "", "", "", "", "", "")

  /** What the caller put into the context decides; only what it left blank is taken from the
      request or inferred, and the operation is inferred for the downstream settled on. */
  predicate ScopeRight(q: Query, caller: string, requestClass: string, downstream: string, operation: string,
      s: Scope) {
    var c := if q.contextScope.Some? then q.contextScope.value else BLANK;
    && s.caller == (if c.caller != "" then c.caller else caller)
    && s.downstream == (if c.downstream != "" then c.downstream else downstream)
    && s.operation == (if c.operation != "" then c.operation else operation)
    && s.httpMethod == Upper(if c.httpMethod != "" then c.httpMethod else q.httpMethod)
    && s.host == (if c.host != "" then c.host else if q.url.Some? then q.url.value.host else "")
    && s.path == (if c.path != "" then c.path else if q.url.Some? then q.url.value.path else "")
    && s.requestClass == (if c.requestClass != "" then c.requestClass else requestClass)
  }

  lemma ScopeExactly(lib: Library, downstreams: seq<CompiledDownstream>, operations: seq<CompiledOperation>,
      caller: string, q: Query, requestClass: string)
    ensures
      var s := FillScope(lib, downstreams, operations, caller, q, ScopeFromRequest(q, requestClass));
      ScopeRight(q, caller, requestClass, DownstreamName(lib, downstreams, q.url),
                 OperationName(lib, operations, q.httpMethod, q.url, s.downstream), s)
  {
    hide DownstreamName, OperationName, Upper;
  }

  // ----- the provider -----

  class ManagedRetryConfigProvider {
    var classPatches: map<string, Patch>
    var rules: seq<CompiledRule>
    var internalHosts: seq<string>
    var downstreams: seq<CompiledDownstream>
    var operations: seq<CompiledOperation>
    var retryBudget: Config

    constructor ()
      ensures Serves() == CompiledFile(map[], [], [], [], []) && retryBudget == DISABLED
    {
      classPatches, rules, internalHosts, downstreams, operations, retryBudget := map[], [], [], [], [], DISABLED;
    }

    /** The configuration being served. */
    function Serves(): CompiledFile
      reads this
    {
      CompiledFile(classPatches, rules, internalHosts, downstreams, operations)
    }

    /** Update: the whole configuration is replaced, or none of it. */
    method Update(lib: Library, file: ConfigFile) returns (error: Option<ConfigError>)
      modifies this
      ensures error.None? <==> ValidLayer(lib, file) && ToConfig(file.retryBudget).Ok?
      ensures error.None? ==> Serves() == CompileOf(lib, file) && retryBudget == ToConfig(file.retryBudget).value
      ensures error.Some? ==> Serves() == old(Serves()) && retryBudget == old(retryBudget)
    {
      hide ValidFile, CompileOf, ToConfig, LayerError;
      var layer := LayerError(file.retryBudget);
      if layer.Some? {
        return Some(BadBudget(layer.value));
      }
      var budget := ToConfig(file.retryBudget);
      if budget.Err? {
        return Some(BadBudget(budget.error));
      }
      var compiled := CompileFile(lib, file);
      if compiled.Err? {
        return Some(compiled.error);
      }
      classPatches := compiled.value.classPatches;
      rules := compiled.value.rules;
      internalHosts := compiled.value.internalHosts;
      downstreams := compiled.value.downstreams;
      operations := compiled.value.operations;
      retryBudget := budget.value;
      return None;
    }

    /** updateFromStore: it fails only if loading does; a loaded file is never rejected. */
    method UpdateFromStore(lib: Library, layers: seq<Layer>) returns (error: Option<ConfigError>)
      modifies this
      ensures error.None? <==>
        && (forall i :: 0 <= i < |layers| ==> LayerOk(lib, layers[i]))
        && ToConfig(MergedFile(layers).retryBudget).Ok?
      ensures error.None? ==>
        Serves() == CompileOf(lib, MergedFile(layers)) && retryBudget == ToConfig(MergedFile(layers).retryBudget).value
      ensures error.Some? ==> Serves() == old(Serves()) && retryBudget == old(retryBudget)
    {
      hide ValidLayer, CompileOf, ToConfig, LayerOk, MergedFile;
      var file := LoadConfigFile(lib, layers);
      if file.Err? {
        return Some(file.error);
      }
      error := Update(lib, file.value);
      MergedFileIsValid(lib, layers);
      assert error.None?;
    }

    /** resolveRetryPolicy. */
    method ResolveRetryPolicy(lib: Library, scope: Scope, base: RetryPolicy) returns (policy: RetryPolicy)
      ensures policy == PolicyFor(lib, classPatches, rules, scope, base)
    {
      hide MatchesScope, Apply;
      policy := base;
      if scope.requestClass in classPatches {
        policy := Apply(classPatches[scope.requestClass], policy);
      }
      ghost var classed := policy;
      var i := 0;
      while i < |rules|
        invariant 0 <= i <= |rules|
        invariant policy == classed
        invariant FirstMatch(rules, RuleMatcher(lib, scope)) == FirstMatch(rules[i..], RuleMatcher(lib, scope))
      {
        if MatchesScope(lib, rules[i].condition, scope) {
          return Apply(rules[i].patch, policy);
        }
        assert rules[i..][1..] == rules[i + 1..];
        i := i + 1;
      }
    }

    /** resolveRetryConfigScope. */
    method ResolveScope(lib: Library, caller: string, q: Query, scope: Scope) returns (filled: Scope)
      ensures filled == FillScope(lib, downstreams, operations, caller, q, scope)
    {
      hide DownstreamName, OperationName;
      filled := scope;
      if filled.caller == "" {
        filled := filled.(caller := caller);
      }
      if filled.downstream == "" {
        var name := InferDownstream(lib, downstreams, q.url);
        filled := filled.(downstream := name);
      }
      if filled.operation == "" {
        var name := InferOperation(lib, operations, q.httpMethod, q.url, filled.downstream);
        filled := filled.(operation := name);
      }
    }

    /** resolveRequestConfig: scope, policy and budget, all from one configuration. */
    method ResolveRequest(lib: Library, caller: string, q: Query, base: RetryPolicy)
      returns (scope: Scope, policy: RetryPolicy, budget: Config)
      ensures scope ==
        FillScope(lib, downstreams, operations, caller, q, ScopeFromRequest(q, ClassFor(lib, internalHosts, q)))
      ensures
        ScopeRight(q, caller, ClassFor(lib, internalHosts, q), DownstreamName(lib, downstreams, q.url),
                   OperationName(lib, operations, q.httpMethod, q.url, scope.downstream), scope)
      ensures policy == PolicyFor(lib, classPatches, rules, scope, base)
      ensures budget == retryBudget
    {
      hide ScopeRight, FillScope, ScopeFromRequest, ClassFor;
      ScopeExactly(lib, downstreams, operations, caller, q, ClassFor(lib, internalHosts, q));
      scope := ResolveScope(lib, caller, q, ScopeFromRequest(q, ClassFor(lib, internalHosts, q)));
      policy := ResolveRetryPolicy(lib, scope, base);
      budget := retryBudget;
    }
  }

  // ----- which rule decides -----

  predicate RuleApplies(lib: Library, r: Rule, scope: Scope) {
    !r.disabled && MatchesScope(lib, Compiled(r.condition), scope)
  }

  function RankOf(r: Rule): Rank {
    Rank(r.priority, Specificity(Compiled(r.condition)))
  }

  function FileMatcher(lib: Library, scope: Scope): Rule -> bool {
    (r: Rule) => RuleApplies(lib, r, scope)
  }

  /** The rule at `i` applies, and of all that apply it has the highest priority, then the
      most constrained condition, then the earliest place. */
  predicate Decides(lib: Library, rules: seq<Rule>, scope: Scope, i: int) {
    IsBest(rules, RankOf, FileMatcher(lib, scope), i)
  }

  /** The places of the enabled rules. */
  function Enabled(rules: seq<Rule>): (places: seq<nat>)
    ensures forall k :: 0 <= k < |places| ==> places[k] < |rules| && !rules[places[k]].disabled
    ensures forall k, l :: 0 <= k < l < |places| ==> places[k] < places[l]
    ensures forall i :: 0 <= i < |rules| && !rules[i].disabled ==> i in places
  {
    if rules == [] then []
    else
      var n := |rules| - 1;
      Enabled(rules[..n]) + if rules[n].disabled then [] else [n]
  }

  lemma {:induction false} RulesAtPlaces(lib: Library, rules: seq<Rule>)
    ensures |RulesOf(lib, rules)| == |Enabled(rules)|
    ensures forall k :: 0 <= k < |Enabled(rules)| ==>
      RulesOf(lib, rules)[k] == CompileRule(lib, rules[Enabled(rules)[k]], Enabled(rules)[k])
  {
    hide CompileRule;
    if rules != [] {
      RulesAtPlaces(lib, rules[..|rules| - 1]);
    }
  }

  /** Compilation drops the disabled rules but changes nothing about which one is best. */
  lemma BestDecides(lib: Library, rules: seq<Rule>, scope: Scope, k: int)
    requires IsBest(RulesOf(lib, rules), RuleRank, RuleMatcher(lib, scope), k)
    ensures k < |Enabled(rules)| && Decides(lib, rules, scope, Enabled(rules)[k])
    ensures RulesOf(lib, rules)[k].patch == PatchOf(lib.parse, rules[Enabled(rules)[k]].policy)
  {
    hide MatchesScope, Compiled, Specificity, RulesOf, Enabled, PatchOf;
    var compiled, places, matches := RulesOf(lib, rules), Enabled(rules), RuleMatcher(lib, scope);
    RulesAtPlaces(lib, rules);
    var i := places[k];
    forall j | 0 <= j < |rules| && j != i && RuleApplies(lib, rules[j], scope)
      ensures Outranks(RankOf(rules[i]), RankOf(rules[j])) || (!Outranks(RankOf(rules[j]), RankOf(rules[i])) && i < j)
    {
      assert j in places;
      var l :| 0 <= l < |places| && places[l] == j;
      assert matches(compiled[l]);
    }
  }

  /** Whether some rule applies is unchanged by compilation too. */
  lemma SomeRuleApplies(lib: Library, rules: seq<Rule>, scope: Scope)
    ensures SomeMatch(RulesOf(lib, rules), RuleMatcher(lib, scope)) <==>
      exists i :: 0 <= i < |rules| && RuleApplies(lib, rules[i], scope)
  {
    hide MatchesScope, Compiled, Specificity, RulesOf, Enabled, PatchOf;
    var compiled, places, matches := RulesOf(lib, rules), Enabled(rules), RuleMatcher(lib, scope);
    RulesAtPlaces(lib, rules);
    if i :| 0 <= i < |rules| && RuleApplies(lib, rules[i], scope) {
      assert i in places;
      var l :| 0 <= l < |places| && places[l] == i;
      assert matches(compiled[l]);
    }
    if k :| 0 <= k < |compiled| && matches(compiled[k]) {
      assert RuleApplies(lib, rules[places[k]], scope);
    }
  }

  /** What a policy becomes under a rule list: the deciding rule's patch, if there is one. */
  ghost predicate RuledPolicy(lib: Library, rules: seq<Rule>, scope: Scope, before: RetryPolicy, after: RetryPolicy) {
    if exists i :: 0 <= i < |rules| && RuleApplies(lib, rules[i], scope)
    then exists i :: Decides(lib, rules, scope, i) && after == Apply(PatchOf(lib.parse, rules[i].policy), before)
    else after == before
  }

  /** Sorting and scanning the compiled rules applies exactly the deciding rule. */
  lemma ScanAppliesDecidingRule(lib: Library, patches: map<string, Patch>, rules: seq<Rule>, scope: Scope,
      base: RetryPolicy)
    ensures
      var sorted := StableSort(RulesOf(lib, rules), RuleRank);
      RuledPolicy(lib, rules, scope, ClassPolicy(patches, scope.requestClass, base),
        PolicyFor(lib, patches, sorted, scope, base))
  {
    var compiled, matches := RulesOf(lib, rules), RuleMatcher(lib, scope);
    ScanPicksBest(compiled, RuleRank, matches);
    SomeRuleApplies(lib, rules, scope);
    hide MatchesScope, RulesOf, Enabled, PatchOf, Apply, StableSort, FirstMatch, SomeMatch, RuleApplies,
      ClassPolicy, RuleMatcher;
    var found := FirstMatch(StableSort(compiled, RuleRank), matches);
    if found.Some? {
      var k :| IsBest(compiled, RuleRank, matches, k) && compiled[k] == found.value;
      BestDecides(lib, rules, scope, k);
    }
  }

  // ----- two layers -----

  function ClassFile(p: ClassPolicies, requestClass: string): Option<PatchFile> {
    if requestClass == INTERNAL_READ then p.internalRead
    else if requestClass == INTERNAL_WRITE then p.internalWrite
    else if requestClass == EXTERNAL_READ then p.externalRead
    else if requestClass == EXTERNAL_WRITE then p.externalWrite
    else None
  }

  lemma ClassPolicyOfFile(lib: Library, p: ClassPolicies, requestClass: string, base: RetryPolicy)
    ensures ClassPolicy(PatchesOf(lib, p), requestClass, base) == ApplyFile(lib.parse, ClassFile(p, requestClass), base)
  {
    hide Apply, PatchOf;
  }

  /** The service's items, then the application's that it does not name. */
  function Layered<T>(app: seq<T>, service: seq<T>, key: T -> string): seq<T> {
    service + Unshadowed(app, key, Keys(service, key))
  }

  function LayeredRules(app: seq<Rule>, service: seq<Rule>): seq<Rule> {
    Layered(app, service, RuleKey)
  }

  /** Loading an application layer and a service layer. */
  function TwoLayers(app: ConfigFile, service: ConfigFile): ConfigFile {
    MergedFile([Decoded(app), Decoded(service)])
  }

  lemma TwoLayersUnfold(app: ConfigFile, service: ConfigFile)
    ensures TwoLayers(app, service) == MergeConfig(MergeConfig(EMPTY, app), service)
  {
    var layers := [Decoded(app), Decoded(service)];
    assert layers[..1] == [Decoded(app)] && layers[..1][..0] == [];
    hide MergeConfig;
    assert MergedFile(layers[..1]) == MergeConfig(EMPTY, app);
  }

  /** Merging into nothing leaves the version and the patterns trimmed, and all else alone. */
  lemma FirstLayer(lib: Library, app: ConfigFile)
    requires ValidLayer(lib, app)
    ensures
      var first := MergeConfig(EMPTY, app);
      && first.rules == app.rules && first.downstreams == app.downstreams && first.operations == app.operations
      && first.policies == app.policies && first.retryBudget == app.retryBudget && first.version == Trim(app.version)
      && forall p :: p in Patterns(first.internalHosts) <==> p in Patterns(app.internalHosts)
  {
    assert app.rules + [] == app.rules && app.downstreams + [] == app.downstreams
      && app.operations + [] == app.operations;
    DistinctIsKept(app.rules, RuleKey);
    DistinctIsKept(app.downstreams, DownstreamKey);
    DistinctIsKept(app.operations, OperationKey);
    MergedStringsUnite([], app.internalHosts);
    assert Patterns([]) == [];
    TrimOfTrimmed("");
    hide FirstPerKey, DistinctNames, MergedStrings, Trim, Patterns;
  }

  lemma VersionOfTwo(app: string, service: string)
    ensures FirstNonBlank(service, Trim(app)) == OrText(Trim(service), Trim(app))
  {
    TrimIdempotent(app);
    hide Trim;
  }

  lemma NamesAreDistinct(lib: Library, f: ConfigFile)
    requires ValidLayer(lib, f)
    ensures DistinctNames(f.rules, RuleKey) && DistinctNames(f.downstreams, DownstreamKey)
      && DistinctNames(f.operations, OperationKey)
  {
    hide DistinctNames, Patterns, LayerError, ValidVersion, ValidPolicies;
  }

  /** What two valid layers merge to, section by section. */
  lemma TwoLayersMerge(lib: Library, app: ConfigFile, service: ConfigFile)
    requires ValidLayer(lib, app) && ValidLayer(lib, service)
    ensures
      var merged := TwoLayers(app, service);
      && merged.version == OrText(Trim(service.version), Trim(app.version))
      && merged.retryBudget == MergeFiles(app.retryBudget, service.retryBudget)
      && (forall p :: p in Patterns(merged.internalHosts) <==>
            p in Patterns(app.internalHosts) || p in Patterns(service.internalHosts))
      && merged.downstreams == Layered(app.downstreams, service.downstreams, DownstreamKey)
      && merged.operations == Layered(app.operations, service.operations, OperationKey)
      && merged.policies == MergePolicies(app.policies, service.policies)
      && merged.rules == LayeredRules(app.rules, service.rules)
  {
    NamesAreDistinct(lib, app);
    NamesAreDistinct(lib, service);
    TwoLayersUnfold(app, service);
    FirstLayer(lib, app);
    hide ValidLayer, FirstPerKey, DistinctNames, Unshadowed, Keys, MergeFiles, MergePolicies, MergedStrings, Trim,
      Patterns, TwoLayers;
    MergedStringsUnite(MergeConfig(EMPTY, app).internalHosts, service.internalHosts);
    MergedLayers(service.rules, app.rules, RuleKey);
    MergedLayers(service.downstreams, app.downstreams, DownstreamKey);
    MergedLayers(service.operations, app.operations, OperationKey);
    VersionOfTwo(app.version, service.version);
    hide FirstNonBlank, OrText;
  }

  /** The policy of a request under two layers: the class policies of the two, merged, and the
      deciding rule. The merge is the application's policy and then the service's, but for
      the one exception. */
  ghost predicate LayeredPolicy(
    lib: Library, app: ConfigFile, service: ConfigFile, scope: Scope, base: RetryPolicy, policy: RetryPolicy)
  {
    var a, s := ClassFile(app.policies, scope.requestClass), ClassFile(service.policies, scope.requestClass);
    var classed := ApplyFile(lib.parse, MergePatches(a, s), base);
    && RuledPolicy(lib, LayeredRules(app.rules, service.rules), scope, classed, policy)
    && (classed == ApplyFile(lib.parse, s, ApplyFile(lib.parse, a, base)) <==>
          !(Reenables(a, s) && base.maxRetries > 0))
  }

  lemma NoPatch(lib: Library)
    ensures ValidOptional(lib.parse, None) && MergePatches(None, None) == None
  {
  }

  lemma ClassFileIsValid(lib: Library, f: ConfigFile, requestClass: string)
    requires ValidLayer(lib, f)
    ensures ValidOptional(lib.parse, ClassFile(f.policies, requestClass))
  {
    NoPatch(lib);
    hide ValidGlobs, ValidDownstreams, ValidOperations, ValidRules, ValidOptional, LayerError, ValidVersion,
      Patterns;
  }

  lemma ClassFileOfMerge(lib: Library, app: ConfigFile, service: ConfigFile, requestClass: string)
    requires ValidLayer(lib, app) && ValidLayer(lib, service)
    ensures ClassFile(MergePolicies(app.policies, service.policies), requestClass) ==
      MergePatches(ClassFile(app.policies, requestClass), ClassFile(service.policies, requestClass))
    ensures ValidOptional(lib.parse, ClassFile(app.policies, requestClass))
      && ValidOptional(lib.parse, ClassFile(service.policies, requestClass))
  {
    ClassFileIsValid(lib, app, requestClass);
    ClassFileIsValid(lib, service, requestClass);
    NoPatch(lib);
    hide ValidLayer, ValidOptional, MergePatches;
  }

  lemma CompiledParts(lib: Library, f: ConfigFile)
    ensures CompileOf(lib, f).classPatches == PatchesOf(lib, f.policies)
    ensures CompileOf(lib, f).rules == StableSort(RulesOf(lib, f.rules), RuleRank)
  {
    hide PatchesOf, RulesOf, StableSort, Patterns;
  }

  /** Merging two valid layers and resolving is: the application's class policy, then the
      service's, then the deciding rule among the service's rules and the application's that
      the service does not name, a disabled rule naming as well as an enabled one. The one
      exception is a service that re-enables what the application disables for the class. */
  lemma LayeredResolution(lib: Library, app: ConfigFile, service: ConfigFile, scope: Scope, base: RetryPolicy)
    requires ValidLayer(lib, app) && ValidLayer(lib, service)
    ensures
      var compiled := CompileOf(lib, TwoLayers(app, service));
      LayeredPolicy(lib, app, service, scope, base, PolicyFor(lib, compiled.classPatches, compiled.rules, scope, base))
  {
    var merged := TwoLayers(app, service);
    var a, s := ClassFile(app.policies, scope.requestClass), ClassFile(service.policies, scope.requestClass);
    TwoLayersMerge(lib, app, service);
    ClassFileOfMerge(lib, app, service, scope.requestClass);
    CompiledParts(lib, merged);
    hide TwoLayers, MergePolicies, ClassFile, MergePatches, ApplyFile, RuledPolicy, LayeredRules, PolicyFor,
      Reenables, ClassPolicy, PatchesOf, RulesOf, StableSort, ValidOptional, ValidLayer, CompileOf;
    ClassPolicyOfFile(lib, merged.policies, scope.requestClass, base);
    ScanAppliesDecidingRule(lib, PatchesOf(lib, merged.policies), merged.rules, scope, base);
    MergeIsSequence(lib.parse, a, s, base);
  }

  /** An application rule whose name the service uses, even on a disabled rule, never
      decides; and where it is not outranked the service's rule does. */
  lemma ServiceRulesPrevail(lib: Library, app: seq<Rule>, service: seq<Rule>, scope: Scope, i: int)
    requires Decides(lib, LayeredRules(app, service), scope, i)
    ensures
      var rule := LayeredRules(app, service)[i];
      || (i < |service| && rule == service[i])
      || (&& i >= |service| && rule in app
          && (RuleKey(rule) != "" ==> RuleKey(rule) !in Keys(service, RuleKey))
          && (forall j :: 0 <= j < |service| && RuleApplies(lib, service[j], scope) ==>
                Outranks(RankOf(rule), RankOf(service[j]))))
  {
    hide MatchesScope, RankOf, RuleKey;
    var rules, unshadowed := LayeredRules(app, service), Unshadowed(app, RuleKey, Keys(service, RuleKey));
    UnshadowedMembers(app, RuleKey, Keys(service, RuleKey));
    if i >= |service| {
      assert rules[i] == unshadowed[i - |service|];
      assert forall j :: 0 <= j < |service| ==> rules[j] == service[j];
    }
  }

  // ----- from two layers to a request -----

  /** A pattern of either layer matches the host. */
  predicate InternalHost(lib: Library, app: ConfigFile, service: ConfigFile, host: string) {
    exists p :: p in Patterns(app.internalHosts) + Patterns(service.internalHosts) && MatchesHost(lib, p, host)
  }

  /** The class of a request under two layers: the context's, or read or write by the method
      and internal or external by the hosts of both layers. */
  function LayeredClass(lib: Library, app: ConfigFile, service: ConfigFile, q: Query): string {
    var scoped := if q.contextScope.Some? then q.contextScope.value.requestClass else "";
    var read := q.httpMethod in {"GET", "HEAD", "OPTIONS", "TRACE"};
    if q.explicitClass != "" then q.explicitClass
    else if scoped != "" then scoped
    else if
      || q.url.None?
      || InternalHost(lib, app, service, q.url.value.hostname)
      || InternalHost(lib, app, service, q.url.value.host)
    then if read then "internal_read" else "internal_write"
    else if read then "external_read" else "external_write"
  }

  lemma HostsOfBothLayers(lib: Library, app: ConfigFile, service: ConfigFile, patterns: seq<string>, host: string)
    requires forall p :: p in patterns <==> p in Patterns(app.internalHosts) || p in Patterns(service.internalHosts)
    ensures patterns != [] && MatchesHosts(lib, patterns, host) <==> InternalHost(lib, app, service, host)
  {
    hide MatchesHost, Patterns;
    var both := Patterns(app.internalHosts) + Patterns(service.internalHosts);
    if p :| p in both && MatchesHost(lib, p, host) {
      assert p in patterns;
      var i :| 0 <= i < |patterns| && patterns[i] == p;
    }
    if i :| 0 <= i < |patterns| && MatchesHost(lib, patterns[i], host) {
      assert patterns[i] in both;
    }
  }

  lemma ClassOfBothLayers(lib: Library, app: ConfigFile, service: ConfigFile, patterns: seq<string>, q: Query)
    requires forall p :: p in patterns <==> p in Patterns(app.internalHosts) || p in Patterns(service.internalHosts)
    ensures ClassFor(lib, patterns, q) == LayeredClass(lib, app, service, q)
  {
    if q.url.Some? {
      HostsOfBothLayers(lib, app, service, patterns, q.url.value.hostname);
      HostsOfBothLayers(lib, app, service, patterns, q.url.value.host);
    }
    hide MatchesHosts, InternalHost, Patterns;
  }

  /** The scope of a request under two layers, class and names inferred from both. */
  function LayeredScope(lib: Library, app: ConfigFile, service: ConfigFile, caller: string, q: Query): Scope {
    FillScope(lib,
              DownstreamsOf(Layered(app.downstreams, service.downstreams, DownstreamKey)),
              StableSort(OperationsOf(Layered(app.operations, service.operations, OperationKey)), OperationRank),
              caller, q, ScopeFromRequest(q, LayeredClass(lib, app, service, q)))
  }

  /** That is: what the context says, or what the request says, or what both layers infer. */
  predicate ScopeOfLayers(lib: Library, app: ConfigFile, service: ConfigFile, caller: string, q: Query, scope: Scope) {
    ScopeRight(
      q, caller, LayeredClass(lib, app, service, q),
      DownstreamName(lib, DownstreamsOf(Layered(app.downstreams, service.downstreams, DownstreamKey)), q.url),
      OperationName(lib,
        StableSort(OperationsOf(Layered(app.operations, service.operations, OperationKey)), OperationRank),
                    q.httpMethod, q.url, scope.downstream),
      scope)
  }

  lemma LayeredScopeExactly(lib: Library, app: ConfigFile, service: ConfigFile, caller: string, q: Query)
    ensures ScopeOfLayers(lib, app, service, caller, q, LayeredScope(lib, app, service, caller, q))
  {
    ScopeExactly(lib, DownstreamsOf(Layered(app.downstreams, service.downstreams, DownstreamKey)),
                 StableSort(OperationsOf(Layered(app.operations, service.operations, OperationKey)), OperationRank),
                 caller, q, LayeredClass(lib, app, service, q));
    hide ScopeRight, FillScope, ScopeFromRequest, LayeredClass;
  }

  lemma CompiledNames(lib: Library, f: ConfigFile)
    ensures CompileOf(lib, f).internalHosts == Patterns(f.internalHosts)
    ensures CompileOf(lib, f).downstreams == DownstreamsOf(f.downstreams)
    ensures CompileOf(lib, f).operations == StableSort(OperationsOf(f.operations), OperationRank)
  {
    hide PatchesOf, RulesOf, StableSort, Patterns;
  }

  lemma ScopeOfBothLayers(lib: Library, app: ConfigFile, service: ConfigFile, caller: string, q: Query)
    requires ValidLayer(lib, app) && ValidLayer(lib, service)
    ensures
      var c := CompileOf(lib, TwoLayers(app, service));
      FillScope(lib, c.downstreams, c.operations, caller, q, ScopeFromRequest(q, ClassFor(lib, c.internalHosts, q))) ==
        LayeredScope(lib, app, service, caller, q)
  {
    var merged := TwoLayers(app, service);
    TwoLayersMerge(lib, app, service);
    CompiledNames(lib, merged);
    ClassOfBothLayers(lib, app, service, Patterns(merged.internalHosts), q);
    hide FillScope, ScopeFromRequest, ClassFor, LayeredClass, TwoLayers, Patterns, Layered, StableSort,
      DownstreamsOf, OperationsOf, CompileOf, ValidLayer;
  }

  lemma BothLayersOk(lib: Library, app: ConfigFile, service: ConfigFile)
    ensures
      var layers := [Decoded(app), Decoded(service)];
      (forall i :: 0 <= i < |layers| ==> LayerOk(lib, layers[i])) <==> ValidLayer(lib, app) && ValidLayer(lib, service)
  {
    hide ValidLayer;
    var layers := [Decoded(app), Decoded(service)];
    assert layers[0] == Decoded(app) && layers[1] == Decoded(service);
  }

  /** From two layers of the store to the configuration of a request: a fresh provider is
      loaded and asked. It succeeds exactly when both layers are valid and the merged budget
      is complete. */
  method ServeFromLayers(lib: Library, app: ConfigFile, service: ConfigFile, caller: string, q: Query,
      base: RetryPolicy)
    returns (error: Option<ConfigError>, scope: Scope, policy: RetryPolicy, budget: Config)
    ensures error.None? <==>
      && ValidLayer(lib, app) && ValidLayer(lib, service)
      && BudgetComplete(app.retryBudget, service.retryBudget)
    ensures error.None? ==>
      && scope == LayeredScope(lib, app, service, caller, q)
      && ScopeOfLayers(lib, app, service, caller, q, scope)
      && LayeredPolicy(lib, app, service, scope, base, policy)
      && BudgetOfLayers(app.retryBudget, service.retryBudget, budget)
  {
    hide ValidLayer, CompileOf, ToConfig, MergeFiles, MergedFile, LayerOk, FillScope, ScopeFromRequest, ClassFor,
      LayeredScope, PolicyFor, LayeredPolicy, BudgetComplete, BudgetOfLayers;
    hide ScopeOfLayers;
    LayeredScopeExactly(lib, app, service, caller, q);
    MergedBudgetServes(app.retryBudget, service.retryBudget);
    BothLayersOk(lib, app, service);
    if ValidLayer(lib, app) && ValidLayer(lib, service) {
      TwoLayersMerge(lib, app, service);
      ScopeOfBothLayers(lib, app, service, caller, q);
    }
    var provider := new ManagedRetryConfigProvider();
    error := provider.UpdateFromStore(lib, [Decoded(app), Decoded(service)]);
    scope, policy, budget := ScopeFromRequest(q, ""), base, DISABLED;
    if error.None? {
      scope, policy, budget := provider.ResolveRequest(lib, caller, q, base);
      LayeredResolution(lib, app, service, scope, base);
    }
  }
}
