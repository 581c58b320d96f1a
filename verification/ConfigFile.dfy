/** The retry configuration file: what a layer may say, how layers are merged and loaded,
    and what an accepted file compiles to. Files are already decoded. */
module ConfigFiles {
  import opened Wrappers
  import opened Text
  import opened Budget
  import opened Patches
  import opened NamedLists
  import opened Ranking

  datatype Downstream = Downstream(name: string, hosts: seq<string>)

  datatype Operation = Operation(
    name: string, priority: int, methods: seq<string>, hosts: seq<string>, paths: seq<string>, downstreams: seq<string>)

  datatype ClassPolicies = ClassPolicies(
    internalRead: Option<PatchFile>, internalWrite: Option<PatchFile>,
    externalRead: Option<PatchFile>, externalWrite: Option<PatchFile>)

  /** The dimensions of a rule's condition, as written and as compiled. */
  datatype Condition = Condition(
    callers: seq<string>, downstreams: seq<string>, operations: seq<string>, methods: seq<string>,
    hosts: seq<string>, paths: seq<string>, classes: seq<string>)

  datatype Rule = Rule(name: string, priority: int, disabled: bool, condition: Condition, policy: PatchFile)

  datatype ConfigFile = ConfigFile(
    version: string,
    retryBudget: Option<BudgetFile>,
    internalHosts: seq<string>,
    downstreams: seq<Downstream>,
    operations: seq<Operation>,
    policies: ClassPolicies,
    rules: seq<Rule>)

  const NO_POLICIES := ClassPolicies(None, None, None, None)
  const EMPTY := ConfigFile("", None, [], [], [], NO_POLICIES, [])

  /** What the configuration needs from outside: path.Match, which answers nothing for a
      malformed pattern, and time.ParseDuration. */
  datatype Library = Library(glob: (string, string) -> Option<bool>, parse: Durations)

  const INTERNAL_READ := "internal_read"
  const INTERNAL_WRITE := "internal_write"
  const EXTERNAL_READ := "external_read"
  const EXTERNAL_WRITE := "external_write"

  predicate KnownClass(requestClass: string) {
    requestClass == INTERNAL_READ || requestClass == INTERNAL_WRITE || requestClass == EXTERNAL_READ
      || requestClass == EXTERNAL_WRITE
  }

  lemma ClassNames(requestClass: string)
    ensures KnownClass(requestClass) <==>
      requestClass in {"internal_read", "internal_write", "external_read", "external_write"}
  {
  }

  datatype ConfigError =
    | BadBudget(budget: BudgetError)
    | BadVersion(version: string)
    | BadGlob(pattern: string)
    | Nameless(index: nat)
    | Duplicate(name: string)
    | NoHosts(name: string)
    | BadPatch(patch: PatchError)
    | EmptyPolicy(name: string)
    | EmptyCondition(name: string)
    | UnknownClass(requestClass: string)
    | Unreadable(layer: nat)
    | Undecodable(layer: nat)

  // ----- valid files -----

  function DownstreamKey(d: Downstream): string { NameKey(d.name) }
  function OperationKey(o: Operation): string { NameKey(o.name) }
  function RuleKey(r: Rule): string { NameKey(r.name) }

  predicate ValidVersion(version: string) {
    Trim(version) == "" || Trim(version) == "v1"
  }

  predicate ValidGlobs(lib: Library, patterns: seq<string>) {
    forall i :: 0 <= i < |patterns| ==> lib.glob(patterns[i], "").Some?
  }

  predicate ValidDownstream(lib: Library, d: Downstream) {
    Trim(d.name) != "" && Patterns(d.hosts) != [] && ValidGlobs(lib, Patterns(d.hosts))
  }

  predicate ValidOperation(lib: Library, o: Operation) {
    Trim(o.name) != "" && ValidGlobs(lib, Patterns(o.hosts)) && ValidGlobs(lib, Patterns(o.paths))
  }

  function Trimmed(values: seq<string>): seq<string> {
    seq(|values|, i requires 0 <= i < |values| => Trim(values[i]))
  }

  function Compiled(c: Condition): Condition {
    Condition(Patterns(c.callers), Patterns(c.downstreams), Patterns(c.operations), Patterns(c.methods),
              Patterns(c.hosts), Patterns(c.paths), Trimmed(c.classes))
  }

  function One(values: seq<string>): nat {
    if values == [] then 0 else 1
  }

  /** How many dimensions a condition constrains. */
  function Specificity(c: Condition): nat {
    One(c.callers) + One(c.downstreams) + One(c.operations) + One(c.methods) + One(c.hosts) + One(c.paths) +
      One(c.classes)
  }

  predicate ValidCondition(lib: Library, c: Condition) {
    && ValidGlobs(lib, Patterns(c.hosts)) && ValidGlobs(lib, Patterns(c.paths))
    && forall i :: 0 <= i < |c.classes| ==> KnownClass(Trim(c.classes[i]))
  }

  /** A disabled rule only has to keep its name to itself. */
  predicate ValidRule(lib: Library, r: Rule) {
    r.disabled ||
    (!IsEmpty(r.policy) && ValidPatch(lib.parse, r.policy) && ValidCondition(lib, r.condition)
      && Specificity(Compiled(r.condition)) > 0)
  }

  ghost predicate ValidPolicies(lib: Library, p: ClassPolicies) {
    && ValidOptional(lib.parse, p.internalRead) && ValidOptional(lib.parse, p.internalWrite)
    && ValidOptional(lib.parse, p.externalRead) && ValidOptional(lib.parse, p.externalWrite)
  }

  ghost predicate ValidDownstreams(lib: Library, items: seq<Downstream>) {
    (forall i :: 0 <= i < |items| ==> ValidDownstream(lib, items[i])) && DistinctNames(items, DownstreamKey)
  }

  ghost predicate ValidOperations(lib: Library, items: seq<Operation>) {
    (forall i :: 0 <= i < |items| ==> ValidOperation(lib, items[i])) && DistinctNames(items, OperationKey)
  }

  ghost predicate ValidRules(lib: Library, items: seq<Rule>) {
    (forall i :: 0 <= i < |items| ==> ValidRule(lib, items[i])) && DistinctNames(items, RuleKey)
  }

  /** What compileRetryConfigFile accepts. */
  ghost predicate ValidFile(lib: Library, f: ConfigFile) {
    && ValidVersion(f.version)
    && ValidGlobs(lib, Patterns(f.internalHosts))
    && ValidDownstreams(lib, f.downstreams)
    && ValidOperations(lib, f.operations)
    && ValidPolicies(lib, f.policies)
    && ValidRules(lib, f.rules)
  }

  /** What the loader accepts of one layer. */
  ghost predicate ValidLayer(lib: Library, f: ConfigFile) {
    LayerError(f.retryBudget).None? && ValidFile(lib, f)
  }

  // ----- merging -----

  function MergePolicies(base: ClassPolicies, override: ClassPolicies): ClassPolicies {
    ClassPolicies(
      MergePatches(base.internalRead, override.internalRead),
      MergePatches(base.internalWrite, override.internalWrite),
      MergePatches(base.externalRead, override.externalRead),
      MergePatches(base.externalWrite, override.externalWrite))
  }

  /** mergeRetryConfigFiles. */
  function MergeConfig(base: ConfigFile, override: ConfigFile): ConfigFile {
    ConfigFile(
      FirstNonBlank(override.version, base.version),
      MergeFiles(base.retryBudget, override.retryBudget),
      MergedStrings(base.internalHosts, override.internalHosts),
      FirstPerKey(override.downstreams + base.downstreams, DownstreamKey),
      FirstPerKey(override.operations + base.operations, OperationKey),
      MergePolicies(base.policies, override.policies),
      FirstPerKey(override.rules + base.rules, RuleKey))
  }

  method MergeConfigFiles(base: ConfigFile, override: ConfigFile) returns (merged: ConfigFile)
    ensures merged == MergeConfig(base, override)
    ensures LayersOf(base.retryBudget, override.retryBudget, merged.retryBudget)
  {
    MergeLayers(base.retryBudget, override.retryBudget);
    hide LayersOf, MergeFiles;
    var hosts := MergeStringLists(base.internalHosts, override.internalHosts);
    var downstreams := MergeNamedItems(base.downstreams, override.downstreams, DownstreamKey);
    var operations := MergeNamedItems(base.operations, override.operations, OperationKey);
    var rules := MergeNamedItems(base.rules, override.rules, RuleKey);
    return ConfigFile(
      FirstNonBlank(override.version, base.version),
      MergeFiles(base.retryBudget, override.retryBudget),
      hosts, downstreams, operations, MergePolicies(base.policies, override.policies), rules);
  }

  lemma MergedGlobs(lib: Library, base: seq<string>, override: seq<string>)
    requires ValidGlobs(lib, Patterns(base)) && ValidGlobs(lib, Patterns(override))
    ensures ValidGlobs(lib, Patterns(MergedStrings(base, override)))
  {
    MergedStringsUnite(base, override);
    var r := Patterns(MergedStrings(base, override));
    hide MergedStrings, Patterns;
    forall i | 0 <= i < |r|
      ensures lib.glob(r[i], "").Some?
    {
      assert r[i] in r;
    }
  }

  /** Whatever holds of every item of both layers holds of every item of the merge. */
  lemma MergedItems<T>(base: seq<T>, override: seq<T>, key: T -> string, good: T -> bool)
    requires forall i :: 0 <= i < |base| ==> good(base[i])
    requires forall i :: 0 <= i < |override| ==> good(override[i])
    ensures
      var merged := FirstPerKey(override + base, key);
      (forall i :: 0 <= i < |merged| ==> good(merged[i])) && DistinctNames(merged, key)
  {
    var merged := FirstPerKey(override + base, key);
    MergeIsClean(override + base, key);
    forall i | 0 <= i < |merged|
      ensures good(merged[i])
    {
      assert merged[i] in override + base;
    }
  }

  lemma MergedBudget(base: Option<BudgetFile>, override: Option<BudgetFile>)
    requires LayerError(base).None? && LayerError(override).None?
    ensures LayerError(MergeFiles(base, override)).None?
  {
  }

  lemma MergedVersion(base: string, override: string)
    requires ValidVersion(base) && ValidVersion(override)
    ensures ValidVersion(FirstNonBlank(override, base))
  {
    TrimIdempotent(base);
    TrimIdempotent(override);
    hide Trim;
  }

  lemma MergedPolicies(lib: Library, base: ClassPolicies, override: ClassPolicies)
    requires ValidPolicies(lib, base) && ValidPolicies(lib, override)
    ensures ValidPolicies(lib, MergePolicies(base, override))
  {
    MergeKeepsValid(lib.parse, base.internalRead, override.internalRead);
    MergeKeepsValid(lib.parse, base.internalWrite, override.internalWrite);
    MergeKeepsValid(lib.parse, base.externalRead, override.externalRead);
    MergeKeepsValid(lib.parse, base.externalWrite, override.externalWrite);
    hide ValidOptional, MergePatches;
  }

  lemma MergedDownstreams(lib: Library, base: seq<Downstream>, override: seq<Downstream>)
    requires ValidDownstreams(lib, base) && ValidDownstreams(lib, override)
    ensures ValidDownstreams(lib, FirstPerKey(override + base, DownstreamKey))
  {
    hide ValidDownstream, DistinctNames, FirstPerKey;
    MergedItems(base, override, DownstreamKey, d => ValidDownstream(lib, d));
  }

  lemma MergedOperations(lib: Library, base: seq<Operation>, override: seq<Operation>)
    requires ValidOperations(lib, base) && ValidOperations(lib, override)
    ensures ValidOperations(lib, FirstPerKey(override + base, OperationKey))
  {
    hide ValidOperation, DistinctNames, FirstPerKey;
    MergedItems(base, override, OperationKey, o => ValidOperation(lib, o));
  }

  lemma MergedRules(lib: Library, base: seq<Rule>, override: seq<Rule>)
    requires ValidRules(lib, base) && ValidRules(lib, override)
    ensures ValidRules(lib, FirstPerKey(override + base, RuleKey))
  {
    hide ValidRule, DistinctNames, FirstPerKey;
    MergedItems(base, override, RuleKey, r => ValidRule(lib, r));
  }

  /** Validity is closed under layering. */
  lemma MergeKeepsLayer(lib: Library, base: ConfigFile, override: ConfigFile)
    requires ValidLayer(lib, base) && ValidLayer(lib, override)
    ensures ValidLayer(lib, MergeConfig(base, override))
  {
    MergedVersion(base.version, override.version);
    MergedBudget(base.retryBudget, override.retryBudget);
    MergedGlobs(lib, base.internalHosts, override.internalHosts);
    MergedDownstreams(lib, base.downstreams, override.downstreams);
    MergedOperations(lib, base.operations, override.operations);
    MergedPolicies(lib, base.policies, override.policies);
    MergedRules(lib, base.rules, override.rules);
    hide ValidVersion, LayerError, ValidGlobs, ValidDownstreams, ValidOperations, ValidPolicies, ValidRules,
      FirstPerKey, MergePolicies, MergeFiles, MergedStrings, Patterns, FirstNonBlank;
  }

  // ----- compilation -----

  datatype CompiledDownstream = CompiledDownstream(name: string, hosts: seq<string>)

  datatype CompiledOperation = CompiledOperation(
    name: string, priority: int, methods: seq<string>, hosts: seq<string>, paths: seq<string>, downstreams: seq<string>,
    specificity: nat)

  datatype CompiledRule = CompiledRule(name: string, priority: int, condition: Condition, patch: Patch,
    specificity: nat)

  datatype CompiledFile = CompiledFile(
    classPatches: map<string, Patch>,
    rules: seq<CompiledRule>,
    internalHosts: seq<string>,
    downstreams: seq<CompiledDownstream>,
    operations: seq<CompiledOperation>)

  function RuleRank(r: CompiledRule): Rank { Rank(r.priority, r.specificity) }
  function OperationRank(o: CompiledOperation): Rank { Rank(o.priority, o.specificity) }

  function CompileDownstream(d: Downstream): CompiledDownstream {
    CompiledDownstream(Trim(d.name), Patterns(d.hosts))
  }

  function DownstreamsOf(items: seq<Downstream>): (r: seq<CompiledDownstream>)
    ensures |r| == |items| && forall i :: 0 <= i < |r| ==> r[i] == CompileDownstream(items[i])
  {
    seq(|items|, i requires 0 <= i < |items| => CompileDownstream(items[i]))
  }

  function Uppered(values: seq<string>): seq<string> {
    seq(|values|, i requires 0 <= i < |values| => Upper(values[i]))
  }

  lemma UpperedLength(values: seq<string>)
    ensures |Uppered(values)| == |values|
  {
  }

  function CompileOperation(o: Operation): CompiledOperation {
    var methods, hosts, paths, downstreams :=
      Uppered(Patterns(o.methods)), Patterns(o.hosts), Patterns(o.paths), Patterns(o.downstreams);
    CompiledOperation(Trim(o.name), o.priority, methods, hosts, paths, downstreams,
      One(methods) + One(hosts) + One(paths) + One(downstreams))
  }

  function OperationsOf(items: seq<Operation>): (r: seq<CompiledOperation>)
    ensures |r| == |items| && forall i :: 0 <= i < |r| ==> r[i] == CompileOperation(items[i])
  {
    seq(|items|, i requires 0 <= i < |items| => CompileOperation(items[i]))
  }

  /** defaultRuleName. */
  function RuleName(name: string, index: nat): string {
    if name != "" then name else "rule-" + FormatInt(index)
  }

  function CompileRule(lib: Library, r: Rule, index: nat): CompiledRule {
    var condition := Compiled(r.condition);
    CompiledRule(RuleName(r.name, index), r.priority, condition, PatchOf(lib.parse, r.policy), Specificity(condition))
  }

  /** The enabled rules, compiled, in file order. */
  function RulesOf(lib: Library, items: seq<Rule>): seq<CompiledRule> {
    if items == [] then []
    else
      var n := |items| - 1;
      RulesOf(lib, items[..n]) + if items[n].disabled then [] else [CompileRule(lib, items[n], n)]
  }

  function AddPatch(lib: Library, m: map<string, Patch>, requestClass: string, f: Option<PatchFile>)
    : map<string, Patch>
  {
    if f.None? then m else m[requestClass := PatchOf(lib.parse, f.value)]
  }

  function PatchesOf(lib: Library, p: ClassPolicies): map<string, Patch> {
    var m := AddPatch(lib, map[], INTERNAL_READ, p.internalRead);
    var m := AddPatch(lib, m, INTERNAL_WRITE, p.internalWrite);
    var m := AddPatch(lib, m, EXTERNAL_READ, p.externalRead);
    AddPatch(lib, m, EXTERNAL_WRITE, p.externalWrite)
  }

  /** What an accepted file compiles to. */
  function CompileOf(lib: Library, f: ConfigFile): CompiledFile {
    CompiledFile(PatchesOf(lib, f.policies),
                 StableSort(RulesOf(lib, f.rules), RuleRank),
                 Patterns(f.internalHosts),
                 DownstreamsOf(f.downstreams),
                 StableSort(OperationsOf(f.operations), OperationRank))
  }

  method ValidateGlobs(lib: Library, patterns: seq<string>) returns (bad: Option<string>)
    ensures bad.None? <==> ValidGlobs(lib, patterns)
    ensures bad.Some? ==> bad.value in patterns && lib.glob(bad.value, "").None?
  {
    for i := 0 to |patterns|
      invariant forall j :: 0 <= j < i ==> lib.glob(patterns[j], "").Some?
    {
      if lib.glob(patterns[i], "").None? {
        return Some(patterns[i]);
      }
    }
    return None;
  }

  lemma RepeatedName<T>(items: seq<T>, key: T -> string, i: nat)
    requires i < |items| && key(items[i]) != "" && key(items[i]) in Keys(items[..i], key)
    ensures !DistinctNames(items, key)
  {
    var j :| 0 <= j < i && key(items[..i][j]) == key(items[i]);
    assert items[j] == items[..i][j];
  }

  lemma NewName<T>(items: seq<T>, key: T -> string, i: nat)
    requires i < |items| && DistinctNames(items[..i], key)
      && (key(items[i]) == "" || key(items[i]) !in Keys(items[..i], key))
    ensures DistinctNames(items[..i + 1], key)
  {
    var before, now := items[..i], items[..i + 1];
    assert forall j :: 0 <= j < i ==> before[j] == now[j];
    forall j | 0 <= j < i && key(now[j]) != ""
      ensures key(now[j]) != key(now[i])
    {
      assert key(before[j]) in Keys(before, key);
    }
  }

  lemma NoKeys<T>(items: seq<T>, key: T -> string)
    ensures Keys(items[..0], key) == {} && DistinctNames(items[..0], key)
  {
  }

  method CompileDownstreams(lib: Library, items: seq<Downstream>)
    returns (r: Result<seq<CompiledDownstream>, ConfigError>)
    ensures r.Ok? <==> ValidDownstreams(lib, items)
    ensures r.Ok? ==> r.value == DownstreamsOf(items)
  {
    hide Trim, Lower, Patterns, ValidGlobs;
    var result: seq<CompiledDownstream> := [];
    var names: set<string> := {};
    for i := 0 to |items|
      invariant result == DownstreamsOf(items[..i])
      invariant forall j :: 0 <= j < i ==> ValidDownstream(lib, items[j])
      invariant names == Keys(items[..i], DownstreamKey)
      invariant DistinctNames(items[..i], DownstreamKey)
    {
      var item := items[i];
      var name := Trim(item.name);
      if name == "" {
        return Err(Nameless(i));
      }
      var key := Lower(name);
      if key in names {
        RepeatedName(items, DownstreamKey, i);
        return Err(Duplicate(name));
      }
      names := names + {key};
      var hosts := NormalizePatterns(item.hosts);
      if |hosts| == 0 {
        return Err(NoHosts(name));
      }
      var bad := ValidateGlobs(lib, hosts);
      if bad.Some? {
        return Err(BadGlob(bad.value));
      }
      assert items[..i + 1] == items[..i] + [item];
      KeysOfAppended(items[..i], item, DownstreamKey);
      NewName(items, DownstreamKey, i);
      result := result + [CompiledDownstream(name, hosts)];
    }
    assert items[..|items|] == items;
    return Ok(result);
  }

  /** operationRuleSpecificity. */
  method OperationSpecificity(methods: seq<string>, hosts: seq<string>, paths: seq<string>, downstreams: seq<string>)
    returns (score: nat)
    ensures score == One(methods) + One(hosts) + One(paths) + One(downstreams)
  {
    score := 0;
    if |methods| > 0 {
      score := score + 1;
    }
    if |hosts| > 0 {
      score := score + 1;
    }
    if |paths| > 0 {
      score := score + 1;
    }
    if |downstreams| > 0 {
      score := score + 1;
    }
  }

  method CompileOperations(lib: Library, items: seq<Operation>) returns (r: Result<seq<CompiledOperation>, ConfigError>)
    ensures r.Ok? <==> ValidOperations(lib, items)
    ensures r.Ok? ==> r.value == StableSort(OperationsOf(items), OperationRank)
  {
    NoKeys(items, OperationKey);
    hide Trim, Lower, Patterns, ValidGlobs, Uppered, StableSort, Keys, DistinctNames;
    var result: seq<CompiledOperation> := [];
    var names: set<string> := {};
    for i := 0 to |items|
      invariant result == OperationsOf(items[..i])
      invariant forall j :: 0 <= j < i ==> ValidOperation(lib, items[j])
      invariant names == Keys(items[..i], OperationKey)
      invariant DistinctNames(items[..i], OperationKey)
    {
      var item := items[i];
      var name := Trim(item.name);
      if name == "" {
        return Err(Nameless(i));
      }
      var key := Lower(name);
      if key in names {
        RepeatedName(items, OperationKey, i);
        return Err(Duplicate(name));
      }
      names := names + {key};
      var hosts := NormalizePatterns(item.hosts);
      var paths := NormalizePatterns(item.paths);
      var bad := ValidateGlobs(lib, hosts);
      if bad.Some? {
        return Err(BadGlob(bad.value));
      }
      bad := ValidateGlobs(lib, paths);
      if bad.Some? {
        return Err(BadGlob(bad.value));
      }
      assert items[..i + 1] == items[..i] + [item];
      KeysOfAppended(items[..i], item, OperationKey);
      NewName(items, OperationKey, i);
      var methods := NormalizePatterns(item.methods);
      var downstreams := NormalizePatterns(item.downstreams);
      var specificity := OperationSpecificity(methods, hosts, paths, downstreams);
      assert |Uppered(methods)| == |methods| by {
        UpperedLength(methods);
      }
      result := result +
        [CompiledOperation(name, item.priority, Uppered(methods), hosts, paths, downstreams, specificity)];
    }
    assert items[..|items|] == items;
    return Ok(StableSort(result, OperationRank));
  }

  /** compileRetryConfigMatch. */
  method CompileCondition(lib: Library, c: Condition) returns (r: Result<Condition, ConfigError>)
    ensures r.Ok? <==> ValidCondition(lib, c)
    ensures r.Ok? ==> r.value == Compiled(c)
  {
    hide Trim, Patterns;
    var callers := NormalizePatterns(c.callers);
    var downstreams := NormalizePatterns(c.downstreams);
    var operations := NormalizePatterns(c.operations);
    var methods := NormalizePatterns(c.methods);
    var hosts := NormalizePatterns(c.hosts);
    var paths := NormalizePatterns(c.paths);
    var bad := ValidateGlobs(lib, hosts);
    if bad.Some? {
      return Err(BadGlob(bad.value));
    }
    bad := ValidateGlobs(lib, paths);
    if bad.Some? {
      return Err(BadGlob(bad.value));
    }
    var classes: seq<string> := [];
    for i := 0 to |c.classes|
      invariant classes == Trimmed(c.classes)[..i]
      invariant forall j :: 0 <= j < i ==> KnownClass(Trim(c.classes[j]))
    {
      var requestClass := Trim(c.classes[i]);
      if !KnownClass(requestClass) {
        return Err(UnknownClass(c.classes[i]));
      }
      classes := classes + [requestClass];
    }
    return Ok(Condition(callers, downstreams, operations, methods, hosts, paths, classes));
  }

  lemma NoNames<T>(key: T -> string)
    ensures Keys([], key) == {} && DistinctNames([], key)
  {
  }

  /** The rules loop of compileRetryConfigFile. */
  method CompileRules(lib: Library, items: seq<Rule>) returns (r: Result<seq<CompiledRule>, ConfigError>)
    ensures r.Ok? <==> ValidRules(lib, items)
    ensures r.Ok? ==> r.value == StableSort(RulesOf(lib, items), RuleRank)
  {
    hide Trim, Lower, Patterns, ValidCondition, ValidPatch, Compiled, Specificity, PatchOf, StableSort, RuleName,
      IsEmpty, Keys, DistinctNames;
    var result: seq<CompiledRule> := [];
    var names: set<string> := {};
    NoNames(RuleKey);
    assert items[..0] == [];
    for i := 0 to |items|
      invariant result == RulesOf(lib, items[..i])
      invariant forall j :: 0 <= j < i ==> ValidRule(lib, items[j])
      invariant forall k :: k in names <==> k != "" && k in Keys(items[..i], RuleKey)
      invariant DistinctNames(items[..i], RuleKey)
    {
      var item := items[i];
      var name := Trim(item.name);
      assert items[..i + 1] == items[..i] + [item];
      assert items[..i + 1][..i] == items[..i];
      KeysOfAppended(items[..i], item, RuleKey);
      if name != "" {
        var key := Lower(name);
        if key in names {
          RepeatedName(items, RuleKey, i);
          return Err(Duplicate(name));
        }
        names := names + {key};
      }
      NewName(items, RuleKey, i);
      if item.disabled {
        continue;
      }
      if IsEmpty(item.policy) {
        return Err(EmptyPolicy(item.name));
      }
      var patch := ToPatch(lib.parse, item.policy);
      if patch.Err? {
        return Err(BadPatch(patch.error));
      }
      var condition := CompileCondition(lib, item.condition);
      if condition.Err? {
        return Err(condition.error);
      }
      var specificity := Specificity(condition.value);
      if specificity == 0 {
        return Err(EmptyCondition(item.name));
      }
      result := result +
        [CompiledRule(RuleName(item.name, i), item.priority, condition.value, patch.value, specificity)];
    }
    assert items[..|items|] == items;
    return Ok(StableSort(result, RuleRank));
  }

  method AddClassPatch(lib: Library, m: map<string, Patch>, requestClass: string, f: Option<PatchFile>)
    returns (r: Result<map<string, Patch>, ConfigError>)
    ensures r.Ok? <==> ValidOptional(lib.parse, f)
    ensures r.Ok? ==> r.value == AddPatch(lib, m, requestClass, f)
  {
    if f.None? {
      return Ok(m);
    }
    var patch := ToPatch(lib.parse, f.value);
    if patch.Err? {
      return Err(BadPatch(patch.error));
    }
    return Ok(m[requestClass := patch.value]);
  }

  method CompilePolicies(lib: Library, p: ClassPolicies) returns (r: Result<map<string, Patch>, ConfigError>)
    ensures r.Ok? <==> ValidPolicies(lib, p)
    ensures r.Ok? ==> r.value == PatchesOf(lib, p)
  {
    hide ValidOptional, AddPatch;
    r := AddClassPatch(lib, map[], INTERNAL_READ, p.internalRead);
    if r.Ok? {
      r := AddClassPatch(lib, r.value, INTERNAL_WRITE, p.internalWrite);
    }
    if r.Ok? {
      r := AddClassPatch(lib, r.value, EXTERNAL_READ, p.externalRead);
    }
    if r.Ok? {
      r := AddClassPatch(lib, r.value, EXTERNAL_WRITE, p.externalWrite);
    }
  }

  /** compileRetryConfigFile. */
  method CompileFile(lib: Library, f: ConfigFile) returns (r: Result<CompiledFile, ConfigError>)
    ensures r.Ok? <==> ValidFile(lib, f)
    ensures r.Ok? ==> r.value == CompileOf(lib, f)
  {
    hide Trim, Patterns, ValidGlobs, ValidDownstreams, ValidOperations, ValidPolicies, ValidRules, StableSort,
      PatchesOf, RulesOf;
    var version := Trim(f.version);
    if version != "" && version != "v1" {
      return Err(BadVersion(version));
    }
    var hosts := NormalizePatterns(f.internalHosts);
    var bad := ValidateGlobs(lib, hosts);
    if bad.Some? {
      return Err(BadGlob(bad.value));
    }
    var downstreams := CompileDownstreams(lib, f.downstreams);
    if downstreams.Err? {
      return Err(downstreams.error);
    }
    var operations := CompileOperations(lib, f.operations);
    if operations.Err? {
      return Err(operations.error);
    }
    var patches := CompilePolicies(lib, f.policies);
    if patches.Err? {
      return Err(patches.error);
    }
    var rules := CompileRules(lib, f.rules);
    if rules.Err? {
      return Err(rules.error);
    }
    return Ok(CompiledFile(patches.value, rules.value, hosts, downstreams.value, operations.value));
  }

  // ----- loading -----

  /** What the store answers for one lookup path, decoded. */
  datatype Layer = NotFound | Blank | Failed | Garbled | Decoded(file: ConfigFile)

  ghost predicate LayerOk(lib: Library, layer: Layer) {
    layer.NotFound? || layer.Blank? || (layer.Decoded? && ValidLayer(lib, layer.file))
  }

  /** The layers merged in order, each over what came before. */
  function MergedFile(layers: seq<Layer>): ConfigFile {
    if layers == [] then EMPTY
    else
      var before, last := MergedFile(layers[..|layers| - 1]), layers[|layers| - 1];
      if last.Decoded? then MergeConfig(before, last.file) else before
  }

  /** loadRetryConfigFileFromStoreContext: every layer is valid on its own, and the merged
      budget is complete. */
  method LoadConfigFile(lib: Library, layers: seq<Layer>) returns (r: Result<ConfigFile, ConfigError>)
    ensures r.Ok? <==>
      && (forall i :: 0 <= i < |layers| ==> LayerOk(lib, layers[i]))
      && ToConfig(MergedFile(layers).retryBudget).Ok?
    ensures r.Ok? ==> r.value == MergedFile(layers)
  {
    hide ValidFile, MergeConfig, ToConfig, LayerError;
    var merged := EMPTY;
    for i := 0 to |layers|
      invariant merged == MergedFile(layers[..i])
      invariant forall j :: 0 <= j < i ==> LayerOk(lib, layers[j])
    {
      assert layers[..i + 1][..i] == layers[..i];
      match layers[i] {
        case Failed => return Err(Unreadable(i));
        case NotFound => continue;
        case Blank => continue;
        case Garbled => return Err(Undecodable(i));
        case Decoded(file) =>
          var budget := LayerError(file.retryBudget);
          if budget.Some? {
            return Err(BadBudget(budget.value));
          }
          var compiled := CompileFile(lib, file);
          if compiled.Err? {
            return Err(compiled.error);
          }
          merged := MergeConfigFiles(merged, file);
      }
    }
    assert layers[..|layers|] == layers;
    var config := ToConfig(merged.retryBudget);
    if config.Err? {
      return Err(BadBudget(config.error));
    }
    return Ok(merged);
  }

  lemma NothingIsValid(lib: Library)
    ensures ValidVersion("") && ValidGlobs(lib, Patterns([]))
    ensures ValidDownstreams(lib, []) && ValidOperations(lib, []) && ValidRules(lib, [])
    ensures ValidOptional(lib.parse, None)
  {
    hide Trim, ValidDownstream, ValidOperation, ValidRule, ValidPatch;
    TrimOfTrimmed("");
  }

  lemma EmptyIsValid(lib: Library)
    ensures ValidLayer(lib, EMPTY)
  {
    NothingIsValid(lib);
    hide ValidVersion, ValidGlobs, ValidDownstreams, ValidOperations, ValidRules, ValidOptional, Patterns;
  }

  /** Any number of valid layers merges to a valid layer. */
  lemma {:induction false} MergedFileIsValid(lib: Library, layers: seq<Layer>)
    requires forall i :: 0 <= i < |layers| ==> LayerOk(lib, layers[i])
    ensures ValidLayer(lib, MergedFile(layers))
  {
    hide ValidLayer, MergeConfig;
    if layers == [] {
      EmptyIsValid(lib);
    } else {
      var before, last := layers[..|layers| - 1], layers[|layers| - 1];
      assert forall i :: 0 <= i < |before| ==> before[i] == layers[i];
      MergedFileIsValid(lib, before);
      if last.Decoded? {
        MergeKeepsLayer(lib, MergedFile(before), last.file);
      }
    }
  }
}
