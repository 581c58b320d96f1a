/** Partial policies: their serialized form, its validation, and layering two of them. */
module Patches {
  import opened Wrappers
  import opened Text
  import opened Policy

  /** RetryPolicyPatchFile; an absent duration is the empty string. */
  datatype PatchFile = PatchFile(
    disableRetry: Option<bool>,
    maxRetries: Option<int>,
    perAttemptTimeout: string,
    maxElapsedTime: string,
    initialBackoff: string,
    maxBackoff: string,
    retryOnStatuses: Option<seq<int>>,
    retryOn429: Option<bool>)

  datatype Patch = Patch(
    disableRetry: Option<bool>,
    maxRetries: Option<int>,
    perAttemptTimeout: Option<int>,
    maxElapsedTime: Option<int>,
    initialBackoff: Option<int>,
    maxBackoff: Option<int>,
    retryOnStatuses: Option<seq<int>>,
    retryOn429: Option<bool>)

  datatype PatchError =
    | NegativeMaxRetries
    | DisabledWithRetries
    | BadStatus(status: int)
    | BadDuration(field: string)
    | NotPositive(field: string)

  predicate On(flag: Option<bool>) {
    flag.Some? && flag.value
  }

  predicate Off(flag: Option<bool>) {
    flag.Some? && !flag.value
  }

  /** time.ParseDuration. */
  type Durations = string -> Option<int>

  // ----- validation -----

  /** parsePositiveRetryDuration. */
  function ParsePositive(parse: Durations, field: string, value: string): Result<Option<int>, PatchError> {
    if value == "" then Ok(None)
    else match parse(value)
      case None => Err(BadDuration(field))
      case Some(d) => if d <= 0 then Err(NotPositive(field)) else Ok(Some(d))
  }

  predicate StatusInRange(status: int) {
    100 <= status <= 599
  }

  predicate ValidDuration(parse: Durations, value: string) {
    value == "" || (parse(value).Some? && parse(value).value > 0)
  }

  /** What toPatch accepts. */
  predicate ValidPatch(parse: Durations, f: PatchFile) {
    && (f.maxRetries.Some? ==> f.maxRetries.value >= 0)
    && !(On(f.disableRetry) && f.maxRetries.Some?)
    && (f.retryOnStatuses.Some? ==> forall i :: 0 <= i < |f.retryOnStatuses.value| ==>
          StatusInRange(f.retryOnStatuses.value[i]))
    && ValidDuration(parse, f.perAttemptTimeout) && ValidDuration(parse, f.maxElapsedTime)
    && ValidDuration(parse, f.initialBackoff) && ValidDuration(parse, f.maxBackoff)
  }

  predicate IsEmpty(f: PatchFile) {
    && f.disableRetry.None? && f.maxRetries.None?
    && f.perAttemptTimeout == "" && f.maxElapsedTime == "" && f.initialBackoff == "" && f.maxBackoff == ""
    && f.retryOnStatuses.None? && f.retryOn429.None?
  }

  /** Each status once, in the order of first occurrence. */
  function Distinct(statuses: seq<int>): (r: seq<int>)
    ensures forall s :: s in r <==> s in statuses
    ensures forall i, j :: 0 <= i < j < |r| ==> r[i] != r[j]
  {
    if statuses == [] then []
    else
      var done, last := Distinct(statuses[..|statuses| - 1]), statuses[|statuses| - 1];
      assert statuses == statuses[..|statuses| - 1] + [last];
      if last in statuses[..|statuses| - 1] then done else done + [last]
  }

  /** The first statuses of a list. */
  ghost function Members(statuses: seq<int>, n: nat): set<int>
    requires n <= |statuses|
  {
    set i | 0 <= i < n :: statuses[i]
  }

  lemma DistinctNext(statuses: seq<int>, i: nat)
    requires i < |statuses|
    ensures Distinct(statuses[..i + 1]) ==
      Distinct(statuses[..i]) + if statuses[i] in Members(statuses, i) then [] else [statuses[i]]
    ensures Members(statuses, i + 1) == Members(statuses, i) + {statuses[i]}
  {
    assert statuses[..i + 1][..i] == statuses[..i];
  }

  /** The statuses loop of toPatch. */
  method CompileStatuses(statuses: seq<int>) returns (r: Result<seq<int>, PatchError>)
    ensures r.Ok? <==> forall i :: 0 <= i < |statuses| ==> 100 <= statuses[i] <= 599
    ensures r.Ok? ==> r.value == Distinct(statuses)
    ensures r.Err? ==>
      exists i :: 0 <= i < |statuses| && r.error == BadStatus(statuses[i]) && !StatusInRange(statuses[i])
        && forall j :: 0 <= j < i ==> StatusInRange(statuses[j])
  {
    assert Distinct(statuses[..0]) == [] && Members(statuses, 0) == {};
    hide Distinct, Members;
    var kept: seq<int> := [];
    var seen: set<int> := {};
    for i := 0 to |statuses|
      invariant forall j :: 0 <= j < i ==> StatusInRange(statuses[j])
      invariant kept == Distinct(statuses[..i])
      invariant seen == Members(statuses, i)
    {
      if !StatusInRange(statuses[i]) {
        return Err(BadStatus(statuses[i]));
      }
      DistinctNext(statuses, i);
      if statuses[i] in seen {
        continue;
      }
      seen := seen + {statuses[i]};
      kept := kept + [statuses[i]];
    }
    assert statuses[..|statuses|] == statuses;
    return Ok(kept);
  }

  function DurationOf(parse: Durations, value: string): Option<int> {
    if value == "" then None else parse(value)
  }

  /** The patch an accepted file denotes. */
  function PatchOf(parse: Durations, f: PatchFile): Patch {
    Patch(f.disableRetry, f.maxRetries,
          DurationOf(parse, f.perAttemptTimeout), DurationOf(parse, f.maxElapsedTime),
          DurationOf(parse, f.initialBackoff), DurationOf(parse, f.maxBackoff),
          if f.retryOnStatuses.None? then None else Some(Distinct(f.retryOnStatuses.value)),
          f.retryOn429)
  }

  /** A duration of a patch is what its text says, which is positive, or nothing without a text. */
  predicate Says(parse: Durations, text: string, duration: Option<int>) {
    if text == "" then duration.None? else duration.Some? && duration.value > 0 && parse(text) == duration
  }

  predicate SameMembers(a: seq<int>, b: seq<int>) {
    (forall x :: x in a ==> x in b) && (forall x :: x in b ==> x in a)
  }

  /** The patch sets what the file sets, field by field. */
  predicate SaysAll(parse: Durations, f: PatchFile, patch: Patch) {
    && patch.disableRetry == f.disableRetry && patch.maxRetries == f.maxRetries && patch.retryOn429 == f.retryOn429
    && Says(parse, f.perAttemptTimeout, patch.perAttemptTimeout)
    && Says(parse, f.maxElapsedTime, patch.maxElapsedTime)
    && Says(parse, f.initialBackoff, patch.initialBackoff)
    && Says(parse, f.maxBackoff, patch.maxBackoff)
    && patch.retryOnStatuses.Some? == f.retryOnStatuses.Some?
    && (patch.retryOnStatuses.Some? ==> SameMembers(patch.retryOnStatuses.value, f.retryOnStatuses.value))
  }

  lemma PatchSaysAll(parse: Durations, f: PatchFile)
    requires ValidPatch(parse, f)
    ensures SaysAll(parse, f, PatchOf(parse, f))
  {
  }

  /** A valid file is empty exactly when its patch sets nothing. */
  lemma EmptySetsNothing(parse: Durations, f: PatchFile)
    requires ValidPatch(parse, f)
    ensures IsEmpty(f) <==> PatchOf(parse, f) == Patch(None, None, None, None, None, None, None, None)
  {
    PatchSaysAll(parse, f);
    hide ValidPatch, Distinct;
  }

  /** toPatch. */
  method ToPatch(parse: Durations, f: PatchFile) returns (r: Result<Patch, PatchError>)
    ensures r.Ok? <==> ValidPatch(parse, f)
    ensures r.Ok? ==> r.value == PatchOf(parse, f) && SaysAll(parse, f, r.value)
  {
    hide SaysAll;
    if f.maxRetries.Some? && f.maxRetries.value < 0 {
      return Err(NegativeMaxRetries);
    }
    if On(f.disableRetry) && f.maxRetries.Some? {
      return Err(DisabledWithRetries);
    }
    var statuses: Option<seq<int>> := None;
    if f.retryOnStatuses.Some? {
      var compiled := CompileStatuses(f.retryOnStatuses.value);
      if compiled.Err? {
        return Err(compiled.error);
      }
      statuses := Some(compiled.value);
    }
    var perAttempt := ParsePositive(parse, "per_attempt_timeout", f.perAttemptTimeout);
    if perAttempt.Err? {
      return Err(perAttempt.error);
    }
    var maxElapsed := ParsePositive(parse, "max_elapsed_time", f.maxElapsedTime);
    if maxElapsed.Err? {
      return Err(maxElapsed.error);
    }
    var initial := ParsePositive(parse, "initial_backoff", f.initialBackoff);
    if initial.Err? {
      return Err(initial.error);
    }
    var max := ParsePositive(parse, "max_backoff", f.maxBackoff);
    if max.Err? {
      return Err(max.error);
    }
    PatchSaysAll(parse, f);
    return Ok(Patch(f.disableRetry, f.maxRetries, perAttempt.value, maxElapsed.value, initial.value, max.value,
      statuses, f.retryOn429));
  }

  // ----- application -----

  /** A positive patch replaces the value, an absent one leaves it. */
  predicate Patched(patch: Option<int>, before: int, after: int) {
    if patch.None? then after == before else patch.value > 0 ==> after == patch.value
  }

  function Limit(disableRetry: Option<bool>, maxRetries: Option<int>, limit: int): int {
    if maxRetries.Some? then maxRetries.value else if On(disableRetry) then 0 else limit
  }

  function Set<T>(patched: Option<T>, value: T): T {
    if patched.Some? then patched.value else value
  }

  function SetOf(statuses: seq<int>): set<int> {
    set s | s in statuses
  }

  /** Apply: what the patch sets wins, what it does not set stays as normalised. */
  function Apply(patch: Patch, p: RetryPolicy): (q: RetryPolicy)
    ensures Normalized(q)
    ensures patch.maxRetries.Some? && patch.maxRetries.value >= 0 ==> q.maxRetries == patch.maxRetries.value
    ensures patch.maxRetries.None? && On(patch.disableRetry) ==> q.maxRetries == 0
    ensures patch.maxRetries.None? && !On(patch.disableRetry) ==> q.maxRetries == Normalize(p).maxRetries
    ensures Patched(patch.perAttemptTimeout, Normalize(p).perAttemptTimeout, q.perAttemptTimeout)
    ensures Patched(patch.initialBackoff, Normalize(p).initialBackoff, q.initialBackoff)
    ensures Patched(patch.maxBackoff, Normalize(p).maxBackoff, q.maxBackoff)
    ensures patch.maxElapsedTime.Some? ==> q.maxElapsedTime == patch.maxElapsedTime.value
    ensures patch.maxElapsedTime.None? ==> q.maxElapsedTime == p.maxElapsedTime
    ensures patch.retryOnStatuses.Some? ==>
      q.retryOnStatuses.Some? && forall s :: s in q.retryOnStatuses.value <==> s in patch.retryOnStatuses.value
    ensures patch.retryOnStatuses.None? ==> q.retryOnStatuses == Normalize(p).retryOnStatuses
    ensures patch.retryOn429.Some? ==> q.retryOn429 == patch.retryOn429.value
    ensures patch.retryOn429.None? ==> q.retryOn429 == p.retryOn429
  {
    Normalize(RetryPolicy(
      Limit(patch.disableRetry, patch.maxRetries, p.maxRetries),
      Set(patch.perAttemptTimeout, p.perAttemptTimeout),
      Set(patch.maxElapsedTime, p.maxElapsedTime),
      Set(patch.initialBackoff, p.initialBackoff),
      Set(patch.maxBackoff, p.maxBackoff),
      if patch.retryOnStatuses.None? then p.retryOnStatuses else Some(SetOf(patch.retryOnStatuses.value)),
      Set(patch.retryOn429, p.retryOn429)))
  }

  // ----- layering -----

  /** mergeRetryPolicyPatchFiles for two present files: the override's set fields win, and
      setting one of disable_retry and max_retries can unset the other. */
  function MergePatch(base: PatchFile, override: PatchFile): PatchFile {
    var keepRetries := !(On(override.disableRetry) && override.maxRetries.None?);
    var keepDisable := !(override.maxRetries.Some? && override.disableRetry.None?);
    PatchFile(
      Or(override.disableRetry, if keepDisable then base.disableRetry else None),
      Or(override.maxRetries, if keepRetries then base.maxRetries else None),
      OrText(override.perAttemptTimeout, base.perAttemptTimeout),
      OrText(override.maxElapsedTime, base.maxElapsedTime),
      OrText(override.initialBackoff, base.initialBackoff),
      OrText(override.maxBackoff, base.maxBackoff),
      Or(override.retryOnStatuses, base.retryOnStatuses),
      Or(override.retryOn429, base.retryOn429))
  }

  function MergePatches(base: Option<PatchFile>, override: Option<PatchFile>): Option<PatchFile> {
    if override.None? then base
    else if base.None? then override
    else Some(MergePatch(base.value, override.value))
  }

  predicate ValidOptional(parse: Durations, f: Option<PatchFile>) {
    f.Some? ==> ValidPatch(parse, f.value)
  }

  /** Layering keeps patches valid. */
  lemma MergeKeepsValid(parse: Durations, base: Option<PatchFile>, override: Option<PatchFile>)
    requires ValidOptional(parse, base) && ValidOptional(parse, override)
    ensures ValidOptional(parse, MergePatches(base, override))
  {
  }

  /** An absent patch changes nothing, not even to normalise. */
  function ApplyFile(parse: Durations, f: Option<PatchFile>, p: RetryPolicy): RetryPolicy {
    if f.None? then p else Apply(PatchOf(parse, f.value), p)
  }

  /** The one combination whose merge differs from applying the layers in turn: the base
      disables retries and the override enables them again without saying how many. */
  predicate Reenables(base: Option<PatchFile>, override: Option<PatchFile>) {
    && base.Some? && On(base.value.disableRetry)
    && override.Some? && Off(override.value.disableRetry) && override.value.maxRetries.None?
  }

  lemma DurationsAgree(parse: Durations, base: string, override: string)
    requires ValidDuration(parse, base) && ValidDuration(parse, override)
    ensures DurationOf(parse, OrText(override, base)) == Or(DurationOf(parse, override), DurationOf(parse, base))
    ensures DurationOf(parse, base).Some? ==> DurationOf(parse, base).value > 0
    ensures DurationOf(parse, override).Some? ==> DurationOf(parse, override).value > 0
  {
  }

  function Floored(limit: int): int {
    if limit < 0 then 0 else limit
  }

  /** The retry limit of the merge and of the sequence. */
  lemma LimitsAgree(b: PatchFile, o: PatchFile, limit: int)
    requires b.maxRetries.Some? ==> b.maxRetries.value >= 0 && !On(b.disableRetry)
    ensures
      var m := MergePatch(b, o);
      var merged := Floored(Limit(m.disableRetry, m.maxRetries, limit));
      var inTurn := Floored(Limit(o.disableRetry, o.maxRetries, Floored(Limit(b.disableRetry, b.maxRetries, limit))));
      if Reenables(Some(b), Some(o)) then merged == Floored(limit) && inTurn == 0 else merged == inTurn
  {
    hide OrText;
  }

  /** Layering the files and applying the result is applying one after the other, for every
      policy except in the case above with a positive retry limit; then the merge gives the
      policy's own limit and the sequence zero, and everything else still agrees. */
  lemma MergeIsSequence(parse: Durations, base: Option<PatchFile>, override: Option<PatchFile>, p: RetryPolicy)
    requires ValidOptional(parse, base) && ValidOptional(parse, override)
    ensures
      var merged, inTurn :=
        ApplyFile(parse, MergePatches(base, override), p), ApplyFile(parse, override, ApplyFile(parse, base, p));
      && (merged == inTurn <==> !(Reenables(base, override) && p.maxRetries > 0))
      && (Reenables(base, override) ==> merged.maxRetries == Normalize(p).maxRetries && inTurn.maxRetries == 0)
      && merged == inTurn.(maxRetries := merged.maxRetries)
  {
    if base.Some? && override.Some? {
      var b, o := base.value, override.value;
      DurationsAgree(parse, b.perAttemptTimeout, o.perAttemptTimeout);
      DurationsAgree(parse, b.maxElapsedTime, o.maxElapsedTime);
      DurationsAgree(parse, b.initialBackoff, o.initialBackoff);
      DurationsAgree(parse, b.maxBackoff, o.maxBackoff);
      LimitsAgree(b, o, p.maxRetries);
      hide DurationOf, OrText, Distinct, SetOf, Limit, ValidDuration, StatusInRange;
    }
  }

  /** The two readings do differ. */
  lemma ReenablingDiffers()
    ensures
      var nothing := PatchFile(None, None, "", "", "", "", None, None);
      var base, override := nothing.(disableRetry := Some(true)), nothing.(disableRetry := Some(false));
      var parse: Durations := _ => None;
      var p := RetryPolicy(3, SECOND, 0, MILLISECOND, SECOND, Some({503}), false);
      && ValidPatch(parse, base) && ValidPatch(parse, override)
      && Apply(PatchOf(parse, MergePatch(base, override)), p).maxRetries == 3
      && Apply(PatchOf(parse, override), Apply(PatchOf(parse, base), p)).maxRetries == 0
  {
  }
}
