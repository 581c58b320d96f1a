# Retry governance of an HTTP client, modelled and proved

The repository is a Go HTTP client with retry governance: a transport that retries requests
under a token budget per downstream, headers that carry retry constraints along a chain of
services, and layered configuration that is loaded from Consul and watched for changes. This
project models that logic in Dafny and proves what it promises. `dafny verify dfyconfig.toml`
checks all of it.

## How it is organised

- `Wrappers`, `Text`: optional values and results; trimming, folding, the decimal and boolean
  codecs of the headers.
- `Budget`: the token bucket as functions on balances, and the lock-free code as classes
  whose compare-and-swap loops run against foreign writes. `BudgetCas`: any number of budget
  calls interleaved at single atomic instructions, and the log of their effects.
  `LockFreedom`: the bound within which one of them returns.
- `Policy`, `Deadline`: policies, backoff, `Retry-After`; the deadline header and what a
  service imports from its inbound headers.
- `RoundTrip`: one call of the transport as a step machine with its invariant.
  `Transport` (module `TransportLoop`): the loop as written, over the real budget object,
  proved to end where the machine ends. `Decisions`: when a finished call went on, when it
  stopped and what it returned, in the terms of its request. `Concurrency`: any number of such calls over the
  interleaved budget.
- `Chain`: services calling services, each with its own transport.
- `Patch`, `NamedLists`, `Ranking`, `ConfigFile`, `Inference`, `Provider`: partial policies,
  layered lists, the stable sort and scan, configuration files, downstream and operation
  inference, and the provider object. `Dimensions`: what the conditions of rules and operations
  decide, field by field.
- `Watch`: the blocking watch loop as a machine of single reads of a changing store.
  `Watcher` (module `WatcherLoop`): the loop as written, following that machine.
- `Capture`: reading the start of a body without changing what its consumer reads.

The environment of a call - server answers, clock readings, random draws, cancellation - is
a function of the attempt number that a theorem quantifies over, and an interleaving is a
sequence of events that it quantifies over, so a statement about all requests and all
sequences is a statement about every behaviour. In the watch loop the world is the store's
content at every tick.

## Where the code and its documentation differ

- `docs/config-reference.md` (section 11) applies the application's class policy and then the
  service's. The loader merges the two files instead. The results agree for all valid layers
  except when the application disables retries for a class and the service sets
  `disable_retry: false` without `max_retries`: the merge restores the caller's own retry
  count where the sequence gives zero (`Patches.MergeIsSequence`, `Patches.ReenablingDiffers`).
- `docs/config-reference.md` (section 6) says that an exact host match precedes a glob and
  that a pattern with a path segment precedes a host-only one. The scores guarantee the first
  for globs under 700 bytes and the second, between patterns that both match exactly or both as
  globs, for host-only patterns of up to 200 bytes; the exact conditions are `Inference.ExactAgainstGlob` and `Inference.SegmentAgainstHost`, and
  `Inference.GlobBeatsExactHost` and `Inference.HostBeatsSegment` are requests for which the
  documented order fails.
- `docs/config-reference.md` (section 12) says that creating, changing or deleting a key triggers
  a reload. Three watch readings of newer content do not: the first reading of a path, which
  only records a baseline, so that a write between the initial load and that reading is not
  loaded (`Watch.EarlyWriteCanBeLost`); a reading of changed content that comes without an index
  (`Watch.ChangeCanBeLost`); and the reading of a key that was absent at the previous watch read,
  was created, was picked up by a reload that something else caused, and is gone again
  (`Watch.DeletionCanBeLost`). `Watch.LostExactly` proves of every run that while no reload is
  pending a path is served older than observed exactly when such a reading of it was not
  followed by a completed reload.
- `reserve` clamps a balance above its capacity before it decides. When calls to one key carry
  different capacities, as they do around a reload, other calls can act in between, and a
  reservation need not be one atomic operation (`BudgetCas.ClampSplitsReservation`). All runs
  over a key's capacities are atomic if and only if it has a single capacity
  (`BudgetCas.AtomicExactlyWithOneCapacity`).
- With a custom policy resolver and no provider, a negative `MaxRetries` is not normalised:
  nothing is sent and both results are nil (`RoundTrip.ExactlyOneResult`).

## Model

| member | source | states |
|---|---|---|
| BudgetCas.ReachableInv | retry_budget.go:78-163 | the invariant of every reachable state: entries are separate, each pending swap remembers what it read, the log explains the shared balances |
| BudgetCas.Linearizable | retry_budget.go:78-163 | every interleaving is a legal history of creations, clamps, conditional debits and saturating credits that leaves exactly the shared balances; each returned call took its decision at one point after its start, with the answer it returned; no call decides twice; a clamp is an effect of its own |
| BudgetCas.DecisionIsAtomic | retry_budget.go:84-103 | every decision is one single-point reservation or credit on the balance it finds |
| BudgetCas.AtomicRuns | retry_budget.go:84-103 | in the order in which they were taken, the decisions of a run, whatever capacities its calls mix, are single-point operations if and only if each clamp is absorbed by the next decision on its key: a reservation of no greater capacity, or a credit that fills up to its own |
| BudgetCas.AnotherOrderCanExplain | retry_budget.go:84-103 | a run that does not absorb its clamp and is explained by another order than that of its decisions |
| BudgetCas.AtomicExactlyWithOneCapacity | retry_budget.go:84-103 | for every set of capacities: all runs in which the calls to a key carry capacities of the set are runs of single-point operations on the key, in some order that respects time, if and only if the set holds a single capacity |
| BudgetCas.TwoCapacitiesNotAtomic | retry_budget.go:84-103 | for any two different capacities a run of two reservations whose answers no order gives |
| BudgetCas.OneCapacityIsAtomic | retry_budget.go:84-103 | with one capacity for each key every run is one of single-point operations in the order in which its decisions were taken |
| BudgetCas.ClampedReservation | retry_budget.go:84-103 | a reservation that clamped first is, clamp and decision together, one single-point operation on the balance it clamped if and only if the key still holds its capacity at the decision, which it does when no other call wrote the key in between |
| BudgetCas.ClampSplitsReservation | retry_budget.go:84-103 | a run of three reservations with mixed capacities whose answers no order of three single-point reservations gives |
| BudgetCas.RealTimeOrder | retry_budget.go:78-163 | a call that returned before another started also took effect before it |
| BudgetCas.FailedSwapMeansForeignWrite | retry_budget.go:84-103 | a compare-and-swap fails only if another call changed that balance since it was read |
| BudgetCas.RacingLookupsAgree | retry_budget.go:155-163 | calls racing to create the entry of a key end up on one entry |
| BudgetCas.KeysAreIsolated | retry_budget.go:155-171 | an operation on one key changes no other key |
| BudgetCas.RefinesTotalMap | retry_budget.go:120-134 | where all calls to a key carry one capacity, whatever the others carry, its lazily created bucket is one that starts full: its balance and every answer agree, so skipping a success on a missing key is unobservable |
| BudgetCas.Conservation | retry_budget.go:78-153 | what a key holds and has spent never exceeds its creation capacity, refunds and earnings |
| BudgetCas.BalancesInRange | retry_budget.go:78-153 | under any mix of configurations balances stay between 0 and the largest capacity used |
| BudgetCas.NoOverflow | retry_budget.go:136-153 | no reachable debit or credit overflows 64 bits |
| BudgetCas.RisesOnlyByCredit | retry_budget.go:78-163 | a balance rises only when a refund or a success takes effect, by at most its amount and not above its capacity; reservations never add tokens, whatever capacity they carry |
| BudgetCas.AloneItReturns | retry_budget.go:78-163 | a call left alone returns after five of its own instructions, from any reachable state |
| LockFreedom.SomeCallReturns | retry_budget.go:78-163 | lock-freedom: from any reachable state with p pending calls, any p (4p + 5) + 1 of their instructions, in any interleaving and with any capacities, make at least one of them return |
| Budget.ToConfig | retry_budget.go:41-60 | the result is enabled exactly when the file says so, with the file's three amounts, all positive; it is an error only when an enabled file lacks a positive amount; anything not enabled is the disabled configuration |
| Budget.LayerPasses | retry_budget.go:62-76 | a layer passes exactly when every amount it sets is positive; it may leave amounts out |
| Budget.MergedBudgetServes | retry_consul.go:574-598 | of two layers each of the four budget fields is the upper layer's where it sets it and otherwise the lower's: the merge is accepted exactly when a budget so switched on has three positive amounts, and then serves those amounts; otherwise it is the disabled configuration |
| Budget.KeyExactly | retry_budget.go:165-171 | two names share a bucket exactly when they agree up to case and surrounding blanks, a blank name standing for unclassified |
| Budget.ReserveLoop | retry_budget.go:84-103 | against any finite series of foreign writes the loop has the effect and answer of the atomic reservation on the last written balance |
| Budget.CreditLoop | retry_budget.go:136-153 | likewise for the saturating credit |
| Budget.Reservation.Refund | retry_budget.go:112-118 | tokens come back once, under the capacity stored at reservation, and are seen under the names of that downstream and no others; a settled handle gives nothing |
| Budget.RetryBudget.EntryFor | retry_budget.go:155-163 | the entry of a key, created full if missing; all other keys keep their entries |
| Budget.RetryBudget.Reserve | retry_budget.go:78-104 | a disabled budget grants without a handle and changes nothing; an enabled one clamps the balance that the name finds, grants exactly when it covers the cost, leaves the new balance to every name of the same downstream and the old one to every other name, and hands out a fresh unsettled handle |
| Budget.RetryBudget.RecordSuccess | retry_budget.go:120-130 | credits the bucket of the name if it exists, up to the capacity, which every name of the same downstream then finds; every other name finds what it found before |
| Policy.Normalize | retry.go:166-183 | each field keeps a valid value and otherwise gets its default; the result is normalised, and a normalised policy is unchanged |
| Policy.ParseRetryAfter | retry.go:251-272 | a number of seconds is taken exactly if it is not negative and its nanoseconds fit 64 bits, and ignored otherwise; anything else is the time until its date, no less than zero, if it is one |
| Policy.BackoffClosedForm | retry.go:224-249 | for a normalised policy the delay is the capped exponential, over true integers, plus a jitter below it, capped again, and lies between the capped exponential and the maximum: no step wraps around |
| Policy.ComputeRetryDelay | retry.go:224-249 | a usable Retry-After is the delay; without one the loop in 64-bit arithmetic stays within 64 bits for every policy, and for a normalised one the delay is the capped exponential plus jitter, capped again |
| Text.BoolHeaderRoundTrip | retry.go:205-207 | a formatted flag parses back to itself |
| Text.BoolHeaderExactly | retry.go:205-207 | a flag is set exactly by the word true, in any case and with blanks around it |
| Text.TrimExactly | retry.go:205-207 | trimming cuts a text down to the part between its first and its last character that is not blank |
| Text.ParseOfFormat | retry.go:209-222 | a formatted number parses back to itself exactly when it fits 64 bits |
| Deadline.DeadlineRoundTrip | retry.go:209-222 | what crosses the wire is the deadline rounded down to its millisecond; rounding again changes nothing |
| Deadline.HeaderCountsMilliseconds | retry.go:209-218 | the header is a deadline exactly when its trimming is a number, and then counts milliseconds |
| Deadline.OverallIsEarliest | retry.go:274-295 | the overall deadline is the earliest of header, context and maximum elapsed time, and absent only when all are |
| Deadline.ImportIsEarliest | retry_governance.go:23-40 | an imported deadline is the earlier of the context's and the header's |
| Deadline.ImportExactly | retry_governance.go:23-40 | the flag is set in the imported context exactly when the context or the header sets it, and the deadline is the earlier of the two |
| RoundTrip.ExecInv | transport.go:147-245 | the invariant of every reachable state of a call, covering position, attempts sent, reservations, resources and decisions |
| RoundTrip.Terminates | transport.go:147-245 | every call ends within four steps per permitted retry and seven more, whatever the world answers |
| RoundTrip.ExactlyOneResult | transport.go:147-245 | exactly one of response and error is returned if and only if the retry limit is not negative; then at most limit + 1 attempts go out and the fall-through result is never used |
| RoundTrip.ReservationDiscipline | transport.go:145-230 | at the end each reservation was committed if the attempt it paid for was sent and refunded otherwise; with a budget, commits equal the reported retry count |
| RoundTrip.SettledForGood | retry_budget.go:106-118 | a settled reservation is never settled again |
| RoundTrip.ResourcesConserved | transport.go:163-243 | every response body but the returned one is drained and closed exactly once, the returned one not at all; every attempt context and the overall one has ended or belongs to the returned body |
| RoundTrip.RetriesAreJustified | transport.go:147-230 | every retry was allowed by policy, status, error, chain flag, limit and deadline; a call stopped only because one of them, the budget, the wait or the next preparation forbade going on |
| Decisions.RetriesExactly | transport.go:147-230 | of every finished call: it went on after an attempt only if the attempt had a retryable error, or none and a status among the policy's, with retryOn429 for a 429; and its number was below maxRetries, nothing said no-more-retry, a body could be had again, and no deadline in force lay before the decision or before the end of the wait. After such an attempt it went on unless the budget denied, the wait was cut short or the next attempt could not be prepared, that is its body could not be had or a deadline had come; a body without GetBody is sent at most once |
| Decisions.ResultExactly | transport.go:147-245 | it returns the outcome of its last attempt if it was denied or might not go on, else the error that cut the wait short or prevented the next attempt; the body of a request that was never sent is closed |
| RoundTrip.DelayHonoursRetryAfter | retry.go:224-272 | a Retry-After that is a number of seconds that fits gives exactly that delay, an HTTP date the time until it, no less than zero; otherwise the delay of a normalised policy is its closed form |
| RoundTrip.AttemptsRespectChain | transport.go:455-500 | no attempt starts after the overall deadline; its own deadline is the earlier of the overall one and its start plus the timeout, which is the policy's cut down to what remained; its header is the overall deadline, or else what was received; the no-more-retry flag is set exactly on the last permitted attempt or when received |
| RoundTrip.StepTokens | transport.go:147-230 | the tokens a call holds change only where it asks the budget: one more on a grant, one less on a refund |
| RoundTrip.StepEndsWell | transport.go:231-233 | a call ends successfully exactly by way of its one success credit |
| TransportLoop.CompleteIsRun | transport.go:147-245 | a call that is alone with the bucket is the run of the machine that is fed the answers the bucket gives |
| TransportLoop.EndIsRun | transport.go:147-245 | where such a call ends is a finished run of the machine |
| TransportLoop.EndIsRight | transport.go:125-245 | a call alone with the bucket, whatever the bucket holds, goes on, stops and returns as the request and the world's answers require, and is suppressed only with a budget |
| TransportLoop.Transport.RoundTrip | transport.go:125-245 | the code ends in the final state of a finished run of the machine, fed the bucket's answers, returns that state's result, retry count and suppression, and leaves the bucket as the machine does; it went on after exactly the attempts after which it might, and the result is the one `Decisions` requires |
| TransportLoop.Transport.AttemptLoop | transport.go:147-230 | the loop reaches the point of the success credit or the end on the machine's path, with the machine's results |
| TransportLoop.Transport.ArrangeRetry | transport.go:182-229 | reserve, discard, wait: denied, interrupted with the reservation given back, or on to the next attempt with it pending |
| Concurrency.AlwaysBalanced | transport.go:147-233 | in every interleaving of calls the books of the budget agree with the reservations, retries and successes of the calls |
| Concurrency.GlobalAccounting | transport.go:147-233 | whatever configurations calls mix, the balance and the price of all retries sent and reservations outstanding never exceed the creation capacity plus earnings; a key without a bucket has seen no retry |
| Concurrency.RetriesAreBudgeted | retry_budget.go:78-153 | under one configuration, balance + cost x (retries + outstanding) <= capacity + increment x successes, over every interleaving of any number of calls |
| Concurrency.DownstreamsAreBudgeted | retry_budget.go:78-171 | the same of a downstream by name: it counts the calls under all names that differ only in case and surrounding blanks, and no others |
| Chain.FlagStopsRetries | transport.go:130-134 | a call that received no-more-retry is sent at most once and passes the flag on |
| Chain.LastAttemptIsFlagged | transport.go:147-148 | at most limit + 1 attempts go out and the last permitted one carries the flag |
| Chain.Amplification | retry_governance.go:23-40 | over at most k hops with at most r retries each, a request reaches the leaf at most S(k) times, S(0) = 1 and S(k) = r S(k-1) + 1, and once if it carries the flag; skipped hops included |
| Chain.OneRetryIsLinear | transport.go:489-490 | with one retry per hop the bound is k + 1 |
| Chain.BoundIsReached | transport.go:147-230 | the bound is attained for every k and r |
| Chain.OnwardDeadline | transport.go:247-268 | what a hop passes on, retried or skipped, is the earlier of what it received and its own deadlines, rounded down |
| Chain.SkipPassesOn | transport.go:247-268 | a skipped request carries the flag exactly when it was received |
| Chain.DeadlineAfterPath | retry_governance.go:28-40 | after any number of hops the header is the earliest deadline of all, rounded down once however often it was encoded |
| Chain.PathLosesNoTime | retry_governance.go:28-40 | it never widens, respects every hop's own deadline, and is less than a millisecond early |
| Patches.CompileStatuses | retry_config_file.go:406-420 | accepted exactly when all statuses are in range, each kept once; otherwise the first offender is reported |
| Patches.ToPatch | retry_config_file.go:396-436 | accepted exactly when valid; each duration of the patch is what its own text says, which is positive, and is absent without a text; statuses keep their members, and the other fields are those of the file |
| Patches.Apply | dynamic_config.go:66-96 | field by field, what the patch sets wins and what it leaves open stays as normalised; disabling without a count gives zero retries |
| Patches.MergeKeepsValid | retry_consul.go:609-650 | merging valid patches gives a valid patch |
| Patches.MergeIsSequence | retry_consul.go:609-650 | applying the merge is applying base then override, for every policy, if and only if it is not the re-enabling case with a positive limit; there only the retry limit differs |
| Patches.ReenablingDiffers | retry_consul.go:618-629 | a concrete pair of patches for which the two readings differ, 3 retries against 0 |
| NamedLists.MergeNamedItems | retry_consul.go:652-673 | the first item of each name over override then base, and all nameless ones |
| NamedLists.MergedLayers | retry_consul.go:652-673 | layers with unique names merge to the override in full, then the base items it does not name |
| NamedLists.MergeIsClean | retry_consul.go:652-673 | whatever the input, names are unique, nothing is new and no name is lost |
| NamedLists.MergeStringLists | retry_consul.go:726-748 | the loop computes the merged list |
| NamedLists.MergedStringsUnite | retry_consul.go:726-748 | that list holds exactly both layers' trimmed nonblank patterns, each once |
| NamedLists.NormalizePatterns | retry_config_file.go:490-503 | the loop computes the trimmed nonblank patterns |
| NamedLists.PatternMembers | retry_config_file.go:490-503 | a pattern is in the result exactly when it is the nonblank trimming of some value |
| Ranking.SortSorts | retry_config_file.go:358-363 | the sort yields the same items, ordered by priority and then specificity |
| Ranking.SortIsStable | retry_config_file.go:358-363 | items of equal priority and specificity keep their order |
| Ranking.ScanPicksBest | retry_config_file.go:158-163 | for every rank and condition, sorting stably and taking the first match picks the greatest match by priority, specificity, earlier position, if there is a match |
| Ranking.BestIsUnique | retry_config_file.go:358-363 | there is at most one such greatest match, among compiled rules and among the rules of a file |
| ConfigFiles.CompileDownstreams | retry_config_file.go:615-644 | accepted exactly when every item is named, hosted and well formed and names differ |
| ConfigFiles.CompileOperations | retry_config_file.go:646-690 | likewise for operations, sorted |
| ConfigFiles.CompileCondition | retry_config_file.go:461-488 | accepted exactly when globs are well formed and classes known |
| ConfigFiles.CompileRules | retry_config_file.go:324-366 | accepted exactly when all names differ and every enabled rule has a policy, a valid patch and a constraining condition; disabled rules are dropped, the rest sorted |
| ConfigFiles.CompileFile | retry_config_file.go:283-368 | accepted exactly when the whole file is valid |
| ConfigFiles.MergeConfigFiles | retry_consul.go:547-598 | the merge of two files, section by section, the budget field by field from the override where it sets the field and otherwise from the base |
| ConfigFiles.MergeKeepsLayer | retry_consul.go:547-673 | merging two valid layers gives a valid layer |
| ConfigFiles.LoadConfigFile | retry_consul.go:492-527 | loading succeeds exactly when every layer found is readable and valid and the merged budget is complete |
| ConfigFiles.MergedFileIsValid | retry_consul.go:492-527 | any number of valid layers merges to a valid layer |
| Provider.ManagedRetryConfigProvider.Update | retry_config_file.go:260-281 | the whole configuration is replaced, or none of it |
| Provider.ManagedRetryConfigProvider.UpdateFromStore | retry_consul.go:146-152 | it fails only if loading fails: a loaded configuration is never rejected afterwards |
| Provider.ManagedRetryConfigProvider.ResolveRetryPolicy | retry_config_file.go:153-165 | the scan applies the class patch and then the first matching rule |
| Provider.ManagedRetryConfigProvider.ResolveScope | retry_config_file.go:199-213 | blank scope fields are filled in, the operation after the downstream |
| Provider.ManagedRetryConfigProvider.ResolveRequest | retry_config_file.go:215-232 | scope, policy and budget come from one configuration; in the scope what the caller's context sets wins, and only what it leaves blank is taken from the request or inferred |
| Provider.ScopeExactly | dynamic_config.go:98-131 | every field of the scope is the one in the caller's context where that is not blank; otherwise the configured caller name, the inferred downstream, the operation inferred for that downstream, the request's method in upper case, its host, its path or its class |
| Provider.BestDecides | retry_config_file.go:324-366 | dropping disabled rules does not change which rule is greatest |
| Provider.ScanAppliesDecidingRule | retry_config_file.go:153-165 | compile, sort and scan apply exactly the deciding rule of the file, or none if none applies |
| Dimensions.RuleAppliesExactly | retry_config_file.go:514-613 | a rule of the file applies exactly when it is enabled and in each of the seven dimensions that it constrains one of the listed values, trimmed and not blank, accepts the scope's own field: caller, downstream, operation and method up to case, host and path by glob, the class literally |
| Dimensions.OpenFieldsAreIgnored | retry_config_file.go:514-613 | two scopes that agree on the fields a rule constrains are treated alike by it |
| Dimensions.OneDimensionDecides | retry_config_file.go:514-613 | a rule cut down to one dimension applies exactly when it is enabled and that dimension, if constrained, admits the scope's own field |
| Dimensions.DimensionsConjoin | retry_config_file.go:514-613 | a rule applies exactly when it does cut down to each of its dimensions alone |
| Dimensions.SpecificityCounts | retry_config_file.go:514-551 | a rule's specificity is the number of dimensions it constrains |
| Provider.TwoLayersMerge | retry_consul.go:492-572 | two loaded layers are, section by section: the service's version or else the application's, the budget field by field, the internal hosts of both, the service's items followed by the application's that it does not name, and the merged class policies |
| Provider.LayeredResolution | retry_consul.go:492-673 | merging two layers and resolving any scope is the application's class policy, then the service's, then the deciding rule among the service's and the unshadowed application rules, with the re-enabling case as the exact exception |
| Provider.ServeFromLayers | retry_config_file.go:215-232 | from two layers of the store to the configuration of a request: it succeeds exactly when both are valid and a budget that they switch on has three positive amounts; each budget field is the service's if it sets it and otherwise the application's; the class comes from the internal hosts of both, downstream and operation from the service's items followed by the application's unshadowed ones, the rest of the scope from the caller's context and else the request, the policy from the merge |
| Provider.ServiceRulesPrevail | retry_consul.go:652-673 | a deciding application rule has a name the service does not use, even on a disabled rule, and outranks every service rule that applies |
| Inference.ExactAgainstGlob | retry_config_file.go:742-763 | when an exact match outscores a glob, exactly; always for globs under 700 bytes |
| Inference.SegmentAgainstHost | retry_config_file.go:742-763 | when a pattern with a segment outscores a host-only one of the same kind, exactly; always against up to 200 bytes |
| Inference.GlobBeatsExactHost | retry_config_file.go:709-763 | a request to host a for which a character class of 903 letters, configured second, is preferred to the exact host, 1005 against 1001 |
| Inference.HostBeatsSegment | retry_config_file.go:709-763 | a request to a host of 204 letters and path /x for which a host-only glob, configured second, is preferred to the pattern with the segment, 304 against 302 |
| Inference.FindBest | retry_config_file.go:718-729 | the triple loop computes the leader of the list |
| Inference.HostsScoreIsMax | retry_config_file.go:718-729 | an item's score is the highest over all pairs of pattern and candidate, and is attained |
| Inference.BestIsFirstMaximal | retry_config_file.go:718-729 | the leader is the first item with the highest score of all; none exactly when nothing applies |
| Inference.InferDownstream | retry_config_file.go:709-740 | the leader's name; else the first label of the host, which `Inference.LabelNamesTheRest` describes |
| Inference.ConfiguredDownstreamWins | retry_config_file.go:709-740 | if any pattern applies, the name is that of the first item attaining the highest score over the four candidates |
| Inference.LabelNamesTheRest | retry_config_file.go:733-740 | when no pattern applies to any candidate, the name is what stands before the first dot of the hostname, or the whole hostname if it begins with a dot |
| Inference.ScoreExactly | retry_config_file.go:742-763 | a pattern applies exactly when it is the candidate up to case or a glob that matches it; it then scores 1000 or 100, one for each character that is no wildcard, and 200 with a slash |
| Inference.CandidatesExactly | retry_config_file.go:709-785 | for every URL the four candidates are the host without and with its port, each alone and joined by a slash with the first segment of the path |
| Inference.FirstSegmentExactly | retry_config_file.go:776-785 | the first segment of a path is what stands, trimmed, between its leading slashes, however many, and the next one |
| Inference.InferOperation | retry_config_file.go:787-811 | the first matching operation, or the default name |
| Inference.OperationIsBest | retry_config_file.go:646-690 | over the operations of the file, compiled and sorted, the one chosen is the greatest matching one by its own priority, its dimensions, earlier position; the default only when none matches |
| Dimensions.OperationTakesExactly | retry_config_file.go:646-707 | an operation matches a request exactly when each of its lists that constrains accepts the method up to case, the host with or without its port by glob, the path by glob, or the downstream up to case |
| Dimensions.OperationSpecificityCounts | retry_config_file.go:646-690 | an operation's specificity is the number of its lists that constrain |
| Inference.DefaultOperationExactly | retry_config_file.go:813-820 | the default name is the trimmed method in upper case, a blank and the trimmed path, or a slash for a blank path; without a method the path alone |
| Watch.RunInv | retry_consul.go:283-375 | the invariant of every reachable state of the loop |
| Watch.WatchLosesExactlySlips | retry_consul.go:332-375 | from a state with nothing lost, a watch read loses a change if and only if it is one of the three readings that slip through |
| Watch.ReloadLosesNothing | retry_consul.go:283-320 | a completed reload serves every observed path as observed or newer, and a failed one stays pending |
| Watch.NoLostUpdate | retry_consul.go:283-375 | in every reachable state every observed path is served as last observed or newer, or a reload is pending, through errors, deletions, re-creations and failed reloads, as long as no reading slipped through |
| Watch.StepLosesExactlySlips | retry_consul.go:283-375 | at every reachable state with nothing lost, the next read loses a change exactly when it slips through |
| Watch.LostExactly | retry_consul.go:283-375 | of every run and path, with no condition on the store beyond consistent versions: while no reload is pending, what is served is older than what was last observed exactly when a reading of the path slipped through and no reload has completed since |
| Watch.OrderlyLosesOnlyBaselines | retry_consul.go:332-375 | for a store that gives an index with every present key and whose deleted keys stay deleted: while no reload is pending, an observed path is served as last observed or newer exactly when what was served at its first reading was no older than that reading, or a reload has completed since |
| Watch.DeletionCanBeLost | retry_consul.go:337-351 | a store and run in which a deleted configuration is served for good |
| Watch.ChangeCanBeLost | retry_consul.go:355-372 | a store and run in which a change that comes without an index is read at every tick and never loaded |
| Watch.EarlyWriteCanBeLost | retry_consul.go:362-364 | a store and run without failures in which a write between the initial load and the first watch read is observed at every tick and never loaded |
| Watch.Converges | retry_consul.go:283-320 | once the store is still and reads succeed, the loop stops reloading within a bounded number of reads, and then serves what the store holds of exactly those paths of which no reading slipped through since the last completed reload |
| Watch.AppConverges | retry_consul.go:539-545 | the same for the lookup paths of an application, within 22 reads |
| WatcherLoop.Watcher.WaitForChange | retry_consul.go:332-375 | one pass over the paths moves the watch states as the machine does, up to the first change, error or cancellation |
| WatcherLoop.Watcher.Reload | retry_consul.go:377-383 | what is served is replaced only by a complete and valid load |
| WatcherLoop.Watcher.RunUntil | retry_consul.go:283-320 | cancelled after any number of reads, the loop is where the machine is |
| Capture.ReadLimited | transport.go:420-420 | reads a prefix up to the limit, stopping early only at the end of the body, and reports its error |
| Capture.CaptureBody | transport.go:414-432 | the replacement yields the same bytes and the same end, at most limit + 1 bytes are read ahead, and the body is captured exactly when all of it fits and it ends without error; with the limit 2^63 - 1, which cannot be exceeded, a body that reaches it is cut off and counts as captured unless its error came with the last of those bytes |
| Capture.Replacement.Read | transport.go:442-445 | each read hands out the next remaining bytes and ends as the body would |
| Capture.Drain | transport.go:414-432 | any sequence of reads of the replacement sees all remaining bytes and then the end |

## Left out

- Client construction, the HTTP helper functions, multipart and JSON bodies, argument parsing: plumbing over libraries.
- The Consul client and YAML decoding: the store is a content and index per path and tick, and layers arrive decoded.
- `path.Match`, `time.ParseDuration`, `http.ParseTime`, `rand.Int63n` and the clock are parameters with arbitrary results; the random draw is reduced below the backoff base.
- Unicode: characters are ASCII, and bytes outside it fold to themselves.
- Error classification (`isRetryableError` and its Windows variant): a table over library errors, kept as an arbitrary boolean per error.
- Observers, logging, metrics, the Gin middleware and the retry-attempt and retry-reason headers, which no decision reads.
- Caller-supplied skippers, resolvers and custom providers: a request arrives with the policy and budget they chose; a skipped call appears only in `Chain`.
- A body opened by `GetBody` is not closed when the deadline check that follows fails (transport.go:457-472); the resource theorems speak of responses and contexts.
- A round tripper that breaks its contract: one that returns both response and error is covered by every theorem about a call except `RoundTrip.ExactlyOneResult`; one that returns neither makes the code dereference a nil response (transport.go:365), which the model does not show.
- `discardRetryResponse` reads a bounded number of bytes before closing; the model counts the drain and the close.
- Cancellation of a context by reading its body to the end or closing it (transport.go:640-652): ownership is modelled, the later release is the consumer's.
- Starting and stopping the single background watcher, the polling fallback, and the pause while all paths are missing: they add no state to the loop.
- The watch's blocking wait: a read answers with the store's content at some tick, however long it waited.
- Two layers loaded at different ticks may mix versions; `Watch` records which reading each path was loaded from.
- The compile functions state exactly which input is rejected but not which of several faults is named first.
- Body readers that return no bytes and no error.
- The class-level `Budget` loops run alone or against a given series of foreign writes; full interleaving is the subject of `BudgetCas`.
