/** Constraints across services. Every service answers an inbound request by making one
    outbound call through its own transport, under a context that imports the chain headers
    it received. */
module Chain {
  import opened Wrappers
  import opened Text
  import opened Budget
  import opened Policy
  import opened Deadline
  import opened RoundTrip

  /** A derived context can only tighten what it derives from. */
  predicate Narrows(ctx: Context, from: Context) {
    && (from.noMoreRetry ==> ctx.noMoreRetry)
    && (from.deadline.Some? ==> ctx.deadline.Some? && ctx.deadline.value <= from.deadline.value)
  }

  /** prepareSkippedRequest: no retry governance, but the chain headers are passed on. */
  function SkippedHeaders(r: Request): Headers {
    var deadline := OverallDeadline(r.headers.requestDeadline, r.ctx.deadline, 0, r.resolvedAt);
    Headers(FormatBool(NoMoreRetry(r)),
            if deadline.Some? then FormatDeadline(deadline.value) else r.headers.requestDeadline)
  }

  /** It passes the flag on exactly when it was told so. */
  lemma SkipPassesOn(r: Request)
    ensures ParseBoolHeader(SkippedHeaders(r).noMoreRetry) <==>
      r.ctx.noMoreRetry || EqualUpToCase(Trim(r.headers.noMoreRetry), "true")
  {
    BoolHeaderExactly(r.headers.noMoreRetry);
    BoolHeaderRoundTrip(NoMoreRetry(r));
    hide ParseBoolHeader, FormatBool, EqualUpToCase, Trim, OverallDeadline;
  }

  /** What one inbound request causes downstream: nothing more at the leaf service; at any
      other, one child per attempt of its call, or one child when its skipper matches. */
  datatype Tree =
    | Leaf
    | Hop(base: Context, request: Request, answers: seq<bool>, children: seq<Tree>)
    | Skip(base: Context, request: Request, child: Tree)

  /** The tree is what the inbound headers can cause when no policy allows more than `limit`
      retries. */
  ghost predicate Causes(inbound: Headers, t: Tree, limit: nat)
    decreases t
  {
    match t
    case Leaf => true
    case Hop(base, request, answers, children) =>
      var sent := Exec(request, answers).sent;
      && Narrows(request.ctx, ImportConstraints(base, inbound))
      && request.policy.maxRetries <= limit
      && |children| == |sent|
      && (forall i :: 0 <= i < |children| ==> Causes(sent[i].headers, children[i], limit))
    case Skip(base, request, child) =>
      Narrows(request.ctx, ImportConstraints(base, inbound)) && Causes(SkippedHeaders(request), child, limit)
  }

  /** The requests that reach the leaf service. */
  function Leaves(t: Tree): nat
    decreases t, 1
  {
    match t
    case Leaf => 1
    case Hop(_, _, _, children) => AllLeaves(children)
    case Skip(_, _, child) => Leaves(child)
  }

  function AllLeaves(ts: seq<Tree>): nat
    decreases ts, 0
  {
    if ts == [] then 0 else Leaves(ts[0]) + AllLeaves(ts[1..])
  }

  /** No path has more than `k` hops. */
  ghost predicate AtMost(t: Tree, k: nat)
    decreases t
  {
    match t
    case Leaf => true
    case Hop(_, _, _, children) => k > 0 && forall i :: 0 <= i < |children| ==> AtMost(children[i], k - 1)
    case Skip(_, _, child) => k > 0 && AtMost(child, k - 1)
  }

  /** What `n` subtrees cost at most when each costs `b`. */
  function Product(n: nat, b: nat): nat {
    n * b
  }

  /** The bound on amplification over `k` hops with at most `r` retries each. */
  function Bound(k: nat, r: nat): nat {
    if k == 0 then 1 else Product(r, Bound(k - 1, r)) + 1
  }

  lemma {:induction false} BoundGrows(k: nat, r: nat)
    ensures Bound(k, r) >= 1
  {
    if k > 0 {
      BoundGrows(k - 1, r);
    }
  }

  /** One retry per hop costs one more leaf request per hop, not a doubling. */
  lemma {:induction false} OneRetryIsLinear(k: nat)
    ensures Bound(k, 1) == k + 1
  {
    if k > 0 {
      OneRetryIsLinear(k - 1);
    }
  }

  /** A constrained call is sent at most once, and passes the constraint on. */
  lemma FlagStopsRetries(inbound: Headers, base: Context, r: Request, answers: seq<bool>)
    requires Narrows(r.ctx, ImportConstraints(base, inbound)) && ParseBoolHeader(inbound.noMoreRetry)
    ensures
      var sent := Exec(r, answers).sent;
      |sent| <= 1 && (|sent| == 1 ==> ParseBoolHeader(sent[0].headers.noMoreRetry))
  {
    ExecInv(r, answers);
    assert MaxRetries(r) <= 0 by { hide Exec, Inv, ParseBoolHeader, ParseDeadline; }
    assert NoMoreRetry(r) by { hide Exec, Inv, ParseBoolHeader, ParseDeadline; }
    if |Exec(r, answers).sent| >= 1 {
      AttemptsRespectChain(r, answers, 0);
    }
    hide Exec, MaxRetries, NoMoreRetry, SentOk, ReservationsOk, ResourcesOk, DecisionsOk, ParseBoolHeader,
      ParseDeadline;
  }

  /** The last permitted attempt, and only it, tells the next hop not to retry. */
  lemma LastAttemptIsFlagged(r: Request, answers: seq<bool>, limit: nat)
    requires r.policy.maxRetries <= limit
    ensures
      var sent := Exec(r, answers).sent;
      |sent| <= limit + 1 && (|sent| == limit + 1 ==> ParseBoolHeader(sent[limit].headers.noMoreRetry))
  {
    ExecInv(r, answers);
    assert MaxRetries(r) <= limit by { hide Exec, Inv, NoMoreRetry; }
    if |Exec(r, answers).sent| == limit + 1 {
      AttemptsRespectChain(r, answers, limit);
    }
    hide Exec, MaxRetries, NoMoreRetry, SentOk, ReservationsOk, ResourcesOk, DecisionsOk, ParseBoolHeader,
      ParseDeadline;
  }

  lemma ProductGrows(n: nat, m: nat, b: nat)
    requires n <= m
    ensures Product(n, b) <= Product(m, b) && Product(n + 1, b) == Product(n, b) + b && Product(0, b) == 0
  {
  }

  lemma ForestFits(leaves: nat, n: nat, k: nat, r: nat)
    requires k > 0 && n <= r + 1 && leaves <= Product(n, Bound(k - 1, r))
    requires n == r + 1 ==> leaves <= Product(n - 1, Bound(k - 1, r)) + 1
    ensures leaves <= Bound(k, r)
    ensures n == 0 ==> leaves == 0
  {
    if n <= r {
      ProductGrows(n, r, Bound(k - 1, r));
    }
  }

  /** Each attempt sent has its own subtree. */
  ghost predicate Forest(sent: seq<Sent>, ts: seq<Tree>, k: nat, limit: nat) {
    && |sent| == |ts|
    && forall i :: 0 <= i < |ts| ==> Causes(sent[i].headers, ts[i], limit) && AtMost(ts[i], k)
  }

  lemma UnfoldHop(inbound: Headers, t: Tree, k: nat, limit: nat)
    requires t.Hop? && Causes(inbound, t, limit) && AtMost(t, k)
    ensures k > 0 && t.request.policy.maxRetries <= limit
    ensures Narrows(t.request.ctx, ImportConstraints(t.base, inbound))
    ensures
      var sent := Exec(t.request, t.answers).sent;
      |sent| == |t.children| && Forest(sent, t.children, k - 1, limit)
  {
    hide Exec, ParseBoolHeader, Narrows, ImportConstraints;
  }

  lemma {:induction false} BoundMonotone(k: nat, r: nat)
    requires k > 0
    ensures Bound(k - 1, r) <= Bound(k, r)
  {
    if r > 0 {
      ProductGrows(1, r, Bound(k - 1, r));
    } else if k > 1 {
      BoundMonotone(k - 1, r);
    }
  }

  lemma SkipPassesFlag(inbound: Headers, base: Context, r: Request)
    requires Narrows(r.ctx, ImportConstraints(base, inbound)) && ParseBoolHeader(inbound.noMoreRetry)
    ensures ParseBoolHeader(SkippedHeaders(r).noMoreRetry)
  {
    BoolHeaderRoundTrip(NoMoreRetry(r));
    hide ParseBoolHeader, FormatBool, ParseDeadline;
  }

  /** Multi-hop amplification: over at most `k` hops with at most `limit` retries each, one
      request at the head reaches the leaf at most Bound(k, limit) times, and at most once
      when it already carries no-more-retry. */
  lemma {:induction false} Amplification(inbound: Headers, t: Tree, k: nat, limit: nat)
    requires Causes(inbound, t, limit) && AtMost(t, k)
    ensures Leaves(t) <= Bound(k, limit)
    ensures ParseBoolHeader(inbound.noMoreRetry) ==> Leaves(t) <= 1
    decreases t, 2
  {
    match t
    case Leaf => BoundGrows(k, limit);
    case Hop(base, request, answers, children) =>
      UnfoldHop(inbound, t, k, limit);
      hide Exec, ParseBoolHeader, Narrows, ImportConstraints, Bound, Causes, AtMost, Forest;
      HopAmplifies(inbound, base, request, answers, children, k, limit);
    case Skip(base, request, child) =>
      hide ParseBoolHeader, Narrows, ImportConstraints, Bound;
      Amplification(SkippedHeaders(request), child, k - 1, limit);
      BoundGrows(k - 1, limit);
      BoundMonotone(k, limit);
      if ParseBoolHeader(inbound.noMoreRetry) {
        SkipPassesFlag(inbound, base, request);
      }
  }

  lemma {:induction false} HopAmplifies(inbound: Headers, base: Context, r: Request, answers: seq<bool>,
      children: seq<Tree>, k: nat, limit: nat)
    requires k > 0 && r.policy.maxRetries <= limit && Narrows(r.ctx, ImportConstraints(base, inbound))
    requires Forest(Exec(r, answers).sent, children, k - 1, limit)
    ensures AllLeaves(children) <= Bound(k, limit)
    ensures ParseBoolHeader(inbound.noMoreRetry) ==> AllLeaves(children) <= 1
    decreases children, 1
  {
    hide Exec, ParseBoolHeader, Narrows, ImportConstraints, Bound, Causes, AtMost, Product, AllLeaves;
    var sent := Exec(r, answers).sent;
    LastAttemptIsFlagged(r, answers, limit);
    if ParseBoolHeader(inbound.noMoreRetry) {
      FlagStopsRetries(inbound, base, r, answers);
    }
    ForestAmplifies(sent, children, k - 1, limit);
    ProductGrows(0, 0, Bound(k - 1, limit));
    ForestFits(AllLeaves(children), |sent|, k, limit);
  }

  lemma {:induction false} ForestAmplifies(sent: seq<Sent>, ts: seq<Tree>, k: nat, limit: nat)
    requires Forest(sent, ts, k, limit)
    ensures AllLeaves(ts) <= Product(|ts|, Bound(k, limit))
    ensures ts != [] && ParseBoolHeader(sent[|ts| - 1].headers.noMoreRetry) ==>
      AllLeaves(ts) <= Product(|ts| - 1, Bound(k, limit)) + 1
    decreases ts, 0
  {
    hide Causes, AtMost, ParseBoolHeader, Product;
    ProductGrows(0, 0, Bound(k, limit));
    if ts != [] {
      Amplification(sent[0].headers, ts[0], k, limit);
      ForestAmplifies(sent[1..], ts[1..], k, limit);
      ProductGrows(|ts| - 1, |ts|, Bound(k, limit));
      if |ts| > 1 {
        ProductGrows(|ts| - 2, |ts|, Bound(k, limit));
        assert sent[1..][|ts| - 2] == sent[|ts| - 1];
      }
    }
  }

  // ----- the bound is reached -----

  /** A call whose every attempt is answered 503, with no deadline and no budget. */
  function WorstCall(noMoreRetry: bool, limit: nat): Request {
    Request(Context(noMoreRetry, None), Headers("", ""), RetryPolicy(limit, SECOND, 0, 1, 1, Some({503}), true),
            0, false, false, "",
            Config(false, 0, 0, 0),
            (k: nat) => Attempt(None, 0, 0, Some(Response(503, false, "", None)), None, 0, 0, 0, None))
  }

  function Granted(n: nat): seq<bool> {
    seq(n, _ => true)
  }

  lemma GrantedStep(r: Request, s: State)
    requires !s.suppressed
    ensures !Step(r, s, true).suppressed
  {
    hide PrepareAttempt, MaxRetries, ShouldRetry, WaitOverruns, DelayAfter, HasPending, Settle, Succeeded,
      DiscardBodies, DiscardContexts;
  }

  lemma {:induction false} NeverSuppressed(r: Request, answers: seq<bool>)
    requires forall i :: 0 <= i < |answers| ==> answers[i]
    ensures !Exec(r, answers).suppressed
  {
    if answers != [] {
      var s := Exec(r, answers[..|answers| - 1]);
      NeverSuppressed(r, answers[..|answers| - 1]);
      GrantedStep(r, s);
    }
  }

  lemma AbsentFlag()
    ensures !ParseBoolHeader("") && ParseDeadline("").None?
  {
    assert |Trim("")| == 0;
  }

  lemma WorstCallLimit(noMoreRetry: bool, limit: nat)
    ensures
      var r := WorstCall(noMoreRetry, limit);
      && NoMoreRetry(r) == noMoreRetry && Overall(r).None?
      && MaxRetries(r) == if noMoreRetry then 0 else limit
  {
    AbsentFlag();
    hide ParseBoolHeader, ParseDeadline;
  }

  lemma WorstCallPrepared(noMoreRetry: bool, limit: nat, k: nat)
    ensures
      var r := WorstCall(noMoreRetry, limit);
      && PrepareAttempt(r, k).Ok?
      && PrepareAttempt(r, k).value.headers == Headers(FormatBool(k == MaxRetries(r) || noMoreRetry), "")
  {
    WorstCallLimit(noMoreRetry, limit);
    hide FormatBool, FormatDeadline, MaxRetries, NoMoreRetry, Overall;
  }

  lemma WorstCallGoesOn(noMoreRetry: bool, limit: nat, k: nat)
    ensures
      var r := WorstCall(noMoreRetry, limit);
      && PrepareAttempt(r, k).Ok?
      && PrepareAttempt(r, k).value.headers == Headers(FormatBool(k == MaxRetries(r) || noMoreRetry), "")
      && MaxRetries(r) == (if noMoreRetry then 0 else limit)
      && (k < MaxRetries(r) ==> Justified(r, k, PrepareAttempt(r, k).value))
      && !WaitFailed(r, k)
  {
    WorstCallLimit(noMoreRetry, limit);
    WorstCallPrepared(noMoreRetry, limit, k);
    BoolHeaderRoundTrip(k == MaxRetries(WorstCall(noMoreRetry, limit)) || noMoreRetry);
    hide RetryDelay, FormatBool, ParseBoolHeader, PrepareAttempt, MaxRetries, NoMoreRetry, Overall, DelayAfter;
  }

  lemma GrantedAll(n: nat)
    ensures |Granted(n)| == n && forall i :: 0 <= i < n ==> Granted(n)[i]
  {
  }

  /** It ends only when no retry is left. */
  lemma WorstCallEnds(noMoreRetry: bool, limit: nat)
    ensures
      var r := WorstCall(noMoreRetry, limit);
      var s := Exec(r, Granted(4 * limit + 7));
      && SentOk(r, s.sent) && MaxRetries(r) == (if noMoreRetry then 0 else limit)
      && |s.sent| == MaxRetries(r) + 1
  {
    hide Exec, WorstCall, MaxRetries, PrepareAttempt, Justified, WaitFailed, ReservationsOk, ResourcesOk,
      FormatBool, Granted, NoMoreRetry;
    var r, answers := WorstCall(noMoreRetry, limit), Granted(4 * limit + 7);
    var s := Exec(r, answers);
    GrantedAll(4 * limit + 7);
    WorstCallGoesOn(noMoreRetry, limit, 0);
    Terminates(r, answers);
    NeverSuppressed(r, answers);
    ExecInv(r, answers);
    WorstCallGoesOn(noMoreRetry, limit, |s.sent|);
    if s.sent != [] {
      WorstCallGoesOn(noMoreRetry, limit, |s.sent| - 1);
      assert PrepareAttempt(r, |s.sent| - 1) == Ok(s.sent[|s.sent| - 1]);
    }
  }

  /** It is sent as often as its limit allows. */
  lemma WorstCallSends(noMoreRetry: bool, limit: nat)
    ensures
      var sent, n := Exec(WorstCall(noMoreRetry, limit), Granted(4 * limit + 7)).sent, if noMoreRetry then 0 else limit;
      |sent| == n + 1 && forall k :: 0 <= k <= n ==> sent[k].headers == Headers(FormatBool(k == n || noMoreRetry), "")
  {
    hide Exec, WorstCall, MaxRetries, PrepareAttempt, Justified, WaitFailed, FormatBool, Granted;
    var r, n := WorstCall(noMoreRetry, limit), if noMoreRetry then 0 else limit;
    var sent := Exec(r, Granted(4 * limit + 7)).sent;
    WorstCallEnds(noMoreRetry, limit);
    forall k | 0 <= k <= n
      ensures sent[k].headers == Headers(FormatBool(k == n || noMoreRetry), "")
    {
      WorstCallGoesOn(noMoreRetry, limit, k);
      assert PrepareAttempt(r, k) == Ok(sent[k]);
    }
  }

  function Siblings(t: Tree, n: nat, last: Tree): (ts: seq<Tree>)
    ensures |ts| == n + 1 && ts[n] == last && forall i :: 0 <= i < n ==> ts[i] == t
  {
    seq(n, _ => t) + [last]
  }

  /** A hop that makes the worst call, where only the last attempt is flagged. */
  function WorstNode(noMoreRetry: bool, limit: nat, free: Tree, flagged: Tree): Tree {
    Hop(Context(false, None), WorstCall(noMoreRetry, limit), Granted(4 * limit + 7),
      Siblings(free, if noMoreRetry then 0 else limit, flagged))
  }

  function WorstTree(noMoreRetry: bool, k: nat, limit: nat): Tree
    decreases k
  {
    if k == 0 then Leaf
    else WorstNode(noMoreRetry, limit, WorstTree(false, k - 1, limit), WorstTree(true, k - 1, limit))
  }

  lemma SiblingsTail(t: Tree, n: nat, last: Tree)
    ensures n > 0 ==> Siblings(t, n, last)[0] == t && Siblings(t, n, last)[1..] == Siblings(t, n - 1, last)
    ensures n == 0 ==> Siblings(t, n, last) == [last]
  {
  }

  lemma {:induction false} AllLeavesAlike(t: Tree, n: nat, last: Tree)
    ensures AllLeaves(Siblings(t, n, last)) == Product(n, Leaves(t)) + Leaves(last)
    decreases n
  {
    hide Leaves, Siblings, Product;
    SiblingsTail(t, n, last);
    ProductGrows(0, 0, Leaves(t));
    if n == 0 {
      assert [last][1..] == [];
    } else {
      AllLeavesAlike(t, n - 1, last);
      ProductGrows(n - 1, n - 1, Leaves(t));
    }
  }

  function FlagOnly(noMoreRetry: bool): Headers {
    Headers(FormatBool(noMoreRetry), "")
  }

  lemma WorstCallNarrows(noMoreRetry: bool, limit: nat)
    ensures Narrows(WorstCall(noMoreRetry, limit).ctx, ImportConstraints(Context(false, None), FlagOnly(noMoreRetry)))
    ensures WorstCall(noMoreRetry, limit).policy.maxRetries <= limit
  {
    BoolHeaderRoundTrip(noMoreRetry);
    hide ParseBoolHeader, FormatBool;
  }

  /** The tree can follow a request that carries only this flag. */
  ghost predicate Possible(noMoreRetry: bool, k: nat, limit: nat, t: Tree) {
    Causes(FlagOnly(noMoreRetry), t, limit) && AtMost(t, k)
  }

  /** The converse of UnfoldHop. */
  lemma FoldHop(inbound: Headers, t: Tree, k: nat, limit: nat)
    requires t.Hop? && t.request.policy.maxRetries <= limit
    requires Narrows(t.request.ctx, ImportConstraints(t.base, inbound))
    requires Forest(Exec(t.request, t.answers).sent, t.children, k, limit)
    ensures Causes(inbound, t, limit) && AtMost(t, k + 1)
  {
    hide Exec, ParseBoolHeader, Narrows, ImportConstraints;
  }

  lemma WorstForest(noMoreRetry: bool, k: nat, limit: nat, free: Tree, flagged: Tree)
    requires Possible(false, k, limit, free) && Possible(true, k, limit, flagged)
    ensures
      Forest(Exec(WorstCall(noMoreRetry, limit), Granted(4 * limit + 7)).sent,
             Siblings(free, if noMoreRetry then 0 else limit, flagged), k, limit)
  {
    hide Exec, FormatBool, WorstCall, Granted, Siblings, Causes, AtMost;
    WorstCallSends(noMoreRetry, limit);
    var n := if noMoreRetry then 0 else limit;
    var sent, children := Exec(WorstCall(noMoreRetry, limit), Granted(4 * limit + 7)).sent, Siblings(free, n, flagged);
    forall i | 0 <= i < |children|
      ensures Causes(sent[i].headers, children[i], limit) && AtMost(children[i], k)
    {
      assert sent[i].headers == FlagOnly(i == n);
      hide FlagOnly;
    }
  }

  lemma WorstHop(noMoreRetry: bool, k: nat, limit: nat, free: Tree, flagged: Tree)
    requires Possible(false, k, limit, free) && Possible(true, k, limit, flagged)
    ensures Possible(noMoreRetry, k + 1, limit, WorstNode(noMoreRetry, limit, free, flagged))
  {
    hide Exec, FlagOnly, WorstCall, Granted, Siblings, Causes, AtMost, Narrows, ImportConstraints, Forest;
    WorstCallNarrows(noMoreRetry, limit);
    WorstForest(noMoreRetry, k, limit, free, flagged);
    FoldHop(FlagOnly(noMoreRetry), WorstNode(noMoreRetry, limit, free, flagged), k, limit);
  }

  lemma WorstTreeUnfolds(noMoreRetry: bool, k: nat, limit: nat)
    ensures k == 0 ==> Possible(noMoreRetry, k, limit, WorstTree(noMoreRetry, k, limit))
    ensures k > 0 ==>
      WorstTree(noMoreRetry, k, limit) ==
        WorstNode(noMoreRetry, limit, WorstTree(false, k - 1, limit), WorstTree(true, k - 1, limit))
  {
    hide WorstNode;
  }

  lemma {:induction false} WorstTreeIsPossible(noMoreRetry: bool, k: nat, limit: nat)
    ensures Possible(noMoreRetry, k, limit, WorstTree(noMoreRetry, k, limit))
    decreases k
  {
    hide *;
    WorstTreeUnfolds(noMoreRetry, k, limit);
    if k > 0 {
      WorstTreeIsPossible(true, k - 1, limit);
      WorstTreeIsPossible(false, k - 1, limit);
      WorstHop(noMoreRetry, k - 1, limit, WorstTree(false, k - 1, limit), WorstTree(true, k - 1, limit));
    }
  }

  lemma {:induction false} WorstTreeLeaves(noMoreRetry: bool, k: nat, limit: nat)
    ensures Leaves(WorstTree(noMoreRetry, k, limit)) == if noMoreRetry then 1 else Bound(k, limit)
    decreases k
  {
    if k > 0 {
      WorstTreeLeaves(true, k - 1, limit);
      WorstTreeLeaves(false, k - 1, limit);
      var flagged, free := WorstTree(true, k - 1, limit), WorstTree(false, k - 1, limit);
      ProductGrows(0, 0, Leaves(free));
      AllLeavesAlike(free, if noMoreRetry then 0 else limit, flagged);
      hide WorstCall, Siblings, Granted, Product, AllLeaves;
    }
  }

  /** The bound on amplification is attained for every number of hops and every limit. */
  lemma BoundIsReached(k: nat, limit: nat)
    ensures exists t :: Causes(FlagOnly(false), t, limit) && AtMost(t, k) && Leaves(t) == Bound(k, limit)
  {
    WorstTreeIsPossible(false, k, limit);
    WorstTreeLeaves(false, k, limit);
  }

  // ----- deadlines along a path -----

  /** One hop of a path: a call made while answering an inbound request, and which of its
      attempts went on; or a call whose skipper matched. */
  datatype PathHop = PathHop(base: Context, request: Request, answers: seq<bool>, attempt: nat, skipped: bool)

  predicate HopTaken(h: PathHop) {
    h.skipped || h.attempt < |Exec(h.request, h.answers).sent|
  }

  /** What the hop passes on. */
  function Onward(h: PathHop): Headers
    requires HopTaken(h)
  {
    if h.skipped then SkippedHeaders(h.request) else Exec(h.request, h.answers).sent[h.attempt].headers
  }

  /** Each hop answers the headers it received under the context they were imported into. */
  ghost predicate IsPath(inbound: Headers, hops: seq<PathHop>)
    decreases |hops|
  {
    hops == [] ||
    (&& HopTaken(hops[0])
     && hops[0].request.ctx == ImportConstraints(hops[0].base, inbound)
     && IsPath(Onward(hops[0]), hops[1..]))
  }

  function PathEnd(inbound: Headers, hops: seq<PathHop>): Headers
    requires IsPath(inbound, hops)
    decreases |hops|
  {
    if hops == [] then inbound else PathEnd(Onward(hops[0]), hops[1..])
  }

  /** The earliest of the deadlines a hop has of its own: its context's, its request
      header's, and its retry policy's. */
  function Own(h: PathHop): Option<int> {
    OverallDeadline(h.request.headers.requestDeadline, h.base.deadline,
                    if h.skipped then 0 else h.request.policy.maxElapsedTime, h.request.resolvedAt)
  }

  function EarliestOwn(hops: seq<PathHop>): Option<int> {
    if hops == [] then None else Earlier(Own(hops[0]), EarliestOwn(hops[1..]))
  }

  predicate EncodableDeadline(t: Option<int>) {
    t.Some? ==> Encodable(t.value)
  }

  function Floor(t: Option<int>): Option<int> {
    if t.None? then None else Some(FloorMs(t.value))
  }

  lemma FloorOfEarlier(a: Option<int>, b: Option<int>)
    ensures Floor(Earlier(a, Floor(b))) == Floor(Earlier(a, b)) == Floor(Earlier(b, a))
    ensures Floor(Earlier(Floor(a), b)) == Floor(Earlier(a, b))
    ensures Floor(Earlier(a, b)) == Earlier(Floor(a), Floor(b))
  {
  }

  lemma EarlierAssociates(a: Option<int>, b: Option<int>, c: Option<int>)
    ensures Earlier(a, Earlier(b, c)) == Earlier(Earlier(a, b), c)
  {
  }

  lemma ParsedFits(value: string)
    ensures ParseInt(value).Some? ==> IsInt64(ParseInt(value).value)
  {
    hide ValueOf;
  }

  /** What is parsed is whole milliseconds. */
  lemma ParsedIsWhole(value: string)
    ensures Floor(ParseDeadline(value)) == ParseDeadline(value) && EncodableDeadline(ParseDeadline(value))
  {
    hide ParseInt, Trim;
    ParsedFits(Trim(value));
  }

  /** The deadline in force for a hop's call. */
  lemma OverallOfHop(inbound: Headers, h: PathHop)
    requires h.request.ctx == ImportConstraints(h.base, inbound)
    ensures
      OverallDeadline(h.request.headers.requestDeadline, h.request.ctx.deadline,
                      if h.skipped then 0 else h.request.policy.maxElapsedTime, h.request.resolvedAt)
      == Earlier(ParseDeadline(inbound.requestDeadline), Own(h))
  {
    hide ParseDeadline, ParseBoolHeader;
  }

  lemma OnwardDeadline(inbound: Headers, h: PathHop)
    requires HopTaken(h) && h.request.ctx == ImportConstraints(h.base, inbound) && EncodableDeadline(Own(h))
    ensures ParseDeadline(Onward(h).requestDeadline) == Floor(Earlier(ParseDeadline(inbound.requestDeadline), Own(h)))
  {
    var overall := Earlier(ParseDeadline(inbound.requestDeadline), Own(h));
    OverallOfHop(inbound, h);
    ParsedIsWhole(inbound.requestDeadline);
    if overall.Some? {
      DeadlineRoundTrip(overall.value);
    }
    if !h.skipped {
      AttemptsRespectChain(h.request, h.answers, h.attempt);
    }
    hide ParseDeadline, FormatDeadline, Exec, FormatBool, ParseBoolHeader, Own;
  }

  /** Deadlines never widen over any number of hops: what the last one receives is the
      earliest of the inbound deadline and all the deadlines of the hops' own, rounded down
      once to the millisecond however many times it was encoded. */
  lemma {:induction false} DeadlineAfterPath(inbound: Headers, hops: seq<PathHop>)
    requires IsPath(inbound, hops) && forall i :: 0 <= i < |hops| ==> EncodableDeadline(Own(hops[i]))
    ensures ParseDeadline(PathEnd(inbound, hops).requestDeadline) ==
      Floor(Earlier(ParseDeadline(inbound.requestDeadline), EarliestOwn(hops)))
    decreases |hops|
  {
    ParsedIsWhole(inbound.requestDeadline);
    hide ParseDeadline, HopTaken, Onward, Own, ImportConstraints;
    if hops != [] {
      var rest, received := hops[1..], ParseDeadline(inbound.requestDeadline);
      OnwardDeadline(inbound, hops[0]);
      DeadlineAfterPath(Onward(hops[0]), rest);
      FloorOfEarlier(Earlier(received, Own(hops[0])), EarliestOwn(rest));
      EarlierAssociates(received, Own(hops[0]), EarliestOwn(rest));
      hide Earlier, Floor;
    }
  }

  lemma {:induction false} EarliestOfPath(hops: seq<PathHop>)
    ensures
      var t := EarliestOwn(hops);
      && (forall i :: 0 <= i < |hops| && Own(hops[i]).Some? ==> t.Some? && t.value <= Own(hops[i]).value)
      && (t.Some? ==> exists i :: 0 <= i < |hops| && Own(hops[i]) == t)
  {
    hide Own;
    if hops != [] {
      EarliestOfPath(hops[1..]);
      assert forall i :: 0 <= i < |hops| - 1 ==> hops[1..][i] == hops[i + 1];
      forall i | 0 <= i < |hops| && Own(hops[i]).Some?
        ensures EarliestOwn(hops).Some? && EarliestOwn(hops).value <= Own(hops[i]).value
      {
        if i > 0 {
          assert hops[i] == hops[1..][i - 1];
        }
      }
    }
  }

  /** In particular it is never later than what came in, and no hop's own deadline is
      exceeded; and it is less than a millisecond earlier than some one of them. */
  lemma PathLosesNoTime(inbound: Headers, hops: seq<PathHop>)
    requires IsPath(inbound, hops) && forall i :: 0 <= i < |hops| ==> EncodableDeadline(Own(hops[i]))
    ensures
      var received, passed :=
        ParseDeadline(inbound.requestDeadline), ParseDeadline(PathEnd(inbound, hops).requestDeadline);
      && (received.Some? ==> passed.Some? && passed.value <= received.value)
      && (forall i :: 0 <= i < |hops| && Own(hops[i]).Some? ==> passed.Some? && passed.value <= Own(hops[i]).value)
      && (passed.Some? ==>
            || (received.Some? && passed.value == received.value)
            || exists i :: 0 <= i < |hops| && Own(hops[i]).Some? && Own(hops[i]).value - MILLISECOND < passed.value)
  {
    DeadlineAfterPath(inbound, hops);
    ParsedIsWhole(inbound.requestDeadline);
    EarliestOfPath(hops);
    hide ParseDeadline, Own, PathEnd, IsPath, EarliestOwn;
  }
}
