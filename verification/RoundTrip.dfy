/** One outbound call of the retrying transport. The environment of a call - what GetBody,
    the wrapped round tripper, the clock, the random source and the backoff wait answer at
    each attempt - is a function of the attempt number, so a statement about every request
    is a statement about every behaviour of the world around it. Budget answers come from
    outside: alone, from the bucket itself; under concurrency, from the interleaving. */
module RoundTrip {
  import opened Wrappers
  import opened Text
  import opened Budget
  import opened Policy
  import opened Deadline

  /** Errors, with the classification isRetryableError gives them. */
  datatype Error = DeadlineExceeded | Canceled | ReplayFailed | Transport(retryable: bool)

  predicate IsRetryableError(e: Error) {
    e.DeadlineExceeded? || (e.Transport? && e.retryable)
  }

  datatype Response = Response(status: int, hasBody: bool, retryAfter: string, untilDate: Option<int>)

  /** The answers of the environment at one attempt. */
  datatype Attempt = Attempt(
    replayError: Option<Error>,     // req.GetBody
    checkedAt: int,                 // time.Until(overallDeadline)
    startedAt: int,                 // context.WithTimeout
    response: Option<Response>,     // the wrapped round tripper
    error: Option<Error>,
    judgedAt: int,                  // time.Now in shouldRetry
    delayedAt: int,                 // time.Now before the backoff
    draw: nat,                      // rand.Int63n
    waitError: Option<Error>)       // waitRetryDelay, for a positive delay

  datatype Request = Request(
    ctx: Context,
    headers: Headers,
    policy: RetryPolicy,
    resolvedAt: int,
    hasBody: bool,
    hasGetBody: bool,
    downstream: string,
    budget: Config,
    env: nat -> Attempt)

  // ----- decisions -----

  function Overall(r: Request): Option<int> {
    OverallDeadline(r.headers.requestDeadline, r.ctx.deadline, r.policy.maxElapsedTime, r.resolvedAt)
  }

  predicate NoMoreRetry(r: Request) {
    r.ctx.noMoreRetry || ParseBoolHeader(r.headers.noMoreRetry)
  }

  /** The retry limit in force for this call. */
  function MaxRetries(r: Request): int {
    var limit := if NoMoreRetry(r) then 0 else r.policy.maxRetries;
    if r.hasBody && !r.hasGetBody && limit > 0 then 0 else limit
  }

  /** An attempt as it leaves: its chain headers, the clock reading that admitted it and the
      deadline of its context. */
  datatype Sent = Sent(headers: Headers, checkedAt: int, deadline: int)

  /** The timeout an attempt gets: the policy's, shortened to what remains overall. */
  function AttemptTimeout(perAttempt: int, remaining: Option<int>): int {
    var shortened :=
      if remaining.Some? && (perAttempt <= 0 || remaining.value < perAttempt) then remaining.value else perAttempt;
    if shortened <= 0 then DEFAULT_PER_ATTEMPT_TIMEOUT else shortened
  }

  /** prepareAttemptRequest. */
  function PrepareAttempt(r: Request, attempt: nat): Result<Sent, Error> {
    var a, overall := r.env(attempt), Overall(r);
    if attempt > 0 && r.hasGetBody && a.replayError.Some? then Err(a.replayError.value)
    else if overall.Some? && overall.value - a.checkedAt <= 0 then Err(DeadlineExceeded)
    else
      var remaining := if overall.Some? then Some(overall.value - a.checkedAt) else None;
      var timeout := AttemptTimeout(r.policy.perAttemptTimeout, remaining);
      var deadline := Earlier(overall, Some(a.startedAt + timeout)).value;
      var noMoreRetry := FormatBool(attempt == MaxRetries(r) || NoMoreRetry(r));
      var requestDeadline := if overall.Some? then FormatDeadline(overall.value) else r.headers.requestDeadline;
      Ok(Sent(Headers(noMoreRetry, requestDeadline), a.checkedAt, deadline))
  }

  predicate StatusRetryable(p: RetryPolicy, status: int) {
    && p.retryOnStatuses.Some? && status in p.retryOnStatuses.value
    && (status == 429 ==> p.retryOn429)
  }

  predicate ShouldRetry(r: Request, attempt: nat, sent: Sent) {
    var a, overall := r.env(attempt), Overall(r);
    && attempt < MaxRetries(r)
    && !(overall.Some? && a.judgedAt > overall.value)
    && !(r.ctx.noMoreRetry || ParseBoolHeader(sent.headers.noMoreRetry))
    && (if a.error.Some? then IsRetryableError(a.error.value)
        else a.response.Some? && StatusRetryable(r.policy, a.response.value.status))
  }

  function DelayAfter(r: Request, attempt: nat): int {
    var a := r.env(attempt);
    var retryAfter :=
      if a.response.None? then None else ParseRetryAfter(a.response.value.retryAfter, a.response.value.untilDate);
    RetryDelay(r.policy, attempt, retryAfter, a.draw)
  }

  /** A response whose Retry-After is a number of seconds that fits gives exactly that delay; an
      HTTP date the time until it, if it is ahead; and otherwise the delay is the capped
      exponential with jitter. */
  lemma DelayHonoursRetryAfter(r: Request, attempt: nat)
    ensures
      var a, delay := r.env(attempt), DelayAfter(r, attempt);
      var value := if a.response.Some? then a.response.value.retryAfter else "";
      var number := ParseInt(Trim(value));
      if value != "" && number.Some? && 0 <= number.value && IsInt64(number.value * 1_000_000_000)
      then delay == number.value * 1_000_000_000
      else if value != "" && number.None? && a.response.value.untilDate.Some?
      then delay == if a.response.value.untilDate.value > 0 then a.response.value.untilDate.value else 0
      else Normalized(r.policy) && Representable(r.policy) ==> IsJittered(r.policy, attempt, a.draw, delay)
  {
    hide Trim, ParseInt, Backoff, IsJittered;
    if Normalized(r.policy) && Representable(r.policy) {
      BackoffClosedForm(r.policy, attempt, r.env(attempt).draw);
    }
  }

  predicate WaitOverruns(r: Request, attempt: nat) {
    var delay, overall := DelayAfter(r, attempt), Overall(r);
    overall.Some? && delay > 0 && r.env(attempt).delayedAt + delay > overall.value
  }

  // ----- state -----

  datatype Settlement = Pending | Committed | Refunded

  datatype Ctx = Live | Cancelled | OwnedByBody

  datatype Body = Body(present: bool, drains: nat, closes: nat)

  /** Attempt, Reserve, GiveBack and Credit are the points where a call meets the world. */
  datatype Pc = AtAttempt | AtJudge | AtReserve | AtBackoff | AtGiveBack | AtCredit | AtDone

  /** A response is named by the attempt that obtained it. */
  datatype State = State(
    pc: Pc,
    attempt: nat,
    sent: seq<Sent>,
    reservations: seq<Settlement>,
    bodies: seq<Body>,
    contexts: seq<Ctx>,
    overall: Ctx,
    finalResp: Option<nat>,
    finalErr: Option<Error>,
    lastResp: Option<nat>,
    lastErr: Option<Error>,
    suppressed: bool,
    requestBodyClosed: bool)

  const START := State(AtAttempt, 0, [], [], [], [], Live, None, None, None, None, false, false)

  predicate HasPending(reservations: seq<Settlement>) {
    reservations != [] && reservations[|reservations| - 1] == Pending
  }

  /** commit or refund of the pending reservation, if there is one. */
  function Settle(reservations: seq<Settlement>, to: Settlement): seq<Settlement> {
    if HasPending(reservations) then reservations[|reservations| - 1 := to] else reservations
  }

  predicate Succeeded(r: Request, finalResp: Option<nat>, finalErr: Option<Error>) {
    && finalErr.None? && finalResp.Some?
    && r.env(finalResp.value).response.Some? && r.env(finalResp.value).response.value.status < 400
  }

  /** Whether the body of the response of this attempt exists. */
  predicate BodyPresent(r: Request, attempt: nat) {
    r.env(attempt).response.Some? && r.env(attempt).response.value.hasBody
  }

  /** The return from RoundTrip: the overall context goes to the returned body, or ends. */
  function Close(r: Request, s: State): State {
    s.(pc := AtDone,
       overall := if s.finalResp.Some? && BodyPresent(r, s.finalResp.value) then OwnedByBody else Cancelled)
  }

  /** Leaving the loop. */
  function Leave(r: Request, s: State): State {
    if Succeeded(r, s.finalResp, s.finalErr) then s.(pc := AtCredit) else Close(r, s)
  }

  function GiveBackOrLeave(r: Request, s: State): State {
    if HasPending(s.reservations) then s.(pc := AtGiveBack) else Leave(r, s)
  }

  function StepAttempt(r: Request, s: State): State {
    if s.attempt > MaxRetries(r) then Leave(r, s)
    else match PrepareAttempt(r, s.attempt)
      case Err(e) =>
        GiveBackOrLeave(r, s.(finalResp := None, finalErr := Some(e),
                              requestBodyClosed := s.attempt == 0 && r.hasBody))
      case Ok(sent) =>
        var a := r.env(s.attempt);
        s.(pc := AtJudge,
           sent := s.sent + [sent],
           reservations := Settle(s.reservations, Committed),
           bodies := s.bodies + [Body(BodyPresent(r, s.attempt), 0, 0)],
           contexts := s.contexts + [if a.error.None? && BodyPresent(r, s.attempt) then OwnedByBody else Cancelled],
           finalResp := if a.response.Some? then Some(s.attempt) else None,
           finalErr := a.error)
  }

  function StepJudge(r: Request, s: State): State {
    if s.sent == [] || !ShouldRetry(r, s.attempt, s.sent[|s.sent| - 1]) || WaitOverruns(r, s.attempt) then Leave(r, s)
    else s.(pc := AtReserve)
  }

  function StepReserve(r: Request, s: State, granted: bool): State {
    if !granted then Leave(r, s.(suppressed := true))
    else s.(pc := AtBackoff, reservations := s.reservations + if r.budget.enabled then [Pending] else [])
  }

  /** discardRetryResponse: a present body is drained and closed, which ends its context. */
  function DiscardBodies(bodies: seq<Body>, resp: Option<nat>): seq<Body> {
    if resp.None? || resp.value >= |bodies| || !bodies[resp.value].present then bodies
    else
      var b := bodies[resp.value];
      bodies[resp.value := Body(true, b.drains + 1, b.closes + 1)]
  }

  function DiscardContexts(bodies: seq<Body>, contexts: seq<Ctx>, resp: Option<nat>): seq<Ctx> {
    if resp.None? || resp.value >= |bodies| || resp.value >= |contexts| || !bodies[resp.value].present then contexts
    else contexts[resp.value := Cancelled]
  }

  /** The outcome of an attempt becomes the last one, and its response is discarded. */
  function Discarded(s: State): State {
    s.(bodies := DiscardBodies(s.bodies, s.finalResp),
       contexts := DiscardContexts(s.bodies, s.contexts, s.finalResp),
       finalResp := None, lastResp := s.finalResp, lastErr := s.finalErr)
  }

  function StepBackoff(r: Request, s: State): State {
    var t := Discarded(s);
    var waitError := r.env(s.attempt).waitError;
    if DelayAfter(r, s.attempt) > 0 && waitError.Some? then GiveBackOrLeave(r, t.(finalErr := waitError))
    else t.(pc := AtAttempt, attempt := s.attempt + 1)
  }

  /** One step of a call; `granted` is the answer of the budget, used where it is asked. */
  function Step(r: Request, s: State, granted: bool): State {
    match s.pc
    case AtAttempt => StepAttempt(r, s)
    case AtJudge => StepJudge(r, s)
    case AtReserve => StepReserve(r, s, granted)
    case AtBackoff => StepBackoff(r, s)
    case AtGiveBack => Leave(r, s.(reservations := Settle(s.reservations, Refunded)))
    case AtCredit => Close(r, s)
    case AtDone => s
  }

  /** The state after the steps whose budget answers are listed. */
  function Exec(r: Request, answers: seq<bool>): State {
    if answers == [] then START
    else Step(r, Exec(r, answers[..|answers| - 1]), answers[|answers| - 1])
  }

  /** What RoundTrip returns from its final state. */
  function Outcome(s: State): (Option<nat>, Option<Error>) {
    if s.finalResp.Some? || s.finalErr.Some? then (s.finalResp, s.finalErr) else (s.lastResp, s.lastErr)
  }

  /** RetryCount of the result event. */
  function RetryCount(s: State): nat {
    if |s.sent| == 0 then 0 else |s.sent| - 1
  }

  // ----- invariant -----

  predicate InLoop(pc: Pc) {
    pc.AtJudge? || pc.AtReserve? || pc.AtBackoff?
  }

  predicate Over(pc: Pc) {
    pc.AtCredit? || pc.AtDone?
  }

  /** Where the loop stands. */
  predicate PositionOk(r: Request, s: State) {
    && |s.bodies| == |s.sent| && |s.contexts| == |s.sent|
    && (|s.sent| > 0 ==> |s.sent| - 1 <= MaxRetries(r))
    && (s.pc.AtAttempt? ==>
          s.attempt == |s.sent| && s.finalResp.None? && (s.attempt > 0 ==> s.attempt <= MaxRetries(r)))
    && (InLoop(s.pc) ==> s.attempt + 1 == |s.sent|)
    && (s.pc.AtReserve? || s.pc.AtBackoff? ==> s.attempt < MaxRetries(r))
    && (s.pc.AtGiveBack? ==> s.finalResp.None? && s.finalErr.Some?)
    && (s.pc.AtCredit? ==> Succeeded(r, s.finalResp, s.finalErr))
    && (s.finalResp.Some? ==> s.finalResp.value + 1 == |s.sent| && r.env(s.finalResp.value).response.Some?)
    && (InLoop(s.pc) ==>
          && s.finalErr == r.env(s.attempt).error
          && s.finalResp == if r.env(s.attempt).response.Some? then Some(s.attempt) else None)
    && (Over(s.pc) && s.finalResp.Some? ==> s.finalErr == r.env(s.finalResp.value).error)
  }

  /** Every attempt went out as prepareAttemptRequest made it. */
  predicate SentOk(r: Request, sent: seq<Sent>) {
    forall k :: 0 <= k < |sent| ==> PrepareAttempt(r, k) == Ok(sent[k])
  }

  /** A reservation follows each attempt but perhaps the last; it is committed once the next
      attempt is sent, and otherwise pending during the loop and refunded after it. */
  predicate ReservationsOk(r: Request, s: State) {
    var n := |s.sent|;
    && (!r.budget.enabled ==> s.reservations == [])
    && (r.budget.enabled ==> |s.reservations| <= n <= |s.reservations| + 1)
    && (forall k :: 0 <= k < |s.reservations| ==>
          (k + 1 < n ==> s.reservations[k] == Committed) &&
          (k + 1 >= n ==> s.reservations[k] == if Over(s.pc) then Refunded else Pending))
    && (r.budget.enabled && (s.pc.AtAttempt? || s.pc.AtBackoff? || s.pc.AtGiveBack?) ==> |s.reservations| == n)
    && (s.pc.AtJudge? || s.pc.AtReserve? ==> n > 0 && (r.budget.enabled ==> |s.reservations| == n - 1))
    && (s.pc.AtGiveBack? ==> HasPending(s.reservations))
  }

  /** Every response but the current one has been drained and closed once, and every context
      has ended or belongs to the body of the current response. */
  predicate ResourcesOk(r: Request, bodies: seq<Body>, contexts: seq<Ctx>, finalResp: Option<nat>) {
    && |contexts| == |bodies|
    && (forall k :: 0 <= k < |bodies| ==>
          && bodies[k].present == BodyPresent(r, k)
          && (finalResp != Some(k) ==>
                && contexts[k] == Cancelled
                && (bodies[k].present ==> bodies[k].drains == 1 && bodies[k].closes == 1))
          && (finalResp == Some(k) ==>
                && contexts[k] == (if r.env(k).error.None? && BodyPresent(r, k) then OwnedByBody else Cancelled)
                && bodies[k].drains == 0 && bodies[k].closes == 0))
  }

  /** The conditions under which the transport goes on after attempt `k`. */
  predicate Justified(r: Request, k: nat, sent: Sent) {
    ShouldRetry(r, k, sent) && !WaitOverruns(r, k)
  }

  /** The backoff after attempt `k` was cut short. */
  predicate WaitFailed(r: Request, k: nat) {
    DelayAfter(r, k) > 0 && r.env(k).waitError.Some?
  }

  /** Every retry was justified, and a call that stopped had to. */
  predicate DecisionsOk(r: Request, s: State) {
    var n := |s.sent|;
    && (forall k :: 0 <= k < n - 1 ==> Justified(r, k, s.sent[k]) && !WaitFailed(r, k))
    && (s.pc.AtAttempt? && n > 0 ==> Justified(r, n - 1, s.sent[n - 1]) && !WaitFailed(r, n - 1))
    && (s.pc.AtReserve? || s.pc.AtBackoff? ==> n > 0 && Justified(r, n - 1, s.sent[n - 1]))
    && (s.pc.AtGiveBack? || Over(s.pc) ==>
          if n == 0 then MaxRetries(r) < 0 || PrepareAttempt(r, 0).Err?
          else !Justified(r, n - 1, s.sent[n - 1]) || s.suppressed || WaitFailed(r, n - 1) || PrepareAttempt(r, n).Err?)
    && (s.suppressed ==> Over(s.pc) && n > 0 && Justified(r, n - 1, s.sent[n - 1]))
  }

  predicate Inv(r: Request, s: State) {
    && PositionOk(r, s) && SentOk(r, s.sent) && ReservationsOk(r, s)
    && ResourcesOk(r, s.bodies, s.contexts, s.finalResp) && DecisionsOk(r, s)
  }

  lemma LimitReached(r: Request, s: State)
    requires Inv(r, s) && s.pc.AtAttempt? && s.attempt > MaxRetries(r)
    ensures Inv(r, Leave(r, s))
  {
    hide PrepareAttempt, MaxRetries, Justified, WaitFailed, ResourcesOk, SentOk, BodyPresent;
  }

  lemma AttemptFails(r: Request, s: State, e: Error)
    requires Inv(r, s) && s.pc.AtAttempt? && PrepareAttempt(r, s.attempt) == Err(e)
    ensures
      var t := s.(finalResp := None, finalErr := Some(e), requestBodyClosed := s.attempt == 0 && r.hasBody);
      Inv(r, GiveBackOrLeave(r, t))
  {
    hide PrepareAttempt, MaxRetries, Justified, WaitFailed, ResourcesOk, SentOk, BodyPresent;
  }

  lemma AttemptSent(r: Request, s: State)
    requires Inv(r, s) && s.pc.AtAttempt? && s.attempt <= MaxRetries(r) && PrepareAttempt(r, s.attempt).Ok?
    ensures Inv(r, StepAttempt(r, s))
  {
    hide PrepareAttempt, MaxRetries, Justified, WaitFailed;
  }

  lemma AttemptKeepsInv(r: Request, s: State)
    requires Inv(r, s) && s.pc.AtAttempt?
    ensures Inv(r, StepAttempt(r, s))
  {
    hide Inv, PrepareAttempt, MaxRetries, Leave, GiveBackOrLeave;
    if s.attempt > MaxRetries(r) {
      LimitReached(r, s);
    } else if PrepareAttempt(r, s.attempt).Err? {
      AttemptFails(r, s, PrepareAttempt(r, s.attempt).error);
    } else {
      AttemptSent(r, s);
    }
  }

  lemma RetriesLeft(r: Request, attempt: nat, sent: Sent)
    requires ShouldRetry(r, attempt, sent)
    ensures attempt < MaxRetries(r)
  {
    hide MaxRetries, Overall;
  }

  lemma JudgeStops(r: Request, s: State)
    requires Inv(r, s) && s.pc.AtJudge? && !Justified(r, s.attempt, s.sent[|s.sent| - 1])
    ensures Inv(r, Leave(r, s))
  {
    hide Justified, PrepareAttempt, MaxRetries, WaitFailed, ResourcesOk, SentOk, BodyPresent;
  }

  lemma JudgeGoesOn(r: Request, s: State)
    requires Inv(r, s) && s.pc.AtJudge? && Justified(r, s.attempt, s.sent[|s.sent| - 1])
    ensures Inv(r, s.(pc := AtReserve))
  {
    hide PrepareAttempt, MaxRetries, ShouldRetry, WaitOverruns, WaitFailed, ResourcesOk, SentOk;
    RetriesLeft(r, s.attempt, s.sent[|s.sent| - 1]);
  }

  lemma JudgeKeepsInv(r: Request, s: State)
    requires Inv(r, s) && s.pc.AtJudge?
    ensures Inv(r, StepJudge(r, s))
  {
    assert s.sent != [] by { hide ResourcesOk, SentOk, DecisionsOk; }
    hide Inv, ShouldRetry, WaitOverruns, Leave;
    if Justified(r, s.attempt, s.sent[|s.sent| - 1]) {
      JudgeGoesOn(r, s);
    } else {
      JudgeStops(r, s);
    }
  }

  lemma ReserveKeepsInv(r: Request, s: State, granted: bool)
    requires Inv(r, s) && s.pc.AtReserve?
    ensures Inv(r, StepReserve(r, s, granted))
  {
    hide ResourcesOk, SentOk, BodyPresent, PrepareAttempt, MaxRetries, ShouldRetry, WaitOverruns, DelayAfter;
  }

  /** Discarding the current response settles its resources. */
  lemma DiscardSettles(r: Request, s: State)
    requires ResourcesOk(r, s.bodies, s.contexts, s.finalResp)
    requires s.finalResp.Some? ==> s.finalResp.value < |s.bodies|
    ensures
      var d := Discarded(s);
      && ResourcesOk(r, d.bodies, d.contexts, None)
      && |d.bodies| == |s.bodies| && |d.contexts| == |s.contexts| && d.finalResp.None?
  {
    hide BodyPresent;
  }

  lemma WaitCutShort(r: Request, s: State)
    requires Inv(r, s) && s.pc.AtBackoff? && WaitFailed(r, s.attempt)
    ensures Inv(r, GiveBackOrLeave(r, Discarded(s).(finalErr := r.env(s.attempt).waitError)))
  {
    hide DelayAfter, PrepareAttempt, MaxRetries, Justified, ResourcesOk, SentOk, BodyPresent, DiscardBodies,
      DiscardContexts;
    DiscardSettles(r, s);
  }

  lemma WaitOver(r: Request, s: State)
    requires Inv(r, s) && s.pc.AtBackoff? && !WaitFailed(r, s.attempt)
    ensures Inv(r, Discarded(s).(pc := AtAttempt, attempt := s.attempt + 1))
  {
    hide PrepareAttempt, MaxRetries, Justified, WaitFailed, ResourcesOk, SentOk, BodyPresent, DiscardBodies,
      DiscardContexts;
    DiscardSettles(r, s);
  }

  lemma BackoffKeepsInv(r: Request, s: State)
    requires Inv(r, s) && s.pc.AtBackoff?
    ensures Inv(r, StepBackoff(r, s))
  {
    hide Inv, DelayAfter, Discarded, GiveBackOrLeave;
    if WaitFailed(r, s.attempt) {
      WaitCutShort(r, s);
    } else {
      WaitOver(r, s);
    }
  }

  lemma EndKeepsInv(r: Request, s: State)
    requires Inv(r, s) && (s.pc.AtGiveBack? || s.pc.AtCredit?)
    ensures Inv(r, Step(r, s, false))
  {
    hide ResourcesOk, SentOk, BodyPresent, PrepareAttempt, MaxRetries, ShouldRetry, WaitOverruns, DelayAfter;
  }

  lemma StepKeepsInv(r: Request, s: State, granted: bool)
    requires Inv(r, s)
    ensures Inv(r, Step(r, s, granted))
  {
    hide Inv, StepAttempt, StepJudge, StepReserve, StepBackoff, Leave, Close;
    match s.pc
    case AtAttempt => AttemptKeepsInv(r, s);
    case AtJudge => JudgeKeepsInv(r, s);
    case AtReserve => ReserveKeepsInv(r, s, granted);
    case AtBackoff => BackoffKeepsInv(r, s);
    case AtGiveBack => EndKeepsInv(r, s);
    case AtCredit => EndKeepsInv(r, s);
    case AtDone =>
  }

  lemma {:induction false} ExecInv(r: Request, answers: seq<bool>)
    ensures Inv(r, Exec(r, answers))
  {
    if answers != [] {
      ExecInv(r, answers[..|answers| - 1]);
      StepKeepsInv(r, Exec(r, answers[..|answers| - 1]), answers[|answers| - 1]);
    }
  }

  // ----- termination -----

  function PcRank(pc: Pc): nat {
    match pc
    case AtAttempt => 7
    case AtJudge => 6
    case AtReserve => 5
    case AtBackoff => 4
    case AtGiveBack => 2
    case AtCredit => 1
    case AtDone => 0
  }

  /** An upper bound on the steps a call has left. */
  function Measure(r: Request, s: State): int {
    if s.pc.AtGiveBack? || Over(s.pc) then PcRank(s.pc)
    else (if MaxRetries(r) < 0 then 0 else MaxRetries(r) - s.attempt) * 4 + PcRank(s.pc)
  }

  /** The control flow of one step. */
  predicate Moves(s: State, t: State) {
    || Over(t.pc) || t.pc.AtGiveBack?
    || (s.pc.AtAttempt? && t.pc.AtJudge? && t.attempt == s.attempt)
    || (s.pc.AtJudge? && t.pc.AtReserve? && t.attempt == s.attempt)
    || (s.pc.AtReserve? && t.pc.AtBackoff? && t.attempt == s.attempt)
    || (s.pc.AtBackoff? && t.pc.AtAttempt? && t.attempt == s.attempt + 1)
  }

  lemma StepMoves(r: Request, s: State, granted: bool)
    ensures Moves(s, Step(r, s, granted))
    ensures s.pc.AtGiveBack? ==> Over(Step(r, s, granted).pc)
    ensures s.pc.AtCredit? ==> Step(r, s, granted).pc.AtDone?
  {
    hide PrepareAttempt, MaxRetries, ShouldRetry, WaitOverruns, DelayAfter, Settle, HasPending;
  }

  lemma PositionBounds(r: Request, s: State)
    requires Inv(r, s) && !s.pc.AtGiveBack? && !Over(s.pc)
    ensures s.attempt == 0 || s.attempt <= MaxRetries(r)
    ensures s.pc.AtReserve? || s.pc.AtBackoff? ==> s.attempt < MaxRetries(r)
  {
    hide MaxRetries, SentOk, ReservationsOk, ResourcesOk, DecisionsOk;
  }

  lemma MovesLowerMeasure(r: Request, s: State, t: State)
    requires Moves(s, t) && !s.pc.AtDone? && (s.pc.AtGiveBack? ==> Over(t.pc)) && (Over(s.pc) ==> t.pc.AtDone?)
    requires !s.pc.AtGiveBack? && !Over(s.pc) ==> s.attempt == 0 || s.attempt <= MaxRetries(r)
    requires s.pc.AtReserve? || s.pc.AtBackoff? ==> s.attempt < MaxRetries(r)
    requires !t.pc.AtGiveBack? && !Over(t.pc) ==> t.attempt == 0 || t.attempt <= MaxRetries(r)
    ensures 0 <= Measure(r, t) < Measure(r, s)
  {
    hide MaxRetries;
  }

  lemma StepLowersMeasure(r: Request, s: State, granted: bool)
    requires Inv(r, s) && !s.pc.AtDone?
    ensures Inv(r, Step(r, s, granted))
    ensures 0 <= Measure(r, Step(r, s, granted)) < Measure(r, s)
  {
    hide Inv, MaxRetries, Step, Measure, Moves;
    var t := Step(r, s, granted);
    StepKeepsInv(r, s, granted);
    StepMoves(r, s, granted);
    if !s.pc.AtGiveBack? && !Over(s.pc) {
      PositionBounds(r, s);
    }
    if !t.pc.AtGiveBack? && !Over(t.pc) {
      PositionBounds(r, t);
    }
    MovesLowerMeasure(r, s, t);
  }

  lemma MeasureZero(r: Request, s: State)
    ensures Measure(r, s) == 0 && Inv(r, s) ==> s.pc.AtDone?
  {
    hide MaxRetries, SentOk, ReservationsOk, ResourcesOk, DecisionsOk;
  }

  /** Every call is over after at most four steps per permitted retry and seven more,
      whatever the environment and the budget answer. */
  lemma {:induction false} Terminates(r: Request, answers: seq<bool>)
    ensures
      var retries := if MaxRetries(r) < 0 then 0 else MaxRetries(r);
      |answers| >= 4 * retries + 7 ==> Exec(r, answers).pc.AtDone?
    ensures
      var retries := if MaxRetries(r) < 0 then 0 else MaxRetries(r);
      !Exec(r, answers).pc.AtDone? ==> 0 <= Measure(r, Exec(r, answers)) <= 4 * retries + 7 - |answers|
  {
    if answers != [] {
      var prefix := answers[..|answers| - 1];
      Terminates(r, prefix);
      ExecInv(r, prefix);
      if !Exec(r, prefix).pc.AtDone? {
        StepLowersMeasure(r, Exec(r, prefix), answers[|answers| - 1]);
      }
      ExecInv(r, answers);
      hide Inv, MaxRetries;
      MeasureZero(r, Exec(r, answers));
    }
  }

  // ----- what holds of every finished call -----

  predicate Finished(r: Request, answers: seq<bool>) {
    Exec(r, answers).pc.AtDone?
  }

  /** The wrapped round tripper keeps the contract of http.RoundTripper. */
  ghost predicate ExactlyOneAnswer(r: Request) {
    forall k :: r.env(k).response.Some? != r.env(k).error.Some?
  }

  /** Nothing has happened yet, or ever will. */
  predicate Idle(s: State) {
    && s.sent == [] && s.reservations == [] && s.attempt == 0
    && s.finalResp.None? && s.finalErr.None? && s.lastResp.None? && s.lastErr.None?
    && (s.pc.AtAttempt? || s.pc.AtDone?)
  }

  lemma IdleStep(r: Request, s: State, granted: bool)
    requires Idle(s) && MaxRetries(r) < 0
    ensures Idle(Step(r, s, granted))
  {
    hide MaxRetries, PrepareAttempt, StepJudge, StepReserve, StepBackoff;
  }

  lemma {:induction false} NegativeLimit(r: Request, answers: seq<bool>)
    requires MaxRetries(r) < 0
    ensures Idle(Exec(r, answers))
  {
    hide MaxRetries, Step;
    if answers != [] {
      NegativeLimit(r, answers[..|answers| - 1]);
      IdleStep(r, Exec(r, answers[..|answers| - 1]), answers[|answers| - 1]);
    }
  }

  lemma ResultStep(r: Request, s: State, granted: bool)
    requires ExactlyOneAnswer(r) && MaxRetries(r) >= 0 && Inv(r, s) && Inv(r, Step(r, s, granted))
    requires s.pc.AtJudge? || s.pc.AtReserve? || s.pc.AtBackoff? || s.pc.AtGiveBack? || Over(s.pc) ==>
      s.finalResp.Some? != s.finalErr.Some?
    requires s.pc.AtAttempt? ==> s.finalResp.None? && s.attempt <= MaxRetries(r)
    ensures
      var t := Step(r, s, granted);
      && (t.pc.AtJudge? || t.pc.AtReserve? || t.pc.AtBackoff? || t.pc.AtGiveBack? || Over(t.pc) ==>
            t.finalResp.Some? != t.finalErr.Some?)
      && (t.pc.AtAttempt? ==> t.finalResp.None? && t.attempt <= MaxRetries(r))
  {
    hide PrepareAttempt, MaxRetries, ShouldRetry, WaitOverruns, DelayAfter, Settle, HasPending, SentOk,
      ReservationsOk, ResourcesOk, DecisionsOk, Justified;
  }

  /** With a non-negative limit the loop is left only with something to return. */
  lemma {:induction false} ResultPresent(r: Request, answers: seq<bool>)
    requires ExactlyOneAnswer(r) && MaxRetries(r) >= 0
    ensures
      var s := Exec(r, answers);
      && (s.pc.AtJudge? || s.pc.AtReserve? || s.pc.AtBackoff? || s.pc.AtGiveBack? || Over(s.pc) ==>
            s.finalResp.Some? != s.finalErr.Some?)
      && (s.pc.AtAttempt? ==> s.finalResp.None? && s.attempt <= MaxRetries(r))
  {
    if answers != [] {
      var prefix := answers[..|answers| - 1];
      ResultPresent(r, prefix);
      ExecInv(r, prefix);
      ExecInv(r, answers);
      ResultStep(r, Exec(r, prefix), answers[|answers| - 1]);
    }
  }

  /** A call returns exactly one of response and error if and only if its retry limit is
      not negative. With a negative limit, which only a custom policy resolver without a
      provider can produce, nothing is sent and both results are nil. */
  lemma ExactlyOneResult(r: Request, answers: seq<bool>)
    requires Finished(r, answers) && ExactlyOneAnswer(r)
    ensures
      var (resp, err) := Outcome(Exec(r, answers));
      (resp.Some? != err.Some?) <==> MaxRetries(r) >= 0
    ensures
      var s := Exec(r, answers);
      if MaxRetries(r) < 0 then s.sent == [] && Outcome(s) == (None, None)
      else
        && |s.sent| <= MaxRetries(r) + 1
        && Outcome(s) == (s.finalResp, s.finalErr)
        && (s.finalResp.Some? ==> s.finalResp.value + 1 == |s.sent|)
  {
    var s := Exec(r, answers);
    ExecInv(r, answers);
    hide PrepareAttempt, MaxRetries, ShouldRetry, WaitOverruns, DelayAfter, SentOk, ReservationsOk, ResourcesOk,
      Exec;
    if MaxRetries(r) < 0 {
      NegativeLimit(r, answers);
    } else {
      ResultPresent(r, answers);
    }
  }

  function CountCommitted(reservations: seq<Settlement>): nat {
    if reservations == [] then 0
    else
      CountCommitted(reservations[..|reservations| - 1]) +
        if reservations[|reservations| - 1] == Committed then 1 else 0
  }

  lemma {:induction false} CountOfCommitted(reservations: seq<Settlement>, n: nat)
    requires forall k :: 0 <= k < |reservations| ==> (reservations[k] == Committed <==> k < n)
    ensures CountCommitted(reservations) == if |reservations| < n then |reservations| else n
  {
    if reservations != [] {
      CountOfCommitted(reservations[..|reservations| - 1], n);
    }
  }

  /** At the end of a call no reservation is pending: each was committed, if the attempt it
      was made for went out, or refunded, if not; and with the budget enabled there are as
      many commits as reported retries. */
  lemma ReservationDiscipline(r: Request, answers: seq<bool>)
    requires Finished(r, answers)
    ensures
      var s := Exec(r, answers);
      && (forall k :: 0 <= k < |s.reservations| ==>
            s.reservations[k] == if k + 1 < |s.sent| then Committed else Refunded)
      && CountCommitted(s.reservations) == (if r.budget.enabled then RetryCount(s) else 0)
      && (!r.budget.enabled ==> s.reservations == [])
  {
    var s := Exec(r, answers);
    ExecInv(r, answers);
    hide PositionOk, SentOk, ResourcesOk, DecisionsOk, Exec;
    CountOfCommitted(s.reservations, RetryCount(s));
  }

  /** A settled reservation is never settled again. */
  lemma SettledForGood(r: Request, answers: seq<bool>, granted: bool, k: nat)
    requires k < |Exec(r, answers).reservations| && Exec(r, answers).reservations[k] != Pending
    ensures
      var t := Step(r, Exec(r, answers), granted);
      k < |t.reservations| && t.reservations[k] == Exec(r, answers).reservations[k]
  {
    hide PrepareAttempt, MaxRetries, ShouldRetry, WaitOverruns, DelayAfter, Exec;
  }

  predicate OverallSettled(r: Request, s: State) {
    s.pc.AtDone? ==>
      s.overall == if s.finalResp.Some? && BodyPresent(r, s.finalResp.value) then OwnedByBody else Cancelled
  }

  lemma LeaveSettles(r: Request, s: State)
    ensures OverallSettled(r, Leave(r, s)) && OverallSettled(r, Close(r, s))
  {
    hide BodyPresent, Succeeded;
  }

  lemma NotDoneIsSettled(r: Request, s: State)
    ensures s.pc.AtDone? || OverallSettled(r, s)
  {
  }

  lemma OverallStep(r: Request, s: State, granted: bool)
    requires OverallSettled(r, s)
    ensures OverallSettled(r, Step(r, s, granted))
  {
    hide OverallSettled, Leave, Close, MaxRetries, PrepareAttempt, ShouldRetry, WaitOverruns, DelayAfter,
      HasPending, BodyPresent;
    var t := Step(r, s, granted);
    LeaveSettles(r, s);
    match s.pc
    case AtAttempt =>
      var prepared := PrepareAttempt(r, s.attempt);
      if prepared.Err? {
        LeaveSettles(r,
          s.(finalResp := None, finalErr := Some(prepared.error), requestBodyClosed := s.attempt == 0 && r.hasBody));
      }
      NotDoneIsSettled(r, t);
    case AtJudge => NotDoneIsSettled(r, t);
    case AtReserve =>
      LeaveSettles(r, s.(suppressed := true));
      NotDoneIsSettled(r, t);
    case AtBackoff =>
      LeaveSettles(r, Discarded(s).(finalErr := r.env(s.attempt).waitError));
      NotDoneIsSettled(r, t);
    case AtGiveBack => LeaveSettles(r, s.(reservations := Settle(s.reservations, Refunded)));
    case AtCredit =>
    case AtDone =>
  }

  lemma {:induction false} ClosedOverall(r: Request, answers: seq<bool>)
    ensures OverallSettled(r, Exec(r, answers))
  {
    hide Step;
    if answers != [] {
      ClosedOverall(r, answers[..|answers| - 1]);
      OverallStep(r, Exec(r, answers[..|answers| - 1]), answers[|answers| - 1]);
    }
  }

  /** Nothing leaks: every response body except the returned one was drained and closed
      exactly once and the returned one not at all; every attempt context has ended, except
      that of the returned response, which its body owns; and likewise the overall one. */
  lemma ResourcesConserved(r: Request, answers: seq<bool>)
    requires Finished(r, answers)
    ensures
      var s := Exec(r, answers);
      && |s.bodies| == |s.contexts| == |s.sent|
      && (forall k :: 0 <= k < |s.bodies| ==>
            && s.bodies[k].present == BodyPresent(r, k)
            && (s.bodies[k].present && s.finalResp != Some(k) ==> s.bodies[k] == Body(true, 1, 1))
            && (s.bodies[k].present && s.finalResp == Some(k) ==> s.bodies[k] == Body(true, 0, 0))
            && (s.contexts[k] == OwnedByBody ==> s.finalResp == Some(k) && s.bodies[k].present)
            && s.contexts[k] != Live)
      && s.overall == if s.finalResp.Some? && BodyPresent(r, s.finalResp.value) then OwnedByBody else Cancelled
  {
    ExecInv(r, answers);
    ClosedOverall(r, answers);
    hide Exec, SentOk, ReservationsOk, DecisionsOk, MaxRetries;
  }

  /** A call retried only while its policy, status, error, chain flag, retry limit and
      deadline all allowed it, and it stopped only because one of them forbade it, the
      budget was exhausted, the wait was cut short or the next attempt could not be made. */
  lemma RetriesAreJustified(r: Request, answers: seq<bool>)
    requires Finished(r, answers)
    ensures
      var s := Exec(r, answers);
      var n := |s.sent|;
      && (forall k :: 0 <= k < n - 1 ==> Justified(r, k, s.sent[k]) && !WaitFailed(r, k))
      && (n > 0 ==>
            !Justified(r, n - 1, s.sent[n - 1]) || s.suppressed || WaitFailed(r, n - 1) || PrepareAttempt(r, n).Err?)
      && (s.suppressed ==> n > 0 && Justified(r, n - 1, s.sent[n - 1]))
  {
    ExecInv(r, answers);
    hide Exec, Justified, WaitFailed, PrepareAttempt, SentOk, ReservationsOk, ResourcesOk, PositionOk, MaxRetries;
  }

  /** The earlier of two times, of which the second may not exist. */
  function NoLater(t: int, bound: Option<int>): int {
    if bound.Some? && bound.value < t then bound.value else t
  }

  /** What each attempt carries: it starts before the overall deadline; its context ends with
      the policy's timeout, or two seconds where there is no timeout and no deadline, but never
      after the time that was left or the deadline itself; its header is that deadline, or what
      the caller gave; and the no-more-retry flag is set exactly on the last permitted attempt
      or when the caller was told so. */
  lemma AttemptsRespectChain(r: Request, answers: seq<bool>, k: nat)
    requires k < |Exec(r, answers).sent|
    ensures
      var sent, overall := Exec(r, answers).sent[k], Overall(r);
      && (overall.Some? ==>
            && sent.checkedAt < overall.value && sent.deadline <= overall.value
            && sent.headers.requestDeadline == FormatDeadline(overall.value))
      && (overall.None? ==>
            && sent.headers.requestDeadline == r.headers.requestDeadline
            && ParseDeadline(sent.headers.requestDeadline).None?)
      && (var left := if overall.Some? then Some(overall.value - sent.checkedAt) else None;
          var timeout := if r.policy.perAttemptTimeout > 0 then NoLater(r.policy.perAttemptTimeout, left)
                         else if left.Some? then left.value
                         else 2_000_000_000;
          sent.deadline == NoLater(r.env(k).startedAt + timeout, overall) && sent.checkedAt == r.env(k).checkedAt)
      && (r.policy.perAttemptTimeout > 0 ==> sent.deadline <= r.env(k).startedAt + r.policy.perAttemptTimeout)
      && (ParseBoolHeader(sent.headers.noMoreRetry) <==> k == MaxRetries(r) || NoMoreRetry(r))
  {
    ExecInv(r, answers);
    BoolHeaderRoundTrip(k == MaxRetries(r) || NoMoreRetry(r));
    hide Exec, ReservationsOk, ResourcesOk, PositionOk, DecisionsOk, MaxRetries, NoMoreRetry, ParseBoolHeader,
      FormatBool, FormatDeadline, ParseDeadline;
    assert PrepareAttempt(r, k) == Ok(Exec(r, answers).sent[k]);
  }

  // ----- what a step does to the tokens a call holds -----

  /** The retries a call has used a reservation for, and the one it may still hold. */
  function Tokens(s: State): int {
    RetryCount(s) + if HasPending(s.reservations) then 1 else 0
  }

  predicate DoneWell(r: Request, s: State) {
    s.pc.AtDone? && Succeeded(r, s.finalResp, s.finalErr)
  }

  lemma LeaveKeepsTokens(r: Request, s: State)
    ensures Tokens(Leave(r, s)) == Tokens(s) && Tokens(Close(r, s)) == Tokens(s)
    ensures !DoneWell(r, Leave(r, s))
  {
    hide Succeeded, BodyPresent, HasPending;
  }

  lemma AttemptKeepsTokens(r: Request, s: State)
    requires Inv(r, s) && r.budget.enabled && s.pc.AtAttempt?
    ensures Tokens(StepAttempt(r, s)) == Tokens(s)
  {
    hide PrepareAttempt, MaxRetries, Leave, Close, PositionOk, SentOk, ResourcesOk, DecisionsOk, BodyPresent;
    LeaveKeepsTokens(r, s);
    var prepared := PrepareAttempt(r, s.attempt);
    if prepared.Err? {
      LeaveKeepsTokens(r,
        s.(finalResp := None, finalErr := Some(prepared.error), requestBodyClosed := s.attempt == 0 && r.hasBody));
    }
  }

  /** Tokens move only where the budget is asked: one more when it grants, one less when a
      reservation is given back. */
  lemma StepTokens(r: Request, s: State, granted: bool)
    requires Inv(r, s) && r.budget.enabled && !s.pc.AtDone?
    ensures
      var t := Step(r, s, granted);
      Tokens(t) == Tokens(s) + if s.pc.AtReserve? && granted then 1 else if s.pc.AtGiveBack? then -1 else 0
  {
    hide PrepareAttempt, MaxRetries, ShouldRetry, WaitOverruns, DelayAfter, Leave, Close, PositionOk, SentOk,
      ResourcesOk, DecisionsOk, BodyPresent, StepAttempt, DiscardBodies, DiscardContexts;
    LeaveKeepsTokens(r, s);
    match s.pc
    case AtAttempt =>
      AttemptKeepsTokens(r, s);
      hide Tokens;
    case AtJudge =>
    case AtReserve => LeaveKeepsTokens(r, s.(suppressed := true));
    case AtBackoff => LeaveKeepsTokens(r, Discarded(s).(finalErr := r.env(s.attempt).waitError));
    case AtGiveBack => LeaveKeepsTokens(r, s.(reservations := Settle(s.reservations, Refunded)));
    case AtCredit =>
    case AtDone =>
  }

  /** A call ends well exactly by way of its success credit. */
  lemma StepEndsWell(r: Request, s: State, granted: bool)
    requires Inv(r, s) && !s.pc.AtDone?
    ensures DoneWell(r, Step(r, s, granted)) <==> s.pc.AtCredit?
  {
    hide PrepareAttempt, MaxRetries, ShouldRetry, WaitOverruns, DelayAfter, Leave, SentOk, ReservationsOk,
      ResourcesOk, DecisionsOk, BodyPresent, HasPending, Succeeded;
    LeaveKeepsTokens(r, s);
    match s.pc
    case AtAttempt =>
      var prepared := PrepareAttempt(r, s.attempt);
      if prepared.Err? {
        LeaveKeepsTokens(r,
          s.(finalResp := None, finalErr := Some(prepared.error), requestBodyClosed := s.attempt == 0 && r.hasBody));
      }
    case AtJudge =>
    case AtReserve => LeaveKeepsTokens(r, s.(suppressed := true));
    case AtBackoff => LeaveKeepsTokens(r, Discarded(s).(finalErr := r.env(s.attempt).waitError));
    case AtGiveBack => LeaveKeepsTokens(r, s.(reservations := Settle(s.reservations, Refunded)));
    case AtCredit =>
    case AtDone =>
  }
}
